/** The xbar_router and LocalInterconnect classes, with the arbitration loop of RR_Advance. */
module XbarRouters {
  import opened Wrappers
  import opened Crossbar
  import MemFetch

  /** Visiting input j in round i changes at most its queue and the output of its head. */
  lemma RoundIn(r: Router, i: nat, j: nat)
    requires r.Ok() && i < r.Nodes() && j < r.Nodes()
    ensures j != r.Node(i) ==> InAfter(r, j, i + 1) == InAfter(r, j, i)
    ensures InAfter(r, r.Node(i), i) == r.ins[r.Node(i)]
    ensures var t := r.Target(r.Node(i));
            InAfter(r, r.Node(i), i + 1)
            == if t.Some? && Winner(r, t.value, i).None? && r.Room(t.value) then r.ins[r.Node(i)][1..]
                else r.ins[r.Node(i)]
  {
    NodeOfRank(r, i);
    if r.ins[j] != [] { WinnerIsFirst(r, r.ins[j][0].out, i); }
    var node := r.Node(i);
    if r.ins[node] != [] { WinnerIsFirst(r, r.ins[node][0].out, i); }
  }

  lemma RoundOut(r: Router, i: nat, o: nat)
    requires r.Ok() && i < r.Nodes() && o < r.Nodes()
    ensures var t := r.Target(r.Node(i));
            OutAfter(r, o, i + 1)
            == if t == Some(o) && Winner(r, o, i).None? && r.Room(o) then r.outs[o] + [r.ins[r.Node(i)][0]]
                else OutAfter(r, o, i)
    ensures Winner(r, o, i).None? ==> OutAfter(r, o, i) == r.outs[o]
  {
  }

  /** Round i leaves every other input, and every output that its head is not for, as it was. */
  lemma RoundLeavesOthers(r: Router, i: nat)
    requires r.Ok() && i < r.Nodes()
    ensures forall j :: 0 <= j < r.Nodes() && j != r.Node(i) ==> InAfter(r, j, i + 1) == InAfter(r, j, i)
    ensures forall o :: 0 <= o < r.Nodes() && r.Target(r.Node(i)) != Some(o) ==>
              OutAfter(r, o, i + 1) == OutAfter(r, o, i) && Winner(r, o, i + 1) == Winner(r, o, i)
  {
    forall j | 0 <= j < r.Nodes() && j != r.Node(i) ensures InAfter(r, j, i + 1) == InAfter(r, j, i) {
      RoundIn(r, i, j);
    }
  }

  /** Is there a head among the first i rounds? */
  ghost predicate Busy(r: Router, i: nat)
    requires r.Ok() && i <= r.Nodes()
  {
    i > 0 && (Busy(r, i - 1) || r.ins[r.Node(i - 1)] != [])
  }

  lemma {:induction false} BusyMeans(r: Router, i: nat)
    requires r.Ok() && i <= r.Nodes()
    ensures Busy(r, i) <==> exists j :: 0 <= j < r.Nodes() && r.Rank(j) < i && r.ins[j] != []
  {
    if i > 0 {
      BusyMeans(r, i - 1);
      NodeOfRank(r, i - 1);
    }
  }

  lemma Wraps(x: nat, n: nat)
    requires x < 2 * n
    ensures x % n == if x < n then x else x - n
  {
    if x >= n { assert x == n * 1 + (x - n); }
  }

  class XbarRouter {
    const inBuffers: array<Queue>
    const outBuffers: array<Queue>
    const inLimit: nat
    const outLimit: nat
    var nextNode: nat
    var conflicts: nat
    var conflictsUtil: nat
    var cycles: nat
    var cyclesUtil: nat

    ghost function View(): Router
      reads this, inBuffers, outBuffers
    {
      Router(inBuffers[..], outBuffers[..], inLimit, outLimit, nextNode, conflicts, conflictsUtil, cycles, cyclesUtil)
    }

    ghost predicate Valid()
      reads this, inBuffers, outBuffers
    {
      inBuffers != outBuffers && View().Ok()
    }

    constructor (nShader: nat, nMem: nat, inLimit: nat, outLimit: nat)
      requires nShader + nMem > 0
      ensures Valid() && fresh(inBuffers) && fresh(outBuffers)
      ensures inBuffers.Length == nShader + nMem && this.inLimit == inLimit && this.outLimit == outLimit
      ensures forall j :: 0 <= j < inBuffers.Length ==> inBuffers[j] == [] == outBuffers[j]
    {
      inBuffers := new Queue[nShader + nMem](_ => []);
      outBuffers := new Queue[nShader + nMem](_ => []);
      this.inLimit, this.outLimit := inLimit, outLimit;
      nextNode, conflicts, conflictsUtil, cycles, cyclesUtil := 0, 0, 0, 0, 0;
    }

    method Push(input: nat, output: nat, data: MemFetch.Fetch)
      requires Valid() && input < inBuffers.Length && output < inBuffers.Length
      modifies inBuffers
      ensures Valid()
      ensures var ins := old(View()).ins;
              View() == old(View()).(ins := ins[input := ins[input] + [Packet(data, input, output)]])
    {
      inBuffers[input] := inBuffers[input] + [Packet(data, input, output)];
    }

    method Pop(output: nat) returns (p: Option<Packet>)
      requires Valid() && output < outBuffers.Length
      modifies outBuffers
      ensures Valid() && View().ins == old(View()).ins
      ensures var q := old(View()).outs[output];
              if q == [] then p == None && View() == old(View())
              else p == Some(q[0]) && View() == old(View()).(outs := old(View()).outs[output := q[1..]])
    {
      p := None;
      if outBuffers[output] != [] {
        p := Some(outBuffers[output][0]);
        outBuffers[output] := outBuffers[output][1..];
      }
    }

    predicate HasBufferIn(input: nat, size: nat)
      requires input < inBuffers.Length
      reads inBuffers
    {
      |inBuffers[input]| + size <= inLimit
    }

    predicate HasBufferOut(output: nat, size: nat)
      requires output < outBuffers.Length
      reads outBuffers
    {
      |outBuffers[output]| + size <= outLimit
    }

    /** The buffers after the first i rounds of an Advance that started in r. */
    ghost predicate Halfway(r: Router, i: nat, issued: seq<bool>)
      requires r.Ok() && i <= r.Nodes()
      reads this, inBuffers, outBuffers
    {
      && inBuffers.Length == outBuffers.Length == r.Nodes() == |issued|
      && (forall j :: 0 <= j < r.Nodes() ==> inBuffers[j] == InAfter(r, j, i))
      && (forall o :: 0 <= o < r.Nodes() ==> outBuffers[o] == OutAfter(r, o, i))
      && (forall o :: 0 <= o < r.Nodes() ==> issued[o] == Winner(r, o, i).Some?)
      && nextNode == r.next && conflicts == r.conflicts && conflictsUtil == r.conflictsUtil
      && cycles == r.cycles && cyclesUtil == r.cyclesUtil && inLimit == r.inLimit && outLimit == r.outLimit
    }

    /** A round in which the visited input sends nothing. */
    lemma QuietRound(r: Router, i: nat, issued: seq<bool>)
      requires r.Ok() && i < r.Nodes() && Halfway(r, i, issued)
      requires var t := r.Target(r.Node(i)); t.None? || Winner(r, t.value, i).Some? || !r.Room(t.value)
      ensures Halfway(r, i + 1, issued)
    {
      var t := r.Target(r.Node(i));
      RoundLeavesOthers(r, i);
      RoundIn(r, i, r.Node(i));
      if t.Some? { RoundOut(r, i, t.value); }
    }

    /** A round in which the visited input sends its head. */
    method Grant(i: nat, node: nat, issued: array<bool>, ghost r: Router)
      requires r.Ok() && i < r.Nodes() && inBuffers != outBuffers && issued.Length == r.Nodes()
      requires Halfway(r, i, issued[..])
      requires node == r.Node(i) && r.ins[node] != [] && Winner(r, r.ins[node][0].out, i).None?
      requires r.Room(r.ins[node][0].out)
      modifies inBuffers, outBuffers, issued
      ensures Halfway(r, i + 1, issued[..])
    {
      RoundLeavesOthers(r, i);
      RoundIn(r, i, node);
      RoundOut(r, i, r.ins[node][0].out);
      var packet := inBuffers[node][0];
      outBuffers[packet.out] := outBuffers[packet.out] + [packet];
      inBuffers[node] := inBuffers[node][1..];
      issued[packet.out] := true;
    }

    /** Round i: the head of one input, if there is one, is sent, conflicts or waits for room. */
    method Round(i: nat, issued: array<bool>, ghost r: Router) returns (busy: bool, conflict: nat)
      requires r.Ok() && i < r.Nodes() && inBuffers != outBuffers && issued.Length == r.Nodes()
      requires Halfway(r, i, issued[..])
      modifies inBuffers, outBuffers, issued
      ensures Halfway(r, i + 1, issued[..])
      ensures busy <==> r.ins[r.Node(i)] != []
      ensures Conflicts(r, i) + conflict == Conflicts(r, i + 1)
    {
      var node := (i + nextNode) % inBuffers.Length;
      Wraps(i + nextNode, inBuffers.Length);
      RoundIn(r, i, node);
      busy, conflict := inBuffers[node] != [], 0;
      if busy {
        var output := inBuffers[node][0].out;
        RoundOut(r, i, output);
        if HasBufferOut(output, 1) {
          if !issued[output] {
            Grant(i, node, issued, r);
            return;
          } else {
            conflict := 1;
          }
        } else if issued[output] {
          conflict := 1;
        }
      }
      QuietRound(r, i, issued[..]);
    }

    method StartIssued(ghost r: Router) returns (issued: array<bool>)
      requires Valid() && r == View()
      ensures fresh(issued) && issued.Length == r.Nodes() && Halfway(r, 0, issued[..])
    {
      issued := new bool[inBuffers.Length](_ => false);
    }

    /** The arbitration loop. */
    method Arbitrate(ghost r: Router) returns (active: bool, conflictSub: nat)
      requires Valid() && r == View()
      modifies inBuffers, outBuffers
      ensures exists issued :: Halfway(r, r.Nodes(), issued)
      ensures conflictSub == Conflicts(r, r.Nodes())
      ensures active == Busy(r, r.Nodes())
    {
      var n := inBuffers.Length;
      active, conflictSub := false, 0;
      var issued := StartIssued(r);
      var i := 0;
      while i < n
        invariant i <= n && Halfway(r, i, issued[..])
        invariant conflictSub == Conflicts(r, i)
        invariant active == Busy(r, i)
      {
        var busy, conflict := Round(i, issued, r);
        active := active || busy;
        conflictSub := conflictSub + conflict;
        i := i + 1;
      }
    }

    /** RR_Advance */
    method RRAdvance()
      requires Valid()
      modifies this, inBuffers, outBuffers
      ensures Valid() && Advances(old(View()), View())
    {
      ghost var r := View();
      var active, conflictSub := Arbitrate(r);
      BusyMeans(r, r.Nodes());
      nextNode := (nextNode + 1) % inBuffers.Length;
      Wraps(r.next + 1, r.Nodes());
      conflicts := conflicts + conflictSub;
      if active {
        conflictsUtil := conflictsUtil + conflictSub;
        cyclesUtil := cyclesUtil + 1;
      }
      cycles := cycles + 1;
      AdvanceKeepsOk(r, View());
    }
  }
}
