/** xbar_router: input-buffered crossbar with round-robin arbitration.  The functions give an Advance
    as one simultaneous step; the class runs the source's loop and is proved equal to it. */
module Crossbar {
  import opened Wrappers
  import MemFetch

  /** A packet: its payload, the device that pushed it and the device it is for. */
  datatype Packet = Packet(data: MemFetch.Fetch, src: nat, out: nat)

  type Queue = seq<Packet>

  datatype Router = Router(ins: seq<Queue>, outs: seq<Queue>, inLimit: nat, outLimit: nat, next: nat,
                           conflicts: nat, conflictsUtil: nat, cycles: nat, cyclesUtil: nat)
  {
    function Nodes(): nat { |ins| }

    /** As many outputs as inputs, the pointer in range, and every packet for an existing device. */
    ghost predicate Ok() {
      && |ins| == |outs| && next < |ins|
      && forall j, k :: 0 <= j < |ins| && 0 <= k < |ins[j]| ==> ins[j][k].src == j && ins[j][k].out < |outs|
    }

    /** The output that the head of input j is for. */
    function Target(j: nat): Option<nat>
      requires j < |ins|
    {
      if ins[j] == [] then None else Some(ins[j][0].out)
    }

    predicate Room(o: nat)
      requires o < |outs|
    {
      |outs[o]| + 1 <= outLimit
    }

    /** The input visited in round k of the arbitration. */
    function Node(k: nat): (j: nat)
      requires k < |ins| && next < |ins|
      ensures j < |ins|
    {
      if k + next < |ins| then k + next else k + next - |ins|
    }

    /** The round in which input j is visited. */
    function Rank(j: nat): (k: nat)
      requires j < |ins| && next < |ins|
      ensures k < |ins| && Node(k) == j
    {
      if j >= next then j - next else j + |ins| - next
    }
  }

  /** Round-robin winner for output o among the first i rounds: the first input whose head is for o,
      when o has room. */
  ghost function Winner(r: Router, o: nat, i: nat): (w: Option<nat>)
    requires r.Ok() && o < r.Nodes() && i <= r.Nodes()
    ensures w.Some? ==> w.value < r.Nodes()
  {
    if i == 0 then None
    else if Winner(r, o, i - 1).Some? then Winner(r, o, i - 1)
    else if r.Room(o) && r.Target(r.Node(i - 1)) == Some(o) then Some(r.Node(i - 1))
    else None
  }

  /** Does input j send its head in the first i rounds? */
  ghost predicate Sends(r: Router, j: nat, i: nat)
    requires r.Ok() && j < r.Nodes() && i <= r.Nodes()
  {
    r.ins[j] != [] && Winner(r, r.ins[j][0].out, i) == Some(j)
  }

  ghost function InAfter(r: Router, j: nat, i: nat): Queue
    requires r.Ok() && j < r.Nodes() && i <= r.Nodes()
  {
    if Sends(r, j, i) then r.ins[j][1..] else r.ins[j]
  }

  ghost function OutAfter(r: Router, o: nat, i: nat): Queue
    requires r.Ok() && o < r.Nodes() && i <= r.Nodes()
  {
    var w := Winner(r, o, i);
    if w.Some? && r.ins[w.value] != [] then r.outs[o] + [r.ins[w.value][0]] else r.outs[o]
  }

  /** Heads among the first i rounds that lost their output to an earlier one. */
  ghost function Conflicts(r: Router, i: nat): nat
    requires r.Ok() && i <= r.Nodes()
  {
    if i == 0 then 0
    else
      var t := r.Target(r.Node(i - 1));
      Conflicts(r, i - 1) + (if t.Some? && Winner(r, t.value, i - 1).Some? then 1 else 0)
  }

  /** One Advance: every output with room takes the head of its winner. */
  ghost predicate Advances(r: Router, r': Router)
    requires r.Ok()
  {
    var n := r.Nodes();
    && |r'.ins| == |r'.outs| == n
    && (forall j :: 0 <= j < n ==> r'.ins[j] == InAfter(r, j, n))
    && (forall o :: 0 <= o < n ==> r'.outs[o] == OutAfter(r, o, n))
    && r'.inLimit == r.inLimit && r'.outLimit == r.outLimit
    && r'.next == (if r.next + 1 == n then 0 else r.next + 1)
    && r'.conflicts == r.conflicts + Conflicts(r, n)
    && r'.cycles == r.cycles + 1
    && (if exists j :: 0 <= j < n && r.ins[j] != [] then
          r'.conflictsUtil == r.conflictsUtil + Conflicts(r, n) && r'.cyclesUtil == r.cyclesUtil + 1
        else r'.conflictsUtil == r.conflictsUtil && r'.cyclesUtil == r.cyclesUtil)
  }

  // ---------------------------------------------------------------- what the winner is

  /** The winner of an output: it has room, the winner's head is for it, and no input visited
      earlier has a head for it.  And every output with room and such a head has a winner. */
  lemma {:induction false} WinnerIsFirst(r: Router, o: nat, i: nat)
    requires r.Ok() && o < r.Nodes() && i <= r.Nodes()
    ensures var w := Winner(r, o, i);
            && (w.Some? ==>
                  && r.Room(o) && r.Target(w.value) == Some(o) && r.Rank(w.value) < i
                  && forall j :: 0 <= j < r.Nodes() && r.Rank(j) < r.Rank(w.value) ==> r.Target(j) != Some(o))
            && (w.None? ==> !r.Room(o) || forall j :: 0 <= j < r.Nodes() && r.Rank(j) < i ==> r.Target(j) != Some(o))
  {
    if i > 0 { WinnerIsFirst(r, o, i - 1); }
  }

  /** The inputs are visited upwards from the pointer and around the end: input j is visited in round k if
      and only if k steps from the pointer lead to it. */
  lemma VisitsInOrder(r: Router, j: nat, k: nat)
    requires r.next < |r.ins| && j < |r.ins| && k < |r.ins|
    ensures r.Rank(j) == k <==> r.next + k == j || r.next + k == j + |r.ins|
  {
  }

  /** An Advance, seen from outside: output o receives a packet if and only if it had room and some
      head was for it, and the one it receives comes from the first such input in round-robin order. */
  lemma OutputReceivesIff(r: Router, r': Router, o: nat)
    requires r.Ok() && Advances(r, r') && o < r.Nodes()
    ensures r'.outs[o] != r.outs[o] <==> r.Room(o) && exists j :: 0 <= j < r.Nodes() && r.Target(j) == Some(o)
    ensures r'.outs[o] != r.outs[o] ==>
              exists j :: 0 <= j < r.Nodes() && r.Target(j) == Some(o) && r'.outs[o] == r.outs[o] + [r.ins[j][0]]
                          && r'.ins[j] == r.ins[j][1..]
                          && forall k :: 0 <= k < r.Nodes() && r.Rank(k) < r.Rank(j) ==> r.Target(k) != Some(o)
  {
    WinnerIsFirst(r, o, r.Nodes());
    var w := Winner(r, o, r.Nodes());
    if w.Some? {
      assert Sends(r, w.value, r.Nodes());
      assert |r'.outs[o]| == |r.outs[o]| + 1;
    }
  }

  /** No output ever exceeds its limit. */
  lemma OutputsStayBounded(r: Router, r': Router)
    requires r.Ok() && Advances(r, r')
    requires forall o :: 0 <= o < r.Nodes() ==> |r.outs[o]| <= r.outLimit
    ensures forall o :: 0 <= o < r.Nodes() ==> |r'.outs[o]| <= r'.outLimit
  {
    forall o | 0 <= o < r.Nodes() ensures |r'.outs[o]| <= r'.outLimit {
      WinnerIsFirst(r, o, r.Nodes());
    }
  }

  lemma AdvanceKeepsOk(r: Router, r': Router)
    requires r.Ok() && Advances(r, r')
    ensures r'.Ok()
  {
    forall j, k | 0 <= j < |r'.ins| && 0 <= k < |r'.ins[j]|
      ensures r'.ins[j][k].src == j && r'.ins[j][k].out < |r'.outs|
    {
      assert r'.ins[j] == InAfter(r, j, r.Nodes());
      if r'.ins[j] == r.ins[j] { assert r.ins[j][k].src == j; } else { assert r'.ins[j][k] == r.ins[j][k + 1]; }
    }
  }

  // ---------------------------------------------------------------- conflict accounting

  /** Is output o granted in this Advance? */
  ghost predicate Granted(r: Router, o: nat)
    requires r.Ok() && o < r.Nodes()
  {
    Winner(r, o, r.Nodes()).Some?
  }

  /** Heads among the first i rounds that are for an output granted in this Advance. */
  ghost function HeadsForGranted(r: Router, i: nat): nat
    requires r.Ok() && i <= r.Nodes()
  {
    if i == 0 then 0
    else
      var t := r.Target(r.Node(i - 1));
      HeadsForGranted(r, i - 1) + (if t.Some? && Granted(r, t.value) then 1 else 0)
  }

  /** Inputs among the first i rounds that send. */
  ghost function Grants(r: Router, i: nat): nat
    requires r.Ok() && i <= r.Nodes()
  {
    if i == 0 then 0 else Grants(r, i - 1) + (if Sends(r, r.Node(i - 1), r.Nodes()) then 1 else 0)
  }

  lemma {:induction false} WinnerStays(r: Router, o: nat, i: nat, k: nat)
    requires r.Ok() && o < r.Nodes() && i <= k <= r.Nodes() && Winner(r, o, i).Some?
    ensures Winner(r, o, k) == Winner(r, o, i)
    decreases k
  {
    if i < k { WinnerStays(r, o, i, k - 1); }
  }

  lemma NodeOfRank(r: Router, k: nat)
    requires k < |r.ins| && r.next < |r.ins|
    ensures r.Rank(r.Node(k)) == k
  {
  }

  /** In round i-1 a head for a granted output either sends or is a conflict, never both. */
  lemma RoundCounts(r: Router, i: nat)
    requires r.Ok() && 0 < i <= r.Nodes() && r.Target(r.Node(i - 1)).Some?
    ensures var t := r.Target(r.Node(i - 1)).value;
            && (Winner(r, t, i - 1).Some? ==> Granted(r, t) && !Sends(r, r.Node(i - 1), r.Nodes()))
            && (Winner(r, t, i - 1).None? ==> (Granted(r, t) <==> Sends(r, r.Node(i - 1), r.Nodes())))
  {
    var j := r.Node(i - 1);
    var t := r.Target(j).value;
    NodeOfRank(r, i - 1);
    WinnerIsFirst(r, t, i - 1);
    if Winner(r, t, i).Some? { WinnerStays(r, t, i, r.Nodes()); }
    if Winner(r, t, i - 1).Some? { WinnerStays(r, t, i - 1, r.Nodes()); }
    WinnerIsFirst(r, t, r.Nodes());
  }

  lemma {:induction false} ConflictsUpTo(r: Router, i: nat)
    requires r.Ok() && i <= r.Nodes()
    ensures HeadsForGranted(r, i) == Grants(r, i) + Conflicts(r, i)
  {
    if i > 0 {
      ConflictsUpTo(r, i - 1);
      if r.Target(r.Node(i - 1)).Some? { RoundCounts(r, i); }
    }
  }

  /** The conflict counter grows by exactly the heads for granted outputs minus the grants. */
  lemma ConflictsExact(r: Router, r': Router)
    requires r.Ok() && Advances(r, r')
    ensures r'.conflicts - r.conflicts == HeadsForGranted(r, r.Nodes()) - Grants(r, r.Nodes())
  {
    ConflictsUpTo(r, r.Nodes());
  }
}
