/** Whole runs of the crossbar: conservation and order of every flow, bounded waiting, and the two
    subnets of LocalInterconnect. */
module CrossbarRuns {
  import opened Wrappers
  import opened Crossbar
  import MemFetch

  datatype Event = Advance | Push(src: nat, out: nat, data: MemFetch.Fetch) | Pop(dev: nat) | Idle

  /** What may happen to a router; devices exist. */
  predicate EventOk(r: Router, e: Event) {
    match e
    case Push(src, out, _) => src < |r.ins| && out < |r.ins|
    case Pop(dev) => dev < |r.outs|
    case _ => true
  }

  /** Push, Pop and Advance, with the packet that a Pop returns. */
  ghost predicate Steps(r: Router, e: Event, r': Router, got: Option<Packet>)
    requires r.Ok() && EventOk(r, e)
  {
    match e
    case Advance => Advances(r, r') && got == None
    case Push(src, out, data) => r' == r.(ins := r.ins[src := r.ins[src] + [Packet(data, src, out)]]) && got == None
    case Pop(dev) =>
      if r.outs[dev] == [] then r' == r && got == None
      else r' == r.(outs := r.outs[dev := r.outs[dev][1..]]) && got == Some(r.outs[dev][0])
    case Idle => r' == r && got == None
  }

  /** Packets wait only at the output they are for. */
  ghost predicate Sorted(r: Router) {
    r.Ok() && forall o, k :: 0 <= o < |r.outs| && 0 <= k < |r.outs[o]| ==> r.outs[o][k].out == o
  }

  lemma StepKeeps(r: Router, e: Event, r': Router, got: Option<Packet>)
    requires Sorted(r) && EventOk(r, e) && Steps(r, e, r', got)
    ensures Sorted(r') && |r'.ins| == |r.ins|
    ensures got.Some? ==> e.Pop? && got.value.out == e.dev
  {
    if e.Advance? {
      AdvanceKeeps(r, r');
    } else if e.Push? {
      forall j, k | 0 <= j < |r'.ins| && 0 <= k < |r'.ins[j]|
        ensures r'.ins[j][k].src == j && r'.ins[j][k].out < |r'.outs|
      {
        if j != e.src || k < |r.ins[j]| { assert r'.ins[j][k] == r.ins[j][k]; }
      }
    } else if e.Pop? {
      forall o, k | 0 <= o < |r'.outs| && 0 <= k < |r'.outs[o]| ensures r'.outs[o][k].out == o {
        if o == e.dev && r.outs[o] != [] { assert r'.outs[o][k] == r.outs[o][k + 1]; }
      }
    }
  }

  lemma AdvanceKeeps(r: Router, r': Router)
    requires Sorted(r) && Advances(r, r')
    ensures Sorted(r')
  {
    AdvanceKeepsOk(r, r');
    forall o, k | 0 <= o < |r'.outs| && 0 <= k < |r'.outs[o]| ensures r'.outs[o][k].out == o {
      WinnerIsFirst(r, o, r.Nodes());
      assert r'.outs[o] == OutAfter(r, o, r.Nodes());
      if k < |r.outs[o]| { assert r'.outs[o][k] == r.outs[o][k]; }
    }
  }

  // ---------------------------------------------------------------- flows

  predicate OfFlow(p: Packet, i: nat, o: nat) { p.src == i && p.out == o }

  /** The packets of a queue that go from i to o, in order. */
  function Flow(q: Queue, i: nat, o: nat): Queue {
    if q == [] then [] else (if OfFlow(q[0], i, o) then [q[0]] else []) + Flow(q[1..], i, o)
  }

  lemma {:induction false} FlowAppend(p: Queue, q: Queue, i: nat, o: nat)
    ensures Flow(p + q, i, o) == Flow(p, i, o) + Flow(q, i, o)
  {
    if p == [] {
      assert p + q == q;
    } else {
      assert (p + q)[1..] == p[1..] + q && (p + q)[0] == p[0];
      FlowAppend(p[1..], q, i, o);
      var head := if OfFlow(p[0], i, o) then [p[0]] else [];
      assert head + Flow(p[1..], i, o) + Flow(q, i, o) == head + (Flow(p[1..], i, o) + Flow(q, i, o));
    }
  }

  function OneFlow(p: Packet, i: nat, o: nat): Queue { if OfFlow(p, i, o) then [p] else [] }

  lemma FlowSnoc(q: Queue, p: Packet, i: nat, o: nat)
    ensures Flow(q + [p], i, o) == Flow(q, i, o) + OneFlow(p, i, o)
  {
    FlowAppend(q, [p], i, o);
    assert [p][1..] == [];
  }

  /** The packets on the way from i to o: those at the output first, then those still at the input. */
  function InFlight(r: Router, i: nat, o: nat): Queue
    requires i < |r.ins| && o < |r.outs|
  {
    Flow(r.outs[o], i, o) + Flow(r.ins[i], i, o)
  }

  /** An Advance moves packets but neither loses nor reorders any flow. */
  lemma AdvanceKeepsFlow(r: Router, r': Router, i: nat, o: nat)
    requires Sorted(r) && Advances(r, r') && i < |r.ins| && o < |r.ins|
    ensures InFlight(r', i, o) == InFlight(r, i, o)
  {
    var n := r.Nodes();
    assert r'.ins[i] == InAfter(r, i, n) && r'.outs[o] == OutAfter(r, o, n);
    WinnerIsFirst(r, o, n);
    var w := Winner(r, o, n);
    if w.Some? {
      var p := r.ins[w.value][0];
      assert p.src == w.value && p.out == o;
      FlowSnoc(r.outs[o], p, i, o);
    }
    if Sends(r, i, n) {
      assert r.ins[i][0].src == i;
      if r.ins[i][0].out == o {
        assert Flow(r.ins[i], i, o) == [r.ins[i][0]] + Flow(r.ins[i][1..], i, o);
      }
    }
  }

  /** What one event adds to and takes from the flow from i to o. */
  function PushedBy(e: Event, i: nat, o: nat): Queue {
    if e.Push? && e.src == i && e.out == o then [Packet(e.data, i, o)] else []
  }

  function PoppedBy(got: Option<Packet>, i: nat, o: nat): Queue { if got.Some? then OneFlow(got.value, i, o) else [] }

  lemma StepBalances(r: Router, e: Event, r': Router, got: Option<Packet>, i: nat, o: nat)
    requires Sorted(r) && EventOk(r, e) && Steps(r, e, r', got) && i < |r.ins| && o < |r.ins|
    ensures |r'.ins| == |r'.outs| == |r.ins|
    ensures InFlight(r, i, o) + PushedBy(e, i, o) == PoppedBy(got, i, o) + InFlight(r', i, o)
  {
    match e {
      case Advance => AdvanceKeepsFlow(r, r', i, o);
      case Push(src, out, data) => FlowSnoc(r.ins[src], Packet(data, src, out), i, o);
      case Pop(dev) =>
        if r.outs[dev] != [] {
          assert r.outs[dev][0].out == dev;
          assert Flow(r.outs[dev], i, o) == OneFlow(r.outs[dev][0], i, o) + Flow(r.outs[dev][1..], i, o);
        }
      case Idle =>
    }
  }

  // ---------------------------------------------------------------- runs

  datatype Run = Run(states: seq<Router>, events: seq<Event>, got: seq<Option<Packet>>)

  ghost predicate StepOf(run: Run, t: nat)
    requires |run.states| == |run.events| + 1 == |run.got| + 1 && t < |run.events|
  {
    && run.states[t].Ok() && EventOk(run.states[t], run.events[t])
    && Steps(run.states[t], run.events[t], run.states[t + 1], run.got[t])
  }

  ghost predicate IsRun(run: Run) {
    && |run.states| == |run.events| + 1 == |run.got| + 1 && Sorted(run.states[0])
    && forall t :: 0 <= t < |run.events| ==> StepOf(run, t)
  }

  lemma {:induction false} RunKeeps(run: Run, t: nat)
    requires IsRun(run) && t <= |run.events|
    ensures Sorted(run.states[t]) && |run.states[t].ins| == |run.states[0].ins|
  {
    if t > 0 {
      RunKeeps(run, t - 1);
      assert StepOf(run, t - 1);
      StepKeeps(run.states[t - 1], run.events[t - 1], run.states[t], run.got[t - 1]);
    }
  }

  /** All packets pushed from i for o in the first t events, and all popped. */
  function AllPushed(run: Run, i: nat, o: nat, t: nat): Queue
    requires t <= |run.events|
  {
    if t == 0 then [] else AllPushed(run, i, o, t - 1) + PushedBy(run.events[t - 1], i, o)
  }

  function AllPopped(run: Run, i: nat, o: nat, t: nat): Queue
    requires t <= |run.got|
  {
    if t == 0 then [] else AllPopped(run, i, o, t - 1) + PoppedBy(run.got[t - 1], i, o)
  }

  lemma Telescope<T>(a: seq<T>, b: seq<T>, c: seq<T>, d: seq<T>, e: seq<T>, f: seq<T>, g: seq<T>)
    requires a + b == c + d && d + e == f + g
    ensures a + (b + e) == c + f + g
  {
    assert a + (b + e) == (a + b) + e;
    assert c + d + e == c + (d + e);
    assert c + (f + g) == c + f + g;
  }

  /** Conservation and order over every run: what was in flight and what was pushed from i for o is
      what was popped, then what is in flight now, in the same order. */
  lemma {:induction false} FlowsAreFifo(run: Run, i: nat, o: nat, t: nat)
    requires IsRun(run) && t <= |run.events| && i < |run.states[0].ins| && o < |run.states[0].ins|
    ensures i < |run.states[t].ins| && o < |run.states[t].outs|
    ensures InFlight(run.states[0], i, o) + AllPushed(run, i, o, t)
            == AllPopped(run, i, o, t) + InFlight(run.states[t], i, o)
  {
    RunKeeps(run, t);
    if t > 0 {
      FlowsAreFifo(run, i, o, t - 1);
      RunKeeps(run, t - 1);
      assert StepOf(run, t - 1);
      StepBalances(run.states[t - 1], run.events[t - 1], run.states[t], run.got[t - 1], i, o);
      Telescope(InFlight(run.states[0], i, o), AllPushed(run, i, o, t - 1), AllPopped(run, i, o, t - 1),
                InFlight(run.states[t - 1], i, o), PushedBy(run.events[t - 1], i, o), PoppedBy(run.got[t - 1], i, o),
                InFlight(run.states[t], i, o));
    }
  }

  /** A packet is popped only by the device it is for. */
  lemma PoppedByItsDevice(run: Run, t: nat)
    requires IsRun(run) && t < |run.events| && run.got[t].Some?
    ensures run.events[t] == Pop(run.got[t].value.out)
  {
    RunKeeps(run, t);
    assert StepOf(run, t);
    StepKeeps(run.states[t], run.events[t], run.states[t + 1], run.got[t]);
  }

  // ---------------------------------------------------------------- bounded waiting

  /** An Advance with room everywhere: if input i is visited first it sends, and otherwise it is
      visited one round earlier next time. */
  lemma TurnComes(r: Router, r': Router, i: nat)
    requires r.Ok() && Advances(r, r') && i < r.Nodes() && r.ins[i] != []
    requires forall o :: 0 <= o < r.Nodes() ==> r.Room(o)
    ensures r'.next < r.Nodes() && (r'.ins[i] == r.ins[i][1..] || r'.ins[i] == r.ins[i])
    ensures r.Rank(i) == 0 ==> r'.ins[i] == r.ins[i][1..]
    ensures r'.Rank(i) == if r.Rank(i) == 0 then r.Nodes() - 1 else r.Rank(i) - 1
  {
    assert r'.ins[i] == InAfter(r, i, r.Nodes());
    if r.Rank(i) == 0 { WinnerIsFirst(r, r.ins[i][0].out, r.Nodes()); }
  }

  /** Advances in the first t events. */
  function AdvanceCount(run: Run, t: nat): nat
    requires t <= |run.events|
  {
    if t == 0 then 0 else AdvanceCount(run, t - 1) + (if run.events[t - 1].Advance? then 1 else 0)
  }

  /** Packets that have left input i in the first t events. */
  ghost function Left(run: Run, i: nat, t: nat): nat
    requires |run.states| == |run.events| + 1 && t <= |run.events|
    requires forall k :: 0 <= k < |run.states| ==> i < |run.states[k].ins|
  {
    if t == 0 then 0
    else Left(run, i, t - 1) + (if |run.states[t].ins[i]| < |run.states[t - 1].ins[i]| then 1 else 0)
  }

  ghost predicate RoomAtAdvances(run: Run)
    requires |run.states| == |run.events| + 1
  {
    forall t :: 0 <= t < |run.events| && run.events[t].Advance? ==>
      forall o :: 0 <= o < |run.states[t].outs| ==> run.states[t].Room(o)
  }

  /** Advances that may still pass before the packet at position p of input i moves. */
  function Patience(r: Router, i: nat, p: nat): nat
    requires i < |r.ins| && r.next < |r.ins|
  {
    p * r.Nodes() + r.Rank(i) + 1
  }

  lemma NextPosition(n: nat, p: nat)
    requires p > 0
    ensures p * n == (p - 1) * n + n
  {
  }

  /** One event brings a waiting packet closer: it keeps its place in the queue or moves up by one,
      and an Advance uses up at least one of the rounds it may have to wait. */
  lemma Closer(r: Router, e: Event, r': Router, got: Option<Packet>, i: nat, p: nat)
    requires r.Ok() && EventOk(r, e) && Steps(r, e, r', got) && i < |r.ins| && p < |r.ins[i]|
    requires e.Advance? ==> forall o :: 0 <= o < r.Nodes() ==> r.Room(o)
    ensures |r'.ins| == |r.ins| && r'.next < |r'.ins|
    ensures |r'.ins[i]| < |r.ins[i]| ==>
              e.Advance? && r'.ins[i] == r.ins[i][1..] && (p > 0 ==> Patience(r', i, p - 1) + 1 <= Patience(r, i, p))
    ensures |r'.ins[i]| >= |r.ins[i]| ==>
              r.ins[i] <= r'.ins[i] && Patience(r', i, p) + (if e.Advance? then 1 else 0) == Patience(r, i, p)
  {
    if e.Advance? {
      TurnComes(r, r', i);
      if p > 0 { NextPosition(r.Nodes(), p); }
    }
  }

  /** The packet at position p of input i is still waiting after t events when fewer than p + 1
      packets have left its input. */
  ghost predicate Waits(run: Run, i: nat, p: nat, t: nat)
    requires |run.states| == |run.events| + 1 && t <= |run.events|
    requires forall k :: 0 <= k < |run.states| ==> i < |run.states[k].ins|
  {
    Left(run, i, t) <= p
  }

  lemma {:induction false} WaitingShrinks(run: Run, i: nat, p: nat, t: nat)
    requires IsRun(run) && RoomAtAdvances(run) && t <= |run.events|
    requires forall k :: 0 <= k < |run.states| ==> i < |run.states[k].ins|
    requires p < |run.states[0].ins[i]| && Waits(run, i, p, t)
    ensures var q := p - Left(run, i, t);
            && run.states[t].Ok() && q < |run.states[t].ins[i]|
            && run.states[t].ins[i][q] == run.states[0].ins[i][p]
            && Patience(run.states[t], i, q) + AdvanceCount(run, t) <= Patience(run.states[0], i, p)
  {
    RunKeeps(run, t);
    if t > 0 {
      WaitingShrinks(run, i, p, t - 1);
      assert StepOf(run, t - 1);
      Closer(run.states[t - 1], run.events[t - 1], run.states[t], run.got[t - 1], i, p - Left(run, i, t - 1));
    }
  }

  lemma RankBound(r: Router, i: nat, p: nat)
    requires i < |r.ins| && r.next < |r.ins|
    ensures 1 <= Patience(r, i, p) <= (p + 1) * r.Nodes()
  {
    NextPosition(r.Nodes(), p + 1);
  }

  /** Bounded waiting: when every output has room at each Advance, the packet at position p of an
      input queue has moved to its output after (p + 1) * total_nodes Advances, whatever else is
      pushed and popped meanwhile. */
  lemma BoundedWaiting(run: Run, i: nat, p: nat, t: nat)
    requires IsRun(run) && RoomAtAdvances(run) && t <= |run.events|
    requires forall k :: 0 <= k < |run.states| ==> i < |run.states[k].ins|
    requires p < |run.states[0].ins[i]|
    requires AdvanceCount(run, t) >= (p + 1) * run.states[0].Nodes()
    ensures Left(run, i, t) > p
  {
    RankBound(run.states[0], i, p);
    if Waits(run, i, p, t) {
      WaitingShrinks(run, i, p, t);
      RankBound(run.states[t], i, p - Left(run, i, t));
    }
  }
}
