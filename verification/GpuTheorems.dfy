/** What holds in every run of the GPU: no SM fails, every packet that an SM pops is one that it waits
    for, every request is in exactly one place, and a finished SM has left nothing behind. */
module GpuTheorems {
  import opened Wrappers
  import opened MemFetch
  import opened Crossbar
  import opened Dram
  import opened DramInv
  import opened L2Cache
  import opened GpuPackets
  import opened GpuMemory
  import opened Gpu
  import opened GpuSteps
  import opened GpuSmSteps
  import opened GpuRuns
  import Dispatch
  import Sm
  import SmBlocks
  import SmInv
  import SmRuns
  import TagStore
  import Words

  // ---------------------------------------------------------------- runs

  /** A run: the states between events. */
  datatype Trace = Trace(states: seq<GpuState>, events: seq<Event>) {
    ghost predicate Valid() { |states| == |events| + 1 }

    function Last(): GpuState
      requires |states| > 0
    {
      states[|states| - 1]
    }
  }

  ghost predicate StepAt(cfg: GpuConfig, tr: Trace, t: nat)
    requires tr.Valid() && t < |tr.events|
  {
    && cfg.Ok() && Assembled(cfg, tr.states[t]) && Exists(cfg, tr.events[t])
    && Steps(cfg, tr.states[t], tr.events[t], tr.states[t + 1])
  }

  /** From the state after the initial spawn, event by event. */
  ghost predicate IsGpuRun(cfg: GpuConfig, owner: Dispatch.Owners, tr: Trace) {
    tr.Valid() && FreshGpu(cfg, tr.states[0], owner) && forall t :: 0 <= t < |tr.events| ==> StepAt(cfg, tr, t)
  }

  lemma RunIsValid(cfg: GpuConfig, owner: Dispatch.Owners, tr: Trace)
    requires IsGpuRun(cfg, owner, tr)
    ensures tr.Valid()
  {
    hide FreshGpu, StepAt;
  }

  /** How often e is among the first n events. */
  function CountOf(events: seq<Event>, e: Event, n: nat): nat
    requires n <= |events|
  {
    if n == 0 then 0 else CountOf(events, e, n - 1) + (if events[n - 1] == e then 1 else 0)
  }

  /** No component has 2^31 - 1 turns or more: the counters of the source are 32 bits wide. */
  ghost predicate Short(events: seq<Event>) { forall e :: CountOf(events, e, |events|) < Sm.INT_MAX }

  lemma {:induction false} CountGrows(events: seq<Event>, e: Event, n: nat, m: nat)
    requires n <= m <= |events|
    ensures CountOf(events, e, n) <= CountOf(events, e, m)
    decreases m
  {
    if n < m { CountGrows(events, e, n, m - 1); }
  }

  ghost predicate ClocksCount(tr: Trace, n: nat)
    requires tr.Valid() && n <= |tr.events|
  {
    forall e :: Clock(tr.states[n], e) <= CountOf(tr.events, e, n)
  }

  lemma IsInTime(tr: Trace, n: nat)
    requires tr.Valid() && n < |tr.events| && Short(tr.events) && ClocksCount(tr, n)
    ensures InTime(tr.states[n], tr.events[n])
  {
    var e := tr.events[n];
    CountGrows(tr.events, e, n + 1, |tr.events|);
    hide Clock;
  }

  lemma ClocksGoOn(tr: Trace, n: nat)
    requires tr.Valid() && n < |tr.events| && ClocksCount(tr, n) && Ticks(tr.states[n], tr.events[n], tr.states[n + 1])
    ensures ClocksCount(tr, n + 1)
  {
    hide Clock;
  }

  lemma FirstClocks(cfg: GpuConfig, owner: Dispatch.Owners, tr: Trace)
    requires IsGpuRun(cfg, owner, tr)
    ensures ClocksCount(tr, 0)
  {
    hide Clock, FreshGpu;
    forall e ensures Clock(tr.states[0], e) <= CountOf(tr.events, e, 0) { FreshClocks(cfg, tr.states[0], owner, e); }
  }

  /** Every state of a run satisfies the invariant. */
  lemma {:induction false} RunKeeps(cfg: GpuConfig, owner: Dispatch.Owners, tr: Trace, n: nat)
    requires IsGpuRun(cfg, owner, tr) && Short(tr.events) && n <= |tr.events|
    ensures GpuInv(cfg, tr.states[n]) && ClocksCount(tr, n)
  {
    hide GpuInv, ClocksCount, FreshGpu, Steps, Assembled, Short;
    if n == 0 {
      FreshSettles(cfg, tr.states[0], owner);
      FirstClocks(cfg, owner, tr);
    } else {
      RunKeeps(cfg, owner, tr, n - 1);
      assert StepAt(cfg, tr, n - 1);
      IsInTime(tr, n - 1);
      StepKeepsInv(cfg, tr.states[n - 1], tr.events[n - 1], tr.states[n]);
      ClocksGoOn(tr, n - 1);
    }
  }

  // ---------------------------------------------------------------- nothing fails but the overflow

  /** Every slice of channel c with a miss has room for it in its queue to the channel. */
  ghost predicate Roomy(cfg: GpuConfig, s: GpuState, c: nat)
    requires Assembled(cfg, s) && c < |cfg.drams|
  {
    var a := Arrivals(cfg, s, c);
    && SliceTurn(cfg.l2, cfg.drams[c], s.parts[c], 0, a).Ok? && SliceTurn(cfg.l2, cfg.drams[c], s.parts[c], 1, a).Ok?
    && HasRoom(cfg.drams[c], s.parts[c].chan, Misses(cfg.l2, cfg.drams[c], s.parts[c], a))
  }

  lemma MemoryOkIff(cfg: GpuConfig, s: GpuState, c: nat)
    requires GpuInv(cfg, s) && c < |cfg.drams| && InTime(s, MemoryCycle(c))
    ensures Assembled(cfg, s)
    ensures MemoryStep(cfg, s, c).Ok? <==> Roomy(cfg, s, c)
    ensures MemoryStep(cfg, s, c).Err? ==> MemoryStep(cfg, s, c) == Err(InMemory(InChannel(QueueOverflow)))
  {
    hide GpuInv, PartitionInv, ArrivalsOk, HasRoom, SliceTurn, Misses, PartitionCycle, AfterMemory, Arrivals, SmsOk,
         PartsOk, NetsOk,
         NoStrays, AllBalanced, NetOk, After;
    Parts(cfg, s);
    PartOf(cfg, s, c);
    ArrivalsAimed(cfg, s, c);
    PartitionOkIff(cfg.Layout(), cfg.l2, cfg.drams[c], s.parts[c], Arrivals(cfg, s, c));
  }

  lemma SmOkAlways(cfg: GpuConfig, s: GpuState, i: nat)
    requires GpuInv(cfg, s) && i < |cfg.sms| && InTime(s, SmCycle(i))
    ensures Assembled(cfg, s) && |cfg.drams| > 0 && SmStep(cfg, s, i).Ok?
  {
    hide GpuInv, SmInv.Inv, Sm.Cycle, Active, AfterSm, InputOf, SmsOk, PartsOk, NetsOk, NoStrays, AllBalanced, NetOk;
    Parts(cfg, s);
    ReplyIsKnown(cfg, s, i);
    var x := SmKeeps(cfg, s, i);
  }

  /** The state after an Advance. */
  ghost function Advanced(r: Router): Router
    requires r.Ok()
  {
    var n := r.Nodes();
    var busy := exists j :: 0 <= j < n && r.ins[j] != [];
    Router(seq(n, j requires 0 <= j < n => InAfter(r, j, n)), seq(n, o requires 0 <= o < n => OutAfter(r, o, n)),
           r.inLimit, r.outLimit, if r.next + 1 == n then 0 else r.next + 1, r.conflicts + Conflicts(r, n),
           r.conflictsUtil + (if busy then Conflicts(r, n) else 0), r.cycles + 1,
           r.cyclesUtil + (if busy then 1 else 0))
  }

  lemma AdvanceExists(r: Router)
    requires r.Ok()
    ensures Advances(r, Advanced(r))
  {
  }

  lemma NetIsOk(g: Layout, net: Net, r: Router)
    requires g.channels > 0 && NetOk(g, net, r)
    ensures r.Ok()
  {
  }

  /** In every state of a run every SM can have its turn and the subnets can advance; the turn of a
      channel fails if and only if a slice's queue to it overflows. */
  lemma OnlyOverflowFails(cfg: GpuConfig, owner: Dispatch.Owners, tr: Trace, n: nat, e: Event)
    requires IsGpuRun(cfg, owner, tr) && Short(tr.events) && n <= |tr.events|
    requires Exists(cfg, e) && CountOf(tr.events, e, n) + 1 < Sm.INT_MAX
    ensures cfg.Ok() && Assembled(cfg, tr.states[n])
    ensures (exists s' :: Steps(cfg, tr.states[n], e, s')) <==> (e.MemoryCycle? ==> Roomy(cfg, tr.states[n], e.channel))
    ensures e.MemoryCycle? && !Roomy(cfg, tr.states[n], e.channel) ==>
              MemoryStep(cfg, tr.states[n], e.channel) == Err(InMemory(InChannel(QueueOverflow)))
  {
    var s := tr.states[n];
    hide GpuInv, IsGpuRun, Assembled, Roomy, MemoryStep, SmStep, Advances, NetOk, Clock;
    RunKeeps(cfg, owner, tr, n);
    Parts(cfg, s);
    match e {
      case MemoryCycle(c) =>
        MemoryOkIff(cfg, s, c);
        if Roomy(cfg, s, c) { assert Steps(cfg, s, e, MemoryStep(cfg, s, c).value); }
      case SmCycle(i) =>
        SmOkAlways(cfg, s, i);
        assert Steps(cfg, s, e, SmStep(cfg, s, i).value);
      case AdvanceNets =>
        NetIsOk(cfg.Layout(), Requests, s.requests);
        NetIsOk(cfg.Layout(), Replies, s.replies);
        AdvanceExists(s.requests);
        AdvanceExists(s.replies);
        assert Steps(cfg, s, e, s.(requests := Advanced(s.requests), replies := Advanced(s.replies)));
    }
  }

  // ---------------------------------------------------------------- when there is room

  /** No queue from a slice to its channel is longer than the channel's clock. */
  ghost predicate QueuesShort(cfg: GpuConfig, s: GpuState)
    requires Assembled(cfg, s)
  {
    forall c, k :: 0 <= c < |s.parts| && 0 <= k < SLICES ==> QueueShort(s.parts[c], k)
  }

  predicate QueueShort(p: Partition, k: nat)
    requires k < SLICES == |p.chan.slices|
  {
    |p.chan.slices[k].toDram.cells| <= p.Now()
  }

  lemma SteppedShort(dcfg: DramConfig, c: Channel, log: Log, misses: seq<Option<Fetch>>, k: nat)
    requires SlicesOk(dcfg, c) && |misses| == SLICES && k < SLICES && |c.slices[k].toDram.cells| <= |log|
    ensures |Stepped(dcfg, c, log, misses).slices| == SLICES
    ensures |Stepped(dcfg, c, log, misses).slices[k].toDram.cells| <= |log| + 1
  {
    SliceGrows(c.slices[k], Took(dcfg, c, k), misses[k]);
  }

  lemma TurnStaysShort(cfg: GpuConfig, s: GpuState, c: nat, t: Turn, k: nat)
    requires GpuInv(cfg, s) && c < |cfg.drams| && Turned(cfg, s, c, t) && s.parts[c].Now() < TagStore.MAX_TIME
    requires k < SLICES && QueueShort(s.parts[c], k)
    ensures |t.state.chan.slices| == SLICES && QueueShort(t.state, k)
  {
    hide GpuInv, PartitionInv, ArrivalsOk, HasRoom, SliceTurn, PartitionCycle, Arrivals, SmsOk, PartsOk, NetsOk,
         NoStrays, AllBalanced,
         NetOk, Stepped, Next, ChannelInv, Loud, SliceInv, L2Inv, SlicesOk;
    Parts(cfg, s);
    PartOf(cfg, s, c);
    ArrivalsAimed(cfg, s, c);
    PartitionOkIff(cfg.Layout(), cfg.l2, cfg.drams[c], s.parts[c], Arrivals(cfg, s, c));
    PartitionParts(cfg.Layout(), cfg.l2, cfg.drams[c], s.parts[c]);
    SteppedShort(cfg.drams[c], s.parts[c].chan, s.parts[c].log,
        Misses(cfg.l2, cfg.drams[c], s.parts[c], Arrivals(cfg, s, c)), k);
  }

  lemma MemoryStaysShort(cfg: GpuConfig, s: GpuState, c: nat, t: Turn)
    requires GpuInv(cfg, s) && c < |cfg.drams| && Turned(cfg, s, c, t) && s.parts[c].Now() < TagStore.MAX_TIME
    requires QueuesShort(cfg, s) && |t.replies| == SLICES && Assembled(cfg, AfterMemory(cfg, s, c, t))
    ensures QueuesShort(cfg, AfterMemory(cfg, s, c, t))
  {
    hide GpuInv, Turned, QueueShort, Sm.Shaped, SmsOk, PartsOk, NetsOk, NoStrays, AllBalanced, NetOk, PartitionInv;
    Parts(cfg, s);
    var s' := AfterMemory(cfg, s, c, t);
    assert forall d :: 0 <= d < |s.parts| ==> Formed(cfg.l2, s.parts[d]) && Formed(cfg.l2, s'.parts[d]);
    forall d, k | 0 <= d < |s'.parts| && 0 <= k < SLICES ensures QueueShort(s'.parts[d], k) {
      assert QueueShort(s.parts[d], k);
      if d == c { TurnStaysShort(cfg, s, c, t, k); }
    }
  }

  lemma StepStaysShort(cfg: GpuConfig, s: GpuState, e: Event, s': GpuState)
    requires GpuInv(cfg, s) && Exists(cfg, e) && Steps(cfg, s, e, s') && InTime(s, e) && QueuesShort(cfg, s)
    ensures Assembled(cfg, s') && QueuesShort(cfg, s')
  {
    hide GpuInv, Assembled, Steps, QueuesShort, Turned, AfterMemory, SmsOk, PartsOk, NetsOk, NoStrays, AllBalanced,
         NetOk;
    Parts(cfg, s);
    StepKeepsInv(cfg, s, e, s');
    Parts(cfg, s');
    if e.MemoryCycle? {
      var t := TurnOf(cfg, s, e.channel, s');
      MemoryStaysShort(cfg, s, e.channel, t);
    } else {
      SamePartsUnless(cfg, s, e, s');
      SamePartsShort(cfg, s, s');
    }
  }

  lemma SamePartsShort(cfg: GpuConfig, s: GpuState, s': GpuState)
    requires Assembled(cfg, s) && Assembled(cfg, s') && QueuesShort(cfg, s) && s'.parts == s.parts
    ensures QueuesShort(cfg, s')
  {
    hide QueueShort;
  }

  /** Only a memory cycle changes the partitions. */
  lemma SamePartsUnless(cfg: GpuConfig, s: GpuState, e: Event, s': GpuState)
    requires cfg.Ok() && Assembled(cfg, s) && Exists(cfg, e) && Steps(cfg, s, e, s') && !e.MemoryCycle?
    ensures s'.parts == s.parts
  {
    hide Advances, Active, InputOf, Sm.Cycle, PopPacket;
  }

  lemma FreshIsShort(cfg: GpuConfig, s: GpuState, owner: Dispatch.Owners)
    requires FreshGpu(cfg, s, owner) && Assembled(cfg, s)
    ensures QueuesShort(cfg, s)
  {
    forall c, k | 0 <= c < |s.parts| && 0 <= k < SLICES ensures QueueShort(s.parts[c], k) {
      assert s.parts[c] == FreshPartition(cfg.l2, cfg.drams[c]);
    }
  }

  lemma {:induction false} RunStaysShort(cfg: GpuConfig, owner: Dispatch.Owners, tr: Trace, n: nat)
    requires IsGpuRun(cfg, owner, tr) && Short(tr.events) && n <= |tr.events|
    ensures Assembled(cfg, tr.states[n]) && QueuesShort(cfg, tr.states[n])
  {
    hide GpuInv, ClocksCount, FreshGpu, Steps, QueuesShort, Short;
    if n == 0 {
      RunKeeps(cfg, owner, tr, 0);
      Parts(cfg, tr.states[0]);
      FreshIsShort(cfg, tr.states[0], owner);
    } else {
      RunKeeps(cfg, owner, tr, n - 1);
      RunStaysShort(cfg, owner, tr, n - 1);
      assert StepAt(cfg, tr, n - 1);
      IsInTime(tr, n - 1);
      StepStaysShort(cfg, tr.states[n - 1], tr.events[n - 1], tr.states[n]);
    }
  }

  lemma ShortHasRoom(dcfg: DramConfig, c: Channel, misses: seq<Option<Fetch>>)
    requires SlicesOk(dcfg, c) && |misses| == SLICES
    requires |c.slices[0].toDram.cells| < SLICE_QUEUE && |c.slices[1].toDram.cells| < SLICE_QUEUE
    ensures HasRoom(dcfg, c, misses)
  {
  }

  lemma ShortIsRoomy(cfg: GpuConfig, s: GpuState, c: nat)
    requires GpuInv(cfg, s) && Assembled(cfg, s) && QueuesShort(cfg, s) && c < |cfg.drams|
    requires s.parts[c].Now() < SLICE_QUEUE
    ensures Roomy(cfg, s, c)
  {
    assert QueueShort(s.parts[c], 0) && QueueShort(s.parts[c], 1);
    hide GpuInv, Assembled, SliceTurn, Arrivals, HasRoom, PartitionInv, SlicesOk, Loud, ChannelInv, SliceInv, L2Inv,
         PartitionCycle,
         ArrivalsOk, Formed, After, Misses;
    Parts(cfg, s);
    PartOf(cfg, s, c);
    PartitionParts(cfg.Layout(), cfg.l2, cfg.drams[c], s.parts[c]);
    ArrivalsAimed(cfg, s, c);
    PartitionOkIff(cfg.Layout(), cfg.l2, cfg.drams[c], s.parts[c], Arrivals(cfg, s, c));
    ShortHasRoom(cfg.drams[c], s.parts[c].chan, Misses(cfg.l2, cfg.drams[c], s.parts[c], Arrivals(cfg, s, c)));
  }

  /** A channel that had fewer than 999999 turns always has room for the next misses. */
  lemma EarlyIsRoomy(cfg: GpuConfig, owner: Dispatch.Owners, tr: Trace, n: nat, c: nat)
    requires IsGpuRun(cfg, owner, tr) && Short(tr.events) && n <= |tr.events|
    requires c < |cfg.drams| && CountOf(tr.events, MemoryCycle(c), n) < SLICE_QUEUE
    ensures Assembled(cfg, tr.states[n]) && Roomy(cfg, tr.states[n], c)
  {
    var s := tr.states[n];
    hide GpuInv, IsGpuRun, Short, QueuesShort, Assembled, Roomy;
    RunKeeps(cfg, owner, tr, n);
    RunStaysShort(cfg, owner, tr, n);
    Parts(cfg, s);
    assert Clock(s, MemoryCycle(c)) <= CountOf(tr.events, MemoryCycle(c), n);
    ShortIsRoomy(cfg, s, c);
  }

  // ---------------------------------------------------------------- every order runs

  lemma {:induction false} CountPrefix(events: seq<Event>, m: nat, e: Event, n: nat)
    requires n <= m <= |events|
    ensures CountOf(events[..m], e, n) == CountOf(events, e, n)
    decreases n
  {
    if n > 0 { CountPrefix(events, m, e, n - 1); }
  }

  /** Events of this GPU, with at most 999999 turns of each channel and a 32-bit number of turns of
      each component. */
  ghost predicate Feasible(cfg: GpuConfig, events: seq<Event>) {
    && Short(events)
    && (forall t :: 0 <= t < |events| ==> Exists(cfg, events[t]))
    && (forall c :: CountOf(events, MemoryCycle(c), |events|) <= SLICE_QUEUE)
  }

  lemma FeasiblePrefix(cfg: GpuConfig, events: seq<Event>)
    requires Feasible(cfg, events) && events != []
    ensures Feasible(cfg, events[..|events| - 1])
  {
    var n := |events| - 1;
    var init := events[..n];
    forall e ensures CountOf(init, e, n) <= CountOf(events, e, n + 1) { CountPrefix(events, n, e, n); }
    forall e ensures CountOf(init, e, |init|) < Sm.INT_MAX { assert CountOf(init, e, n) <= CountOf(events, e, n + 1); }
  }

  lemma NextIsPossible(cfg: GpuConfig, owner: Dispatch.Owners, tr: Trace, e: Event) returns (s': GpuState)
    requires IsGpuRun(cfg, owner, tr) && Short(tr.events) && Exists(cfg, e)
    requires CountOf(tr.events, e, |tr.events|) + 1 < Sm.INT_MAX
    requires e.MemoryCycle? ==> CountOf(tr.events, e, |tr.events|) < SLICE_QUEUE
    ensures cfg.Ok() && Assembled(cfg, tr.Last()) && Steps(cfg, tr.Last(), e, s')
  {
    hide IsGpuRun, Short, Assembled, Steps, Roomy;
    RunIsValid(cfg, owner, tr);
    OnlyOverflowFails(cfg, owner, tr, |tr.events|, e);
    if e.MemoryCycle? { EarlyIsRoomy(cfg, owner, tr, |tr.events|, e.channel); }
    s' :| Steps(cfg, tr.states[|tr.events|], e, s');
  }

  lemma OneMore(cfg: GpuConfig, owner: Dispatch.Owners, tr: Trace, e: Event, s': GpuState)
    requires IsGpuRun(cfg, owner, tr) && Exists(cfg, e) && cfg.Ok() && Assembled(cfg, tr.Last()) &&
             Steps(cfg, tr.Last(), e, s')
    ensures IsGpuRun(cfg, owner, Trace(tr.states + [s'], tr.events + [e]))
  {
    hide FreshGpu, Steps, Assembled;
    var tr' := Trace(tr.states + [s'], tr.events + [e]);
    forall t | 0 <= t < |tr'.events| ensures StepAt(cfg, tr', t) {
      if t < |tr.events| { assert StepAt(cfg, tr, t); }
    }
  }

  /** Nothing fails, said at once: every feasible sequence of events, in whatever order, is the sequence
      of events of a run. */
  lemma {:induction false} EveryOrderRuns(cfg: GpuConfig, owner: Dispatch.Owners, s: GpuState, events: seq<Event>)
    returns (tr: Trace)
    requires FreshGpu(cfg, s, owner) && Feasible(cfg, events)
    ensures IsGpuRun(cfg, owner, tr) && tr.events == events && tr.states[0] == s
    decreases |events|
  {
    if events == [] {
      tr := Trace([s], []);
    } else {
      var n := |events| - 1;
      FeasiblePrefix(cfg, events);
      CountPrefix(events, n, events[n], n);
      assert CountOf(events, events[n], n + 1) == CountOf(events, events[n], n) + 1;
      assert Exists(cfg, events[n]) && CountOf(events, events[n], n + 1) < Sm.INT_MAX;
      assert events == events[..n] + [events[n]];
      hide FreshGpu, IsGpuRun, Steps, Assembled, Short;
      var before := EveryOrderRuns(cfg, owner, s, events[..n]);
      RunIsValid(cfg, owner, before);
      var s' := NextIsPossible(cfg, owner, before, events[n]);
      OneMore(cfg, owner, before, events[n], s');
      tr := Trace(before.states + [s'], before.events + [events[n]]);
    }
  }

  // ---------------------------------------------------------------- what a run conserves

  /** In every state of a run, the packet at the head of an SM's output is one of those that the SM has
      below, with the same address, warp and completion slot; it is no copy, and it finds its MSHR
      entry or its waiting warp. */
  lemma EveryReplyIsAwaited(cfg: GpuConfig, owner: Dispatch.Owners, tr: Trace, n: nat, i: nat)
    requires IsGpuRun(cfg, owner, tr) && Short(tr.events) && n <= |tr.events| && i < |cfg.sms|
    ensures Assembled(cfg, tr.states[n])
    ensures TopPacket(tr.states[n].replies, i).Some? ==>
              AwaitedBy(tr.states[n].sms[i], TopPacket(tr.states[n].replies, i).value.data)
  {
    var s := tr.states[n];
    hide GpuInv, IsGpuRun, Silent, SmInv.Inv, Core;
    RunKeeps(cfg, owner, tr, n);
    Parts(cfg, s);
    SmOf(cfg, s, i);
    ReplyIsKnown(cfg, s, i);
    var j := InputOf(s, i).reply;
    if j.Some? {
      BelowIsSendable(cfg.sms[i], s.sms[i], j.value);
      SmRuns.ReplyFindsItsWarps(cfg.sms[i], s.sms[i], j.value);
      assert AwaitedAs(s.sms[i], TopPacket(s.replies, i).value.data, j.value);
    }
  }

  ghost predicate AwaitedBy(s: Sm.SmState, p: Fetch) { exists j: nat :: AwaitedAs(s, p, j) }

  /** The packet is the one at position j below, and somebody waits for it. */
  ghost predicate AwaitedAs(s: Sm.SmState, p: Fetch, j: nat) {
    && j < |s.below| && Core(s.below[j]) == Core(p) && !Silent(s.below[j])
    && var f := s.below[j];
       if f.isWrite then SmRuns.WaitedFor(s, f)
       else f.SectorAddr() in s.l1.mshr && s.l1.mshr[f.SectorAddr()] != []
            && forall k :: 0 <= k < |s.l1.mshr[f.SectorAddr()]| ==> SmRuns.WaitedFor(s, s.l1.mshr[f.SectorAddr()][k])
  }

  /** Conservation over the whole GPU, in every state of a run: of the requests that look like `key` to
      their SM, copies aside, those that the SM has below are on the way to the one slice that serves
      them, or held by it and its channel, or on the way back; no other slice holds any. */
  lemma EveryRequestIsInOnePlace(cfg: GpuConfig, owner: Dispatch.Owners, tr: Trace, n: nat, key: Fetch)
    requires IsGpuRun(cfg, owner, tr) && Short(tr.events) && n <= |tr.events| && key.sm < |cfg.sms|
    ensures |cfg.drams| > 0 && Assembled(cfg, tr.states[n])
    ensures exists c, k :: 0 <= c < |cfg.drams| && 0 <= k < SLICES && Serves(cfg, c, k, key)
                           && InOnePlace(cfg, tr.states[n], c, k, key)
    ensures forall c, k :: 0 <= c < |cfg.drams| && 0 <= k < SLICES && !Serves(cfg, c, k, key) ==>
            HeldBy(cfg, tr.states[n], c, k, key) == 0
  {
    var s := tr.states[n];
    hide GpuInv, IsGpuRun, Assembled, InOnePlace, HeldBy, Serves;
    RunKeeps(cfg, owner, tr, n);
    Parts(cfg, s);
    var c, k := ServingSlice(cfg, key);
    WasBalanced(cfg, s, c, k, key);
    forall d, l | 0 <= d < |cfg.drams| && 0 <= l < SLICES && !Serves(cfg, d, l, key)
      ensures HeldBy(cfg, s, d, l, key) == 0
    {
      NothingStrayHeld(cfg, s, d, l, key);
    }
  }

  lemma {:induction false} CopiesCountNothing(q: seq<Fetch>, key: Fetch)
    requires SmRuns.OnlyCopies(q)
    ensures Tally(q, key) == 0
    decreases |q|
  {
    if q != [] { CopiesCountNothing(q[1..], key); }
  }

  lemma NothingBelowNothingAnywhere(cfg: GpuConfig, s: GpuState, key: Fetch)
    requires GpuInv(cfg, s) && key.sm < |cfg.sms| && key.sm < |s.sms| && Tally(s.sms[key.sm].below, key) == 0
    ensures |cfg.drams| > 0 && Assembled(cfg, s)
    ensures OnNet(cfg.Layout(), Requests, s.requests, key) == 0 == OnNet(cfg.Layout(), Replies, s.replies, key)
    ensures forall c, k :: 0 <= c < |cfg.drams| && 0 <= k < SLICES ==> HeldBy(cfg, s, c, k, key) == 0
  {
    hide GpuInv, Assembled, HeldBy, Serves, OnNet, Tally;
    Parts(cfg, s);
    var c, k := ServingSlice(cfg, key);
    WasBalanced(cfg, s, c, k, key);
    forall d, l | 0 <= d < |cfg.drams| && 0 <= l < SLICES ensures HeldBy(cfg, s, d, l, key) == 0 {
      if d != c || l != k {
        OnlyOneServes(cfg, d, l, c, k, key);
        NothingStrayHeld(cfg, s, d, l, key);
      }
    }
  }

  /** When an SM is inactive, nothing that would be answered to it is left anywhere in the GPU: not on
      the subnets, not in a slice, not in a channel. */
  lemma FinishedSmLeavesNothing(cfg: GpuConfig, owner: Dispatch.Owners, tr: Trace, n: nat, key: Fetch)
    requires IsGpuRun(cfg, owner, tr) && Short(tr.events) && n <= |tr.events| && key.sm < |cfg.sms|
    requires |tr.states[n].sms| == |cfg.sms| && !Sm.IsActive(cfg.sms[key.sm], tr.states[n].sms[key.sm])
    ensures |cfg.drams| > 0 && Assembled(cfg, tr.states[n])
    ensures OnNet(cfg.Layout(), Requests, tr.states[n].requests, key) == 0
            == OnNet(cfg.Layout(), Replies, tr.states[n].replies, key)
    ensures forall c, k :: 0 <= c < |cfg.drams| && 0 <= k < SLICES ==> HeldBy(cfg, tr.states[n], c, k, key) == 0
  {
    var s := tr.states[n];
    hide GpuInv, IsGpuRun, HeldBy, OnNet, Tally, SmInv.Inv, Sm.IsActive, SmRuns.OnlyCopies;
    RunKeeps(cfg, owner, tr, n);
    SmOf(cfg, s, key.sm);
    SmRuns.InactiveSmIsDone(cfg.sms[key.sm], s.sms[key.sm]);
    CopiesCountNothing(s.sms[key.sm].below, key);
    NothingBelowNothingAnywhere(cfg, s, key);
  }

  // ---------------------------------------------------------------- blocks

  /** The owners of the blocks after an event: the SM whose turn it was takes those that the pointer
      passed. */
  function OwnersAfter(o: Dispatch.Owners, e: Event, ptr: nat): Dispatch.Owners {
    if e.SmCycle? && |o| <= ptr then o + Dispatch.Repeat(e.sm, ptr - |o|) else o
  }

  /** An SM's turn, as the dispatcher sees it. */
  lemma SmTurnTakes(cfg: GpuConfig, s: GpuState, i: nat, s': GpuState)
    requires GpuInv(cfg, s) && i < |cfg.sms| && Steps(cfg, s, SmCycle(i), s')
    ensures |s'.sms| == |cfg.sms| == |s.sms| && s'.sms == s.sms[i := s'.sms[i]] && s'.ptr == s'.sms[i].ptr
    ensures SmBlocks.Takes(cfg.sms[i], Sm.Arrived(s.sms[i], InputOf(s, i)), s'.sms[i])
  {
    hide SmInv.Inv, SmsOk, PartsOk, NetsOk, NoStrays, AllBalanced, Sm.Cycle, SmBlocks.Takes, PopPacket, PushSent,
         SentBy, Active;
    SmBlocks.CycleTakes(cfg.sms[i], s.sms[i], InputOf(s, i));
  }

  lemma EventKeepsOwners(cfg: GpuConfig, s: GpuState, e: Event, s': GpuState, o: Dispatch.Owners)
    requires GpuInv(cfg, s) && Exists(cfg, e) && Steps(cfg, s, e, s') && Dispatch.Owned(cfg.sms, s.sms, o)
    requires |o| == s.ptr
    ensures s.ptr <= s'.ptr && Dispatch.Owned(cfg.sms, s'.sms, OwnersAfter(o, e, s'.ptr))
    ensures |OwnersAfter(o, e, s'.ptr)| == s'.ptr
  {
    if e.SmCycle? {
      hide GpuInv, Steps, Dispatch.Owned, InputOf;
      SmTurnTakes(cfg, s, e.sm, s');
      assert InputOf(s, e.sm).ptr == s.ptr by { InputHasPointer(cfg, s, e.sm); }
      Dispatch.TakenAreOwned(cfg.sms, s.sms, s'.sms, e.sm, o, s'.ptr);
    } else {
      hide GpuInv, Dispatch.Owned, PartitionCycle, Advances, Arrivals;
    }
  }

  lemma InputHasPointer(cfg: GpuConfig, s: GpuState, i: nat)
    requires GpuInv(cfg, s) && i < |cfg.sms|
    ensures i < |s.sms| && i < |s.replies.outs| && i < |s.requests.ins| && InputOf(s, i).ptr == s.ptr
  {
    hide GpuInv;
    Parts(cfg, s);
  }

  /** Who owns each block after n events. */
  ghost function OwnersAt(owner: Dispatch.Owners, tr: Trace, n: nat): Dispatch.Owners
    requires tr.Valid() && n <= |tr.events|
  {
    if n == 0 then owner else OwnersAfter(OwnersAt(owner, tr, n - 1), tr.events[n - 1], tr.states[n].ptr)
  }

  /** The shares of the initial spawn are within the SMs' maxima, as first_spawn_block makes them. */
  ghost predicate SharesFit(cfg: GpuConfig, owner: Dispatch.Owners) {
    forall k :: 0 <= k < |cfg.sms| ==> |Dispatch.BlocksOf(owner, k)| <= cfg.sms[k].maxBlocks
  }

  lemma StartIsOwned(cfg: GpuConfig, owner: Dispatch.Owners, s: GpuState)
    requires FreshGpu(cfg, s, owner) && SharesFit(cfg, owner)
    ensures Dispatch.Owned(cfg.sms, s.sms, owner) && |owner| == s.ptr
  {
    hide FreshSmAt, FreshNet, FreshPartition, Dispatch.SpawnedSms;
    Dispatch.SpawnIsOwned(cfg.sms, s.sms, owner);
  }

  /** The owners are well after n events. */
  ghost predicate OwnsAt(cfg: GpuConfig, owner: Dispatch.Owners, tr: Trace, n: nat)
    requires tr.Valid() && n <= |tr.events|
  {
    var o := OwnersAt(owner, tr, n);
    Dispatch.Owned(cfg.sms, tr.states[n].sms, o) && |o| == tr.states[n].ptr
  }

  lemma OwnsNext(cfg: GpuConfig, owner: Dispatch.Owners, tr: Trace, n: nat)
    requires tr.Valid() && n < |tr.events| && StepAt(cfg, tr, n) && GpuInv(cfg, tr.states[n]) &&
             OwnsAt(cfg, owner, tr, n)
    ensures OwnsAt(cfg, owner, tr, n + 1)
  {
    hide GpuInv, Steps, Assembled, Dispatch.Owned, OwnersAfter;
    EventKeepsOwners(cfg, tr.states[n], tr.events[n], tr.states[n + 1], OwnersAt(owner, tr, n));
  }

  lemma StepOfRun(cfg: GpuConfig, owner: Dispatch.Owners, tr: Trace, t: nat)
    requires IsGpuRun(cfg, owner, tr) && t < |tr.events|
    ensures StepAt(cfg, tr, t)
  {
    hide FreshGpu, StepAt;
  }

  lemma OwnsFirst(cfg: GpuConfig, owner: Dispatch.Owners, tr: Trace)
    requires IsGpuRun(cfg, owner, tr) && SharesFit(cfg, owner)
    ensures OwnsAt(cfg, owner, tr, 0)
  {
    hide FreshGpu, StepAt, SharesFit, Dispatch.Owned;
    StartIsOwned(cfg, owner, tr.states[0]);
  }

  lemma {:induction false} RunOwns(cfg: GpuConfig, owner: Dispatch.Owners, tr: Trace, n: nat)
    requires IsGpuRun(cfg, owner, tr) && Short(tr.events) && n <= |tr.events| && SharesFit(cfg, owner)
    ensures tr.Valid() && OwnsAt(cfg, owner, tr, n)
  {
    hide IsGpuRun, StepAt, GpuInv, Short, SharesFit, OwnsAt, OwnersAt, ClocksCount;
    RunIsValid(cfg, owner, tr);
    if n == 0 {
      OwnsFirst(cfg, owner, tr);
    } else {
      RunOwns(cfg, owner, tr, n - 1);
      RunKeeps(cfg, owner, tr, n - 1);
      StepOfRun(cfg, owner, tr, n - 1);
      OwnsNext(cfg, owner, tr, n - 1);
    }
  }

  lemma {:induction false} OwnersOnlyGrow(owner: Dispatch.Owners, tr: Trace, n: nat, m: nat)
    requires tr.Valid() && n <= m <= |tr.events|
    ensures OwnersAt(owner, tr, n) <= OwnersAt(owner, tr, m)
    decreases m
  {
    if n < m { OwnersOnlyGrow(owner, tr, n, m - 1); }
  }

  /** In a run of the whole GPU two SMs never hold the same block, at whatever times; no SM holds a
      block at or above the pointer, or more blocks than its maximum. */
  lemma BlocksAreNotShared(cfg: GpuConfig, owner: Dispatch.Owners, tr: Trace, n: nat, m: nat, i: nat, k: nat, b: nat)
    requires IsGpuRun(cfg, owner, tr) && Short(tr.events) && n <= |tr.events| && m <= |tr.events|
    requires SharesFit(cfg, owner)
    requires i < |cfg.sms| && k < |cfg.sms|
    ensures |tr.states[n].sms| == |tr.states[m].sms| == |cfg.sms|
    ensures |tr.states[n].sms[i].blocks| <= cfg.sms[i].maxBlocks
    ensures b in tr.states[n].sms[i].blocks ==> b < tr.states[n].ptr
    ensures b in tr.states[n].sms[i].blocks && b in tr.states[m].sms[k].blocks ==> i == k
  {
    hide IsGpuRun, Short, SharesFit, OwnersAt;
    RunIsValid(cfg, owner, tr);
    RunOwns(cfg, owner, tr, n);
    RunOwns(cfg, owner, tr, m);
    if n <= m { OwnersOnlyGrow(owner, tr, n, m); } else { OwnersOnlyGrow(owner, tr, m, n); }
  }

  // ---------------------------------------------------------------- the loop of gpu_cycle

  /** Events in one gpu_cycle: every channel, both subnets, every SM. */
  function Period(cfg: GpuConfig): nat { |cfg.drams| + 1 + |cfg.sms| }

  function Place(cfg: GpuConfig, e: Event): nat {
    match e
    case MemoryCycle(c) => c
    case AdvanceNets => |cfg.drams|
    case SmCycle(i) => |cfg.drams| + 1 + i
  }

  function EventAt(cfg: GpuConfig, r: nat): Event {
    if r < |cfg.drams| then MemoryCycle(r)
    else if r == |cfg.drams| then AdvanceNets
    else SmCycle(r - |cfg.drams| - 1)
  }

  /** The order of gpu_cycle, cycle after cycle. */
  ghost predicate InOrder(cfg: GpuConfig, events: seq<Event>) {
    forall t :: 0 <= t < |events| ==> events[t] == EventAt(cfg, t % Period(cfg))
  }

  lemma PlaceInCycle(cfg: GpuConfig, q: nat, r: nat)
    requires r < Period(cfg)
    ensures (q * Period(cfg) + r) % Period(cfg) == r
  {
    Words.QuotientUnique(q * Period(cfg) + r, Period(cfg), q, r);
  }

  lemma WholeCycles(cfg: GpuConfig, q: nat)
    requires q > 0
    ensures q * Period(cfg) == (q - 1) * Period(cfg) + Period(cfg)
  {
    Words.Distribute(Period(cfg), q - 1, 1);
  }

  lemma OneTurn(cfg: GpuConfig, events: seq<Event>, e: Event, t: nat, r: nat)
    requires InOrder(cfg, events) && Exists(cfg, e) && r < Period(cfg) && t < |events| && t % Period(cfg) == r
    ensures CountOf(events, e, t + 1) == CountOf(events, e, t) + (if Place(cfg, e) == r then 1 else 0)
  {
    assert events[t] == EventAt(cfg, r);
  }

  /** After q whole cycles and r events of the next, every component has had q turns, and those in the
      first r places one more. */
  lemma {:induction false} TurnsSoFar(cfg: GpuConfig, events: seq<Event>, e: Event, q: nat, r: nat)
    requires InOrder(cfg, events) && Exists(cfg, e) && r <= Period(cfg) && q * Period(cfg) + r <= |events|
    ensures CountOf(events, e, q * Period(cfg) + r) == q + (if Place(cfg, e) < r then 1 else 0)
    decreases q, r
  {
    assert Place(cfg, e) < Period(cfg);
    hide InOrder, Exists, Place, Period, EventAt;
    if r > 0 {
      TurnsSoFar(cfg, events, e, q, r - 1);
      PlaceInCycle(cfg, q, r - 1);
      OneTurn(cfg, events, e, q * Period(cfg) + (r - 1), r - 1);
    } else if q > 0 {
      WholeCycles(cfg, q);
      TurnsSoFar(cfg, events, e, q - 1, Period(cfg));
    }
  }

  lemma {:induction false} StrangersHaveNoTurn(cfg: GpuConfig, events: seq<Event>, e: Event, n: nat)
    requires InOrder(cfg, events) && !Exists(cfg, e) && n <= |events|
    ensures CountOf(events, e, n) == 0
  {
    if n > 0 {
      StrangersHaveNoTurn(cfg, events, e, n - 1);
      assert events[n - 1] == EventAt(cfg, (n - 1) % Period(cfg));
    }
  }

  /** So what is proved above holds of the loop of gpu_cycle for 2^31 - 2 rounds, and in the middle of
      each. */
  lemma LoopIsShort(cfg: GpuConfig, events: seq<Event>, q: nat, r: nat)
    requires InOrder(cfg, events) && |events| == q * Period(cfg) + r && r <= Period(cfg) && q + 1 < Sm.INT_MAX
    ensures Short(events)
  {
    forall e ensures CountOf(events, e, |events|) < Sm.INT_MAX {
      if Exists(cfg, e) { TurnsSoFar(cfg, events, e, q, r); } else { StrangersHaveNoTurn(cfg, events, e, |events|); }
    }
  }
}
