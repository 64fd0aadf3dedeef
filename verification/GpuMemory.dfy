/** One channel and its two slices as a part of the GPU: what a cycle does to the requests it holds. */
module GpuMemory {
  import opened Wrappers
  import opened CacheConfig
  import opened MemFetch
  import opened Dram
  import opened DramInv
  import opened L2Cache
  import opened GpuPackets
  import MemoryRuns
  import TagStore

  /** A channel, its slices, and the history of what the channel accepted; its length is the clock. */
  datatype Partition = Partition(chan: Channel, l2: seq<L2State>, log: Log) {
    function Now(): nat { |log| }
  }

  datatype MemoryFault = InChannel(dram: DramFault) | InSlice(slice: L2Fault)

  /** What a cycle of a partition does: the new state, and the replies of each slice. */
  datatype Turn = Turn(state: Partition, replies: seq<seq<Fetch>>)

  function Back(c: Channel, k: nat): Option<Fetch>
    requires k < SLICES == |c.slices|
  {
    c.slices[k].fromDram.Top()
  }

  predicate Formed(cfg: L2Config, p: Partition) {
    |p.chan.slices| == SLICES == |p.l2| && Shaped(cfg, p.l2[0]) && Shaped(cfg, p.l2[1])
  }

  /** The cycle of slice k once the channel is in state c. */
  function SliceServes(cfg: L2Config, p: Partition, c: Channel, k: nat, arrival: Option<Fetch>): Result<Cycled, L2Fault>
    requires Formed(cfg, p) && k < SLICES == |c.slices|
  {
    L2Cache.Cycle(cfg, p.l2[k], p.Now(), Back(c, k), arrival)
  }

  /** The channel's cycle, then the slices', whose misses join the queues to the channel. */
  function PartitionCycle(cfg: L2Config, dcfg: DramConfig, p: Partition, arrivals: seq<Option<Fetch>>)
    : Result<Turn, MemoryFault>
    requires Formed(cfg, p) && |arrivals| == SLICES
  {
    match ChannelCycle(dcfg, p.chan, p.Now())
    case Err(e) => Err(InChannel(e))
    case Ok(c) =>
      match SliceServes(cfg, p, c, 0, arrivals[0])
      case Err(e) => Err(InSlice(e))
      case Ok(r0) =>
        match SliceServes(cfg, p, c, 1, arrivals[1])
        case Err(e) => Err(InSlice(e))
        case Ok(r1) =>
          match Step(dcfg, p.chan, p.Now(), [r0.miss, r1.miss])
          case Err(e) => Err(InChannel(e))
          case Ok((chan, _)) =>
            Ok(Turn(Partition(chan, [r0.state, r1.state], p.log + [Next(dcfg, p.chan)]), [r0.replies, r1.replies]))
  }

  // ---------------------------------------------------------------- invariant

  /** No write-through copy was accepted or waits for the channel. */
  ghost predicate Loud(c: Channel, log: Log)
    requires |c.slices| == SLICES
  {
    && (forall t :: 0 <= t < |log| && log[t].Some? ==> !Silent(log[t].value))
    && NoneSilent(Waiting(c, 0)) && NoneSilent(Waiting(c, 1))
  }

  ghost predicate SliceInv(g: Layout, cfg: L2Config, c: L2State, now: nat)
    requires g.channels > 0
  {
    L2Inv(cfg, c, now) && AllAimed(g, c.l1ToL2)
  }

  ghost predicate PartitionInv(g: Layout, cfg: L2Config, dcfg: DramConfig, p: Partition)
    requires g.channels > 0
  {
    && Formed(cfg, p) && ChannelInv(dcfg, p.chan, p.log) && Loud(p.chan, p.log)
    && SliceInv(g, cfg, p.l2[0], p.Now()) && SliceInv(g, cfg, p.l2[1], p.Now())
  }

  /** Requests of slice k that look like `key` and were accepted, but are not back yet. */
  ghost function Flying(dcfg: DramConfig, log: Log, k: nat, key: Fetch): nat {
    Tally(SharesFrom(dcfg, log, k, |log| - Latency(dcfg)), key)
  }

  /** Those inside its channel: accepted and not yet back, or queued. */
  ghost function InChannelOf(dcfg: DramConfig, c: Channel, log: Log, k: nat, key: Fetch): nat
    requires k < SLICES == |c.slices|
  {
    Flying(dcfg, log, k, key) + Tally(Waiting(c, k), key)
  }

  /** Requests that look like `key` held by slice k and its channel. */
  ghost function Held(dcfg: DramConfig, p: Partition, k: nat, key: Fetch): nat
    requires k < SLICES == |p.chan.slices| == |p.l2| && |p.l2[k].toSms| == REPLY_QUEUES
  {
    Inside(p.l2[k], key) + InChannelOf(dcfg, p.chan, p.log, k, key)
  }

  // ---------------------------------------------------------------- the channel's books

  lemma {:induction false} SharesGrow(dcfg: DramConfig, log: Log, x: Option<Fetch>, k: nat, n: int)
    requires n <= |log|
    ensures SharesFrom(dcfg, log + [x], k, n) == SharesFrom(dcfg, log, k, n) + Items(DramInv.Share(dcfg, x, k))
    decreases |log| - n
  {
    if n < |log| {
      SharesGrow(dcfg, log, x, k, n + 1);
      assert At(log + [x], n) == At(log, n);
    } else {
      assert At(log + [x], n) == x;
      assert SharesFrom(dcfg, log + [x], k, n + 1) == [];
    }
  }

  /** The queue of slice k: its miss joins, and what the channel accepts leaves. */
  lemma WaitingBalances(dcfg: DramConfig, c: Channel, log: Log, misses: seq<Option<Fetch>>, k: nat, key: Fetch)
    requires SlicesOk(dcfg, c) && |misses| == SLICES && k < SLICES
    ensures Tally(Waiting(c, k), key) + Tally(Items(misses[k]), key)
            == Tally(Items(DramInv.Share(dcfg, Next(dcfg, c), k)), key)
                + Tally(Waiting(Stepped(dcfg, c, log, misses), k), key)
  {
    TakenIsFront(dcfg, c, k);
    QueueBalances(dcfg, c.slices[k], Took(dcfg, c, k), misses[k], k);
    var before, after := Waiting(c, k), Waiting(Stepped(dcfg, c, log, misses), k);
    MemoryRuns.MarkingKeepsTally(dcfg, k, before + Items(misses[k]), key);
    MemoryRuns.MarkingKeepsTally(dcfg, k, after, key);
    TallyAppend(before, Items(misses[k]), key);
    TallyAppend(Items(DramInv.Share(dcfg, Next(dcfg, c), k)), MarkAll(dcfg, k, after), key);
  }

  lemma SharesStep(dcfg: DramConfig, log: Log, k: nat, n: int)
    requires n < |log|
    ensures SharesFrom(dcfg, log, k, n) == Items(DramInv.Share(dcfg, At(log, n), k)) + SharesFrom(dcfg, log, k, n + 1)
  {
  }

  lemma SharesBalance(dcfg: DramConfig, log: Log, x: Option<Fetch>, k: nat, n: int, key: Fetch)
    requires n < |log|
    ensures Tally(SharesFrom(dcfg, log, k, n), key) + Tally(Items(DramInv.Share(dcfg, x, k)), key)
            == Tally(Items(DramInv.Share(dcfg, At(log, n), k)), key) + Tally(SharesFrom(dcfg, log + [x], k, n + 1), key)
  {
    hide *;
    SharesStep(dcfg, log, k, n);
    SharesGrow(dcfg, log, x, k, n + 1);
    TallyAppend(SharesFrom(dcfg, log, k, n + 1), Items(DramInv.Share(dcfg, x, k)), key);
    TallyAppend(Items(DramInv.Share(dcfg, At(log, n), k)), SharesFrom(dcfg, log, k, n + 1), key);
  }

  /** A cycle of the channel: the miss comes in, what is due goes out. */
  lemma ChannelBalances(dcfg: DramConfig, c: Channel, log: Log, misses: seq<Option<Fetch>>, k: nat, key: Fetch)
    requires SlicesOk(dcfg, c) && |misses| == SLICES && k < SLICES
    ensures InChannelOf(dcfg, c, log, k, key) + Tally(Items(misses[k]), key)
            == Tally(Items(DramInv.Share(dcfg, Due(dcfg, log), k)), key)
               + InChannelOf(dcfg, Stepped(dcfg, c, log, misses), log + [Next(dcfg, c)], k, key)
  {
    WaitingBalances(dcfg, c, log, misses, k, key);
    hide Tally, Waiting, Flying, Stepped, Next, Due, DramInv.Share, SlicesOk, Items;
    FlyingBalances(dcfg, log, Next(dcfg, c), k, key);
  }

  lemma FlyingBalances(dcfg: DramConfig, log: Log, x: Option<Fetch>, k: nat, key: Fetch)
    ensures Flying(dcfg, log, k, key) + Tally(Items(DramInv.Share(dcfg, x, k)), key)
            == Tally(Items(DramInv.Share(dcfg, Due(dcfg, log), k)), key) + Flying(dcfg, log + [x], k, key)
  {
    hide Tally, SharesFrom, DramInv.Share, Items, At, Due, Flying;
    var n := |log| - Latency(dcfg);
    var m := |log + [x]| - Latency(dcfg);
    assert n < |log| && m == n + 1;
    hide *;
    DueIs(dcfg, log);
    FlyingIs(dcfg, log, k, key, n);
    FlyingIs(dcfg, log + [x], k, key, m);
    SharesBalance(dcfg, log, x, k, n, key);
  }

  lemma FlyingIs(dcfg: DramConfig, log: Log, k: nat, key: Fetch, n: int)
    requires n == |log| - Latency(dcfg)
    ensures Flying(dcfg, log, k, key) == Tally(SharesFrom(dcfg, log, k, n), key)
  {
  }

  lemma UnmarkedNotSilent(dcfg: DramConfig, k: nat, q: seq<Fetch>)
    requires NoneSilent(MarkAll(dcfg, k, q))
    ensures NoneSilent(q)
  {
    if q != [] {
      assert !Silent(MarkAll(dcfg, k, q)[0]);
      forall i | 0 <= i < |MarkAll(dcfg, k, q[1..])| ensures !Silent(MarkAll(dcfg, k, q[1..])[i]) {
        assert MarkAll(dcfg, k, q)[i + 1] == MarkAll(dcfg, k, q[1..])[i];
      }
      UnmarkedNotSilent(dcfg, k, q[1..]);
    }
  }

  /** Neither the accepted request nor what goes on waiting is a copy. */
  lemma WaitingStaysLoud(dcfg: DramConfig, c: Channel, log: Log, misses: seq<Option<Fetch>>, k: nat)
    requires SlicesOk(dcfg, c) && |misses| == SLICES && k < SLICES
    requires NoneSilent(Waiting(c, k)) && NoneSilent(Items(misses[k]))
    ensures NoneSilent(Items(DramInv.Share(dcfg, Next(dcfg, c), k)))
    ensures NoneSilent(Waiting(Stepped(dcfg, c, log, misses), k))
  {
    hide Silent, NoneSilent, MarkAll;
    TakenIsFront(dcfg, c, k);
    QueueBalances(dcfg, c.slices[k], Took(dcfg, c, k), misses[k], k);
    var taken, after := Items(DramInv.Share(dcfg, Next(dcfg, c), k)), Waiting(Stepped(dcfg, c, log, misses), k);
    MemoryRuns.BothNotSilent(Waiting(c, k), Items(misses[k]));
    MemoryRuns.MarkedNotSilent(dcfg, k, Waiting(c, k) + Items(misses[k]));
    MemoryRuns.PrefixNotSilent(taken, MarkAll(dcfg, k, after));
    SuffixNotSilent(taken, MarkAll(dcfg, k, after));
    UnmarkedNotSilent(dcfg, k, after);
  }

  lemma SuffixNotSilent(p: seq<Fetch>, q: seq<Fetch>)
    requires NoneSilent(p + q)
    ensures NoneSilent(q)
  {
    forall i | 0 <= i < |q| ensures !Silent(q[i]) { assert (p + q)[|p| + i] == q[i]; }
  }

  lemma NextIsShared(dcfg: DramConfig, c: Channel)
    requires |c.slices| == SLICES
    ensures Next(dcfg, c).Some? ==>
            exists k: nat :: k < SLICES && DramInv.Share(dcfg, Next(dcfg, c), k) == Next(dcfg, c)
  {
    var x := Next(dcfg, c);
    if x.Some? {
      if c.slices[1].toDram.Top().Some? {
        assert DramInv.Share(dcfg, x, 1) == x;
      } else {
        assert DramInv.Share(dcfg, x, 0) == x;
      }
    }
  }

  lemma StaysLoud(dcfg: DramConfig, c: Channel, log: Log, misses: seq<Option<Fetch>>)
    requires SlicesOk(dcfg, c) && |misses| == SLICES && Loud(c, log)
    requires NoneSilent(Items(misses[0])) && NoneSilent(Items(misses[1]))
    ensures Loud(Stepped(dcfg, c, log, misses), log + [Next(dcfg, c)])
  {
    WaitingStaysLoud(dcfg, c, log, misses, 0);
    WaitingStaysLoud(dcfg, c, log, misses, 1);
    NextIsShared(dcfg, c);
    var x := Next(dcfg, c);
    if x.Some? {
      var k: nat :| k < SLICES && DramInv.Share(dcfg, x, k) == x;
      assert NoneSilent(Items(DramInv.Share(dcfg, x, k)));
      assert Items(DramInv.Share(dcfg, x, k))[0] == x.value;
    }
  }

  // ---------------------------------------------------------------- one slice

  /** What slice k gets back is its share of what is due, and no copy. */
  lemma BackIsShare(dcfg: DramConfig, c: Channel, log: Log, k: nat)
    requires ChannelInv(dcfg, c, log) && Loud(c, log) && k < SLICES
    ensures ChannelCycle(dcfg, c, |log|) == Ok(Moved(dcfg, c, log)) && |Moved(dcfg, c, log).slices| == SLICES
    ensures Back(Moved(dcfg, c, log), k) == DramInv.Share(dcfg, Due(dcfg, log), k)
    ensures NoneSilent(Items(DramInv.Share(dcfg, Due(dcfg, log), k)))
  {
    ChannelCycleMoves(dcfg, c, log);
    MovedSlices(dcfg, c, log);
  }

  /** A slice's cycle that went well: no copy is replied to or sent on, and its miss is aimed. */
  ghost predicate SliceGood(g: Layout, cfg: L2Config, r: Result<Cycled, L2Fault>, now: nat)
    requires g.channels > 0
  {
    && r.Ok? && SliceInv(g, cfg, r.value.state, now)
    && NoneSilent(r.value.replies) && NoneSilent(Items(r.value.miss))
    && (r.value.miss.Some? ==> Aimed(g, r.value.miss.value))
  }

  /** The miss is the front of the queue with the arrival, so it is aimed, and so is what stays. */
  lemma StaysAimed(g: Layout, cfg: L2Config, c: L2State, now: nat, back: Option<Fetch>, arrival: Option<Fetch>)
    requires g.channels > 0 && L2Inv(cfg, c, now) && AllAimed(g, c.l1ToL2) && now < TagStore.MAX_TIME
    requires arrival.Some? ==> Aimed(g, arrival.value)
    ensures Shaped(cfg, c)
    ensures var r := L2Cache.Cycle(cfg, c, now, back, arrival);
            && r.Ok? && AllAimed(g, r.value.state.l1ToL2)
            && (r.value.miss.Some? ==> Aimed(g, r.value.miss.value))
  {
    InvIsShaped(cfg, c, now);
    assert arrival.Some? ==> arrival.value.Aligned();
    JoinedAimed(g, c.l1ToL2, arrival);
    hide *;
    MissIsFront(cfg, c, now, back, arrival);
    var r := L2Cache.Cycle(cfg, c, now, back, arrival).value;
    FrontAimed(g, c.l1ToL2 + Items(arrival), r.state.l1ToL2, r.miss);
  }

  /** One slice in one cycle: it cannot fail. */
  lemma SliceSettles(g: Layout, cfg: L2Config, c: L2State, now: nat, back: Option<Fetch>, arrival: Option<Fetch>)
    requires g.channels > 0 && SliceInv(g, cfg, c, now) && now < TagStore.MAX_TIME && NoneSilent(Items(back))
    requires arrival.Some? ==> Aimed(g, arrival.value)
    ensures Shaped(cfg, c)
    ensures SliceGood(g, cfg, L2Cache.Cycle(cfg, c, now, back, arrival), now + 1)
  {
    hide L2Inv, NoneSilent, L2Cache.Cycle, Shaped, Items, AllAimed;
    InvIsShaped(cfg, c, now);
    StaysAimed(g, cfg, c, now, back, arrival);
    CycleKeeps(cfg, c, now, back, arrival);
    SilentStaysSilent(cfg, c, now, back, arrival);
    LaterStillOk(cfg, L2Cache.Cycle(cfg, c, now, back, arrival).value.state, now, now + 1);
  }

  // ---------------------------------------------------------------- the partition

  /** What slice k does in this cycle. */
  function SliceTurn(cfg: L2Config, dcfg: DramConfig, p: Partition, k: nat, arrivals: seq<Option<Fetch>>)
    : Result<Cycled, L2Fault>
    requires Formed(cfg, p) && k < SLICES == |arrivals|
  {
    L2Cache.Cycle(cfg, p.l2[k], p.Now(), DramInv.Share(dcfg, Due(dcfg, p.log), k), arrivals[k])
  }

  ghost predicate ArrivalsOk(g: Layout, arrivals: seq<Option<Fetch>>)
    requires g.channels > 0
  {
    |arrivals| == SLICES && forall k :: 0 <= k < SLICES && arrivals[k].Some? ==> Aimed(g, arrivals[k].value)
  }

  /** The misses of both slices in this cycle. */
  function Misses(cfg: L2Config, dcfg: DramConfig, p: Partition, arrivals: seq<Option<Fetch>>): seq<Option<Fetch>>
    requires Formed(cfg, p) && |arrivals| == SLICES
    requires SliceTurn(cfg, dcfg, p, 0, arrivals).Ok? && SliceTurn(cfg, dcfg, p, 1, arrivals).Ok?
  {
    [SliceTurn(cfg, dcfg, p, 0, arrivals).value.miss, SliceTurn(cfg, dcfg, p, 1, arrivals).value.miss]
  }

  lemma PartitionParts(g: Layout, cfg: L2Config, dcfg: DramConfig, p: Partition)
    requires g.channels > 0 && PartitionInv(g, cfg, dcfg, p)
    ensures |p.chan.slices| == SLICES == |p.l2|
    ensures Formed(cfg, p) && ChannelInv(dcfg, p.chan, p.log) && Loud(p.chan, p.log) && SlicesOk(dcfg, p.chan)
    ensures forall k :: 0 <= k < SLICES ==> SliceInv(g, cfg, p.l2[k], p.Now()) && L2Inv(cfg, p.l2[k], p.Now())
  {
  }

  lemma ArrivalHasSector(g: Layout, arrivals: seq<Option<Fetch>>, k: nat)
    requires g.channels > 0 && ArrivalsOk(g, arrivals) && k < SLICES
    ensures |arrivals| == SLICES
    ensures arrivals[k].Some? ==> arrivals[k].value.Aligned() && Aimed(g, arrivals[k].value)
  {
  }

  lemma TurnIsCycle(cfg: L2Config, dcfg: DramConfig, p: Partition, arrivals: seq<Option<Fetch>>, k: nat)
    requires Formed(cfg, p) && k < SLICES == |arrivals|
    ensures Shaped(cfg, p.l2[k])
    ensures SliceTurn(cfg, dcfg, p, k, arrivals)
            == L2Cache.Cycle(cfg, p.l2[k], p.Now(), DramInv.Share(dcfg, Due(dcfg, p.log), k), arrivals[k])
  {
  }

  lemma SlicesSettle(g: Layout, cfg: L2Config, dcfg: DramConfig, p: Partition, arrivals: seq<Option<Fetch>>, k: nat)
    requires g.channels > 0 && PartitionInv(g, cfg, dcfg, p) && p.Now() < TagStore.MAX_TIME
    requires ArrivalsOk(g, arrivals) && k < SLICES
    ensures Formed(cfg, p) && |arrivals| == SLICES
    ensures SliceGood(g, cfg, SliceTurn(cfg, dcfg, p, k, arrivals), p.Now() + 1)
  {
    hide *;
    ArrivalHasSector(g, arrivals, k);
    PartitionParts(g, cfg, dcfg, p);
    BackIsShare(dcfg, p.chan, p.log, k);
    TurnIsCycle(cfg, dcfg, p, arrivals, k);
    SliceSettles(g, cfg, p.l2[k], p.Now(), DramInv.Share(dcfg, Due(dcfg, p.log), k), arrivals[k]);
  }

  lemma AimedIsInRange(g: Layout, dcfg: DramConfig, misses: seq<Option<Fetch>>)
    requires g.channels > 0 && dcfg.nbk >= 16 && ArrivalsOk(g, misses)
    ensures BanksInRange(dcfg, misses)
  {
    forall k | 0 <= k < SLICES && misses[k].Some? ensures RequestOk(dcfg, misses[k].value) {
      HomeIsASlice(g, misses[k].value);
    }
  }

  /** The result of a cycle in which nothing overflows. */
  function After(cfg: L2Config, dcfg: DramConfig, p: Partition, arrivals: seq<Option<Fetch>>): Turn
    requires Formed(cfg, p) && |arrivals| == SLICES
    requires SliceTurn(cfg, dcfg, p, 0, arrivals).Ok? && SliceTurn(cfg, dcfg, p, 1, arrivals).Ok?
  {
    var r0, r1 := SliceTurn(cfg, dcfg, p, 0, arrivals).value, SliceTurn(cfg, dcfg, p, 1, arrivals).value;
    var chan := Stepped(dcfg, p.chan, p.log, [r0.miss, r1.miss]);
    Turn(Partition(chan, [r0.state, r1.state], p.log + [Next(dcfg, p.chan)]), [r0.replies, r1.replies])
  }

  lemma MissesInRange(g: Layout, cfg: L2Config, dcfg: DramConfig, p: Partition, arrivals: seq<Option<Fetch>>)
    requires g.channels > 0 && dcfg.nbk >= 16 && PartitionInv(g, cfg, dcfg, p) && p.Now() < TagStore.MAX_TIME
    requires ArrivalsOk(g, arrivals)
    ensures Formed(cfg, p) && |arrivals| == SLICES
    ensures SliceTurn(cfg, dcfg, p, 0, arrivals).Ok? && SliceTurn(cfg, dcfg, p, 1, arrivals).Ok?
    ensures BanksInRange(dcfg, Misses(cfg, dcfg, p, arrivals))
  {
    hide PartitionInv, SliceTurn, BanksInRange, Aimed, SliceInv, NoneSilent, Formed;
    SlicesSettle(g, cfg, dcfg, p, arrivals, 0);
    SlicesSettle(g, cfg, dcfg, p, arrivals, 1);
    AimedIsInRange(g, dcfg, Misses(cfg, dcfg, p, arrivals));
  }

  /** The cycle in terms of what is due. */
  lemma CycleUnfolds(g: Layout, cfg: L2Config, dcfg: DramConfig, p: Partition, arrivals: seq<Option<Fetch>>)
    requires g.channels > 0 && PartitionInv(g, cfg, dcfg, p) && |arrivals| == SLICES
    requires SliceTurn(cfg, dcfg, p, 0, arrivals).Ok? && SliceTurn(cfg, dcfg, p, 1, arrivals).Ok?
    ensures var step := Step(dcfg, p.chan, p.Now(), Misses(cfg, dcfg, p, arrivals));
            && (step.Err? ==> PartitionCycle(cfg, dcfg, p, arrivals) == Err(InChannel(step.error)))
            && (step.Ok? && step.value.0 == Stepped(dcfg, p.chan, p.log, Misses(cfg, dcfg, p, arrivals)) ==>
                  PartitionCycle(cfg, dcfg, p, arrivals) == Ok(After(cfg, dcfg, p, arrivals)))
  {
    PartitionParts(g, cfg, dcfg, p);
    BackIsShare(dcfg, p.chan, p.log, 0);
    BackIsShare(dcfg, p.chan, p.log, 1);
    hide PartitionInv, ChannelInv, Loud, ChannelCycle, Step, Stepped, Moved, L2Cache.Cycle, Back, Due, Formed,
         DramInv.Share;
  }

  /** A partition's cycle succeeds if and only if the queue of every slice with a miss has room for it;
      nothing else can go wrong. */
  lemma PartitionOkIff(g: Layout, cfg: L2Config, dcfg: DramConfig, p: Partition, arrivals: seq<Option<Fetch>>)
    requires g.channels > 0 && dcfg.nbk >= 16 && PartitionInv(g, cfg, dcfg, p) && p.Now() < TagStore.MAX_TIME
    requires ArrivalsOk(g, arrivals)
    ensures SliceTurn(cfg, dcfg, p, 0, arrivals).Ok? && SliceTurn(cfg, dcfg, p, 1, arrivals).Ok?
    ensures |p.chan.slices| == SLICES
    ensures PartitionCycle(cfg, dcfg, p, arrivals)
            == if HasRoom(dcfg, p.chan, Misses(cfg, dcfg, p, arrivals)) then Ok(After(cfg, dcfg, p, arrivals))
               else Err(InChannel(QueueOverflow))
  {
    PartitionParts(g, cfg, dcfg, p);
    MissesInRange(g, cfg, dcfg, p, arrivals);
    assert |arrivals| == SLICES && |p.chan.slices| == SLICES;
    hide *;
    CycleUnfolds(g, cfg, dcfg, p, arrivals);
    StepOkIff(dcfg, p.chan, p.log, Misses(cfg, dcfg, p, arrivals));
  }

  /** The slices' part of the invariant, and that they reply to no copy. */
  lemma SlicesAfter(g: Layout, cfg: L2Config, dcfg: DramConfig, p: Partition, arrivals: seq<Option<Fetch>>)
    requires g.channels > 0 && PartitionInv(g, cfg, dcfg, p) && p.Now() < TagStore.MAX_TIME && ArrivalsOk(g, arrivals)
    ensures SliceTurn(cfg, dcfg, p, 0, arrivals).Ok? && SliceTurn(cfg, dcfg, p, 1, arrivals).Ok?
    ensures var r, misses := After(cfg, dcfg, p, arrivals), Misses(cfg, dcfg, p, arrivals);
            && SliceInv(g, cfg, r.state.l2[0], p.Now() + 1) && SliceInv(g, cfg, r.state.l2[1], p.Now() + 1)
            && NoneSilent(r.replies[0]) && NoneSilent(r.replies[1])
            && NoneSilent(Items(misses[0])) && NoneSilent(Items(misses[1]))
  {
    SlicesSettle(g, cfg, dcfg, p, arrivals, 0);
    SlicesSettle(g, cfg, dcfg, p, arrivals, 1);
    hide SliceTurn, SliceInv, PartitionInv, NoneSilent, ArrivalsOk;
  }

  /** The channel's part. */
  lemma ChannelAfter(dcfg: DramConfig, c: Channel, log: Log, misses: seq<Option<Fetch>>)
    requires ChannelInv(dcfg, c, log) && Loud(c, log) && MissesOk(dcfg, c, misses)
    requires NoneSilent(Items(misses[0])) && NoneSilent(Items(misses[1]))
    ensures ChannelInv(dcfg, Stepped(dcfg, c, log, misses), log + [Next(dcfg, c)])
    ensures Loud(Stepped(dcfg, c, log, misses), log + [Next(dcfg, c)])
  {
    assert SlicesOk(dcfg, c) && |misses| == SLICES;
    hide ChannelInv, Loud, MissesOk, NoneSilent, SlicesOk;
    StepKeeps(dcfg, c, log, misses);
    StaysLoud(dcfg, c, log, misses);
  }

  lemma InvFromParts(g: Layout, cfg: L2Config, dcfg: DramConfig, p: Partition)
    requires g.channels > 0 && |p.l2| == SLICES && ChannelInv(dcfg, p.chan, p.log) && Loud(p.chan, p.log)
    requires SliceInv(g, cfg, p.l2[0], p.Now()) && SliceInv(g, cfg, p.l2[1], p.Now())
    ensures PartitionInv(g, cfg, dcfg, p)
  {
  }

  /** It keeps the invariant. */
  lemma PartitionKeeps(g: Layout, cfg: L2Config, dcfg: DramConfig, p: Partition, arrivals: seq<Option<Fetch>>)
    requires g.channels > 0 && dcfg.nbk >= 16 && PartitionInv(g, cfg, dcfg, p) && p.Now() < TagStore.MAX_TIME
    requires ArrivalsOk(g, arrivals) && PartitionCycle(cfg, dcfg, p, arrivals).Ok?
    ensures var r := PartitionCycle(cfg, dcfg, p, arrivals).value;
            && PartitionInv(g, cfg, dcfg, r.state) && r.state.Now() == p.Now() + 1
            && |r.replies| == SLICES && NoneSilent(r.replies[0]) && NoneSilent(r.replies[1])
  {
    PartitionParts(g, cfg, dcfg, p);
    assert |arrivals| == SLICES;
    hide PartitionInv, PartitionCycle, ChannelInv, Loud, SliceInv, HasRoom, BanksInRange, SliceTurn, Stepped,
         NoneSilent, Next, ArrivalsOk;
    PartitionOkIff(g, cfg, dcfg, p, arrivals);
    MissesInRange(g, cfg, dcfg, p, arrivals);
    SlicesAfter(g, cfg, dcfg, p, arrivals);
    ChannelAfter(dcfg, p.chan, p.log, Misses(cfg, dcfg, p, arrivals));
    InvFromParts(g, cfg, dcfg, After(cfg, dcfg, p, arrivals).state);
  }

  lemma AfterIsFormed(cfg: L2Config, dcfg: DramConfig, p: Partition, arrivals: seq<Option<Fetch>>)
    requires Formed(cfg, p) && |arrivals| == SLICES
    requires SliceTurn(cfg, dcfg, p, 0, arrivals).Ok? && SliceTurn(cfg, dcfg, p, 1, arrivals).Ok?
    ensures var r := After(cfg, dcfg, p, arrivals);
            |r.replies| == SLICES == |r.state.l2| == |r.state.chan.slices| == |p.l2| == |p.chan.slices|
  {
    hide SliceTurn, Next;
  }

  /** What slice k held or received, it holds or has replied. */
  lemma PartitionBalances(g: Layout, cfg: L2Config, dcfg: DramConfig, p: Partition, arrivals: seq<Option<Fetch>>,
                          k: nat, key: Fetch)
    requires g.channels > 0 && dcfg.nbk >= 16 && PartitionInv(g, cfg, dcfg, p) && p.Now() < TagStore.MAX_TIME
    requires ArrivalsOk(g, arrivals) && PartitionCycle(cfg, dcfg, p, arrivals).Ok? && k < SLICES
    ensures var r := PartitionCycle(cfg, dcfg, p, arrivals).value;
            && |r.replies| == SLICES == |r.state.l2| == |r.state.chan.slices| == |p.l2| == |p.chan.slices|
            && |r.state.l2[k].toSms| == REPLY_QUEUES == |p.l2[k].toSms|
            && Held(dcfg, r.state, k, key) + Tally(r.replies[k], key)
               == Held(dcfg, p, k, key) + Tally(Items(arrivals[k]), key)
  {
    hide PartitionInv, PartitionCycle, ChannelInv, Loud, SlicesOk, SliceInv, L2Inv, HasRoom, Stepped, Inside,
         InChannelOf, Tally, Next,
         L2Cache.Cycle, DramInv.Share, Due, Items, Aimed, Formed;
    PartitionParts(g, cfg, dcfg, p);
    PartitionOkIff(g, cfg, dcfg, p, arrivals);
    AfterIsFormed(cfg, dcfg, p, arrivals);
    ArrivalHasSector(g, arrivals, k);
    InvIsShaped(cfg, p.l2[k], p.Now());
    CycleBalances(cfg, p.l2[k], p.Now(), DramInv.Share(dcfg, Due(dcfg, p.log), k), arrivals[k], key);
    ChannelBalances(dcfg, p.chan, p.log, Misses(cfg, dcfg, p, arrivals), k, key);
  }
}
