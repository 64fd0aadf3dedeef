/** The memory side as a whole: a DRAM channel and its two L2 slices running together. */
module MemoryRuns {
  import opened Wrappers
  import opened MemFetch
  import opened Dram
  import opened DramInv
  import opened GpuPackets
  import opened L2Cache
  import L2Service
  import TagStore

  /** dram is the channel's run; l2[t][k] is slice k before cycle t, arrivals[t][k] the packet it
      receives from the crossbar in cycle t, and replies[t][k] what it pushes to SMs. */
  datatype PartitionRun = PartitionRun(dram: Run, l2: seq<seq<L2State>>, arrivals: Inputs,
                                       replies: seq<seq<seq<Fetch>>>)
  {
    function Length(): nat { |arrivals| }

    ghost predicate Valid() {
      && dram.Valid() && |dram.inputs| == |arrivals| == |replies| && |l2| == |arrivals| + 1
      && Paired(arrivals) && (forall t :: 0 <= t < |l2| ==> |l2[t]| == SLICES)
      && (forall t :: 0 <= t < |replies| ==> |replies[t]| == SLICES)
    }
  }

  /** The configuration of a channel and its slices, and the devices of the GPU. */
  datatype MemoryConfig = MemoryConfig(l2: L2Config, dram: DramConfig, layout: Layout) {
    /** The decoding extracts four bank bits. */
    predicate Ok() { ConfigOk(l2) && layout.channels > 0 && dram.nbk >= 16 }
  }

  /** Slice k in cycle t: it gets what DRAM returns to it, and what it misses is what DRAM gets. */
  ghost predicate SliceStep(cfg: L2Config, r: PartitionRun, t: nat, k: nat)
    requires r.Valid() && t < r.Length() && k < SLICES
  {
    && Shaped(cfg, r.l2[t][k])
    && L2Cache.Cycle(cfg, r.l2[t][k], t, r.dram.outs[t][k], r.arrivals[t][k])
       == Ok(Cycled(r.l2[t + 1][k], r.replies[t][k], r.dram.inputs[t][k]))
  }

  ghost predicate ArrivalOk(m: MemoryConfig, r: PartitionRun, t: nat, k: nat)
    requires m.layout.channels > 0 && r.Valid() && t < r.Length() && k < SLICES
  {
    r.arrivals[t][k].Some? ==> Aimed(m.layout, r.arrivals[t][k].value)
  }

  /** The channel and both slices start fresh and go on cycle by cycle. */
  ghost predicate IsPartitionRun(m: MemoryConfig, r: PartitionRun) {
    && m.Ok() && r.Valid() && IsTrace(m.dram, r.dram)
    && (forall k :: 0 <= k < SLICES ==> r.l2[0][k] == FreshL2(m.l2))
    && (forall t, k :: 0 <= t < r.Length() && 0 <= k < SLICES ==> SliceStep(m.l2, r, t, k) && ArrivalOk(m, r, t, k))
  }

  /** Replies of slice k in the first n cycles, in order. */
  function AllReplies(r: PartitionRun, k: nat, n: nat): seq<Fetch>
    requires k < SLICES && n <= |r.replies| && forall t :: 0 <= t < |r.replies| ==> |r.replies[t]| == SLICES
  {
    if n == 0 then [] else AllReplies(r, k, n - 1) + r.replies[n - 1][k]
  }

  /** One step of a slice keeps its invariant ... */
  lemma SliceStepKeeps(m: MemoryConfig, r: PartitionRun, t: nat, k: nat)
    requires m.layout.channels > 0 && r.Valid() && t < r.Length() && t < TagStore.MAX_TIME && k < SLICES
    requires SliceStep(m.l2, r, t, k) && ArrivalOk(m, r, t, k) && L2Inv(m.l2, r.l2[t][k], t)
    ensures L2Inv(m.l2, r.l2[t + 1][k], t + 1)
  {
    CycleKeeps(m.l2, r.l2[t][k], t, r.dram.outs[t][k], r.arrivals[t][k]);
    LaterStillOk(m.l2, r.l2[t + 1][k], t, t + 1);
  }

  /** ... and its packets stay aimed at their banks. */
  lemma SliceStepAims(m: MemoryConfig, r: PartitionRun, t: nat, k: nat)
    requires m.layout.channels > 0 && r.Valid() && t < r.Length() && t < TagStore.MAX_TIME && k < SLICES
    requires SliceStep(m.l2, r, t, k) && ArrivalOk(m, r, t, k) && L2Inv(m.l2, r.l2[t][k], t)
    requires AllAimed(m.layout, r.l2[t][k].l1ToL2)
    ensures AllAimed(m.layout, r.l2[t + 1][k].l1ToL2)
    ensures r.dram.inputs[t][k].Some? ==> Aimed(m.layout, r.dram.inputs[t][k].value)
  {
    hide L2Inv, L2Cache.Cycle, Shaped, Aimed, AllAimed;
    if r.arrivals[t][k].Some? { AimedIsAligned(m.layout, r.arrivals[t][k].value); }
    MissIsFront(m.l2, r.l2[t][k], t, r.dram.outs[t][k], r.arrivals[t][k]);
    JoinedAimed(m.layout, r.l2[t][k].l1ToL2, r.arrivals[t][k]);
    FrontAimed(m.layout, r.l2[t][k].l1ToL2 + Items(r.arrivals[t][k]), r.l2[t + 1][k].l1ToL2, r.dram.inputs[t][k]);
  }

  lemma AimedIsAligned(g: Layout, f: Fetch)
    requires g.channels > 0 && Aimed(g, f)
    ensures f.Aligned()
  {
  }

  lemma StepOfRun(m: MemoryConfig, r: PartitionRun, t: nat, k: nat)
    requires IsPartitionRun(m, r) && t < r.Length() && k < SLICES
    ensures SliceStep(m.l2, r, t, k) && ArrivalOk(m, r, t, k)
  {
  }

  lemma SliceStarts(m: MemoryConfig, r: PartitionRun, k: nat)
    requires IsPartitionRun(m, r) && k < SLICES
    ensures L2Inv(m.l2, r.l2[0][k], 0) && AllAimed(m.layout, r.l2[0][k].l1ToL2)
  {
    InitialL2(m.l2);
  }

  lemma SliceAdvances(m: MemoryConfig, r: PartitionRun, k: nat, t: nat)
    requires IsPartitionRun(m, r) && k < SLICES && t < r.Length() < TagStore.MAX_TIME
    requires L2Inv(m.l2, r.l2[t][k], t) && AllAimed(m.layout, r.l2[t][k].l1ToL2)
    ensures L2Inv(m.l2, r.l2[t + 1][k], t + 1) && AllAimed(m.layout, r.l2[t + 1][k].l1ToL2)
  {
    StepOfRun(m, r, t, k);
    SliceStepKeeps(m, r, t, k);
    SliceStepAims(m, r, t, k);
  }

  lemma {:induction false} SliceKeeps(m: MemoryConfig, r: PartitionRun, k: nat, n: nat)
    requires IsPartitionRun(m, r) && k < SLICES && n <= r.Length() < TagStore.MAX_TIME
    ensures L2Inv(m.l2, r.l2[n][k], n) && AllAimed(m.layout, r.l2[n][k].l1ToL2)
  {
    hide *;
    if n == 0 {
      SliceStarts(m, r, k);
    } else {
      SliceKeeps(m, r, k, n - 1);
      SliceAdvances(m, r, k, n - 1);
    }
  }

  /** In every run a way of a slice without a valid sector still has tag 0. */
  lemma IdleWaysHaveTagZero(m: MemoryConfig, r: PartitionRun, k: nat, n: nat, i: nat)
    requires IsPartitionRun(m, r) && k < SLICES && n <= r.Length() < TagStore.MAX_TIME
    requires i < |r.l2[n][k].lines| && r.l2[n][k].lines[i].IsInvalid()
    ensures r.l2[n][k].lines[i].tag == 0
  {
    SliceKeeps(m, r, k, n);
    assert TagStore.SettledLine(r.l2[n][k].lines[i]);
  }

  /** Because addresses are decoded to banks below 16, every miss is for an existing bank. */
  lemma MissesAreInRange(m: MemoryConfig, r: PartitionRun, t: nat)
    requires IsPartitionRun(m, r) && t < r.Length() < TagStore.MAX_TIME
    ensures BanksInRange(m.dram, r.dram.inputs[t])
  {
    forall k | 0 <= k < SLICES && r.dram.inputs[t][k].Some? ensures RequestOk(m.dram, r.dram.inputs[t][k].value) {
      SliceKeeps(m, r, k, t);
      StepOfRun(m, r, t, k);
      SliceStepAims(m, r, t, k);
      HomeIsASlice(m.layout, r.dram.inputs[t][k].value);
    }
  }

  lemma ChannelRuns(m: MemoryConfig, r: PartitionRun)
    requires IsPartitionRun(m, r) && r.Length() < TagStore.MAX_TIME
    ensures IsRun(m.dram, r.dram)
  {
    forall t | 0 <= t < |r.dram.inputs| ensures BanksInRange(m.dram, r.dram.inputs[t]) { MissesAreInRange(m, r, t); }
  }

  lemma ColumnStep(rows: Inputs, k: nat, t: nat, key: Fetch)
    requires Paired(rows) && k < SLICES && t < |rows|
    ensures Tally(Column(rows, k, t + 1), key) == Tally(Column(rows, k, t), key) + Tally(Items(rows[t][k]), key)
  {
    TallyAppend(Column(rows, k, t), Items(rows[t][k]), key);
  }

  lemma RepliesStep(r: PartitionRun, k: nat, t: nat, key: Fetch)
    requires k < SLICES && t < |r.replies| && forall i :: 0 <= i < |r.replies| ==> |r.replies[i]| == SLICES
    ensures Tally(AllReplies(r, k, t + 1), key) == Tally(AllReplies(r, k, t), key) + Tally(r.replies[t][k], key)
  {
    TallyAppend(AllReplies(r, k, t), r.replies[t][k], key);
  }

  /** One cycle of slice k. */
  lemma CycleOfRunBalances(m: MemoryConfig, r: PartitionRun, k: nat, t: nat, key: Fetch)
    requires IsPartitionRun(m, r) && k < SLICES && t < r.Length() < TagStore.MAX_TIME
    ensures |r.l2[t][k].toSms| == |r.l2[t + 1][k].toSms| == REPLY_QUEUES
    ensures Tally(r.replies[t][k], key) + Tally(Items(r.dram.inputs[t][k]), key) + Inside(r.l2[t + 1][k], key)
            == Inside(r.l2[t][k], key) + Tally(Items(r.dram.outs[t][k]), key) + Tally(Items(r.arrivals[t][k]), key)
  {
    SliceKeeps(m, r, k, t);
    StepOfRun(m, r, t, k);
    hide L2Cache.Cycle, IsPartitionRun;
    CycleBalances(m.l2, r.l2[t][k], t, r.dram.outs[t][k], r.arrivals[t][k], key);
  }

  lemma SliceStepBalances(m: MemoryConfig, r: PartitionRun, k: nat, t: nat, key: Fetch)
    requires IsPartitionRun(m, r) && k < SLICES && t < r.Length() < TagStore.MAX_TIME
    requires |r.l2[t][k].toSms| == REPLY_QUEUES
    requires Tally(Column(r.arrivals, k, t), key) + Tally(Column(r.dram.outs, k, t), key)
             == Tally(AllReplies(r, k, t), key) + Tally(Column(r.dram.inputs, k, t), key) + Inside(r.l2[t][k], key)
    ensures |r.l2[t + 1][k].toSms| == REPLY_QUEUES
    ensures Tally(Column(r.arrivals, k, t + 1), key) + Tally(Column(r.dram.outs, k, t + 1), key)
            == Tally(AllReplies(r, k, t + 1), key) + Tally(Column(r.dram.inputs, k, t + 1), key)
               + Inside(r.l2[t + 1][k], key)
  {
    hide Tally, Column, AllReplies, Inside;
    CycleOfRunBalances(m, r, k, t, key);
    ColumnStep(r.arrivals, k, t, key);
    ColumnStep(r.dram.outs, k, t, key);
    ColumnStep(r.dram.inputs, k, t, key);
    RepliesStep(r, k, t, key);
  }

  /** The packets of slice k in its first n cycles: arrivals and returns from DRAM are replies,
      misses and what is still inside. */
  lemma {:induction false} SliceBalances(m: MemoryConfig, r: PartitionRun, k: nat, n: nat, key: Fetch)
    requires IsPartitionRun(m, r) && k < SLICES && n <= r.Length() < TagStore.MAX_TIME
    ensures |r.l2[n][k].toSms| == REPLY_QUEUES
    ensures Tally(Column(r.arrivals, k, n), key) + Tally(Column(r.dram.outs, k, n), key)
            == Tally(AllReplies(r, k, n), key) + Tally(Column(r.dram.inputs, k, n), key) + Inside(r.l2[n][k], key)
  {
    hide *;
    RunLengths(m, r);
    if n == 0 {
      NothingYet(m, r, k, key);
    } else {
      SliceBalances(m, r, k, n - 1, key);
      SliceStepBalances(m, r, k, n - 1, key);
    }
  }

  lemma RunLengths(m: MemoryConfig, r: PartitionRun)
    requires IsPartitionRun(m, r)
    ensures r.Valid() && |r.l2| == r.Length() + 1 && forall t :: 0 <= t < |r.l2| ==> |r.l2[t]| == SLICES
  {
  }

  lemma NothingYet(m: MemoryConfig, r: PartitionRun, k: nat, key: Fetch)
    requires IsPartitionRun(m, r) && k < SLICES
    ensures |r.l2[0][k].toSms| == REPLY_QUEUES && Inside(r.l2[0][k], key) == 0
    ensures Tally(Column(r.arrivals, k, 0), key) == Tally(Column(r.dram.outs, k, 0), key) == 0
    ensures Tally(AllReplies(r, k, 0), key) == Tally(Column(r.dram.inputs, k, 0), key) == 0
  {
  }

  lemma {:induction false} MarkingKeepsTally(dcfg: DramConfig, k: nat, q: seq<Fetch>, key: Fetch)
    ensures Tally(MarkAll(dcfg, k, q), key) == Tally(q, key)
  {
    if q != [] {
      MarkingKeepsTally(dcfg, k, q[1..], key);
      assert MarkAll(dcfg, k, q)[1..] == MarkAll(dcfg, k, q[1..]);
    }
  }

  /** Requests of slice k inside its channel after n cycles: accepted but not yet returned, or queued. */
  ghost function InChannel(dcfg: DramConfig, r: PartitionRun, k: nat, key: Fetch): nat
    requires r.Valid() && k < SLICES
  {
    var n := r.Length();
    Tally(SharesFrom(dcfg, LogOf(dcfg, r.dram, n), k, n - Latency(dcfg)), key)
        + Tally(Waiting(r.dram.states[n], k), key)
  }

  lemma TallyThree(a: seq<Fetch>, b: seq<Fetch>, c: seq<Fetch>, key: Fetch)
    ensures Tally(a + b + c, key) == Tally(a, key) + Tally(b, key) + Tally(c, key)
  {
    TallyAppend(a + b, c, key);
    TallyAppend(a, b, key);
  }

  lemma ChannelBalances(dcfg: DramConfig, r: PartitionRun, k: nat, key: Fetch)
    requires r.Valid() && IsRun(dcfg, r.dram) && k < SLICES
    ensures Tally(Column(r.dram.inputs, k, r.Length()), key)
            == Tally(Column(r.dram.outs, k, r.Length()), key) + InChannel(dcfg, r, k, key)
  {
    var n, log := r.Length(), LogOf(dcfg, r.dram, r.Length());
    var flying, waiting := SharesFrom(dcfg, log, k, n - Latency(dcfg)), Waiting(r.dram.states[n], k);
    EveryMissReturnsOnceInOrder(dcfg, r.dram, k);
    TallyThree(Column(r.dram.outs, k, n), flying, MarkAll(dcfg, k, waiting), key);
    MarkingKeepsTally(dcfg, k, Column(r.dram.inputs, k, n), key);
    MarkingKeepsTally(dcfg, k, waiting, key);
  }

  /** End-to-end conservation of the memory side, for every run of fewer than 2^32 - 1 cycles: of the
      requests that reached slice k and look like `key` to their SM (same id, SM, address, sector, block,
      warp and completion slot), write-through copies aside, each was replied to exactly once, with
      that very record, or is still in the slice, or still in its DRAM channel. */
  lemma AnsweredExactlyOnce(m: MemoryConfig, r: PartitionRun, k: nat, key: Fetch)
    requires IsPartitionRun(m, r) && k < SLICES && r.Length() < TagStore.MAX_TIME
    ensures |r.l2[r.Length()][k].toSms| == REPLY_QUEUES
    ensures Tally(Column(r.arrivals, k, r.Length()), key)
            == Tally(AllReplies(r, k, r.Length()), key) + Inside(r.l2[r.Length()][k], key)
                + InChannel(m.dram, r, k, key)
  {
    ChannelRuns(m, r);
    SliceBalances(m, r, k, r.Length(), key);
    ChannelBalances(m.dram, r, k, key);
  }

  lemma OneMissIsNotSilent(m: MemoryConfig, r: PartitionRun, k: nat, t: nat)
    requires IsPartitionRun(m, r) && k < SLICES && t < r.Length() < TagStore.MAX_TIME
    ensures NoneSilent(Items(r.dram.inputs[t][k]))
  {
    SliceKeeps(m, r, k, t);
    StepOfRun(m, r, t, k);
    MissIsNotSilent(m.l2, r.l2[t][k], t, r.dram.outs[t][k], r.arrivals[t][k]);
  }

  lemma BothNotSilent(p: seq<Fetch>, q: seq<Fetch>)
    requires NoneSilent(p) && NoneSilent(q)
    ensures NoneSilent(p + q)
  {
  }

  lemma {:induction false} MissesAreNotSilent(m: MemoryConfig, r: PartitionRun, k: nat, n: nat)
    requires IsPartitionRun(m, r) && k < SLICES && n <= r.Length() < TagStore.MAX_TIME
    ensures NoneSilent(Column(r.dram.inputs, k, n))
  {
    if n > 0 {
      MissesAreNotSilent(m, r, k, n - 1);
      OneMissIsNotSilent(m, r, k, n - 1);
      BothNotSilent(Column(r.dram.inputs, k, n - 1), Items(r.dram.inputs[n - 1][k]));
    }
  }

  lemma {:induction false} MarkedNotSilent(dcfg: DramConfig, k: nat, q: seq<Fetch>)
    requires NoneSilent(q)
    ensures NoneSilent(MarkAll(dcfg, k, q))
  {
    if q != [] {
      MarkedNotSilent(dcfg, k, q[1..]);
      assert !Silent(q[0]);
    }
  }

  lemma PrefixNotSilent(p: seq<Fetch>, q: seq<Fetch>)
    requires NoneSilent(p + q)
    ensures NoneSilent(p)
  {
    forall i | 0 <= i < |p| ensures !Silent(p[i]) { assert (p + q)[i] == p[i]; }
  }

  lemma ReturnsAreNotSilent(m: MemoryConfig, r: PartitionRun, k: nat)
    requires IsPartitionRun(m, r) && k < SLICES && r.Length() < TagStore.MAX_TIME
    ensures NoneSilent(Column(r.dram.outs, k, r.Length()))
  {
    var n, log := r.Length(), LogOf(m.dram, r.dram, r.Length());
    ChannelRuns(m, r);
    MissesAreNotSilent(m, r, k, n);
    MarkedNotSilent(m.dram, k, Column(r.dram.inputs, k, n));
    EveryMissReturnsOnceInOrder(m.dram, r.dram, k);
    var flying := SharesFrom(m.dram, log, k, n - Latency(m.dram));
    PrefixNotSilent(Column(r.dram.outs, k, n) + flying, MarkAll(m.dram, k, Waiting(r.dram.states[n], k)));
    PrefixNotSilent(Column(r.dram.outs, k, n), flying);
  }

  lemma {:induction false} ColumnMember(rows: Inputs, k: nat, n: nat, t: nat)
    requires Paired(rows) && k < SLICES && t < n <= |rows| && NoneSilent(Column(rows, k, n))
    ensures NoneSilent(Items(rows[t][k]))
  {
    var before, last := Column(rows, k, n - 1), Items(rows[n - 1][k]);
    if t < n - 1 {
      PrefixNotSilent(before, last);
      ColumnMember(rows, k, n - 1, t);
    } else if rows[t][k].Some? {
      assert Column(rows, k, n)[|before|] == rows[t][k].value;
    }
  }

  /** In every run, no write-through copy is ever replied to. */
  lemma CopiesAreNeverAnswered(m: MemoryConfig, r: PartitionRun, k: nat, t: nat)
    requires IsPartitionRun(m, r) && k < SLICES && t < r.Length() < TagStore.MAX_TIME
    ensures NoneSilent(r.replies[t][k])
  {
    SliceKeeps(m, r, k, t);
    StepOfRun(m, r, t, k);
    ReturnsAreNotSilent(m, r, k);
    ColumnMember(r.dram.outs, k, r.Length(), t);
    SilentStaysSilent(m.l2, r.l2[t][k], t, r.dram.outs[t][k], r.arrivals[t][k]);
  }

  // ---------------------------------------------------------------- service

  lemma SliceStepPunctual(m: MemoryConfig, r: PartitionRun, k: nat, t: nat)
    requires IsPartitionRun(m, r) && k < SLICES && t < r.Length() < TagStore.MAX_TIME
    requires L2Inv(m.l2, r.l2[t][k], t) && L2Service.Punctual(m.l2, r.l2[t][k], t)
    ensures L2Service.Punctual(m.l2, r.l2[t + 1][k], t + 1)
    ensures var back := Items(r.dram.outs[t][k]);
            && |back| <= |r.replies[t][k]| && r.replies[t][k][..|back|] == back
            && L2Service.AllLeave(m.l2, r.replies[t][k][|back|..], t)
  {
    StepOfRun(m, r, t, k);
    L2Service.CycleIsPunctual(m.l2, r.l2[t][k], t, r.dram.outs[t][k], r.arrivals[t][k]);
  }

  lemma {:induction false} SliceIsPunctual(m: MemoryConfig, r: PartitionRun, k: nat, n: nat)
    requires IsPartitionRun(m, r) && k < SLICES && n <= r.Length() < TagStore.MAX_TIME
    ensures L2Inv(m.l2, r.l2[n][k], n) && L2Service.Punctual(m.l2, r.l2[n][k], n)
  {
    SliceKeeps(m, r, k, n);
    if n == 0 {
      L2Service.FreshIsPunctual(m.l2);
    } else {
      SliceIsPunctual(m, r, k, n - 1);
      SliceStepPunctual(m, r, k, n - 1);
    }
  }

  /** In every cycle of every run a slice sends what DRAM returns to it and then exactly the answers
      whose latency ends in that cycle. */
  lemma AnswersLeaveOnTime(m: MemoryConfig, r: PartitionRun, k: nat, t: nat)
    requires IsPartitionRun(m, r) && k < SLICES && t < r.Length() < TagStore.MAX_TIME
    ensures var back := Items(r.dram.outs[t][k]);
            && |back| <= |r.replies[t][k]| && r.replies[t][k][..|back|] == back
            && L2Service.AllLeave(m.l2, r.replies[t][k][|back|..], t)
    ensures L2Service.NoneDue(m.l2, r.l2[t + 1][k], t)
  {
    SliceIsPunctual(m, r, k, t);
    SliceStepPunctual(m, r, k, t);
    L2Service.PunctualIsNotDue(m.l2, r.l2[t + 1][k], t);
  }

  /** In every run: when DRAM returns a load that an entry waits for, the next request for its sector,
      looked at in the same cycle, is answered by the slice and not sent to DRAM again. */
  lemma ReturnedSectorIsServed(m: MemoryConfig, r: PartitionRun, k: nat, t: nat, g: Fetch)
    requires IsPartitionRun(m, r) && k < SLICES && t < r.Length() < TagStore.MAX_TIME
    requires var back := r.dram.outs[t][k];
             back.Some? && back.value.SectorAddr() in r.l2[t][k].mshr && g.SectorAddr() == back.value.SectorAddr()
    requires var all := r.l2[t][k].l1ToL2 + Items(r.arrivals[t][k]); all != [] && all[0] == g && !Silent(g)
    ensures r.dram.inputs[t][k].None? && r.l2[t + 1][k].l1ToL2 == (r.l2[t][k].l1ToL2 + Items(r.arrivals[t][k]))[1..]
    ensures L2Service.HoldsAnswer(r.l2[t + 1][k], L2Service.Answer(m.l2, g, t))
  {
    SliceKeeps(m, r, k, t);
    StepOfRun(m, r, t, k);
    var back, arrival := r.dram.outs[t][k].value, r.arrivals[t][k];
    hide IsPartitionRun, L2Service.Answered, L2Cache.Cycle;
    L2Service.ReturnedThenHits(m.l2, r.l2[t][k], t, back, arrival, g);
    var before := L2Service.Midway(m.l2, r.l2[t][k], t, Some(back), arrival).toSms;
    L2Service.AnsweredIsHeld(m.l2, before, r.l2[t + 1][k], g, t);
  }
}
