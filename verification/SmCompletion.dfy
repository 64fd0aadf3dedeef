/** The memory half of sm_cycle, seen by the warps: replies take requests off the counters, and a slot
    whose last request came back in this cycle is complete from this cycle on; nothing else changes. */
module SmCompletion {
  import opened Wrappers
  import opened CacheConfig
  import opened MemFetch
  import opened Warps
  import opened Sm
  import opened SmInv
  import L1Cache
  import Mshr
  import SmHits
  import SmTraffic
  import TagStore

  /** One completion slot over some replies of one cycle. */
  ghost predicate SlotStep(x0: Warp, x: Warp, ci: nat, now: int)
    requires ci < |x0.completions| == |x.completions|
  {
    x.completions[ci] == if x0.Pending(ci) > 0 && x.Pending(ci) == 0 then now else x0.completions[ci]
  }

  ghost predicate WarpStep(x0: Warp, x: Warp, now: int) {
    && x == x0.(pending := x.pending, pendingNum := x.pendingNum, completions := x.completions)
    && |x.completions| == |x0.completions|
    && (forall ci: nat :: 0 <= x.Pending(ci) <= x0.Pending(ci))
    && (forall ci: nat :: ci < |x0.completions| ==> SlotStep(x0, x, ci, now))
  }

  /** The same warps are live, and each has only been answered. */
  ghost predicate Replied(s0: SmState, s: SmState) {
    && s == s0.(blocks := s.blocks, banks := s.banks, l1 := s.l1, nextId := s.nextId, below := s.below)
    && (forall b, w :: Live(s, b, w) <==> Live(s0, b, w))
    && (forall b, w :: Live(s0, b, w) ==> WarpStep(s0.blocks[b][w], s.blocks[b][w], s0.now))
  }

  lemma StepItself(x: Warp, now: int)
    requires CountersOk(x)
    ensures WarpStep(x, x, now)
  {
  }

  lemma StepTwice(x0: Warp, x1: Warp, x2: Warp, now: int)
    requires WarpStep(x0, x1, now) && WarpStep(x1, x2, now)
    ensures WarpStep(x0, x2, now)
  {
    forall ci: nat | ci < |x0.completions| ensures SlotStep(x0, x2, ci, now) {
      assert SlotStep(x0, x1, ci, now) && SlotStep(x1, x2, ci, now);
      assert 0 <= x1.Pending(ci) <= x0.Pending(ci) && 0 <= x2.Pending(ci) <= x1.Pending(ci);
    }
  }

  lemma OneLessIsStep(x: Warp, x': Warp, ci: nat, now: int)
    requires CountersOk(x) && CountersOk(x') && OneLess(x, x', ci, now)
    ensures WarpStep(x, x', now)
  {
    forall j: nat ensures 0 <= x'.Pending(j) <= x.Pending(j) { assert x.Pending(j) >= 0 && x'.Pending(j) >= 0; }
  }

  lemma CountersOf(cfg: SmConfig, s: SmState, b: nat, w: nat)
    requires CoreOk(cfg, s) && Live(s, b, w)
    ensures CountersOk(s.blocks[b][w])
  {
    assert WarpOk(cfg, s.blocks[b][w]);
  }

  lemma RepliedTwice(s0: SmState, s1: SmState, s2: SmState)
    requires Replied(s0, s1) && Replied(s1, s2)
    ensures Replied(s0, s2)
  {
    hide WarpStep;
    forall b, w | Live(s0, b, w) ensures WarpStep(s0.blocks[b][w], s2.blocks[b][w], s0.now) {
      assert Live(s1, b, w);
      StepTwice(s0.blocks[b][w], s1.blocks[b][w], s2.blocks[b][w], s0.now);
    }
  }

  /** A step that leaves the warps alone. */
  lemma SameWarps(cfg: SmConfig, s: SmState, s': SmState)
    requires CoreOk(cfg, s)
    requires s' == s.(banks := s'.banks, l1 := s'.l1, nextId := s'.nextId, below := s'.below)
    ensures Replied(s, s')
  {
    hide CoreOk, WarpStep;
    forall b, w | Live(s, b, w) ensures WarpStep(s.blocks[b][w], s'.blocks[b][w], s.now) {
      CountersOf(cfg, s, b, w);
      StepItself(s.blocks[b][w], s.now);
    }
  }

  lemma PutIsReplied(cfg: SmConfig, s: SmState, b: nat, w: nat, x: Warp)
    requires CoreOk(cfg, s) && Live(s, b, w) && WarpStep(s.blocks[b][w], x, s.now)
    ensures Replied(s, PutWarp(s, b, w, x))
  {
    hide CoreOk, WarpStep;
    PutWarpLive(s, b, w, x);
    var s' := PutWarp(s, b, w, x);
    forall b', w' | Live(s, b', w') ensures WarpStep(s.blocks[b'][w'], s'.blocks[b'][w'], s.now) {
      CountersOf(cfg, s, b', w');
      StepItself(s.blocks[b'][w'], s.now);
    }
  }

  /** A released request takes one from the counter of its own slot, and from no other. */
  lemma ReleaseIsReply(cfg: SmConfig, s: SmState, f: Fetch)
    requires CoreOk(cfg, s) && Release(s, f).Ok?
    ensures Replied(s, Release(s, f).value)
    ensures Live(s, f.block, f.warp) && Live(Release(s, f).value, f.block, f.warp)
    ensures OneLess(s.blocks[f.block][f.warp], Release(s, f).value.blocks[f.block][f.warp], f.ci, s.now)
  {
    var x := s.blocks[f.block][f.warp];
    CountersOf(cfg, s, f.block, f.warp);
    DecreaseKeepsCounters(x, f.ci, s.now);
    OneLessIsStep(x, x.Decrease(f.ci, s.now).value, f.ci, s.now);
    PutIsReplied(cfg, s, f.block, f.warp, x.Decrease(f.ci, s.now).value);
  }

  lemma InvCore(cfg: SmConfig, s: SmState)
    requires Inv(cfg, s)
    ensures CoreOk(cfg, s)
  {
  }

  lemma PoppedHit(cfg: SmConfig, s: SmState)
    requires CoreOk(cfg, s) && s.l1.toSm != []
    ensures CoreOk(cfg, s.(l1 := s.l1.(toSm := s.l1.toSm[1..])))
  {
  }

  lemma {:induction false} HitsReply(cfg: SmConfig, s: SmState)
    requires Inv(cfg, s)
    ensures WriteBackHits(s).Ok? && Replied(s, WriteBackHits(s).value)
    decreases |s.l1.toSm|
  {
    hide *;
    SmHits.HitsUnfold(s);
    InvCore(cfg, s);
    if s.l1.toSm == [] || s.l1.toSm[0].l1Ready > s.now {
      SameWarps(cfg, s, s);
    } else {
      var popped := s.(l1 := s.l1.(toSm := s.l1.toSm[1..]));
      HitSettles(cfg, s);
      PoppedHit(cfg, s);
      ReleaseIsReply(cfg, popped, s.l1.toSm[0]);
      var next := Release(popped, s.l1.toSm[0]).value;
      HitsReply(cfg, next);
      SameWarps(cfg, s, popped);
      RepliedTwice(s, popped, next);
      RepliedTwice(s, next, WriteBackHits(next).value);
    }
  }

  lemma PoppedEntry(cfg: SmConfig, s: SmState, sa: nat)
    requires CoreOk(cfg, s) && sa in s.l1.mshr && s.l1.mshr[sa] != []
    ensures CoreOk(cfg, s.(l1 := s.l1.(mshr := Mshr.AfterNext(s.l1.mshr, sa))))
  {
  }

  /** One round of the drain loop, as DrainRoundSettles gives it, answers one request. */
  lemma DrainRoundReplies(cfg: SmConfig, s: SmState, f: Fetch) returns (s2: SmState)
    requires DrainReady(cfg, s, f) && f.SectorAddr() in s.l1.mshr
    ensures DrainRound(cfg, s, f, s2) && Replied(s, s2)
  {
    hide CoreOk, LedgerOk, DrainReady, TagStore.TagInv, DrainEntry, Release, Replied;
    var sa := f.SectorAddr();
    ReadyParts(cfg, s, f);
    s2 := DrainRoundSettles(cfg, s, f);
    var popped := s.(l1 := s.l1.(mshr := Mshr.AfterNext(s.l1.mshr, sa)));
    var s1 := Release(popped, s.l1.mshr[sa][0]).value;
    ReadyParts(cfg, s2, f);
    PoppedEntry(cfg, s, sa);
    ReleaseIsReply(cfg, popped, s.l1.mshr[sa][0]);
    SameWarps(cfg, s, popped);
    OtherLines(cfg, s2, s1);
    RepliedTwice(s, popped, s1);
    RepliedTwice(s, s1, s2);
  }

  /** The tags do not matter to the warps. */
  lemma OtherLines(cfg: SmConfig, s2: SmState, s1: SmState)
    requires CoreOk(cfg, s2) && s1 == s2.(l1 := s1.l1)
    ensures Replied(s1, s2)
  {
    hide CoreOk, WarpStep;
    forall b, w | Live(s1, b, w) ensures WarpStep(s1.blocks[b][w], s2.blocks[b][w], s1.now) {
      CountersOf(cfg, s2, b, w);
      StepItself(s2.blocks[b][w], s1.now);
    }
  }

  lemma {:induction false} DrainReplies(cfg: SmConfig, s: SmState, f: Fetch)
    requires DrainReady(cfg, s, f)
    ensures Shaped(cfg, s) && f.sector < SECTORS
    ensures DrainEntry(cfg, s, f).Ok? && Replied(s, DrainEntry(cfg, s, f).value)
    decreases if f.SectorAddr() in s.l1.mshr then 1 + |s.l1.mshr[f.SectorAddr()]| else 0
  {
    ReadyParts(cfg, s, f);
    DrainSettles(cfg, s, f);
    if f.SectorAddr() in s.l1.mshr {
      hide CoreOk, LedgerOk, DrainReady, TagStore.TagInv, DrainEntry, Release, Replied;
      var s2 := DrainRoundReplies(cfg, s, f);
      DrainReplies(cfg, s2, f);
      RepliedTwice(s, s2, DrainEntry(cfg, s2, f).value);
    } else {
      SameWarps(cfg, s, s);
    }
  }

  lemma ReplyReplies(cfg: SmConfig, s: SmState, input: SmInput)
    requires Inv(cfg, s) && ReplyOk(s, input) && s.now < TagStore.MAX_TIME
    ensures Shaped(cfg, s)
    ensures var r := WriteBackReply(cfg, s, input.reply); r.Ok? && Replied(s, r.value)
  {
    hide CoreOk, LedgerOk, TagStore.TagInv, Release, Replied, DrainEntry;
    SmTraffic.InvParts(cfg, s);
    InvCore(cfg, s);
    ReplySettles(cfg, s, input);
    if input.reply.Some? {
      var i := input.reply.value;
      var f, popped := s.below[i], s.(below := s.below[..i] + s.below[i + 1..]);
      SendableBelow(cfg, s, i);
      SameWarps(cfg, s, popped);
      PoppedCore(cfg, s, i);
      if f.isWrite {
        StoreIsReleased(cfg, s, i);
        ReleaseIsReply(cfg, popped, f);
      } else {
        LoadIsReady(cfg, s, i);
        DrainReplies(cfg, popped, f);
      }
      RepliedTwice(s, popped, WriteBackReply(cfg, s, input.reply).value);
    } else {
      SameWarps(cfg, s, s);
    }
  }

  lemma SendableBelow(cfg: SmConfig, s: SmState, i: nat)
    requires Inv(cfg, s) && i < |s.below| && s.below[i].writeType != WriteThroughL2
    ensures s.below[i].Aligned() && s.below[i].sector < SECTORS && (s.below[i].isWrite ==> s.below[i].ForwardedWrite())
  {
    assert L1Cache.Sendable(s.below[i]);
  }

  lemma SendMissReplies(cfg: SmConfig, s: SmState, hasBuffer: bool)
    requires Inv(cfg, s)
    ensures Replied(s, SendMiss(cfg, s, hasBuffer))
  {
    hide CoreOk, Replied;
    InvCore(cfg, s);
    SameWarps(cfg, s, SendMiss(cfg, s, hasBuffer));
  }

  lemma BanksReply(cfg: SmConfig, s: SmState, bank: nat)
    requires Inv(cfg, s) && bank <= SECTORS && s.now < TagStore.MAX_TIME
    ensures Shaped(cfg, s)
    ensures var r := AccessBanks(cfg, s, bank); r.Ok? && Replied(s, r.value)
  {
    hide CoreOk, Replied, L1Cache.SameHits, L1Cache.MshrFull;
    InvCore(cfg, s);
    SmTraffic.InvParts(cfg, s);
    SmHits.EveryBankIsServed(cfg, s, bank);
    SameWarps(cfg, s, AccessBanks(cfg, s, bank).value);
  }

  lemma L1CycleReplies(cfg: SmConfig, s: SmState, hasBuffer: bool)
    requires Inv(cfg, s) && s.now < TagStore.MAX_TIME
    ensures Shaped(cfg, s)
    ensures var r := L1Cycle(cfg, s, hasBuffer); r.Ok? && Replied(s, r.value)
  {
    hide Inv, Replied, AccessBanks, Shaped;
    SmTraffic.InvParts(cfg, s);
    SendMissSettles(cfg, s, hasBuffer);
    SendMissReplies(cfg, s, hasBuffer);
    BanksReply(cfg, SendMiss(cfg, s, hasBuffer), 0);
    RepliedTwice(s, SendMiss(cfg, s, hasBuffer), AccessBanks(cfg, SendMiss(cfg, s, hasBuffer), 0).value);
  }

  /** The memory half of a cycle: for every live warp and slot, the counter only falls, and the slot is
      complete from this cycle on if and only if its counter fell to 0 in this cycle; all other
      completion times, and everything else of the warp, stay. */
  lemma MemoryReplies(cfg: SmConfig, s: SmState, input: SmInput)
    requires Inv(cfg, s) && ReplyOk(s, input) && s.now < TagStore.MAX_TIME
    ensures Shaped(cfg, s)
    ensures var r := MemoryPhase(cfg, s, input); r.Ok? && Inv(cfg, r.value) && Replied(s, r.value)
  {
    SmTraffic.InvParts(cfg, s);
    SmTraffic.HitsTraffic(cfg, s);
    var s1 := WriteBackHits(s).value;
    assert ReplyOk(s1, input);
    hide Inv, Shaped, WriteBackHits, WriteBackReply, L1Cycle, Replied;
    SmTraffic.InvParts(cfg, s1);
    MemoryPhaseSettles(cfg, s, input);
    HitsReply(cfg, s);
    ReplyReplies(cfg, s1, input);
    ReplySettles(cfg, s1, input);
    var s2 := WriteBackReply(cfg, s1, input.reply).value;
    L1CycleReplies(cfg, s2, input.hasBuffer);
    RepliedTwice(s, s1, s2);
    RepliedTwice(s, s2, L1Cycle(cfg, s2, input.hasBuffer).value);
  }
}
