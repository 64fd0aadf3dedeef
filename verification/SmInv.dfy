/** The invariant of every reachable SM state: pending counters equal the requests outstanding,
    units and warps agree, and the L1 invariant holds. */
module SmInv {
  import opened Wrappers
  import opened CacheConfig
  import opened MemFetch
  import opened Warps
  import opened Sm
  import opened Ledger
  import L1Cache
  import L1Service
  import Mshr
  import TagFills
  import TagStore

  /** Requests of the ticket in every container that owes an answer. */
  ghost function Owed(s: SmState, t: Ticket): nat {
    CountBanks(s.banks, t) + CountMshr(s.l1.mshr, t) + Count(s.l1.toSm, t)
    + CountForwarded(s.l1.missQ, t) + CountForwarded(s.below, t)
  }

  /** What the warp itself believes is outstanding; nothing for a warp that is gone. */
  ghost function Claimed(s: SmState, t: Ticket): int {
    if Live(s, t.block, t.warp) then s.blocks[t.block][t.warp].Pending(t.ci) else 0
  }

  ghost predicate LedgerOk(s: SmState) { forall t :: Owed(s, t) == Claimed(s, t) }

  predicate TargetOk(target: (nat, nat)) { target.0 % LINE_SIZE == 0 && target.1 < SECTORS }

  ghost predicate TargetsOk(targets: seq<(nat, nat)>) { forall i :: 0 <= i < |targets| ==> TargetOk(targets[i]) }

  /** What a trace must provide for one instruction: a known unit class, dependencies on earlier
      instructions only, and for an atomic its memory record. */
  ghost predicate InstOk(cfg: SmConfig, inst: Inst, index: nat, ms: seq<MemInst>) {
    && (forall sub {:trigger cfg.unitOf[sub]} :: 0 <= sub < |cfg.unitOf| ==> inst.unitClass < |cfg.unitOf[sub]|)
    && (forall i :: 0 <= i < |inst.deps| ==> 0 <= inst.deps[i] < index)
    && (inst.isLds && inst.kind.AtomicAccess? ==> FindMemInst(ms, inst.pc, inst.pcIndex, 0).Some?)
  }

  ghost predicate ProgramOk(cfg: SmConfig, insts: seq<Inst>, ms: seq<MemInst>) {
    && (forall i :: 0 <= i < |insts| ==> InstOk(cfg, insts[i], i, ms))
    && (forall i :: 0 <= i < |ms| ==> TargetsOk(ms[i].coalesced))
  }

  ghost predicate KernelOk(cfg: SmConfig) {
    forall b {:trigger cfg.kernel[b]} :: 0 <= b < |cfg.kernel| ==>
      forall w :: w in cfg.kernel[b] ==>
        w < cfg.warpLimit && ProgramOk(cfg, cfg.kernel[b][w].insts, cfg.kernel[b][w].memInsts)
  }

  /** completions.size() == warp_point, and the counters are in order. */
  ghost predicate WarpOk(cfg: SmConfig, x: Warp) {
    && CountersOk(x)
    && |x.completions| == x.point <= |x.insts|
    && ProgramOk(cfg, x.insts, x.memInsts)
  }

  ghost predicate WarpsOk(cfg: SmConfig, s: SmState) {
    forall b: nat, w: nat :: Live(s, b, w) ==>
      WarpOk(cfg, s.blocks[b][w]) && s.blocks[b][w].pendingInst == Holding(s.units, b, w) && w < cfg.warpLimit
  }

  /** A unit that holds an instruction is busy until its last request is out, and its warp is live. */
  ghost predicate HeldOk(s: SmState, u: PipelineUnit) {
    u.held.Some? ==>
      var h := u.held.value;
      && u.ready == INT_MAX
      && Live(s, h.block, h.warp)
      && h.ci < |s.blocks[h.block][h.warp].completions|
      && h.point < |h.inst.coalesced| && TargetsOk(h.inst.coalesced)
  }

  ghost predicate UnitsOk(s: SmState) { forall u :: 0 <= u < |s.units| ==> HeldOk(s, s.units[u]) }

  ghost predicate BanksOk(cfg: SmConfig, s: SmState) {
    forall k, i :: 0 <= k < |s.banks| && 0 <= i < |s.banks[k]| ==>
      s.banks[k][i].Aligned() && s.banks[k][i].writeType == Normal && s.banks[k][i].sm == cfg.smId
  }

  ghost predicate BlocksOk(cfg: SmConfig, s: SmState) {
    s.ptr <= |cfg.kernel| && forall b :: b in s.blocks ==> b < s.ptr
  }

  ghost predicate CoreOk(cfg: SmConfig, s: SmState) {
    && Shaped(cfg, s) && KernelOk(cfg)
    && WarpsOk(cfg, s) && UnitsOk(s) && BlocksOk(cfg, s) && BanksOk(cfg, s)
  }

  ghost predicate Inv(cfg: SmConfig, s: SmState) {
    CoreOk(cfg, s) && LedgerOk(s) && L1Cache.L1Inv(cfg.l1, s.l1, s.below)
  }

  lemma InvIsShaped(cfg: SmConfig, s: SmState)
    requires Inv(cfg, s)
    ensures Shaped(cfg, s)
  {
  }

  // ---------------------------------------------------------------- releasing a request

  lemma PutWarpLive(s: SmState, b: nat, w: nat, x: Warp)
    requires Live(s, b, w)
    ensures forall b', w' :: Live(PutWarp(s, b, w, x), b', w') <==> Live(s, b', w')
    ensures PutWarp(s, b, w, x).blocks[b][w] == x
    ensures forall b', w' :: Live(s, b', w') && (b' != b || w' != w) ==>
            PutWarp(s, b, w, x).blocks[b'][w'] == s.blocks[b'][w']
  {
  }

  /** Replacing a warp by one with the same program and at least as many completion slots. */
  lemma PutWarpCore(cfg: SmConfig, s: SmState, b: nat, w: nat, x: Warp)
    requires CoreOk(cfg, s) && Live(s, b, w) && WarpOk(cfg, x)
    requires x.pendingInst == s.blocks[b][w].pendingInst && |x.completions| >= |s.blocks[b][w].completions|
    ensures CoreOk(cfg, PutWarp(s, b, w, x))
  {
    PutWarpLive(s, b, w, x);
  }

  lemma PutWarpLedger(s: SmState, f: Fetch, x: Warp)
    requires forall t :: Owed(s, t) + One(f, t) == Claimed(s, t)
    requires Live(s, f.block, f.warp)
    requires forall j: nat :: x.Pending(j) == s.blocks[f.block][f.warp].Pending(j) - if j == f.ci then 1 else 0
    ensures LedgerOk(PutWarp(s, f.block, f.warp, x))
  {
    var s' := PutWarp(s, f.block, f.warp, x);
    PutWarpLive(s, f.block, f.warp, x);
    forall t ensures Owed(s', t) == Claimed(s', t) {
      assert Owed(s, t) + One(f, t) == Claimed(s, t);
    }
  }

  /** A request that left its container can be released, whatever container it was. */
  lemma ReleaseSettles(cfg: SmConfig, s: SmState, f: Fetch)
    requires CoreOk(cfg, s) && forall t :: Owed(s, t) + One(f, t) == Claimed(s, t)
    ensures var r := Release(s, f); r.Ok? && CoreOk(cfg, r.value) && LedgerOk(r.value)
  {
    var me := Ticket(f.block, f.warp, f.ci);
    assert Owed(s, me) + One(f, me) == Claimed(s, me);
    var x := s.blocks[f.block][f.warp];
    DecreaseKeepsCounters(x, f.ci, s.now);
    var x' := x.Decrease(f.ci, s.now).value;
    PutWarpCore(cfg, s, f.block, f.warp, x');
    PutWarpLedger(s, f, x');
  }

  lemma {:induction false} WriteBackHitsSettles(cfg: SmConfig, s: SmState)
    requires Inv(cfg, s)
    ensures var r := WriteBackHits(s); r.Ok? && Inv(cfg, r.value)
    decreases |s.l1.toSm|
  {
    if s.l1.toSm != [] && s.l1.toSm[0].l1Ready <= s.now {
      HitSettles(cfg, s);
      WriteBackHitsSettles(cfg, Release(s.(l1 := s.l1.(toSm := s.l1.toSm[1..])), s.l1.toSm[0]).value);
    }
  }

  /** One round of the loop over the served requests. */
  lemma HitSettles(cfg: SmConfig, s: SmState)
    requires Inv(cfg, s) && s.l1.toSm != []
    ensures var r := Release(s.(l1 := s.l1.(toSm := s.l1.toSm[1..])), s.l1.toSm[0]); r.Ok? && Inv(cfg, r.value)
  {
    var popped := s.(l1 := s.l1.(toSm := s.l1.toSm[1..]));
    forall t ensures Owed(popped, t) + One(s.l1.toSm[0], t) == Claimed(popped, t) {
      assert Owed(s, t) == Claimed(s, t);
    }
    ReleaseSettles(cfg, popped, s.l1.toSm[0]);
  }

  // ---------------------------------------------------------------- replies from the L2

  /** What the drain loop of a load reply does to the SM: the entry of the sector goes and the sector is
      filled, once, if there was an entry; everything else outside the warps is untouched. */
  ghost predicate Drained(cfg: SmConfig, s: SmState, s': SmState, f: Fetch)
    requires TagStore.TagInv(cfg.l1.cache, s.l1.lines) && f.Aligned() && s.now < TagStore.MAX_TIME
  {
    s' == s.(blocks := s'.blocks,
             l1 := s.l1.(lines := L1Service.FilledLines(cfg.l1, s.l1, f, s.now),
                         mshr := s.l1.mshr - {f.SectorAddr()}))
  }

  ghost predicate DrainReady(cfg: SmConfig, s: SmState, f: Fetch) {
    && CoreOk(cfg, s) && LedgerOk(s)
    && TagStore.TagInv(cfg.l1.cache, s.l1.lines)
    && (forall sa :: sa in s.l1.mshr ==> s.l1.mshr[sa] != [])
    && f.Aligned() && s.now < TagStore.MAX_TIME
  }

  /** One round of the drain loop: the state after it. */
  ghost predicate DrainRound(cfg: SmConfig, s: SmState, f: Fetch, s2: SmState) {
    && DrainReady(cfg, s, f) && DrainReady(cfg, s2, f) && f.SectorAddr() in s.l1.mshr
    && s2 == s.(blocks := s2.blocks,
                l1 := s.l1.(lines := L1Service.FilledLines(cfg.l1, s.l1, f, s.now),
                            mshr := Mshr.AfterNext(s.l1.mshr, f.SectorAddr())))
    && Release(s.(l1 := s.l1.(mshr := Mshr.AfterNext(s.l1.mshr, f.SectorAddr()))), s.l1.mshr[f.SectorAddr()][0])
       == Ok(s2.(l1 := s.l1.(mshr := s2.l1.mshr)))
    && DrainEntry(cfg, s, f) == DrainEntry(cfg, s2, f)
  }

  lemma DrainRoundSettles(cfg: SmConfig, s: SmState, f: Fetch) returns (s2: SmState)
    requires DrainReady(cfg, s, f) && f.SectorAddr() in s.l1.mshr
    ensures DrainRound(cfg, s, f, s2)
  {
    var sa := f.SectorAddr();
    var popped := s.(l1 := s.l1.(mshr := Mshr.AfterNext(s.l1.mshr, sa)));
    PopSettles(cfg, s, sa);
    var s1 := Release(popped, s.l1.mshr[sa][0]).value;
    var lines := L1Service.FilledLines(cfg.l1, s.l1, f, s.now);
    TagStore.FillRefines(cfg.l1.cache, s.l1.lines, f.addr, f.sector, s.now);
    s2 := s1.(l1 := s1.l1.(lines := lines));
    FilledReady(cfg, s1, lines, f);
  }

  lemma DrainNothing(cfg: SmConfig, s: SmState, f: Fetch)
    requires DrainReady(cfg, s, f) && f.SectorAddr() !in s.l1.mshr
    ensures Shaped(cfg, s) && f.sector < SECTORS
    ensures DrainEntry(cfg, s, f) == Ok(s) && Drained(cfg, s, s, f)
  {
    hide LedgerOk, WarpsOk, UnitsOk, BanksOk;
    assert s.l1.mshr - {f.SectorAddr()} == s.l1.mshr;
  }

  lemma DrainedAfterRound(cfg: SmConfig, s: SmState, f: Fetch, s2: SmState, s': SmState)
    requires DrainRound(cfg, s, f, s2) && Drained(cfg, s2, s', f)
    ensures Drained(cfg, s, s', f)
  {
    hide CoreOk, LedgerOk, DrainEntry, Release;
    TagFills.FillTwice(cfg.l1.cache, s.l1.lines, f.addr, f.sector, s.now);
    assert Mshr.AfterNext(s.l1.mshr, f.SectorAddr()) - {f.SectorAddr()} == s.l1.mshr - {f.SectorAddr()};
  }

  lemma ReadyParts(cfg: SmConfig, s: SmState, f: Fetch)
    requires DrainReady(cfg, s, f)
    ensures CoreOk(cfg, s) && LedgerOk(s) && Shaped(cfg, s) && f.sector < SECTORS && f.Aligned()
    ensures TagStore.TagInv(cfg.l1.cache, s.l1.lines) && s.now < TagStore.MAX_TIME
    ensures f.SectorAddr() in s.l1.mshr ==> s.l1.mshr[f.SectorAddr()] != []
  {
  }

  lemma RoundParts(cfg: SmConfig, s: SmState, f: Fetch, s2: SmState)
    requires DrainRound(cfg, s, f, s2)
    ensures DrainReady(cfg, s, f) && DrainReady(cfg, s2, f) && f.SectorAddr() in s.l1.mshr
    ensures Shaped(cfg, s) && Shaped(cfg, s2) && f.sector < SECTORS && DrainEntry(cfg, s, f) == DrainEntry(cfg, s2, f)
    ensures s.l1.mshr[f.SectorAddr()] != [] && s2.l1.mshr == Mshr.AfterNext(s.l1.mshr, f.SectorAddr())
  {
    hide LedgerOk, WarpsOk, UnitsOk, BanksOk, DrainEntry, Release;
  }

  lemma {:induction false} DrainSettles(cfg: SmConfig, s: SmState, f: Fetch)
    requires DrainReady(cfg, s, f)
    ensures Shaped(cfg, s) && f.sector < SECTORS
    ensures var r := DrainEntry(cfg, s, f);
            && r.Ok? && CoreOk(cfg, r.value) && LedgerOk(r.value)
            && TagStore.TagInv(cfg.l1.cache, s.l1.lines) && f.Aligned() && s.now < TagStore.MAX_TIME
            && Drained(cfg, s, r.value, f)
    decreases if f.SectorAddr() in s.l1.mshr then 1 + |s.l1.mshr[f.SectorAddr()]| else 0
  {
    hide CoreOk, LedgerOk, DrainReady, DrainRound, Drained, DrainEntry, TagStore.TagInv, Shaped;
    ReadyParts(cfg, s, f);
    if f.SectorAddr() !in s.l1.mshr {
      DrainNothing(cfg, s, f);
    } else {
      var s2 := DrainRoundSettles(cfg, s, f);
      RoundParts(cfg, s, f, s2);
      DrainSettles(cfg, s2, f);
      DrainedAfterRound(cfg, s, f, s2, DrainEntry(cfg, s2, f).value);
    }
  }

  lemma PopSettles(cfg: SmConfig, s: SmState, sa: nat)
    requires CoreOk(cfg, s) && LedgerOk(s) && sa in s.l1.mshr && s.l1.mshr[sa] != []
    ensures var popped := s.(l1 := s.l1.(mshr := Mshr.AfterNext(s.l1.mshr, sa)));
            var r := Release(popped, s.l1.mshr[sa][0]);
            r.Ok? && CoreOk(cfg, r.value) && LedgerOk(r.value)
  {
    var head := s.l1.mshr[sa][0];
    var popped := s.(l1 := s.l1.(mshr := Mshr.AfterNext(s.l1.mshr, sa)));
    forall t ensures Owed(popped, t) + One(head, t) == Claimed(popped, t) {
      assert Owed(s, t) == Claimed(s, t);
      MshrNext(s.l1.mshr, sa, t);
    }
    ReleaseSettles(cfg, popped, head);
  }

  lemma FilledReady(cfg: SmConfig, s: SmState, lines: seq<TagStore.Line>, f: Fetch)
    requires CoreOk(cfg, s) && LedgerOk(s) && f.Aligned() && s.now < TagStore.MAX_TIME
    requires TagStore.TagInv(cfg.l1.cache, lines)
    requires forall sa :: sa in s.l1.mshr ==> s.l1.mshr[sa] != []
    ensures DrainReady(cfg, s.(l1 := s.l1.(lines := lines)), f)
  {
    var s' := s.(l1 := s.l1.(lines := lines));
    forall t ensures Owed(s', t) == Claimed(s', t) { assert Owed(s, t) == Claimed(s, t); }
  }

  /** The environment hands back packets that the L2 answers: never the write-through copies. */
  predicate ReplyOk(s: SmState, input: SmInput) {
    input.reply.Some? ==> input.reply.value < |s.below| && s.below[input.reply.value].writeType != WriteThroughL2
  }

  /** A fill brings in one sector at most. */
  lemma FilledOnly(cfg: L1Cache.L1Config, c: L1Cache.L1State, f: Fetch, now: nat)
    requires TagStore.TagInv(cfg.cache, c.lines) && f.Aligned() && now < TagStore.MAX_TIME
    ensures var lines := L1Service.FilledLines(cfg, c, f, now);
            && TagStore.TagInv(cfg.cache, lines)
            && forall a :: L1Cache.Hits(lines, a) ==> a == f.SectorAddr() || L1Cache.Hits(c.lines, a)
  {
    hide L1Cache.Hits, TagStore.Settled, TagStore.Placed, TagStore.UniqueTags, L1Service.FilledLines;
    forall a: nat | L1Cache.Hits(L1Service.FilledLines(cfg, c, f, now), a)
      ensures a == f.SectorAddr() || L1Cache.Hits(c.lines, a)
    {
      L1Service.FilledLinesHit(cfg, c, f, now, a);
    }
  }

  lemma LoadIsReady(cfg: SmConfig, s: SmState, i: nat)
    requires Inv(cfg, s) && i < |s.below| && !s.below[i].isWrite && s.now < TagStore.MAX_TIME
    ensures DrainReady(cfg, s.(below := s.below[..i] + s.below[i + 1..]), s.below[i])
    ensures s.below[i].Aligned() && TagStore.TagInv(cfg.l1.cache, s.l1.lines)
  {
    assert L1Cache.Sendable(s.below[i]);
    LoadLeaves(s, i);
    PoppedCore(cfg, s, i);
  }

  lemma LoadIsDrained(cfg: SmConfig, s: SmState, i: nat)
    requires Shaped(cfg, s) && i < |s.below| && !s.below[i].isWrite && s.below[i].sector < SECTORS
    ensures Shaped(cfg, s.(below := s.below[..i] + s.below[i + 1..]))
    ensures WriteBackReply(cfg, s, Some(i)) == DrainEntry(cfg, s.(below := s.below[..i] + s.below[i + 1..]), s.below[i])
  {
    hide DrainEntry;
  }

  lemma LoadReplySettles(cfg: SmConfig, s: SmState, i: nat)
    requires Inv(cfg, s) && i < |s.below| && !s.below[i].isWrite && s.now < TagStore.MAX_TIME
    ensures Shaped(cfg, s)
    ensures var r := WriteBackReply(cfg, s, Some(i)); r.Ok? && Inv(cfg, r.value) && r.value.now == s.now
  {
    InvIsShaped(cfg, s);
    LoadIsReady(cfg, s, i);
    hide CoreOk, LedgerOk, DrainReady, TagStore.TagInv, DrainEntry, WriteBackReply, Shaped, L1Cache.L1Inv, L1Cache.Hits;
    var f, popped := s.below[i], s.(below := s.below[..i] + s.below[i + 1..]);
    LoadIsDrained(cfg, s, i);
    DrainSettles(cfg, popped, f);
    FilledOnly(cfg.l1, s.l1, f, s.now);
    L1Cache.DrainKeeps(cfg.l1, s.l1, s.below, i, L1Service.FilledLines(cfg.l1, s.l1, f, s.now));
  }

  lemma LoadLeaves(s: SmState, i: nat)
    requires LedgerOk(s) && i < |s.below| && !s.below[i].isWrite
    ensures LedgerOk(s.(below := s.below[..i] + s.below[i + 1..]))
  {
    var popped := s.(below := s.below[..i] + s.below[i + 1..]);
    forall t ensures Owed(popped, t) == Claimed(popped, t) {
      assert Owed(s, t) == Claimed(s, t);
      ForwardedWithout(s.below, i, t);
    }
  }

  lemma StoreReplySettles(cfg: SmConfig, s: SmState, i: nat)
    requires Inv(cfg, s) && i < |s.below| && s.below[i].ForwardedWrite()
    ensures var r := WriteBackReply(cfg, s, Some(i)); r.Ok? && Inv(cfg, r.value) && r.value.now == s.now
  {
    var popped := s.(below := s.below[..i] + s.below[i + 1..]);
    StoreIsReleased(cfg, s, i);
    L1Cache.ReturnHasEntry(cfg.l1, s.l1, s.below, i);
    hide CoreOk, LedgerOk, L1Cache.L1Inv;
    StoreLeaves(s, i);
    PoppedCore(cfg, s, i);
    ReleaseSettles(cfg, popped, s.below[i]);
  }

  lemma StoreIsReleased(cfg: SmConfig, s: SmState, i: nat)
    requires Inv(cfg, s) && i < |s.below| && s.below[i].ForwardedWrite()
    ensures WriteBackReply(cfg, s, Some(i)) == Release(s.(below := s.below[..i] + s.below[i + 1..]), s.below[i])
  {
    assert L1Cache.Sendable(s.below[i]);
  }

  lemma PoppedCore(cfg: SmConfig, s: SmState, i: nat)
    requires CoreOk(cfg, s) && i < |s.below|
    ensures CoreOk(cfg, s.(below := s.below[..i] + s.below[i + 1..]))
  {
  }

  lemma StoreLeaves(s: SmState, i: nat)
    requires LedgerOk(s) && i < |s.below| && s.below[i].ForwardedWrite()
    ensures var popped := s.(below := s.below[..i] + s.below[i + 1..]);
            forall t :: Owed(popped, t) + One(s.below[i], t) == Claimed(popped, t)
  {
    var popped := s.(below := s.below[..i] + s.below[i + 1..]);
    forall t ensures Owed(popped, t) + One(s.below[i], t) == Claimed(popped, t) {
      assert Owed(s, t) == Claimed(s, t);
      ForwardedWithout(s.below, i, t);
    }
  }

  // ---------------------------------------------------------------- the L1's part

  lemma SendMissSettles(cfg: SmConfig, s: SmState, hasBuffer: bool)
    requires Inv(cfg, s)
    ensures Inv(cfg, SendMiss(cfg, s, hasBuffer))
  {
    if s.l1.missQ != [] && hasBuffer {
      L1Cache.SendKeeps(cfg.l1, s.l1, s.below, Routed(cfg, s.l1.missQ[0]).bank);
      SentLedger(cfg, s);
    }
  }

  /** A store that travels is owed below instead of in the miss queue. */
  lemma SentLedger(cfg: SmConfig, s: SmState)
    requires LedgerOk(s) && s.l1.missQ != []
    ensures LedgerOk(SendMiss(cfg, s, true))
  {
    var s' := SendMiss(cfg, s, true);
    forall t ensures Owed(s', t) == Claimed(s', t) {
      assert Owed(s, t) == Claimed(s, t);
      ForwardedSnoc(s.below, Routed(cfg, s.l1.missQ[0]), t);
    }
  }

  ghost function OwedByL1(c: L1Cache.L1State, t: Ticket): nat {
    CountMshr(c.mshr, t) + Count(c.toSm, t) + CountForwarded(c.missQ, t)
  }

  lemma StoreMovesTicket(cfg: L1Cache.L1Config, c: L1Cache.L1State, f: Fetch, now: nat, freshId: nat, idx: nat,
                         t: Ticket)
    requires f.isWrite && f.writeType == Normal
    ensures TagStore.Shape(cfg.cache, c.lines) && f.sector < SECTORS && idx < |c.lines| ==>
              OwedByL1(L1Cache.StoreHit(cfg, c, f, now, freshId, idx), t) == OwedByL1(c, t) + One(f, t)
    ensures OwedByL1(L1Cache.StoreMiss(c, f), t) == OwedByL1(c, t) + One(f, t)
  {
    var served := if L1Cache.WritesThrough(cfg, f) then f.(writeType := WriteThrough) else f;
    CountSnoc(c.toSm, L1Cache.Served(cfg, served, now), t);
    ForwardedSnoc(c.missQ, L1Cache.WriteThroughCopy(f, freshId), t);
    ForwardedSnoc(c.missQ, f.(tlbHit := c.tlbHit), t);
    assert c.missQ + [] == c.missQ;
  }

  lemma LoadMovesTicket(cfg: L1Cache.L1Config, c: L1Cache.L1State, f: Fetch, now: nat, t: Ticket)
    requires !f.isWrite
    ensures TagStore.Shape(cfg.cache, c.lines) && f.sector < SECTORS ==>
              OwedByL1(L1Cache.LoadHit(cfg, c, f, now), t) == OwedByL1(c, t) + One(f, t)
    ensures OwedByL1(L1Cache.LoadMiss(cfg, c, f), t) == OwedByL1(c, t) + One(f, t)
  {
    CountSnoc(c.toSm, L1Cache.Served(cfg, f, now), t);
    MshrAdd(c.mshr, f.SectorAddr(), f, t);
    ForwardedSnoc(c.missQ, f.(tlbHit := c.tlbHit), t);
  }

  /** An access that is not refused moves its request to exactly one container that owes it. */
  lemma AccessMovesTicket(cfg: L1Cache.L1Config, c: L1Cache.L1State, f: Fetch, now: nat, freshId: nat, t: Ticket)
    requires TagStore.Shape(cfg.cache, c.lines) && f.sector < SECTORS && f.writeType == Normal
    ensures var (status, c') := L1Cache.Access(cfg, c, f, now, freshId);
            status.AccessHit? || status.AccessMiss? ==> OwedByL1(c', t) == OwedByL1(c, t) + One(f, t)
  {
    var p := TagStore.Probe(cfg.cache, c.lines, f.addr, f.sector);
    if f.isWrite {
      StoreMovesTicket(cfg, c, f, now, freshId, if p.Hit? then p.idx else 0, t);
    } else {
      LoadMovesTicket(cfg, c, f, now, t);
    }
  }

  lemma AccessBankSettles(cfg: SmConfig, s: SmState, bank: nat)
    requires Inv(cfg, s) && bank < SECTORS && s.now < TagStore.MAX_TIME
    ensures var r := AccessBank(cfg, s, bank); r.Ok? && Inv(cfg, r.value) && r.value.now == s.now
  {
    if s.banks[bank] != [] {
      var f := s.banks[bank][0];
      assert f.Aligned() && f.writeType == Normal;
      L1Cache.AccessKeeps(cfg.l1, s.l1, f, s.now, s.nextId, s.below);
      L1Cache.AccessOutcome(cfg.l1, s.l1, f, s.now, s.nextId);
      var s' := AccessBank(cfg, s, bank).value;
      if s' != s {
        AccessBankLedger(cfg, s, bank);
      }
    }
  }

  lemma AccessBankLedger(cfg: SmConfig, s: SmState, bank: nat)
    requires Shaped(cfg, s) && LedgerOk(s) && BanksOk(cfg, s) && bank < SECTORS && s.banks[bank] != []
    ensures var r := AccessBank(cfg, s, bank); r.Ok? ==> LedgerOk(r.value)
  {
    if AccessBank(cfg, s, bank).Ok? {
      var s' := AccessBank(cfg, s, bank).value;
      forall t ensures Owed(s', t) == Claimed(s', t) { AccessBankTicket(cfg, s, bank, t); }
    }
  }

  lemma AccessBankTicket(cfg: SmConfig, s: SmState, bank: nat, t: Ticket)
    requires Shaped(cfg, s) && LedgerOk(s) && BanksOk(cfg, s) && bank < SECTORS && s.banks[bank] != []
    ensures var r := AccessBank(cfg, s, bank); r.Ok? ==> Owed(r.value, t) == Claimed(r.value, t)
  {
    assert Owed(s, t) == Claimed(s, t);
    AccessMovesTicket(cfg.l1, s.l1, s.banks[bank][0], s.now, s.nextId, t);
    BankUpdate(s.banks, bank, s.banks[bank][1..], t);
  }

  lemma {:induction false} AccessBanksSettles(cfg: SmConfig, s: SmState, bank: nat)
    requires Inv(cfg, s) && bank <= SECTORS && s.now < TagStore.MAX_TIME
    ensures var r := AccessBanks(cfg, s, bank); r.Ok? && Inv(cfg, r.value) && r.value.now == s.now
    decreases SECTORS - bank
  {
    if bank < SECTORS {
      AccessBankSettles(cfg, s, bank);
      AccessBanksSettles(cfg, AccessBank(cfg, s, bank).value, bank + 1);
    }
  }

  // ---------------------------------------------------------------- the core half

  lemma DeleteInactiveSettles(cfg: SmConfig, s: SmState)
    requires Inv(cfg, s)
    ensures Inv(cfg, DeleteInactive(s))
  {
    var s' := DeleteInactive(s);
    forall b, w ensures Live(s', b, w) <==> Live(s, b, w) { }
    assert CoreOk(cfg, s');
    forall t ensures Owed(s', t) == Claimed(s', t) { assert Owed(s, t) == Claimed(s, t); }
  }

  /** One warp and one unit change together: the unit works for that warp or for nobody. */
  ghost predicate UnitChange(cfg: SmConfig, s: SmState, b: nat, w: nat, x: Warp, u: nat, unit: PipelineUnit) {
    && Live(s, b, w) && u < |s.units| && WarpOk(cfg, x)
    && |x.completions| >= |s.blocks[b][w].completions|
    && x.pendingInst == s.blocks[b][w].pendingInst - HoldsOne(s.units[u], b, w) + HoldsOne(unit, b, w)
    && (forall b', w' :: (b' != b || w' != w) ==> HoldsOne(s.units[u], b', w') == HoldsOne(unit, b', w'))
    && HeldOk(PutWarp(s, b, w, x), unit)
  }

  lemma ChangedWarp(cfg: SmConfig, s: SmState, b: nat, w: nat, x: Warp, u: nat, unit: PipelineUnit, b': nat, w': nat)
    requires WarpsOk(cfg, s) && UnitChange(cfg, s, b, w, x, u, unit) && Live(s, b', w')
    ensures var s', y := Changed(s, b, w, x, u, unit), if b' == b && w' == w then x else s.blocks[b'][w'];
            WarpOk(cfg, y) && y.pendingInst == Holding(s'.units, b', w') && w' < cfg.warpLimit
  {
    hide WarpOk, HeldOk;
    UnitUpdate(s.units, u, unit, b', w');
  }

  lemma ChangedWarps(cfg: SmConfig, s: SmState, b: nat, w: nat, x: Warp, u: nat, unit: PipelineUnit)
    requires WarpsOk(cfg, s) && UnitChange(cfg, s, b, w, x, u, unit)
    ensures WarpsOk(cfg, Changed(s, b, w, x, u, unit))
  {
    hide WarpOk, HeldOk, Holding;
    var s' := Changed(s, b, w, x, u, unit);
    PutWarpLive(s, b, w, x);
    forall b', w' | Live(s', b', w')
      ensures WarpOk(cfg, s'.blocks[b'][w']) && s'.blocks[b'][w'].pendingInst == Holding(s'.units, b', w')
    {
      ChangedWarp(cfg, s, b, w, x, u, unit, b', w');
    }
  }

  lemma ChangedUnits(cfg: SmConfig, s: SmState, b: nat, w: nat, x: Warp, u: nat, unit: PipelineUnit)
    requires UnitsOk(s) && UnitChange(cfg, s, b, w, x, u, unit)
    ensures UnitsOk(Changed(s, b, w, x, u, unit))
  {
    var s' := Changed(s, b, w, x, u, unit);
    PutWarpLive(s, b, w, x);
    forall k | 0 <= k < |s'.units| ensures HeldOk(s', s'.units[k]) {
      assert HeldOk(s, s.units[k]);
    }
  }

  lemma ChangedCore(cfg: SmConfig, s: SmState, b: nat, w: nat, x: Warp, u: nat, unit: PipelineUnit)
    requires CoreOk(cfg, s) && UnitChange(cfg, s, b, w, x, u, unit)
    ensures CoreOk(cfg, Changed(s, b, w, x, u, unit))
  {
    ChangedWarps(cfg, s, b, w, x, u, unit);
    ChangedUnits(cfg, s, b, w, x, u, unit);
    PutWarpLive(s, b, w, x);
  }

  /** A new request enters its bank. */
  lemma EnqueueCore(cfg: SmConfig, s: SmState, bank: nat, f: Fetch)
    requires CoreOk(cfg, s) && bank < SECTORS && f.Aligned() && f.writeType == Normal && f.sm == cfg.smId
    ensures CoreOk(cfg, Enqueue(s, bank, f))
  {
  }

  /** ... and its warp's counter at the same time. */
  lemma EnqueueLedger(s: SmState, s1: SmState, bank: nat, f: Fetch)
    requires LedgerOk(s) && bank < |s.banks|
    requires s1 == s.(blocks := s1.blocks, units := s1.units)
    requires forall t :: Claimed(s1, t) == Claimed(s, t) + One(f, t)
    ensures LedgerOk(Enqueue(s1, bank, f))
  {
    var s' := Enqueue(s1, bank, f);
    forall t ensures Owed(s', t) == Claimed(s', t) {
      assert Owed(s, t) == Claimed(s, t);
      assert Claimed(s', t) == Claimed(s1, t);
      BankUpdate(s.banks, bank, s.banks[bank] + [f], t);
      CountSnoc(s.banks[bank], f, t);
    }
  }

  lemma ClaimedAfter(s: SmState, b: nat, w: nat, x: Warp, ci: nat, f: Fetch, s1: SmState)
    requires Live(s, b, w) && f.block == b && f.warp == w && f.ci == ci
    requires x.pending == s.blocks[b][w].Increase(ci).pending && s1.blocks == PutWarp(s, b, w, x).blocks
    ensures forall t :: Claimed(s1, t) == Claimed(s, t) + One(f, t)
  {
    PutWarpLive(s, b, w, x);
  }

  lemma UnitCycleSettles(cfg: SmConfig, s: SmState, u: nat, busy: set<nat>)
    requires Inv(cfg, s) && u < |s.units|
    ensures var r := UnitCycle(cfg, s, u, busy).0; r.Ok? && Inv(cfg, r.value) && r.value.now == s.now
  {
    var unit := s.units[u];
    assert HeldOk(s, unit);
    if unit.isLds && unit.held.Some? {
      var h := unit.held.value;
      var target := h.inst.coalesced[h.point];
      assert TargetOk(target);
      if target.1 !in busy {
        var f := NewFetch(cfg, s.nextId, !h.inst.isLoad, false, target, h.block, h.warp, h.ci);
        var s1 := Changed(s, h.block, h.warp, Requesting(s.blocks[h.block][h.warp], h), u,
            UnitAfterRequest(unit, h, s.now));
        RequestingCore(cfg, s, u, h);
        EnqueueCore(cfg, s1, target.1, f);
        ClaimedAfter(s, h.block, h.warp, Requesting(s.blocks[h.block][h.warp], h), h.ci, f, s1);
        EnqueueLedger(s, s1, target.1, f);
      }
    }
  }

  lemma RequestingCore(cfg: SmConfig, s: SmState, u: nat, h: Held)
    requires CoreOk(cfg, s) && u < |s.units| && s.units[u].held == Some(h) && HeldOk(s, s.units[u])
    ensures CoreOk(cfg, Changed(s, h.block, h.warp, Requesting(s.blocks[h.block][h.warp], h), u,
            UnitAfterRequest(s.units[u], h, s.now)))
  {
    var x0 := s.blocks[h.block][h.warp];
    IncreaseKeepsCounters(x0, h.ci);
    IncreasedWarp(cfg, x0, Requesting(x0, h), h.ci);
    PutWarpLive(s, h.block, h.warp, Requesting(x0, h));
    ChangedCore(cfg, s, h.block, h.warp, Requesting(x0, h), u, UnitAfterRequest(s.units[u], h, s.now));
  }

  lemma IncreasedWarp(cfg: SmConfig, x0: Warp, x: Warp, ci: nat)
    requires WarpOk(cfg, x0) && CountersOk(x0.Increase(ci))
    requires x == x0.Increase(ci).(pendingInst := x.pendingInst)
    ensures WarpOk(cfg, x)
  {
    SumChange(x0.Increase(ci), x, 0, |x.completions|);
  }

  lemma {:induction false} NotHeld(s: SmState, units: seq<PipelineUnit>, b: nat, w: nat)
    requires forall u :: 0 <= u < |units| ==> HoldsOne(units[u], b, w) == 0
    ensures Holding(units, b, w) == 0
    decreases |units|
  {
    if units != [] { NotHeld(s, units[1..], b, w); }
  }

  /** The next block of the kernel arrives with fresh warps. */
  lemma DispatchOneSettles(cfg: SmConfig, s: SmState)
    requires Inv(cfg, s) && s.ptr < |cfg.kernel|
    ensures Inv(cfg, DispatchOne(cfg, s))
  {
    var s' := DispatchOne(cfg, s);
    assert s.ptr !in s.blocks;
    forall b, w | Live(s', b, w)
      ensures WarpOk(cfg, s'.blocks[b][w]) && s'.blocks[b][w].pendingInst == Holding(s'.units, b, w)
    {
      if b == s.ptr {
        FreshWarpOk(cfg, b, w);
        forall u | 0 <= u < |s.units| ensures HoldsOne(s.units[u], b, w) == 0 { assert HeldOk(s, s.units[u]); }
        NotHeld(s, s.units, b, w);
      } else {
        assert Live(s, b, w);
      }
    }
    assert UnitsOk(s') by {
      forall u | 0 <= u < |s'.units| ensures HeldOk(s', s'.units[u]) { assert HeldOk(s, s.units[u]); }
    }
    forall t ensures Owed(s', t) == Claimed(s', t) { assert Owed(s, t) == Claimed(s, t); }
  }

  lemma FreshWarpOk(cfg: SmConfig, b: nat, w: nat)
    requires KernelOk(cfg) && b < |cfg.kernel| && w in cfg.kernel[b]
    ensures WarpOk(cfg, FreshWarp(cfg.kernel[b][w]))
  {
  }

  lemma {:induction false} DispatchSettles(cfg: SmConfig, s: SmState)
    requires Inv(cfg, s)
    ensures Inv(cfg, Dispatch(cfg, s)) && Dispatch(cfg, s).now == s.now
    decreases |cfg.kernel| - s.ptr
  {
    if |s.blocks| < cfg.maxBlocks && s.ptr < |cfg.kernel| {
      DispatchOneSettles(cfg, s);
      DispatchSettles(cfg, DispatchOne(cfg, s));
    }
  }

  /** A warp that retires is owed nothing, in any container. */
  lemma RetiringWarpIsOwedNothing(cfg: SmConfig, s: SmState, b: nat, w: nat, ci: nat)
    requires Inv(cfg, s) && Live(s, b, w) && s.blocks[b][w].Retires()
    ensures Owed(s, Ticket(b, w, ci)) == 0 && Holding(s.units, b, w) == 0
  {
    assert Owed(s, Ticket(b, w, ci)) == Claimed(s, Ticket(b, w, ci));
    RetiredOwesNothing(s.blocks[b][w], ci);
  }

  lemma WithoutWarpCore(cfg: SmConfig, s: SmState, b: nat, w: nat)
    requires CoreOk(cfg, s) && Live(s, b, w) && Holding(s.units, b, w) == 0
    ensures CoreOk(cfg, WithoutWarp(s, b, w))
  {
    var s' := WithoutWarp(s, b, w);
    forall b', w' ensures Live(s', b', w') <==> Live(s, b', w') && (b' != b || w' != w) { }
    forall u | 0 <= u < |s.units| ensures HeldOk(s', s'.units[u]) {
      assert HeldOk(s, s.units[u]);
      if s.units[u].held.Some? { HeldCounts(s.units, u); }
    }
  }

  lemma RetireLedger(s: SmState, b: nat, w: nat)
    requires LedgerOk(s) && Live(s, b, w)
    requires forall ci: nat :: s.blocks[b][w].Pending(ci) == 0
    ensures LedgerOk(WithoutWarp(s, b, w))
  {
    var s' := WithoutWarp(s, b, w);
    forall t ensures Owed(s', t) == Claimed(s', t) { assert Owed(s, t) == Claimed(s, t); }
  }

  lemma RetireSettles(cfg: SmConfig, s: SmState, b: nat, w: nat)
    requires Inv(cfg, s) && Live(s, b, w) && s.blocks[b][w].Retires()
    ensures Inv(cfg, WithoutWarp(s, b, w))
  {
    RetiringWarpIsOwedNothing(cfg, s, b, w, 0);
    WithoutWarpCore(cfg, s, b, w);
    forall ci: nat ensures s.blocks[b][w].Pending(ci) == 0 { RetiredOwesNothing(s.blocks[b][w], ci); }
    RetireLedger(s, b, w);
  }

  // ---------------------------------------------------------------- issue

  lemma ChangedLedger(s: SmState, b: nat, w: nat, x: Warp, u: nat, unit: PipelineUnit)
    requires LedgerOk(s) && Live(s, b, w) && u < |s.units| && x.pending == s.blocks[b][w].pending
    ensures LedgerOk(Changed(s, b, w, x, u, unit))
  {
    var s' := Changed(s, b, w, x, u, unit);
    PutWarpLive(s, b, w, x);
    forall t ensures Owed(s', t) == Claimed(s', t) { assert Owed(s, t) == Claimed(s, t); }
  }

  /** A warp and unit change that leaves the counters alone keeps the whole invariant. */
  lemma ChangedInv(cfg: SmConfig, s: SmState, b: nat, w: nat, x: Warp, u: nat, unit: PipelineUnit)
    requires Inv(cfg, s) && UnitChange(cfg, s, b, w, x, u, unit) && x.pending == s.blocks[b][w].pending
    ensures Inv(cfg, Changed(s, b, w, x, u, unit))
  {
    ChangedCore(cfg, s, b, w, x, u, unit);
    ChangedLedger(s, b, w, x, u, unit);
  }

  lemma AdvanceChanged(s: SmState, b: nat, w: nat, x: Warp, u: nat, unit: PipelineUnit)
    requires Live(s, b, w) && u < |s.units|
    ensures AdvancePoint(Changed(s, b, w, x, u, unit), b, w) == Changed(s, b, w, x.(point := x.point + 1), u, unit)
  {
    var l, r := AdvancePoint(Changed(s, b, w, x, u, unit), b, w), Changed(s, b, w, x.(point := x.point + 1), u, unit);
    assert l.blocks[b] == r.blocks[b];
    assert l.blocks == r.blocks;
  }

  /** A warp that has just got its next completion slot. */
  function Stepped(x: Warp, time: int): Warp { Completing(x, time).(point := x.point + 1) }

  lemma SteppedOk(cfg: SmConfig, x: Warp, x': Warp, time: int)
    requires WarpOk(cfg, x) && x.point < |x.insts| && x' == Stepped(x, time).(pendingInst := x'.pendingInst)
    ensures WarpOk(cfg, x')
  {
    CompletionKeepsCounters(x, x', time);
  }

  lemma IdleUnit(s: SmState, u: nat)
    requires UnitsOk(s) && u < |s.units| && s.units[u].ready <= s.now < INT_MAX
    ensures s.units[u].held.None?
  {
    assert HeldOk(s, s.units[u]);
  }

  lemma StepOnIdleUnit(cfg: SmConfig, s: SmState, b: nat, w: nat, u: nat, time: int, unit: PipelineUnit)
    requires Inv(cfg, s) && Live(s, b, w) && s.blocks[b][w].point < |s.blocks[b][w].insts|
    requires u < |s.units| && s.units[u].held.None? && unit.held.None?
    ensures Inv(cfg, Changed(s, b, w, Stepped(s.blocks[b][w], time), u, unit))
  {
    var x := s.blocks[b][w];
    SteppedOk(cfg, x, Stepped(x, time), time);
    ChangedInv(cfg, s, b, w, Stepped(x, time), u, unit);
  }

  /** A completion time on a unit that holds nothing, before or after. */
  lemma IssueAtSettles(cfg: SmConfig, s: SmState, b: nat, w: nat, u: nat, time: int, unit: PipelineUnit, s1: SmState)
    requires Inv(cfg, s) && Live(s, b, w) && s.blocks[b][w].point < |s.blocks[b][w].insts|
    requires u < |s.units| && s.units[u].ready <= s.now < INT_MAX && unit == s.units[u].(ready := unit.ready)
    requires Live(s1, b, w) && s1 == Changed(s, b, w, Completing(s.blocks[b][w], time), u, unit)
    ensures Inv(cfg, AdvancePoint(s1, b, w))
  {
    IdleUnit(s, u);
    AdvanceChanged(s, b, w, Completing(s.blocks[b][w], time), u, unit);
    StepOnIdleUnit(cfg, s, b, w, u, time, unit);
  }

  lemma IssueFixedSettles(cfg: SmConfig, s: SmState, b: nat, w: nat, u: nat, latency: int)
    requires Inv(cfg, s) && Live(s, b, w) && s.blocks[b][w].point < |s.blocks[b][w].insts|
    requires u < |s.units| && s.units[u].ready <= s.now < INT_MAX
    ensures Inv(cfg, AdvancePoint(IssueFixed(s, b, w, u, latency), b, w))
  {
    hide Inv;
    IssueAtSettles(cfg, s, b, w, u, s.now + latency, s.units[u].Occupied(), IssueFixed(s, b, w, u, latency));
  }

  lemma IssueGlobalChange(cfg: SmConfig, s: SmState, b: nat, w: nat, u: nat, m: MemInst, x': Warp, unit: PipelineUnit)
    requires CoreOk(cfg, s) && Live(s, b, w) && u < |s.units| && s.units[u].held.None?
    requires WarpOk(cfg, x') && |x'.completions| == |s.blocks[b][w].completions| + 1
    requires x'.pendingInst == s.blocks[b][w].pendingInst + 1
    requires unit.ready == INT_MAX && unit.held == Some(Held(b, w, m, |s.blocks[b][w].completions|, 0))
    requires m in s.blocks[b][w].memInsts && m.coalesced != []
    ensures UnitChange(cfg, s, b, w, x', u, unit)
  {
    assert WarpOk(cfg, s.blocks[b][w]);
    assert TargetsOk(m.coalesced);
    PutWarpLive(s, b, w, x');
  }

  /** The warp and the unit after a global access has issued. */
  function GlobalWarp(x: Warp): Warp { Stepped(x, INT_MAX).(pendingInst := x.pendingInst + 1) }

  function GlobalUnit(unit: PipelineUnit, b: nat, w: nat, m: MemInst, ci: nat): PipelineUnit {
    unit.(ready := INT_MAX, held := Some(Held(b, w, m, ci, 0)))
  }

  lemma IssueGlobalIsChange(s: SmState, b: nat, w: nat, u: nat, m: MemInst)
    requires Live(s, b, w) && u < |s.units|
    ensures AdvancePoint(IssueGlobal(s, b, w, u, m), b, w)
            == Changed(s, b, w, GlobalWarp(s.blocks[b][w]), u,
                GlobalUnit(s.units[u], b, w, m, |s.blocks[b][w].completions|))
  {
    var x := s.blocks[b][w];
    AdvanceChanged(s, b, w, Completing(x, INT_MAX).(pendingInst := x.pendingInst + 1), u,
        GlobalUnit(s.units[u], b, w, m, |x.completions|));
  }

  lemma IssueGlobalWarp(cfg: SmConfig, s: SmState, b: nat, w: nat, u: nat, m: MemInst)
    requires Inv(cfg, s) && Live(s, b, w) && s.blocks[b][w].point < |s.blocks[b][w].insts|
    requires u < |s.units| && s.units[u].ready <= s.now < INT_MAX
    requires m in s.blocks[b][w].memInsts && m.coalesced != []
    ensures Inv(cfg, Changed(s, b, w, GlobalWarp(s.blocks[b][w]), u,
            GlobalUnit(s.units[u], b, w, m, |s.blocks[b][w].completions|)))
  {
    var x := s.blocks[b][w];
    var unit := GlobalUnit(s.units[u], b, w, m, |x.completions|);
    IdleUnit(s, u);
    SteppedOk(cfg, x, GlobalWarp(x), INT_MAX);
    IssueGlobalChange(cfg, s, b, w, u, m, GlobalWarp(x), unit);
    ChangedInv(cfg, s, b, w, GlobalWarp(x), u, unit);
  }

  lemma IssueGlobalSettles(cfg: SmConfig, s: SmState, b: nat, w: nat, u: nat, m: MemInst)
    requires Inv(cfg, s) && Live(s, b, w) && s.blocks[b][w].point < |s.blocks[b][w].insts|
    requires u < |s.units| && s.units[u].ready <= s.now < INT_MAX
    requires m in s.blocks[b][w].memInsts && m.coalesced != []
    ensures Inv(cfg, AdvancePoint(IssueGlobal(s, b, w, u, m), b, w))
  {
    IssueGlobalIsChange(s, b, w, u, m);
    IssueGlobalWarp(cfg, s, b, w, u, m);
  }

  lemma QueueOneSettles(cfg: SmConfig, s: SmState, b: nat, w: nat, ci: nat, target: (nat, nat))
    requires Inv(cfg, s) && Live(s, b, w) && ci < |s.blocks[b][w].completions| && TargetOk(target)
    ensures var f := NewFetch(cfg, s.nextId, true, true, target, b, w, ci);
            Inv(cfg, Enqueue(PutWarp(s, b, w, s.blocks[b][w].Increase(ci)), target.1, f))
  {
    var f := NewFetch(cfg, s.nextId, true, true, target, b, w, ci);
    var x := s.blocks[b][w].Increase(ci);
    var s1 := PutWarp(s, b, w, x);
    IncreaseKeepsCounters(s.blocks[b][w], ci);
    PutWarpCore(cfg, s, b, w, x);
    EnqueueCore(cfg, s1, target.1, f);
    ClaimedAfter(s, b, w, x, ci, f, s1);
    EnqueueLedger(s, s1, target.1, f);
  }

  lemma {:induction false} QueueAtomicsSettles(cfg: SmConfig, s: SmState, b: nat, w: nat, ci: nat,
                                               targets: seq<(nat, nat)>)
    requires Inv(cfg, s) && Live(s, b, w) && ci < |s.blocks[b][w].completions| && TargetsOk(targets)
    ensures var r := QueueAtomics(cfg, s, b, w, ci, targets); r.Ok? && Inv(cfg, r.value) && r.value.now == s.now
    decreases |targets|
  {
    if targets != [] {
      assert TargetOk(targets[0]);
      QueueOneSettles(cfg, s, b, w, ci, targets[0]);
      var f := NewFetch(cfg, s.nextId, true, true, targets[0], b, w, ci);
      QueueAtomicsSettles(cfg, Enqueue(PutWarp(s, b, w, s.blocks[b][w].Increase(ci)), targets[0].1, f), b, w, ci,
          targets[1..]);
    }
  }

  /** Advancing the warp before or after queueing its atomics is the same. */
  lemma {:induction false} AdvanceCommutes(cfg: SmConfig, s: SmState, b: nat, w: nat, ci: nat, targets: seq<(nat, nat)>)
    requires Shaped(cfg, s) && Live(s, b, w)
    ensures var r := QueueAtomics(cfg, s, b, w, ci, targets);
            var r' := QueueAtomics(cfg, AdvancePoint(s, b, w), b, w, ci, targets);
            && r.Ok? == r'.Ok? && (r.Ok? ==> r' == Ok(AdvancePoint(r.value, b, w)))
    decreases |targets|
  {
    if targets != [] && targets[0].1 < |s.banks| {
      var f := NewFetch(cfg, s.nextId, true, true, targets[0], b, w, ci);
      var s1 := Enqueue(PutWarp(s, b, w, s.blocks[b][w].Increase(ci)), targets[0].1, f);
      var p := AdvancePoint(s, b, w);
      var p1 := Enqueue(PutWarp(p, b, w, p.blocks[b][w].Increase(ci)), targets[0].1, f);
      assert p1.blocks[b] == AdvancePoint(s1, b, w).blocks[b];
      assert p1.blocks == AdvancePoint(s1, b, w).blocks;
      assert p1 == AdvancePoint(s1, b, w);
      AdvanceCommutes(cfg, s1, b, w, ci, targets[1..]);
    }
  }

  ghost predicate Processed(cfg: SmConfig, s: SmState, b: nat, w: nat, r: Outcome) {
    r.Ok? && Live(r.value, b, w) && Inv(cfg, AdvancePoint(r.value, b, w)) && r.value.now == s.now
  }

  function AtomicStart(s: SmState, b: nat, w: nat, u: nat): SmState
    requires Live(s, b, w) && u < |s.units|
  {
    Changed(s, b, w, Completing(s.blocks[b][w], INT_MAX), u, s.units[u].(ready := s.units[u].ready + 4))
  }

  lemma AtomicStartFacts(s: SmState, b: nat, w: nat, u: nat)
    requires Live(s, b, w) && u < |s.units|
    ensures var p := AdvancePoint(AtomicStart(s, b, w, u), b, w);
            Live(p, b, w) && |s.blocks[b][w].completions| < |p.blocks[b][w].completions| && p.now == s.now
  {
  }

  lemma AtomicStartSettles(cfg: SmConfig, s: SmState, b: nat, w: nat, u: nat)
    requires Inv(cfg, s) && Live(s, b, w) && s.blocks[b][w].point < |s.blocks[b][w].insts|
    requires u < |s.units| && s.units[u].ready <= s.now < INT_MAX
    ensures Inv(cfg, AdvancePoint(AtomicStart(s, b, w, u), b, w))
  {
    IssueAtSettles(cfg, s, b, w, u, INT_MAX, s.units[u].(ready := s.units[u].ready + 4), AtomicStart(s, b, w, u));
  }

  lemma IssueAtomicSettles(cfg: SmConfig, s: SmState, b: nat, w: nat, u: nat, m: MemInst)
    requires Inv(cfg, s) && Live(s, b, w) && s.blocks[b][w].point < |s.blocks[b][w].insts|
    requires u < |s.units| && s.units[u].ready <= s.now < INT_MAX && TargetsOk(m.coalesced)
    ensures Processed(cfg, s, b, w, IssueAtomic(cfg, s, b, w, u, m))
  {
    AtomicStartSettles(cfg, s, b, w, u);
    AtomicStartFacts(s, b, w, u);
    AtomicTailSettles(cfg, AtomicStart(s, b, w, u), b, w, |s.blocks[b][w].completions|, m.coalesced);
  }

  lemma AtomicTailSettles(cfg: SmConfig, s: SmState, b: nat, w: nat, ci: nat, targets: seq<(nat, nat)>)
    requires Shaped(cfg, s) && Live(s, b, w) && Inv(cfg, AdvancePoint(s, b, w)) && TargetsOk(targets)
    requires Live(AdvancePoint(s, b, w), b, w) && ci < |AdvancePoint(s, b, w).blocks[b][w].completions|
    ensures Processed(cfg, s, b, w, QueueAtomics(cfg, s, b, w, ci, targets))
  {
    QueueAtomicsSettles(cfg, AdvancePoint(s, b, w), b, w, ci, targets);
    AdvanceCommutes(cfg, s, b, w, ci, targets);
  }

  /** The record of a warp's instruction: targets are sectors, and an atomic has one. */
  lemma RecordOk(cfg: SmConfig, s: SmState, b: nat, w: nat)
    requires CoreOk(cfg, s) && Live(s, b, w) && s.blocks[b][w].point < |s.blocks[b][w].insts|
    ensures var x := s.blocks[b][w];
            var inst := x.insts[x.point];
            var m := FindMemInst(x.memInsts, inst.pc, inst.pcIndex, 0);
            && (inst.isLds && inst.kind.AtomicAccess? ==> m.Some?)
            && (m.Some? ==> m.value in x.memInsts && TargetsOk(m.value.coalesced))
            && (forall i :: 0 <= i < |inst.deps| ==> 0 <= inst.deps[i] < |x.completions|)
  {
    var x := s.blocks[b][w];
    assert WarpOk(cfg, x);
    var inst := x.insts[x.point];
    assert InstOk(cfg, inst, x.point, x.memInsts);
    FindMemInstFinds(x.memInsts, inst.pc, inst.pcIndex, 0);
  }

  lemma ProcessFixedSettles(cfg: SmConfig, s: SmState, b: nat, w: nat, u: nat, latency: int)
    requires Inv(cfg, s) && Live(s, b, w) && s.blocks[b][w].point < |s.blocks[b][w].insts|
    requires u < |s.units| && s.units[u].ready <= s.now < INT_MAX
    ensures Processed(cfg, s, b, w, Ok(IssueFixed(s, b, w, u, latency)))
  {
    IssueFixedSettles(cfg, s, b, w, u, latency);
    PutWarpLive(s, b, w, Completing(s.blocks[b][w], s.now + latency));
  }

  lemma ProcessGlobalSettles(cfg: SmConfig, s: SmState, b: nat, w: nat, u: nat, inst: Inst)
    requires Inv(cfg, s) && Live(s, b, w) && s.blocks[b][w].point < |s.blocks[b][w].insts|
    requires inst == s.blocks[b][w].insts[s.blocks[b][w].point] && inst.kind.GlobalAccess?
    requires u < |s.units| && s.units[u].ready <= s.now < INT_MAX
    ensures Processed(cfg, s, b, w, ProcessLds(cfg, s, b, w, u, inst))
  {
    var m := FindMemInst(s.blocks[b][w].memInsts, inst.pc, inst.pcIndex, 0);
    RecordOk(cfg, s, b, w);
    if m.None? || inst.activeThreads == 0 || m.value.coalesced == [] {
      ProcessFixedSettles(cfg, s, b, w, u, 1);
    } else {
      IssueGlobalSettles(cfg, s, b, w, u, m.value);
    }
  }

  lemma ProcessAtomicSettles(cfg: SmConfig, s: SmState, b: nat, w: nat, u: nat, inst: Inst)
    requires Inv(cfg, s) && Live(s, b, w) && s.blocks[b][w].point < |s.blocks[b][w].insts|
    requires inst == s.blocks[b][w].insts[s.blocks[b][w].point] && inst.isLds && inst.kind.AtomicAccess?
    requires u < |s.units| && s.units[u].ready <= s.now < INT_MAX
    ensures Processed(cfg, s, b, w, ProcessLds(cfg, s, b, w, u, inst))
  {
    RecordOk(cfg, s, b, w);
    IssueAtomicSettles(cfg, s, b, w, u, FindMemInst(s.blocks[b][w].memInsts, inst.pc, inst.pcIndex, 0).value);
  }

  lemma ProcessLdsSettles(cfg: SmConfig, s: SmState, b: nat, w: nat, u: nat, inst: Inst)
    requires Inv(cfg, s) && Live(s, b, w) && s.blocks[b][w].point < |s.blocks[b][w].insts|
    requires inst == s.blocks[b][w].insts[s.blocks[b][w].point] && inst.isLds
    requires u < |s.units| && s.units[u].ready <= s.now < INT_MAX
    ensures Processed(cfg, s, b, w, ProcessLds(cfg, s, b, w, u, inst))
  {
    if inst.kind.GlobalAccess? {
      ProcessGlobalSettles(cfg, s, b, w, u, inst);
    } else if inst.kind.AtomicAccess? {
      ProcessAtomicSettles(cfg, s, b, w, u, inst);
    } else {
      var latency := if inst.kind.SharedAccess? then SharedLatency(inst.activeThreads) else inst.latency;
      ProcessFixedSettles(cfg, s, b, w, u, latency);
    }
  }

  lemma IssueSettles(cfg: SmConfig, s: SmState, b: nat, w: nat, u: nat)
    requires Inv(cfg, s) && Live(s, b, w) && s.blocks[b][w].point < |s.blocks[b][w].insts|
    requires u < |s.units| && s.now < INT_MAX
    ensures var r := Issue(cfg, s, b, w, u); r.Ok? && Inv(cfg, r.value) && r.value.now == s.now
  {
    var inst := s.blocks[b][w].insts[s.blocks[b][w].point];
    if s.units[u].ready <= s.now {
      if inst.isLds {
        ProcessLdsSettles(cfg, s, b, w, u, inst);
      } else {
        ProcessFixedSettles(cfg, s, b, w, u, inst.latency);
      }
    }
  }

  // ---------------------------------------------------------------- the scheduler

  /** Dependencies point at earlier instructions, and completions.size() == warp_point, so the
      dependency check never reads out of bounds. */
  lemma {:induction false} DepsInBounds(completions: seq<int>, deps: seq<int>, n: nat, now: int)
    requires n <= |deps| && forall i :: 0 <= i < |deps| ==> 0 <= deps[i] < |completions|
    ensures var r := DepsReady(completions, deps, n, now);
            r.Ok? && (r.value <==> forall i :: 0 <= i < n ==> completions[deps[i]] <= now)
  {
    if n > 0 { DepsInBounds(completions, deps, n - 1, now); }
  }

  /** Did the dependency check and the subcore search let warp w of block b issue? */
  ghost predicate MayIssue(cfg: SmConfig, s: SmState, b: nat, w: nat, active: set<nat>)
    requires Shaped(cfg, s) && Live(s, b, w) && s.blocks[b][w].point < |s.blocks[b][w].insts|
  {
    var x := s.blocks[b][w];
    var inst := x.insts[x.point];
    && DepsReady(x.completions, inst.deps, |inst.deps|, s.now) == Ok(true)
    && PickSubcore(cfg, s, active, inst.unitClass, 0).Some?
  }

  lemma VisitIssueSettles(cfg: SmConfig, s: SmState, b: nat, w: nat, active: set<nat>)
    requires Inv(cfg, s) && s.now < INT_MAX && w < cfg.warpLimit && active != {} && Live(s, b, w)
    requires !s.blocks[b][w].Retires() && s.blocks[b][w].point < |s.blocks[b][w].insts|
    ensures if MayIssue(cfg, s, b, w, active)
            then var r := VisitWarps(cfg, s, b, w, active); r.Ok? && Inv(cfg, r.value.0) && r.value.0.now == s.now
            else VisitWarps(cfg, s, b, w, active) == VisitWarps(cfg, s, b, w + 1, active)
  {
    var x := s.blocks[b][w];
    var inst := x.insts[x.point];
    RecordOk(cfg, s, b, w);
    DepsInBounds(x.completions, inst.deps, |inst.deps|, s.now);
    if MayIssue(cfg, s, b, w, active) {
      IssueSettles(cfg, s, b, w, cfg.unitOf[PickSubcore(cfg, s, active, inst.unitClass, 0).value][inst.unitClass]);
    }
  }

  /** What the visit of one warp leaves behind when it issues nothing. */
  function AfterVisit(s: SmState, b: nat, w: nat): SmState {
    if Live(s, b, w) && s.blocks[b][w].Retires() then WithoutWarp(s, b, w) else s
  }

  lemma VisitOneSettles(cfg: SmConfig, s: SmState, b: nat, w: nat, active: set<nat>)
    requires Inv(cfg, s) && s.now < INT_MAX && w < cfg.warpLimit && active != {}
    ensures var s', r := AfterVisit(s, b, w), VisitWarps(cfg, s, b, w, active);
            && Inv(cfg, s') && s'.now == s.now
            && (r == VisitWarps(cfg, s', b, w + 1, active) || (r.Ok? && Inv(cfg, r.value.0) && r.value.0.now == s.now))
  {
    if Live(s, b, w) {
      if s.blocks[b][w].Retires() {
        RetireSettles(cfg, s, b, w);
      } else if s.blocks[b][w].point < |s.blocks[b][w].insts| {
        VisitIssueSettles(cfg, s, b, w, active);
      }
    }
  }

  lemma VisitWarpsEnd(cfg: SmConfig, s: SmState, b: nat, w: nat, active: set<nat>)
    requires Shaped(cfg, s)
    ensures w >= cfg.warpLimit || active == {} ==> VisitWarps(cfg, s, b, w, active) == Ok((s, active))
  {
  }

  lemma {:induction false} VisitWarpsSettles(cfg: SmConfig, s: SmState, b: nat, w: nat, active: set<nat>)
    requires Inv(cfg, s) && s.now < INT_MAX
    ensures var r := VisitWarps(cfg, s, b, w, active); r.Ok? && Inv(cfg, r.value.0) && r.value.0.now == s.now
    decreases if w < cfg.warpLimit then cfg.warpLimit - w else 0
  {
    InvIsShaped(cfg, s);
    hide *;
    VisitWarpsEnd(cfg, s, b, w, active);
    if w < cfg.warpLimit && active != {} {
      VisitOneSettles(cfg, s, b, w, active);
      VisitWarpsSettles(cfg, AfterVisit(s, b, w), b, w + 1, active);
    }
  }

  lemma VisitBlockSettles(cfg: SmConfig, s: SmState, b: nat, active: set<nat>)
    requires Inv(cfg, s) && s.now < INT_MAX
    ensures var r := VisitBlock(cfg, s, b, active); r.Ok? && Inv(cfg, r.value.0) && r.value.0.now == s.now
  {
    if b in s.blocks { VisitWarpsSettles(cfg, s, b, 0, active); }
  }

  lemma VisitBlocksUnfold(cfg: SmConfig, s: SmState, b: nat, active: set<nat>)
    requires Shaped(cfg, s)
    ensures if b >= |cfg.kernel| || active == {} then VisitBlocks(cfg, s, b, active) == Ok(s)
            else VisitBlock(cfg, s, b, active).Ok? ==>
              var (s', active') := VisitBlock(cfg, s, b, active).value;
              VisitBlocks(cfg, s, b, active) == VisitBlocks(cfg, s', b + 1, active')
  {
    hide VisitBlock, Shaped;
  }

  lemma {:induction false} VisitBlocksSettles(cfg: SmConfig, s: SmState, b: nat, active: set<nat>)
    requires Inv(cfg, s) && s.now < INT_MAX
    ensures var r := VisitBlocks(cfg, s, b, active); r.Ok? && Inv(cfg, r.value) && r.value.now == s.now
    decreases if b < |cfg.kernel| then |cfg.kernel| - b else 0
  {
    InvIsShaped(cfg, s);
    hide *;
    VisitBlocksUnfold(cfg, s, b, active);
    if b < |cfg.kernel| && active != {} {
      VisitBlockSettles(cfg, s, b, active);
      var (s', active') := VisitBlock(cfg, s, b, active).value;
      VisitBlocksSettles(cfg, s', b + 1, active');
    }
  }

  lemma {:induction false} UnitCyclesSettles(cfg: SmConfig, s: SmState, sub: nat, busy: set<nat>)
    requires Inv(cfg, s) && sub <= SUBCORES
    ensures var r := UnitCycles(cfg, s, sub, busy); r.Ok? && Inv(cfg, r.value) && r.value.now == s.now
    decreases SUBCORES - sub
  {
    if sub < SUBCORES {
      var u := cfg.unitOf[sub][cfg.ldsClass];
      UnitCycleSettles(cfg, s, u, busy);
      var (r, busy') := UnitCycle(cfg, s, u, busy);
      UnitCyclesSettles(cfg, r.value, sub + 1, busy');
    }
  }

  // ---------------------------------------------------------------- cycles and runs

  /** A reply that the L2 sends back settles, load or store. */
  lemma ReplySettles(cfg: SmConfig, s: SmState, input: SmInput)
    requires Inv(cfg, s) && ReplyOk(s, input) && s.now < TagStore.MAX_TIME
    ensures var r := WriteBackReply(cfg, s, input.reply); r.Ok? && Inv(cfg, r.value) && r.value.now == s.now
  {
    if input.reply.Some? {
      var f := s.below[input.reply.value];
      assert L1Cache.Sendable(f);
      if f.isWrite {
        StoreReplySettles(cfg, s, input.reply.value);
      } else {
        LoadReplySettles(cfg, s, input.reply.value);
      }
    }
  }

  lemma L1CycleSettles(cfg: SmConfig, s: SmState, hasBuffer: bool)
    requires Inv(cfg, s) && s.now < TagStore.MAX_TIME
    ensures var r := L1Cycle(cfg, s, hasBuffer); r.Ok? && Inv(cfg, r.value) && r.value.now == s.now
  {
    SendMissSettles(cfg, s, hasBuffer);
    AccessBanksSettles(cfg, SendMiss(cfg, s, hasBuffer), 0);
  }

  lemma HitsThenReply(cfg: SmConfig, s: SmState, input: SmInput)
    requires Inv(cfg, s) && ReplyOk(s, input) && s.now < TagStore.MAX_TIME
    ensures var r := WriteBackHits(s);
            && r.Ok?
            && var r' := WriteBackReply(cfg, r.value, input.reply);
               r'.Ok? && Inv(cfg, r'.value) && r'.value.now == s.now
  {
    WriteBackHitsSettles(cfg, s);
    ReplySettles(cfg, WriteBackHits(s).value, input);
  }

  lemma MemoryPhaseSettles(cfg: SmConfig, s: SmState, input: SmInput)
    requires Inv(cfg, s) && ReplyOk(s, input) && s.now < TagStore.MAX_TIME
    ensures var r := MemoryPhase(cfg, s, input); r.Ok? && Inv(cfg, r.value) && r.value.now == s.now
  {
    HitsThenReply(cfg, s, input);
    L1CycleSettles(cfg, WriteBackReply(cfg, WriteBackHits(s).value, input.reply).value, input.hasBuffer);
  }

  lemma CorePhaseSettles(cfg: SmConfig, s: SmState)
    requires Inv(cfg, s) && s.now < INT_MAX
    ensures var r := CorePhase(cfg, s); r.Ok? && Inv(cfg, r.value) && r.value.now == s.now
  {
    DeleteInactiveSettles(cfg, s);
    UnitCyclesSettles(cfg, DeleteInactive(s), 0, {});
    var s1 := UnitCycles(cfg, DeleteInactive(s), 0, {}).value;
    DispatchSettles(cfg, s1);
    var s2 := Dispatch(cfg, s1);
    VisitBlocksSettles(cfg, s2, 0, ActiveSubcores(cfg, s2));
  }

  /** The clock, the block counter and the id counter belong to the rest of the GPU. */
  lemma OutsideCounters(cfg: SmConfig, s: SmState, now: nat, ptr: nat, nextId: nat)
    requires Inv(cfg, s) && s.ptr <= ptr <= |cfg.kernel|
    ensures Inv(cfg, s.(now := now, ptr := ptr, nextId := nextId))
  {
    var s' := s.(now := now, ptr := ptr, nextId := nextId);
    forall b, w ensures Live(s', b, w) <==> Live(s, b, w) { }
    forall u | 0 <= u < |s'.units| ensures HeldOk(s', s'.units[u]) { assert HeldOk(s, s.units[u]); }
    forall t ensures Owed(s', t) == Claimed(s', t) { assert Owed(s, t) == Claimed(s, t); }
  }

  /** What the rest of the GPU may do to an SM between two cycles. */
  predicate InputOk(cfg: SmConfig, s: SmState, input: SmInput) {
    ReplyOk(s, input) && s.ptr <= input.ptr <= |cfg.kernel|
  }

  lemma ArrivedSettles(cfg: SmConfig, s: SmState, input: SmInput)
    requires Inv(cfg, s) && InputOk(cfg, s, input)
    ensures Inv(cfg, Arrived(s, input)) && ReplyOk(Arrived(s, input), input)
  {
    OutsideCounters(cfg, s, s.now, input.ptr, input.nextId);
  }

  lemma TickedSettles(cfg: SmConfig, s: SmState, input: SmInput)
    requires Inv(cfg, s) && ReplyOk(s, input)
    ensures Inv(cfg, Ticked(s)) && ReplyOk(Ticked(s), input)
  {
    OutsideCounters(cfg, s, s.now + 1, s.ptr, s.nextId);
  }

  /** One cycle of an active SM. */
  lemma ActiveCycleSettles(cfg: SmConfig, s: SmState, input: SmInput)
    requires Inv(cfg, s) && ReplyOk(s, input) && s.now < INT_MAX
    ensures var r := ActiveCycle(cfg, s, input); r.Ok? && Inv(cfg, r.value) && r.value.now == s.now
  {
    MemoryPhaseSettles(cfg, s, input);
    CorePhaseSettles(cfg, MemoryPhase(cfg, s, input).value);
  }

  /** No cycle faults, and every cycle keeps the invariant. */
  lemma CycleSettles(cfg: SmConfig, s: SmState, input: SmInput)
    requires Inv(cfg, s) && InputOk(cfg, s, input) && s.now + 1 < INT_MAX
    ensures var r := Cycle(cfg, s, input); r.Ok? && Inv(cfg, r.value) && r.value.now <= s.now + 1
  {
    ArrivedSettles(cfg, s, input);
    if IsActive(cfg, Arrived(s, input)) {
      TickedSettles(cfg, Arrived(s, input), input);
      ActiveCycleSettles(cfg, Ticked(Arrived(s, input)), input);
    }
  }

  /** The clock of an active SM advances by one, and that of an inactive one stands still. */
  lemma CycleClock(cfg: SmConfig, s: SmState, input: SmInput)
    requires Inv(cfg, s) && InputOk(cfg, s, input) && s.now + 1 < INT_MAX
    ensures var r := Cycle(cfg, s, input);
            r.Ok? && r.value.now == s.now + (if IsActive(cfg, Arrived(s, input)) then 1 else 0)
  {
    ArrivedSettles(cfg, s, input);
    if IsActive(cfg, Arrived(s, input)) {
      TickedSettles(cfg, Arrived(s, input), input);
      ActiveCycleSettles(cfg, Ticked(Arrived(s, input)), input);
    }
  }

  /** The states a run passes through: each input is allowed in the state where it arrives. */
  ghost predicate InputsOk(cfg: SmConfig, s: SmState, inputs: seq<SmInput>)
    requires Shaped(cfg, s)
    decreases |inputs|
  {
    inputs != [] ==>
      InputOk(cfg, s, inputs[0]) && var r := Cycle(cfg, s, inputs[0]); r.Ok? ==> InputsOk(cfg, r.value, inputs[1..])
  }

  function Run(cfg: SmConfig, s: SmState, inputs: seq<SmInput>): Outcome
    requires Shaped(cfg, s)
    decreases |inputs|
  {
    if inputs == [] then Ok(s)
    else
      match Cycle(cfg, s, inputs[0])
      case Err(e) => Err(e)
      case Ok(s') => Run(cfg, s', inputs[1..])
  }

  /** Whole runs, of any length below 2^31 cycles: no exit, null warp, bad completion index,
      aborted probe or missing fill index is ever reached, and the ledger balances at the end. */
  lemma {:induction false} RunSettles(cfg: SmConfig, s: SmState, inputs: seq<SmInput>)
    requires Inv(cfg, s) && InputsOk(cfg, s, inputs) && s.now + |inputs| < INT_MAX
    ensures var r := Run(cfg, s, inputs); r.Ok? && Inv(cfg, r.value)
    decreases |inputs|
  {
    if inputs != [] {
      CycleSettles(cfg, s, inputs[0]);
      RunSettles(cfg, Cycle(cfg, s, inputs[0]).value, inputs[1..]);
    }
  }
}
