/** The L1 of an SM over whole runs: which sectors hit, and when hits are answered. */
module SmHits {
  import opened Wrappers
  import opened CacheConfig
  import opened MemFetch
  import opened Sm
  import opened SmInv
  import L1Cache
  import L1Service
  import Mshr
  import SmRuns
  import SmTraffic
  import TagStore

  /** The load whose reply an SM takes in this cycle, if any. */
  function Returned(s: SmState, input: SmInput): Option<Fetch> {
    if input.reply.Some? && input.reply.value < |s.below| && !s.below[input.reply.value].isWrite
    then Some(s.below[input.reply.value]) else None
  }

  lemma ReturnedIsAligned(cfg: SmConfig, s: SmState, input: SmInput)
    requires Inv(cfg, s)
    ensures TagStore.TagInv(cfg.l1.cache, s.l1.lines) && TagStore.UniqueTags(s.l1.lines)
    ensures Returned(s, input).Some? ==>
              Returned(s, input).value.Aligned() && Returned(s, input).value.SectorAddr() in s.l1.mshr
  {
    if Returned(s, input).Some? {
      assert L1Cache.Sendable(s.below[input.reply.value]);
      L1Cache.ReturnHasEntry(cfg.l1, s.l1, s.below, input.reply.value);
    }
  }

  /** Does this cycle bring in the sector at address a? */
  predicate Brings(cfg: SmConfig, s: SmState, input: SmInput, a: nat) {
    IsActive(cfg, Arrived(s, input)) && Returned(s, input).Some? && Returned(s, input).value.SectorAddr() == a
  }

  /** Does this cycle throw out a line?  Only a returned load does, and only its one victim. */
  ghost predicate Throws(cfg: SmConfig, s: SmState, input: SmInput, line: nat)
    requires Inv(cfg, s)
  {
    ReturnedIsAligned(cfg, s, input);
    IsActive(cfg, Arrived(s, input)) && Returned(s, input).Some?
    && line in L1Service.ThrownOut(cfg.l1, s.l1, Returned(s, input).value)
  }

  // ---------------------------------------------------------------- the phases of a cycle

  /** What the answers that leave do: those at the front, up to some position, all due in this cycle. */
  ghost predicate Leave(cfg: SmConfig, q: seq<Fetch>, k: nat, now: int) {
    && k <= |q|
    && (forall i :: 0 <= i < k ==> L1Service.LeavesAt(cfg.l1, q[i]) == now)
    && L1Service.Punctual(cfg.l1, q[k..], now)
  }

  lemma NoneLeave(cfg: SmConfig, q: seq<Fetch>, now: int)
    requires L1Service.Punctual(cfg.l1, q, now - 1) && (q == [] || q[0].l1Ready > now)
    ensures Leave(cfg, q, 0, now)
  {
  }

  lemma OneLeaves(cfg: SmConfig, q: seq<Fetch>, k: nat, now: int)
    requires q != [] && L1Service.Punctual(cfg.l1, q, now - 1) && q[0].l1Ready <= now && Leave(cfg, q[1..], k, now)
    ensures Leave(cfg, q, k + 1, now)
  {
    assert q[1..][k..] == q[k + 1..];
  }

  lemma TailPunctual(cfg: SmConfig, q: seq<Fetch>, now: int)
    requires q != [] && L1Service.Punctual(cfg.l1, q, now)
    ensures L1Service.Punctual(cfg.l1, q[1..], now)
  {
  }

  lemma HitsUnfold(s: SmState)
    ensures if s.l1.toSm == [] || s.l1.toSm[0].l1Ready > s.now then WriteBackHits(s) == Ok(s)
            else var r := Release(s.(l1 := s.l1.(toSm := s.l1.toSm[1..])), s.l1.toSm[0]);
                 r.Ok? ==> WriteBackHits(s) == WriteBackHits(r.value)
  {
    hide Release;
  }

  /** write_back releases exactly the answers that are due. */
  lemma {:induction false} HitsLeave(cfg: SmConfig, s: SmState) returns (k: nat)
    requires Inv(cfg, s) && L1Service.Punctual(cfg.l1, s.l1.toSm, s.now - 1)
    ensures Leave(cfg, s.l1.toSm, k, s.now)
    ensures WriteBackHits(s).Ok? && WriteBackHits(s).value.l1 == s.l1.(toSm := s.l1.toSm[k..])
    decreases |s.l1.toSm|
  {
    hide *;
    HitsUnfold(s);
    if s.l1.toSm == [] || s.l1.toSm[0].l1Ready > s.now {
      k := 0;
      NoneLeave(cfg, s.l1.toSm, s.now);
    } else {
      HitSettles(cfg, s);
      var next := Release(s.(l1 := s.l1.(toSm := s.l1.toSm[1..])), s.l1.toSm[0]).value;
      TailPunctual(cfg, s.l1.toSm, s.now - 1);
      var j := HitsLeave(cfg, next);
      k := j + 1;
      OneLeaves(cfg, s.l1.toSm, j, s.now);
      assert s.l1.toSm[1..][j..] == s.l1.toSm[k..];
    }
  }

  /** A reply fills the sector of a load and touches the L1 no further. */
  lemma ReplyFills(cfg: SmConfig, s: SmState, input: SmInput)
    requires Inv(cfg, s) && ReplyOk(s, input) && s.now < TagStore.MAX_TIME
    ensures Shaped(cfg, s) && TagStore.TagInv(cfg.l1.cache, s.l1.lines)
    ensures Returned(s, input).Some? ==> Returned(s, input).value.Aligned()
    ensures var r, f := WriteBackReply(cfg, s, input.reply), Returned(s, input);
            && r.Ok?
            && r.value.l1 == (if f.Some?
                              then s.l1.(lines := L1Service.FilledLines(cfg.l1, s.l1, f.value, s.now),
                                         mshr := s.l1.mshr - {f.value.SectorAddr()})
                              else s.l1)
            && r.value == s.(blocks := r.value.blocks, l1 := r.value.l1,
                             below := SmTraffic.Without(s.below, input.reply))
  {
    ReplySettles(cfg, s, input);
    ReturnedIsAligned(cfg, s, input);
    if input.reply.Some? {
      var i := input.reply.value;
      assert L1Cache.Sendable(s.below[i]);
      var popped := s.(below := s.below[..i] + s.below[i + 1..]);
      if !s.below[i].isWrite {
        LoadLeaves(s, i);
        PoppedCore(cfg, s, i);
        DrainSettles(cfg, popped, s.below[i]);
      }
    }
  }

  /** The L1 after some banks were served: the same sectors hit, and answers have only been added. */
  ghost predicate OnlyServed(cfg: SmConfig, s: SmState, s': SmState) {
    && L1Cache.SameHits(s.l1.lines, s'.l1.lines)
    && s.l1.toSm <= s'.l1.toSm
    && (L1Service.Punctual(cfg.l1, s.l1.toSm, s.now) ==> L1Service.Punctual(cfg.l1, s'.l1.toSm, s.now))
  }

  lemma AccessBankServes(cfg: SmConfig, s: SmState, bank: nat)
    requires Inv(cfg, s) && bank < SECTORS && s.now < TagStore.MAX_TIME
    ensures Shaped(cfg, s)
    ensures var r := AccessBank(cfg, s, bank); r.Ok? && r.value.now == s.now && OnlyServed(cfg, s, r.value)
  {
    AccessBankSettles(cfg, s, bank);
    if s.banks[bank] != [] {
      var f := s.banks[bank][0];
      assert f.Aligned();
      AccessAdds(cfg, s.l1, f, s.now, s.nextId);
    }
  }

  lemma AccessAdds(cfg: SmConfig, c: L1Cache.L1State, f: Fetch, now: nat, freshId: nat)
    requires TagStore.TagInv(cfg.l1.cache, c.lines) && f.Aligned() && now < TagStore.MAX_TIME
    ensures var c' := L1Cache.Access(cfg.l1, c, f, now, freshId).1;
            && L1Cache.SameHits(c.lines, c'.lines) && c.toSm <= c'.toSm
            && (L1Service.Punctual(cfg.l1, c.toSm, now) ==> L1Service.Punctual(cfg.l1, c'.toSm, now))
  {
    hide L1Cache.Access, L1Service.Punctual, L1Cache.SameHits, L1Service.SentOn;
    L1Service.AccessSameHits(cfg.l1, c, f, now, freshId);
    L1Service.AccessServes(cfg.l1, c, f, now, freshId);
    if L1Service.Punctual(cfg.l1, c.toSm, now) { L1Service.AccessPunctual(cfg.l1, c, f, now, freshId); }
  }

  lemma ServedTwice(cfg: SmConfig, s: SmState, s1: SmState, s2: SmState)
    requires OnlyServed(cfg, s, s1) && OnlyServed(cfg, s1, s2) && s1.now == s.now
    ensures OnlyServed(cfg, s, s2)
  {
  }

  lemma ServedItself(cfg: SmConfig, s: SmState)
    requires Inv(cfg, s)
    ensures OnlyServed(cfg, s, s)
  {
  }

  lemma {:induction false} AccessBanksServe(cfg: SmConfig, s: SmState, bank: nat)
    requires Inv(cfg, s) && bank <= SECTORS && s.now < TagStore.MAX_TIME
    ensures Shaped(cfg, s)
    ensures var r := AccessBanks(cfg, s, bank); r.Ok? && OnlyServed(cfg, s, r.value)
    decreases SECTORS - bank
  {
    SmTraffic.InvParts(cfg, s);
    hide *;
    SmTraffic.AccessBanksUnfold(cfg, s, bank);
    if bank < SECTORS {
      AccessBankSettles(cfg, s, bank);
      AccessBankServes(cfg, s, bank);
      var s1 := AccessBank(cfg, s, bank).value;
      AccessBanksServe(cfg, s1, bank + 1);
      ServedTwice(cfg, s, s1, AccessBanks(cfg, s1, bank + 1).value);
    } else {
      ServedItself(cfg, s);
    }
  }

  lemma SendMissServes(cfg: SmConfig, s: SmState, hasBuffer: bool)
    requires Inv(cfg, s)
    ensures var s' := SendMiss(cfg, s, hasBuffer); OnlyServed(cfg, s, s') && s'.now == s.now
  {
  }

  lemma L1CycleServes(cfg: SmConfig, s: SmState, hasBuffer: bool)
    requires Inv(cfg, s) && s.now < TagStore.MAX_TIME
    ensures Shaped(cfg, s)
    ensures var r := L1Cycle(cfg, s, hasBuffer); r.Ok? && OnlyServed(cfg, s, r.value)
  {
    SmTraffic.InvParts(cfg, s);
    SendMissSettles(cfg, s, hasBuffer);
    hide Inv, Shaped, AccessBanks, OnlyServed, SendMiss;
    SendMissServes(cfg, s, hasBuffer);
    AccessBanksServe(cfg, SendMiss(cfg, s, hasBuffer), 0);
    ServedTwice(cfg, s, SendMiss(cfg, s, hasBuffer), AccessBanks(cfg, SendMiss(cfg, s, hasBuffer), 0).value);
  }

  // ---------------------------------------------------------------- the bank queues

  lemma FullStays(t: Mshr.Table, sb: nat, f: Fetch, sa: nat, entries: nat, maxMerge: nat)
    requires !Mshr.IsFull(t, sb, entries, maxMerge) && Mshr.IsFull(t, sa, entries, maxMerge)
    ensures Mshr.IsFull(Mshr.Add(t, sb, f), sa, entries, maxMerge)
  {
    var t' := Mshr.Add(t, sb, f);
    assert t'.Keys == t.Keys + {sb};
    assert |t'| == |t'.Keys| && |t| == |t.Keys| && |t'.Keys| >= |t.Keys|;
  }

  lemma ServedStaysFull(cfg: SmConfig, c: L1Cache.L1State, f: Fetch, now: nat, freshId: nat, g: Fetch)
    requires TagStore.TagInv(cfg.l1.cache, c.lines) && f.Aligned() && L1Cache.MshrFull(cfg.l1, c, g)
    ensures L1Cache.MshrFull(cfg.l1, L1Cache.Access(cfg.l1, c, f, now, freshId).1, g)
  {
    hide TagStore.TagInv, L1Cache.Access, L1Cache.Hits, L1Service.SentOn, Mshr.Add;
    L1Service.AccessServes(cfg.l1, c, f, now, freshId);
    if !L1Cache.MshrFull(cfg.l1, c, f) {
      FullStays(c.mshr, f.SectorAddr(), f, g.SectorAddr(), cfg.l1.cache.mshrEntries, cfg.l1.cache.mshrMaxMerge);
    }
  }

  /** What l1_cache_cycle does to bank k: its front request leaves, unless it is a load that misses and
      finds no room in the MSHR. */
  ghost predicate BankDone(cfg: SmConfig, s: SmState, s': SmState, k: nat)
    requires k < |s.banks| && k < |s'.banks| && TagStore.UniqueTags(s.l1.lines)
  {
    if s.banks[k] == [] then s'.banks[k] == []
    else
      var f := s.banks[k][0];
      var waits := !f.isWrite && !L1Cache.Hits(s.l1.lines, f.SectorAddr());
      || (s'.banks[k] == s.banks[k][1..] && !(waits && L1Cache.MshrFull(cfg.l1, s.l1, f)))
      || (s'.banks[k] == s.banks[k] && waits && L1Cache.MshrFull(cfg.l1, s'.l1, f))
  }

  /** Nothing but the L1 and the banks from `bank` on has changed, and an MSHR that was full still is. */
  ghost predicate BanksFrom(cfg: SmConfig, s: SmState, s': SmState, bank: nat) {
    && |s'.banks| == |s.banks|
    && s' == s.(l1 := s'.l1, banks := s'.banks, nextId := s'.nextId)
    && L1Cache.SameHits(s.l1.lines, s'.l1.lines)
    && (forall k :: 0 <= k < bank && k < |s.banks| ==> s'.banks[k] == s.banks[k])
    && (forall f :: L1Cache.MshrFull(cfg.l1, s.l1, f) ==> L1Cache.MshrFull(cfg.l1, s'.l1, f))
  }

  lemma OneBank(cfg: SmConfig, s: SmState, bank: nat)
    requires Inv(cfg, s) && bank < SECTORS && s.now < TagStore.MAX_TIME
    ensures Shaped(cfg, s)
    ensures var r := AccessBank(cfg, s, bank);
            && r.Ok? && BanksFrom(cfg, s, r.value, bank) && BankDone(cfg, s, r.value, bank)
            && (forall k :: bank < k < |s.banks| ==> r.value.banks[k] == s.banks[k])
  {
    hide L1Cache.Access, L1Cache.Hits, L1Cache.MshrFull, Mshr.Add, L1Service.SentOn, LedgerOk, TagStore.Settled;
    AccessBankSettles(cfg, s, bank);
    AccessBankServes(cfg, s, bank);
    if s.banks[bank] != [] {
      var f := s.banks[bank][0];
      assert f.Aligned();
      L1Service.AccessServes(cfg.l1, s.l1, f, s.now, s.nextId);
      forall g | L1Cache.MshrFull(cfg.l1, s.l1, g)
        ensures L1Cache.MshrFull(cfg.l1, AccessBank(cfg, s, bank).value.l1, g)
      {
        ServedStaysFull(cfg, s.l1, f, s.now, s.nextId, g);
      }
    }
  }

  lemma BankThenRest(cfg: SmConfig, s: SmState, s1: SmState, s2: SmState, bank: nat)
    requires |s.banks| == SECTORS && bank < SECTORS
    requires BanksFrom(cfg, s, s1, bank) && BankDone(cfg, s, s1, bank)
    requires forall k :: bank < k < |s.banks| ==> s1.banks[k] == s.banks[k]
    requires BanksFrom(cfg, s1, s2, bank + 1) && forall k :: bank < k < SECTORS ==> BankDone(cfg, s1, s2, k)
    ensures BanksFrom(cfg, s, s2, bank) && forall k :: bank <= k < SECTORS ==> BankDone(cfg, s, s2, k)
  {
    hide L1Cache.MshrFull, L1Cache.Hits, TagStore.UniqueTags;
    forall k | bank <= k < SECTORS ensures BankDone(cfg, s, s2, k) {
      if k > bank {
        assert BankDone(cfg, s1, s2, k) && s1.banks[k] == s.banks[k];
        if s.banks[k] != [] { SameWait(cfg, s, s1, s.banks[k][0]); }
      }
    }
  }

  lemma SameWait(cfg: SmConfig, s: SmState, s1: SmState, f: Fetch)
    requires L1Cache.SameHits(s.l1.lines, s1.l1.lines)
    ensures L1Cache.Hits(s1.l1.lines, f.SectorAddr()) <==> L1Cache.Hits(s.l1.lines, f.SectorAddr())
  {
  }

  lemma BanksItself(cfg: SmConfig, s: SmState)
    requires Inv(cfg, s)
    ensures BanksFrom(cfg, s, s, SECTORS) && |s.banks| == SECTORS
  {
  }

  /** The loop over the banks gives every bank its turn. */
  lemma {:induction false} EveryBankIsServed(cfg: SmConfig, s: SmState, bank: nat)
    requires Inv(cfg, s) && bank <= SECTORS && s.now < TagStore.MAX_TIME
    ensures Shaped(cfg, s) && |s.banks| == SECTORS && TagStore.UniqueTags(s.l1.lines)
    ensures var r := AccessBanks(cfg, s, bank);
            && r.Ok? && BanksFrom(cfg, s, r.value, bank)
            && forall k :: bank <= k < SECTORS ==> BankDone(cfg, s, r.value, k)
    decreases SECTORS - bank
  {
    SmTraffic.InvParts(cfg, s);
    InvUnique(cfg, s);
    BanksItself(cfg, s);
    hide *;
    SmTraffic.AccessBanksUnfold(cfg, s, bank);
    if bank < SECTORS {
      AccessBankSettles(cfg, s, bank);
      OneBank(cfg, s, bank);
      var s1 := AccessBank(cfg, s, bank).value;
      EveryBankIsServed(cfg, s1, bank + 1);
      BankThenRest(cfg, s, s1, AccessBanks(cfg, s1, bank + 1).value, bank);
    }
  }

  lemma InvUnique(cfg: SmConfig, s: SmState)
    requires Inv(cfg, s)
    ensures TagStore.UniqueTags(s.l1.lines)
  {
  }

  // ---------------------------------------------------------------- one cycle

  /** The L1 after an active cycle, sector by sector. */
  ghost predicate Hitting(cfg: SmConfig, s: SmState, f: Option<Fetch>, lines: seq<TagStore.Line>, a: nat)
    requires TagStore.TagInv(cfg.l1.cache, s.l1.lines) && (f.Some? ==> f.value.Aligned())
  {
    && TagStore.UniqueTags(lines)
    && (L1Cache.Hits(lines, a)
        <==> (f.Some? && a == f.value.SectorAddr())
             || (L1Cache.Hits(s.l1.lines, a)
                 && (f.Some? ==> LineOf(a) !in L1Service.ThrownOut(cfg.l1, s.l1, f.value))))
  }

  lemma ReplyHits(cfg: SmConfig, s: SmState, input: SmInput, a: nat)
    requires Inv(cfg, s) && ReplyOk(s, input) && s.now < TagStore.MAX_TIME
    ensures Shaped(cfg, s) && TagStore.TagInv(cfg.l1.cache, s.l1.lines)
    ensures Returned(s, input).Some? ==> Returned(s, input).value.Aligned()
    ensures var r := WriteBackReply(cfg, s, input.reply);
            && r.Ok? && Inv(cfg, r.value) && r.value.now == s.now && r.value.l1.toSm == s.l1.toSm
            && Hitting(cfg, s, Returned(s, input), r.value.l1.lines, a)
  {
    hide Inv, WriteBackReply;
    ReplySettles(cfg, s, input);
    ReturnedIsAligned(cfg, s, input);
    ReplyFills(cfg, s, input);
    var f := Returned(s, input);
    if f.Some? { L1Service.FilledLinesHit(cfg.l1, s.l1, f.value, s.now, a); }
  }

  /** An answer leaves exactly in its cycle, and the cache changes by nothing but the returned load. */
  ghost predicate CycleDone(cfg: SmConfig, s: SmState, f: Option<Fetch>, s': SmState, k: nat, now: int, a: nat)
    requires TagStore.TagInv(cfg.l1.cache, s.l1.lines) && (f.Some? ==> f.value.Aligned())
  {
    && Leave(cfg, s.l1.toSm, k, now)
    && s.l1.toSm[k..] <= s'.l1.toSm && L1Service.Punctual(cfg.l1, s'.l1.toSm, now)
    && Hitting(cfg, s, f, s'.l1.lines, a)
  }

  lemma MemoryHits(cfg: SmConfig, s: SmState, input: SmInput, a: nat) returns (k: nat)
    requires Inv(cfg, s) && ReplyOk(s, input) && s.now < TagStore.MAX_TIME
    requires L1Service.Punctual(cfg.l1, s.l1.toSm, s.now - 1)
    ensures Shaped(cfg, s) && TagStore.TagInv(cfg.l1.cache, s.l1.lines)
    ensures Returned(s, input).Some? ==> Returned(s, input).value.Aligned()
    ensures var r := MemoryPhase(cfg, s, input);
            r.Ok? && CycleDone(cfg, s, Returned(s, input), r.value, k, s.now, a)
  {
    SmTraffic.InvParts(cfg, s);
    ReturnedIsAligned(cfg, s, input);
    SmTraffic.HitsTraffic(cfg, s);
    k := HitsLeave(cfg, s);
    var s1 := WriteBackHits(s).value;
    assert ReplyOk(s1, input) && Returned(s1, input) == Returned(s, input);
    hide Inv, Shaped, WriteBackHits, WriteBackReply, L1Cycle, TagStore.TagInv, L1Cache.Hits, L1Service.Punctual;
    ReplyHits(cfg, s1, input, a);
    SmTraffic.InvParts(cfg, s1);
    var s2 := WriteBackReply(cfg, s1, input.reply).value;
    L1CycleServes(cfg, s2, input.hasBuffer);
  }

  lemma ActiveHits(cfg: SmConfig, s: SmState, input: SmInput, a: nat) returns (k: nat)
    requires Inv(cfg, s) && ReplyOk(s, input) && s.now < INT_MAX
    requires L1Service.Punctual(cfg.l1, s.l1.toSm, s.now - 1)
    ensures Shaped(cfg, s) && TagStore.TagInv(cfg.l1.cache, s.l1.lines)
    ensures Returned(s, input).Some? ==> Returned(s, input).value.Aligned()
    ensures var r := ActiveCycle(cfg, s, input);
            r.Ok? && CycleDone(cfg, s, Returned(s, input), r.value, k, s.now, a)
  {
    SmTraffic.InvParts(cfg, s);
    ActiveCycleSettles(cfg, s, input);
    hide Inv, Shaped, MemoryPhase, CorePhase, TagStore.TagInv;
    k := MemoryHits(cfg, s, input, a);
  }

  /** One sm_cycle.  The answers that leave are exactly those that are due, in order; no other answer is
      lost or late; and a sector hits afterwards if and only if its load came back in this cycle, or it
      hit before and its line was not thrown out.  An inactive SM does nothing. */
  lemma CycleHits(cfg: SmConfig, s: SmState, input: SmInput, a: nat) returns (k: nat)
    requires Inv(cfg, s) && InputOk(cfg, s, input) && s.now + 1 < INT_MAX
    requires L1Service.Punctual(cfg.l1, s.l1.toSm, s.now)
    ensures Shaped(cfg, s) && TagStore.TagInv(cfg.l1.cache, s.l1.lines)
    ensures Returned(s, input).Some? ==> Returned(s, input).value.Aligned()
    ensures var r := Cycle(cfg, s, input);
            && r.Ok?
            && if IsActive(cfg, Arrived(s, input))
               then CycleDone(cfg, s, Returned(s, input), r.value, k, s.now + 1, a) && r.value.now == s.now + 1
               else r.value.l1 == s.l1 && r.value.now == s.now
  {
    hide Inv, Shaped, ActiveCycle, Cycle, TagStore.TagInv, L1Service.Punctual, IsActive, L1Cache.Hits, Leave,
         L1Service.ThrownOut, ReplyOk, InputOk, TagStore.UniqueTags;
    SmTraffic.InvParts(cfg, s);
    ReturnedIsAligned(cfg, s, input);
    ArrivedSettles(cfg, s, input);
    CycleClock(cfg, s, input);
    CycleUnfold(cfg, s, input);
    k := 0;
    if IsActive(cfg, Arrived(s, input)) {
      TickedSettles(cfg, Arrived(s, input), input);
      k := ActiveHits(cfg, Ticked(Arrived(s, input)), input, a);
    }
  }

  lemma CycleUnfold(cfg: SmConfig, s: SmState, input: SmInput)
    requires Shaped(cfg, s)
    ensures Shaped(cfg, Ticked(Arrived(s, input)))
    ensures Cycle(cfg, s, input)
            == if IsActive(cfg, Arrived(s, input)) then ActiveCycle(cfg, Ticked(Arrived(s, input)), input)
               else Ok(Arrived(s, input))
  {
    hide ActiveCycle, IsActive;
  }

  /** The same in terms of what the cycle brings and throws out. */
  lemma CycleHitsIff(cfg: SmConfig, s: SmState, input: SmInput, a: nat)
    requires Inv(cfg, s) && InputOk(cfg, s, input) && s.now + 1 < INT_MAX
    requires L1Service.Punctual(cfg.l1, s.l1.toSm, s.now)
    ensures Shaped(cfg, s) && TagStore.UniqueTags(s.l1.lines)
    ensures var r := Cycle(cfg, s, input);
            && r.Ok? && Inv(cfg, r.value) && L1Service.Punctual(cfg.l1, r.value.l1.toSm, r.value.now)
            && TagStore.UniqueTags(r.value.l1.lines)
            && (L1Cache.Hits(r.value.l1.lines, a)
                <==> Brings(cfg, s, input, a)
                     || (L1Cache.Hits(s.l1.lines, a) && !Throws(cfg, s, input, LineOf(a))))
  {
    hide Inv, Shaped, Cycle, L1Service.Punctual, IsActive, L1Cache.Hits;
    ReturnedIsAligned(cfg, s, input);
    CycleSettles(cfg, s, input);
    var k := CycleHits(cfg, s, input, a);
  }

  // ---------------------------------------------------------------- runs

  /** No cycle of the run throws out the line. */
  ghost predicate Survives(cfg: SmConfig, s: SmState, inputs: seq<SmInput>, line: nat)
    requires Inv(cfg, s) && InputsOk(cfg, s, inputs) && s.now + |inputs| < INT_MAX
    decreases |inputs|
  {
    if inputs == [] then true
    else
      CycleSettles(cfg, s, inputs[0]);
      !Throws(cfg, s, inputs[0], line) && Survives(cfg, Cycle(cfg, s, inputs[0]).value, inputs[1..], line)
  }

  /** Some cycle of the run brings in the sector at address a, and no later one throws out its line. */
  ghost predicate Brought(cfg: SmConfig, s: SmState, inputs: seq<SmInput>, a: nat)
    requires Inv(cfg, s) && InputsOk(cfg, s, inputs) && s.now + |inputs| < INT_MAX
    decreases |inputs|
  {
    if inputs == [] then false
    else
      CycleSettles(cfg, s, inputs[0]);
      var s' := Cycle(cfg, s, inputs[0]).value;
      || (Brings(cfg, s, inputs[0], a) && Survives(cfg, s', inputs[1..], LineOf(a)))
      || Brought(cfg, s', inputs[1..], a)
  }

  /** Over every run, a sector hits at the end if and only if some load of it came back and its line was
      not thrown out since, or it hit at the start and its line was never thrown out. */
  lemma {:induction false} RunHits(cfg: SmConfig, s: SmState, inputs: seq<SmInput>, a: nat)
    requires Inv(cfg, s) && InputsOk(cfg, s, inputs) && s.now + |inputs| < INT_MAX
    requires L1Service.Punctual(cfg.l1, s.l1.toSm, s.now)
    ensures TagStore.UniqueTags(s.l1.lines)
    ensures var r := Run(cfg, s, inputs);
            && r.Ok? && TagStore.UniqueTags(r.value.l1.lines)
            && L1Service.Punctual(cfg.l1, r.value.l1.toSm, r.value.now)
            && (L1Cache.Hits(r.value.l1.lines, a)
                <==> Brought(cfg, s, inputs, a)
                     || (L1Cache.Hits(s.l1.lines, a) && Survives(cfg, s, inputs, LineOf(a))))
    decreases |inputs|
  {
    hide Inv, Cycle, L1Service.Punctual, L1Cache.Hits, Brings, Throws, Shaped, InputOk, TagStore.UniqueTags;
    if inputs != [] {
      CycleSettles(cfg, s, inputs[0]);
      CycleHitsIff(cfg, s, inputs[0], a);
      RunHits(cfg, Cycle(cfg, s, inputs[0]).value, inputs[1..], a);
    } else {
      InvUnique(cfg, s);
    }
  }

  /** From a fresh SM: a sector hits if and only if some load of it came back and its line was not thrown
      out since; and every answer still queued is due later. */
  lemma FreshRunHits(cfg: SmConfig, units: seq<PipelineUnit>, lines: seq<TagStore.Line>, mine: set<nat>, ptr: nat,
                     inputs: seq<SmInput>, a: nat)
    requires SmRuns.FreshSm(cfg, units, lines) && ptr <= |cfg.kernel| && forall b :: b in mine ==> b < ptr
    requires InputsOk(cfg, SmRuns.Spawned(cfg, units, lines, mine, ptr), inputs) && |inputs| < INT_MAX
    ensures Inv(cfg, SmRuns.Spawned(cfg, units, lines, mine, ptr))
    ensures var s := SmRuns.Spawned(cfg, units, lines, mine, ptr);
            var r := Run(cfg, s, inputs);
            && r.Ok? && TagStore.UniqueTags(r.value.l1.lines)
            && L1Service.Punctual(cfg.l1, r.value.l1.toSm, r.value.now)
            && (L1Cache.Hits(r.value.l1.lines, a) <==> Brought(cfg, s, inputs, a))
  {
    var s := SmRuns.Spawned(cfg, units, lines, mine, ptr);
    SmRuns.SpawnedSettles(cfg, units, lines, mine, ptr);
    TagStore.InitialTags(cfg.l1.cache, lines);
    assert !L1Cache.Hits(s.l1.lines, a);
    hide Inv, Run, InputsOk, Brought, L1Cache.Hits;
    RunHits(cfg, s, inputs, a);
  }
}
