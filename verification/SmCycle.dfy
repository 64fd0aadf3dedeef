/** One sm_cycle, phase by phase and without its loops: what each phase makes of the SM. */
module SmCycle {
  import opened Wrappers
  import opened CacheConfig
  import opened MemFetch
  import opened Warps
  import opened Sm
  import opened Ledger
  import opened SmInv
  import L1Cache
  import L1Service
  import SmBlocks
  import SmCompletion
  import SmHits
  import SmLoads
  import SmSchedule
  import SmTraffic
  import SmUnits
  import TagStore

  // ---------------------------------------------------------------- answers and replies

  /** The answers of the L1 that are due leave, in order, and each takes one request off its own slot. */
  ghost predicate AnswersLeft(cfg: SmConfig, s: SmState, s': SmState) {
    exists k :: AnswersLeftTo(cfg, s, s', k)
  }

  ghost predicate AnswersLeftTo(cfg: SmConfig, s: SmState, s': SmState, k: nat) {
    && SmHits.Leave(cfg, s.l1.toSm, k, s.now)
    && s' == s.(blocks := s'.blocks, l1 := s.l1.(toSm := s.l1.toSm[k..]))
    && SmCompletion.Replied(s, s')
    && forall t: Ticket :: Claimed(s, t) == Claimed(s', t) + Count(s.l1.toSm[..k], t)
  }

  lemma AnswersLeave(cfg: SmConfig, s: SmState)
    requires Inv(cfg, s) && L1Service.Punctual(cfg.l1, s.l1.toSm, s.now - 1)
    ensures WriteBackHits(s).Ok? && Inv(cfg, WriteBackHits(s).value) && AnswersLeft(cfg, s, WriteBackHits(s).value)
  {
    hide Inv, SmHits.Leave, SmCompletion.Replied, Release, WriteBackHits, L1Service.Punctual;
    WriteBackHitsSettles(cfg, s);
    SmCompletion.HitsReply(cfg, s);
    var k := SmHits.HitsLeave(cfg, s);
    var s' := WriteBackHits(s).value;
    LeaveIsPrefix(cfg, s.l1.toSm, k, s.now);
    LedgerOf(cfg, s);
    LedgerOf(cfg, s');
    forall t: Ticket ensures Claimed(s, t) == Claimed(s', t) + Count(s.l1.toSm[..k], t) {
      assert Owed(s, t) == Claimed(s, t) && Owed(s', t) == Claimed(s', t);
      assert s.l1.toSm == s.l1.toSm[..k] + s.l1.toSm[k..];
      CountAppend(s.l1.toSm[..k], s.l1.toSm[k..], t);
    }
    assert AnswersLeftTo(cfg, s, s', k);
  }

  lemma LeaveIsPrefix(cfg: SmConfig, q: seq<Fetch>, k: nat, now: int)
    requires SmHits.Leave(cfg, q, k, now)
    ensures k <= |q|
  {
  }

  lemma LedgerOf(cfg: SmConfig, s: SmState)
    requires Inv(cfg, s)
    ensures LedgerOk(s)
  {
  }

  /** What a popped packet answers: for a load all requests of its entry, for a store its own. */
  ghost function AnsweredBy(s: SmState, input: SmInput, t: Ticket): nat
    requires input.reply.Some? ==> input.reply.value < |s.below|
  {
    if input.reply.None? then 0
    else
      var f := s.below[input.reply.value];
      if f.isWrite then One(f, t)
      else if f.SectorAddr() in s.l1.mshr then Count(s.l1.mshr[f.SectorAddr()], t) else 0
  }

  /** The popped packet leaves `below`; a load empties its entry and fills its sector. */
  ghost predicate ReplyTaken(cfg: SmConfig, s: SmState, input: SmInput, s': SmState)
    requires TagStore.TagInv(cfg.l1.cache, s.l1.lines) && s.now < TagStore.MAX_TIME && ReplyOk(s, input)
    requires SmHits.Returned(s, input).Some? ==> SmHits.Returned(s, input).value.Aligned()
  {
    var f := SmHits.Returned(s, input);
    && s' == s.(blocks := s'.blocks, below := SmTraffic.Without(s.below, input.reply), l1 := s'.l1)
    && s'.l1 == (if f.Some?
                 then s.l1.(lines := L1Service.FilledLines(cfg.l1, s.l1, f.value, s.now),
                            mshr := s.l1.mshr - {f.value.SectorAddr()})
                 else s.l1)
    && SmCompletion.Replied(s, s')
    && forall t: Ticket :: Claimed(s, t) == Claimed(s', t) + AnsweredBy(s, input, t)
  }

  lemma ReplyIsTaken(cfg: SmConfig, s: SmState, input: SmInput)
    requires Inv(cfg, s) && ReplyOk(s, input) && s.now < TagStore.MAX_TIME
    ensures Shaped(cfg, s) && TagStore.TagInv(cfg.l1.cache, s.l1.lines)
    ensures SmHits.Returned(s, input).Some? ==> SmHits.Returned(s, input).value.Aligned()
    ensures var r := WriteBackReply(cfg, s, input.reply);
            r.Ok? && Inv(cfg, r.value) && ReplyTaken(cfg, s, input, r.value)
  {
    hide Inv, WriteBackReply, TagStore.TagInv, SmCompletion.Replied, Shaped;
    SmHits.ReturnedIsAligned(cfg, s, input);
    SmTraffic.ReplyTraffic(cfg, s, input);
    SmHits.ReplyFills(cfg, s, input);
    SmCompletion.ReplyReplies(cfg, s, input);
    var s' := WriteBackReply(cfg, s, input.reply).value;
    LedgerOf(cfg, s);
    LedgerOf(cfg, s');
    StoreIsForwarded(cfg, s, input);
    forall t: Ticket ensures Claimed(s, t) == Claimed(s', t) + AnsweredBy(s, input, t) {
      ReplyAnswers(cfg, s, input, s', t);
    }
  }

  lemma ReplyAnswers(cfg: SmConfig, s: SmState, input: SmInput, s': SmState, t: Ticket)
    requires ReplyOk(s, input) && Owed(s, t) == Claimed(s, t) && Owed(s', t) == Claimed(s', t)
    requires input.reply.Some? && s.below[input.reply.value].isWrite ==> s.below[input.reply.value].ForwardedWrite()
    requires var f := SmHits.Returned(s, input);
             && s' == s.(blocks := s'.blocks, l1 := s'.l1, below := SmTraffic.Without(s.below, input.reply))
             && s'.l1 == (if f.Some? then s.l1.(lines := s'.l1.lines, mshr := s.l1.mshr - {f.value.SectorAddr()})
                          else s.l1)
    ensures Claimed(s, t) == Claimed(s', t) + AnsweredBy(s, input, t)
  {
    if input.reply.Some? {
      ForwardedWithout(s.below, input.reply.value, t);
      var f := SmHits.Returned(s, input);
      if f.Some? {
        var sa := f.value.SectorAddr();
        if sa in s.l1.mshr { MshrWithout(s.l1.mshr, sa, t); } else { assert s.l1.mshr - {sa} == s.l1.mshr; }
      }
    }
  }

  lemma StoreIsForwarded(cfg: SmConfig, s: SmState, input: SmInput)
    requires Inv(cfg, s) && ReplyOk(s, input)
    ensures input.reply.Some? && s.below[input.reply.value].isWrite ==> s.below[input.reply.value].ForwardedWrite()
  {
    if input.reply.Some? { assert L1Cache.Sendable(s.below[input.reply.value]); }
  }

  // ---------------------------------------------------------------- the L1's part

  /** The turn of one bank: nothing, if it is empty or its front request is refused; otherwise that request
      is served and leaves. */
  ghost predicate BankTurn(cfg: SmConfig, s: SmState, bank: nat, s': SmState)
    requires bank < |s.banks| && TagStore.TagInv(cfg.l1.cache, s.l1.lines)
  {
    if s.banks[bank] == [] || L1Service.Refused(cfg.l1, s.l1, s.banks[bank][0]) then s' == s
    else
      var f := s.banks[bank][0];
      && s' == s.(l1 := s'.l1, banks := s.banks[bank := s.banks[bank][1..]], nextId := s'.nextId)
      && L1Service.Served(cfg.l1, s.l1, f, s.now, s.nextId, s'.l1)
      && L1Service.Retagged(cfg.l1, s.l1, f, s.now, s'.l1.lines)
      && s'.nextId == s.nextId + Copies(cfg, s, f)
  }

  /** A store that hits and is written through makes a copy with an id of its own. */
  ghost function Copies(cfg: SmConfig, s: SmState, f: Fetch): nat
    requires TagStore.UniqueTags(s.l1.lines)
  {
    if L1Cache.Hits(s.l1.lines, f.SectorAddr()) && L1Service.Forwards(cfg.l1, f) then 1 else 0
  }

  lemma BankHasItsTurn(cfg: SmConfig, s: SmState, bank: nat)
    requires Inv(cfg, s) && bank < SECTORS && s.now < TagStore.MAX_TIME
    ensures Shaped(cfg, s) && TagStore.TagInv(cfg.l1.cache, s.l1.lines)
    ensures var r := AccessBank(cfg, s, bank); r.Ok? && Inv(cfg, r.value) && BankTurn(cfg, s, bank, r.value)
  {
    AccessBankSettles(cfg, s, bank);
    if s.banks[bank] != [] {
      var f := s.banks[bank][0];
      assert f.Aligned();
      hide Inv, L1Cache.Access, L1Cache.Hits, L1Service.Served, L1Service.Retagged, TagStore.TagInv;
      L1Service.AccessServes(cfg.l1, s.l1, f, s.now, s.nextId);
      L1Service.AccessTags(cfg.l1, s.l1, f, s.now, s.nextId);
    }
  }

  /** Bank `bank` has its turn between two states of a pass. */
  ghost predicate BankTurnAt(cfg: SmConfig, from: nat, states: seq<SmState>, k: nat)
    requires k + 1 < |states|
  {
    && from + k < |states[k].banks| && TagStore.TagInv(cfg.l1.cache, states[k].l1.lines)
    && BankTurn(cfg, states[k], from + k, states[k + 1])
  }

  ghost predicate BankPass(cfg: SmConfig, from: nat, states: seq<SmState>)
    requires from <= SECTORS
  {
    |states| == SECTORS - from + 1 && forall k :: 0 <= k < SECTORS - from ==> BankTurnAt(cfg, from, states, k)
  }

  lemma BankPassOneMore(cfg: SmConfig, from: nat, s: SmState, states: seq<SmState>)
    requires from < SECTORS && BankPass(cfg, from + 1, states)
    requires from < |s.banks| && TagStore.TagInv(cfg.l1.cache, s.l1.lines) && BankTurn(cfg, s, from, states[0])
    ensures BankPass(cfg, from, [s] + states)
  {
    hide BankTurn, TagStore.TagInv;
    var all := [s] + states;
    forall k | 0 <= k < SECTORS - from ensures BankTurnAt(cfg, from, all, k) {
      if k > 0 { assert BankTurnAt(cfg, from + 1, states, k - 1); }
    }
  }

  /** Every bank has its turn, in order. */
  lemma {:induction false} BanksHaveTheirTurns(cfg: SmConfig, s: SmState, bank: nat) returns (states: seq<SmState>)
    requires Inv(cfg, s) && bank <= SECTORS && s.now < TagStore.MAX_TIME
    ensures Shaped(cfg, s) && BankPass(cfg, bank, states) && states[0] == s
    ensures AccessBanks(cfg, s, bank) == Ok(states[SECTORS - bank]) && Inv(cfg, states[SECTORS - bank])
    decreases SECTORS - bank
  {
    SmTraffic.InvParts(cfg, s);
    hide Inv, AccessBank, AccessBanks, BankTurn, TagStore.TagInv;
    SmTraffic.AccessBanksUnfold(cfg, s, bank);
    if bank == SECTORS {
      states := [s];
    } else {
      BankHasItsTurn(cfg, s, bank);
      AccessBankSettles(cfg, s, bank);
      var rest := BanksHaveTheirTurns(cfg, AccessBank(cfg, s, bank).value, bank + 1);
      BankPassOneMore(cfg, bank, s, rest);
      states := [s] + rest;
    }
  }

  /** The head of the miss queue goes below, with the bank of its address, if the crossbar has room. */
  ghost predicate MissSent(cfg: SmConfig, s: SmState, hasBuffer: bool, s': SmState) {
    if s.l1.missQ != [] && hasBuffer then exists f: Fetch :: MissSentAs(cfg, s, f, s') else s' == s
  }

  ghost predicate MissSentAs(cfg: SmConfig, s: SmState, f: Fetch, s': SmState)
    requires s.l1.missQ != []
  {
    && f == s.l1.missQ[0].(bank := f.bank) && SmTraffic.IsRouted(cfg, f)
    && s' == s.(l1 := s.l1.(missQ := s.l1.missQ[1..]), below := s.below + [f])
  }

  lemma MissIsSent(cfg: SmConfig, s: SmState, hasBuffer: bool)
    ensures MissSent(cfg, s, hasBuffer, SendMiss(cfg, s, hasBuffer))
  {
    if s.l1.missQ != [] && hasBuffer {
      SmTraffic.RoutedOnce(cfg, s.l1.missQ[0]);
      assert MissSentAs(cfg, s, Routed(cfg, s.l1.missQ[0]), SendMiss(cfg, s, hasBuffer));
    }
  }

  // ---------------------------------------------------------------- blocks

  /** Exactly the blocks without warps go. */
  ghost predicate EmptyBlocksGone(s: SmState, s': SmState) {
    && s' == s.(blocks := s'.blocks)
    && (forall b :: b in s'.blocks <==> b in s.blocks && |s.blocks[b]| > 0)
    && (forall b :: b in s'.blocks ==> s'.blocks[b] == s.blocks[b])
  }

  lemma EmptyBlocksGo(s: SmState)
    ensures EmptyBlocksGone(s, DeleteInactive(s))
  {
  }

  /** A block as it is dispatched: every warp of its trace, at its first instruction, owed nothing. */
  ghost predicate IsFresh(t: BlockTrace, ws: WarpMap) {
    && ws.Keys == t.Keys
    && forall w :: w in ws ==> ws[w] == Warp(t[w].insts, t[w].memInsts, 0, [], map[], 0, 0)
  }

  /** All blocks from one position of the kernel to another are there, and fresh. */
  ghost predicate AreFresh(cfg: SmConfig, blocks: map<nat, WarpMap>, from: nat, to: nat) {
    forall b: nat :: SmBlocks.Between(b, from, to) ==>
      b < |cfg.kernel| && b in blocks && IsFresh(cfg.kernel[b], blocks[b])
  }

  /** The next blocks of the kernel arrive, as many as fit. */
  ghost predicate BlocksTaken(cfg: SmConfig, s: SmState, s': SmState) {
    && s' == s.(blocks := s'.blocks, ptr := s'.ptr) && s.ptr <= s'.ptr
    && (forall b :: b in s'.blocks <==> b in s.blocks || SmBlocks.Between(b, s.ptr, s'.ptr))
    && (forall b :: b in s.blocks ==> s'.blocks[b] == s.blocks[b])
    && AreFresh(cfg, s'.blocks, s.ptr, s'.ptr)
    && (s'.ptr > s.ptr ==> |s'.blocks| <= cfg.maxBlocks)
    && (s'.ptr < |cfg.kernel| ==> |s'.blocks| >= cfg.maxBlocks)
  }

  lemma OneTaken(cfg: SmConfig, s: SmState)
    requires s.ptr < |cfg.kernel| && s.ptr !in s.blocks
    ensures var s1 := DispatchOne(cfg, s);
            && |s1.blocks| == |s.blocks| + 1 && s1.blocks.Keys == s.blocks.Keys + {s.ptr}
            && IsFresh(cfg.kernel[s.ptr], s1.blocks[s.ptr])
  {
    var s1 := DispatchOne(cfg, s);
    assert s1.blocks.Keys == s.blocks.Keys + {s.ptr};
    assert |s1.blocks| == |s1.blocks.Keys| && |s.blocks| == |s.blocks.Keys|;
  }

  lemma OneThenTaken(cfg: SmConfig, s: SmState, s1: SmState, s2: SmState)
    requires s.ptr < |cfg.kernel| && s.ptr !in s.blocks && |s.blocks| < cfg.maxBlocks
    requires |s1.blocks| == |s.blocks| + 1 && s1.blocks.Keys == s.blocks.Keys + {s.ptr} && s1.ptr == s.ptr + 1
    requires s1 == s.(blocks := s1.blocks, ptr := s1.ptr) && forall b :: b in s.blocks ==> s1.blocks[b] == s.blocks[b]
    requires IsFresh(cfg.kernel[s.ptr], s1.blocks[s.ptr]) && BlocksTaken(cfg, s1, s2)
    ensures BlocksTaken(cfg, s, s2)
  {
    hide AreFresh;
    OneMoreFresh(cfg, s1.blocks, s2.blocks, s.ptr, s2.ptr);
    forall b: nat ensures SmBlocks.Between(b, s.ptr, s2.ptr) <==> b == s.ptr || SmBlocks.Between(b, s1.ptr, s2.ptr) { }
    forall b ensures b in s1.blocks <==> b in s.blocks || b == s.ptr { assert b in s1.blocks.Keys <==> b in s1.blocks; }
    if s2.ptr == s1.ptr { SameBlocksSameSize(s1, s2); }
  }

  lemma OneMoreFresh(cfg: SmConfig, before: map<nat, WarpMap>, blocks: map<nat, WarpMap>, from: nat, to: nat)
    requires from < |cfg.kernel| && from in before && IsFresh(cfg.kernel[from], before[from])
    requires from in blocks && blocks[from] == before[from] && AreFresh(cfg, blocks, from + 1, to)
    ensures AreFresh(cfg, blocks, from, to)
  {
    hide IsFresh;
    forall b: nat | SmBlocks.Between(b, from, to)
      ensures b < |cfg.kernel| && b in blocks && IsFresh(cfg.kernel[b], blocks[b])
    {
      if b != from { assert SmBlocks.Between(b, from + 1, to); }
    }
  }

  lemma SameBlocksSameSize(s1: SmState, s2: SmState)
    requires forall b :: b in s2.blocks <==> b in s1.blocks || SmBlocks.Between(b, s1.ptr, s2.ptr)
    requires s1.ptr == s2.ptr
    ensures |s2.blocks| == |s1.blocks|
  {
    assert s2.blocks.Keys == s1.blocks.Keys;
    assert |s1.blocks| == |s1.blocks.Keys| && |s2.blocks| == |s2.blocks.Keys|;
  }

  lemma DispatchOneKeeps(cfg: SmConfig, s: SmState)
    requires s.ptr < |cfg.kernel| && s.ptr !in s.blocks
    ensures var s1 := DispatchOne(cfg, s);
            && s1 == s.(blocks := s1.blocks, ptr := s.ptr + 1)
            && (forall b :: b in s.blocks ==> b in s1.blocks && s1.blocks[b] == s.blocks[b])
  {
    hide FreshBlock;
  }

  lemma {:induction false} BlocksAreTaken(cfg: SmConfig, s: SmState)
    requires forall b :: b in s.blocks ==> b < s.ptr
    ensures BlocksTaken(cfg, s, Dispatch(cfg, s))
    decreases |cfg.kernel| - s.ptr
  {
    SmLoads.DispatchUnfold(cfg, s);
    if |s.blocks| < cfg.maxBlocks && s.ptr < |cfg.kernel| {
      assert s.ptr !in s.blocks;
      hide IsFresh, DispatchOne, Dispatch, BlocksTaken;
      var s1 := DispatchOne(cfg, s);
      OneTaken(cfg, s);
      DispatchOneKeeps(cfg, s);
      forall b | b in s1.blocks ensures b < s1.ptr { assert b in s1.blocks.Keys; }
      BlocksAreTaken(cfg, s1);
      OneThenTaken(cfg, s, s1, Dispatch(cfg, s1));
    }
  }

  // ---------------------------------------------------------------- the cycle

  /** The states of an SM between the phases of a cycle. */
  datatype Phases = Phases(answered: SmState, replied: SmState, sent: SmState, banks: seq<SmState>, kept: SmState,
                           units: seq<SmState>, taken: seq<set<nat>>, dispatched: SmState, visits: seq<SmState>,
                           actives: seq<set<nat>>)

  /** The memory half: answers leave, the reply is taken, a miss is sent, and every bank has its turn. */
  ghost predicate MemoryHalf(cfg: SmConfig, s: SmState, input: SmInput, p: Phases) {
    && Inv(cfg, s) && s.now < TagStore.MAX_TIME && AnswersLeft(cfg, s, p.answered)
    && Inv(cfg, p.answered) && p.answered.now == s.now && ReplyOk(p.answered, input)
    && (SmHits.Returned(p.answered, input).Some? ==> SmHits.Returned(p.answered, input).value.Aligned())
    && ReplyTaken(cfg, p.answered, input, p.replied)
    && MissSent(cfg, p.replied, input.hasBuffer, p.sent)
    && BankPass(cfg, 0, p.banks) && p.banks[0] == p.sent
  }

  /** The subcores with a free unit. */
  ghost predicate FreeSubcores(cfg: SmConfig, s: SmState, active: set<nat>) {
    forall sub :: sub in active <==> exists c :: SmSchedule.IsFree(cfg, s, sub, c)
  }

  /** The core half: empty blocks go, every load/store unit has its turn, blocks arrive, and the scheduler
      visits every block. */
  ghost predicate CoreHalf(cfg: SmConfig, s: SmState, p: Phases, s': SmState) {
    && EmptyBlocksGone(s, p.kept)
    && SmUnits.Pass(cfg, 0, p.units, p.taken) && p.units[0] == p.kept && p.taken[0] == {}
    && BlocksTaken(cfg, p.units[SUBCORES], p.dispatched)
    && SmSchedule.Pass(cfg, 0, p.visits, p.actives) && p.visits[0] == p.dispatched
    && FreeSubcores(cfg, p.dispatched, p.actives[0]) && s' == p.visits[|p.visits| - 1]
  }

  lemma MemoryIsHalf(cfg: SmConfig, s: SmState, input: SmInput) returns (p: Phases)
    requires Inv(cfg, s) && ReplyOk(s, input) && s.now < TagStore.MAX_TIME
    requires L1Service.Punctual(cfg.l1, s.l1.toSm, s.now - 1)
    ensures Shaped(cfg, s) && MemoryHalf(cfg, s, input, p)
    ensures MemoryPhase(cfg, s, input) == Ok(p.banks[SECTORS]) && Inv(cfg, p.banks[SECTORS])
  {
    hide Inv, Shaped, AnswersLeft, ReplyTaken, BankPass, MissSent, WriteBackHits, WriteBackReply, AccessBanks, SendMiss,
         L1Service.Punctual, TagStore.TagInv;
    SmTraffic.InvParts(cfg, s);
    AnswersLeave(cfg, s);
    SmTraffic.HitsTraffic(cfg, s);
    var s1 := WriteBackHits(s).value;
    SmTraffic.InvParts(cfg, s1);
    ReplyIsTaken(cfg, s1, input);
    ReplySettles(cfg, s1, input);
    var s2 := WriteBackReply(cfg, s1, input.reply).value;
    SmTraffic.InvParts(cfg, s2);
    MissIsSent(cfg, s2, input.hasBuffer);
    SendMissSettles(cfg, s2, input.hasBuffer);
    SameNow(cfg, s2, input.hasBuffer);
    var s3 := SendMiss(cfg, s2, input.hasBuffer);
    var banks := BanksHaveTheirTurns(cfg, s3, 0);
    p := Phases(s1, s2, s3, banks, s, [], [], s, [], []);
    BankPassLength(cfg, banks);
    MemoryUnfold(cfg, s, input);
  }

  lemma SameNow(cfg: SmConfig, s: SmState, hasBuffer: bool)
    ensures SendMiss(cfg, s, hasBuffer).now == s.now
  {
  }

  lemma BankPassLength(cfg: SmConfig, states: seq<SmState>)
    requires BankPass(cfg, 0, states)
    ensures |states| == SECTORS + 1
  {
  }

  lemma MemoryUnfold(cfg: SmConfig, s: SmState, input: SmInput)
    requires Shaped(cfg, s) && WriteBackHits(s).Ok? && Shaped(cfg, WriteBackHits(s).value)
    requires WriteBackReply(cfg, WriteBackHits(s).value, input.reply).Ok?
    ensures var s2 := WriteBackReply(cfg, WriteBackHits(s).value, input.reply).value;
            && Shaped(cfg, SendMiss(cfg, s2, input.hasBuffer))
            && MemoryPhase(cfg, s, input) == AccessBanks(cfg, SendMiss(cfg, s2, input.hasBuffer), 0)
  {
    hide WriteBackHits, WriteBackReply, AccessBanks;
  }

  lemma CoreIsHalf(cfg: SmConfig, s: SmState, q: Phases) returns (p: Phases)
    requires Inv(cfg, s) && s.now < INT_MAX
    ensures Shaped(cfg, s) && CorePhase(cfg, s).Ok? && CoreHalf(cfg, s, p, CorePhase(cfg, s).value)
    ensures p == q.(kept := p.kept, units := p.units, taken := p.taken, dispatched := p.dispatched, visits := p.visits,
                    actives := p.actives)
  {
    hide *;
    InvIsShaped(cfg, s);
    SmLoads.CoreUnfold(cfg, s);
    EmptyBlocksGo(s);
    DeleteInactiveSettles(cfg, s);
    var s0 := DeleteInactive(s);
    var units, taken := SmUnits.EveryUnitHasItsTurn(cfg, s0, 0, {});
    UnitCyclesSettles(cfg, s0, 0, {});
    var s1 := UnitCycles(cfg, s0, 0, {}).value;
    BlocksAreBelow(cfg, s1);
    BlocksAreTaken(cfg, s1);
    DispatchSettles(cfg, s1);
    var s2 := Dispatch(cfg, s1);
    FreeAre(cfg, s2);
    var visits, actives := SmSchedule.ScheduleIs(cfg, s2, 0, ActiveSubcores(cfg, s2));
    p := q.(kept := s0, units := units, taken := taken, dispatched := s2, visits := visits, actives := actives);
    HalfFromParts(cfg, s, p, CorePhase(cfg, s).value);
  }

  lemma BlocksAreBelow(cfg: SmConfig, s: SmState)
    requires Inv(cfg, s)
    ensures forall b :: b in s.blocks ==> b < s.ptr
  {
  }

  lemma FreeAre(cfg: SmConfig, s: SmState)
    requires Inv(cfg, s)
    ensures Shaped(cfg, s) && FreeSubcores(cfg, s, ActiveSubcores(cfg, s))
  {
    hide ActiveSubcores, SmSchedule.IsFree;
    forall sub: nat { SmSchedule.ActiveIs(cfg, s, sub); }
  }

  lemma HalfFromParts(cfg: SmConfig, s: SmState, p: Phases, s': SmState)
    requires EmptyBlocksGone(s, p.kept) && SmUnits.Pass(cfg, 0, p.units, p.taken)
    requires p.units[0] == p.kept && p.taken[0] == {} && BlocksTaken(cfg, p.units[SUBCORES], p.dispatched)
    requires SmSchedule.Pass(cfg, 0, p.visits, p.actives) && p.visits[0] == p.dispatched
    requires FreeSubcores(cfg, p.dispatched, p.actives[0]) && s' == p.visits[|p.visits| - 1]
    ensures CoreHalf(cfg, s, p, s')
  {
  }

  /** One cycle of an active SM, phase by phase; an inactive one only learns the shared counters. */
  lemma CycleIs(cfg: SmConfig, s: SmState, input: SmInput) returns (p: Phases)
    requires Inv(cfg, s) && InputOk(cfg, s, input) && s.now + 1 < INT_MAX
    requires L1Service.Punctual(cfg.l1, s.l1.toSm, s.now)
    ensures Shaped(cfg, s)
    ensures var r, arrived := Cycle(cfg, s, input), s.(ptr := input.ptr, nextId := input.nextId);
            && r.Ok?
            && if (exists b :: b in s.blocks && |s.blocks[b]| > 0) || input.ptr < |cfg.kernel| then
                 && MemoryHalf(cfg, arrived.(now := s.now + 1), input, p)
                 && |p.banks| == SECTORS + 1 && CoreHalf(cfg, p.banks[SECTORS], p, r.value)
               else r.value == arrived
  {
    hide Inv, Shaped, MemoryHalf, CoreHalf, MemoryPhase, CorePhase, ActiveCycle, Cycle, ReplyOk, L1Service.Punctual;
    InvIsShaped(cfg, s);
    SmHits.CycleUnfold(cfg, s, input);
    ArrivedSettles(cfg, s, input);
    var s0 := Ticked(Arrived(s, input));
    if IsActive(cfg, Arrived(s, input)) {
      TickedSettles(cfg, Arrived(s, input), input);
      p := MemoryIsHalf(cfg, s0, input);
      SmLoads.ActiveUnfold(cfg, s0, input);
      MemoryPhaseSettles(cfg, s0, input);
      BanksOf(cfg, s0, input, p);
      var q := CoreIsHalf(cfg, p.banks[SECTORS], p);
      SameMemory(cfg, s0, input, p, q);
      p := q;
    } else {
      p := Phases(s, s, s, [], s, [], [], s, [], []);
    }
  }

  lemma BanksOf(cfg: SmConfig, s: SmState, input: SmInput, p: Phases)
    requires MemoryHalf(cfg, s, input, p)
    ensures |p.banks| == SECTORS + 1
  {
  }

  lemma SameMemory(cfg: SmConfig, s: SmState, input: SmInput, p: Phases, q: Phases)
    requires MemoryHalf(cfg, s, input, p)
    requires q == p.(kept := q.kept, units := q.units, taken := q.taken, dispatched := q.dispatched, visits := q.visits,
                     actives := q.actives)
    ensures MemoryHalf(cfg, s, input, q)
  {
  }
}
