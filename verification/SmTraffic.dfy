/** What an SM exchanges with the crossbar in one cycle: the packet it pops leaves `below`, and the
    head of its miss queue, with its DRAM bank, joins it. */
module SmTraffic {
  import opened Wrappers
  import opened CacheConfig
  import opened MemFetch
  import opened Sm
  import opened SmInv
  import L1Cache
  import TagStore

  ghost predicate OwnMisses(cfg: SmConfig, q: seq<Fetch>) { forall i :: 0 <= i < |q| ==> q[i].sm == cfg.smId }

  /** Every request that leaves the L1 is the SM's own, and below it knows its bank. */
  ghost predicate Own(cfg: SmConfig, s: SmState) {
    && OwnMisses(cfg, s.l1.missQ) && OwnMisses(cfg, s.below)
    && AllRouted(cfg, s.below)
  }

  ghost predicate AllRouted(cfg: SmConfig, q: seq<Fetch>) { forall i :: 0 <= i < |q| ==> IsRouted(cfg, q[i]) }

  /** The packet that an active SM pushes. */
  function Sent(cfg: SmConfig, s: SmState, hasBuffer: bool): Option<Fetch> {
    if s.l1.missQ == [] || !hasBuffer then None else Some(Routed(cfg, s.l1.missQ[0]))
  }

  /** The queue without the packet at position i. */
  function Without(q: seq<Fetch>, i: Option<nat>): seq<Fetch> {
    if i.None? || i.value >= |q| then q else q[..i.value] + q[i.value + 1..]
  }

  /** An access queues at most one miss, for the request's own SM. */
  lemma AccessOwn(cfg: SmConfig, c: L1Cache.L1State, f: Fetch, now: nat, freshId: nat)
    requires TagStore.Shape(cfg.l1.cache, c.lines) && f.sector < SECTORS && f.sm == cfg.smId
    requires OwnMisses(cfg, c.missQ)
    ensures OwnMisses(cfg, L1Cache.Access(cfg.l1, c, f, now, freshId).1.missQ)
  {
  }

  lemma AccessBankOwn(cfg: SmConfig, s: SmState, bank: nat)
    requires Shaped(cfg, s) && BanksOk(cfg, s) && bank < SECTORS && OwnMisses(cfg, s.l1.missQ)
    ensures var r := AccessBank(cfg, s, bank); r.Ok? ==> OwnMisses(cfg, r.value.l1.missQ)
  {
    if s.banks[bank] != [] {
      var f := s.banks[bank][0];
      assert f.Aligned() && f.sm == cfg.smId;
      AccessOwn(cfg, s.l1, f, s.now, s.nextId);
    }
  }

  lemma InvParts(cfg: SmConfig, s: SmState)
    requires Inv(cfg, s)
    ensures Shaped(cfg, s) && BanksOk(cfg, s)
  {
  }

  lemma AccessBanksUnfold(cfg: SmConfig, s: SmState, bank: nat)
    requires Shaped(cfg, s) && bank <= SECTORS
    ensures bank == SECTORS ==> AccessBanks(cfg, s, bank) == Ok(s)
    ensures bank < SECTORS && AccessBank(cfg, s, bank).Ok? ==>
              AccessBanks(cfg, s, bank) == AccessBanks(cfg, AccessBank(cfg, s, bank).value, bank + 1)
  {
  }

  lemma {:induction false} AccessBanksOwn(cfg: SmConfig, s: SmState, bank: nat)
    requires Inv(cfg, s) && bank <= SECTORS && s.now < TagStore.MAX_TIME && OwnMisses(cfg, s.l1.missQ)
    ensures Shaped(cfg, s)
    ensures var r := AccessBanks(cfg, s, bank); r.Ok? && OwnMisses(cfg, r.value.l1.missQ) && r.value.below == s.below
    decreases SECTORS - bank
  {
    InvParts(cfg, s);
    hide *;
    AccessBanksUnfold(cfg, s, bank);
    if bank < SECTORS {
      AccessBankSettles(cfg, s, bank);
      AccessBankOwn(cfg, s, bank);
      AccessBanksOwn(cfg, AccessBank(cfg, s, bank).value, bank + 1);
    }
  }

  /** The packet that the SM pops leaves `below`, and nothing else does. */
  lemma ReplyTraffic(cfg: SmConfig, s: SmState, input: SmInput)
    requires Inv(cfg, s) && ReplyOk(s, input) && s.now < TagStore.MAX_TIME
    ensures Shaped(cfg, s)
    ensures var r := WriteBackReply(cfg, s, input.reply);
            && r.Ok? && Inv(cfg, r.value) && r.value.now == s.now
            && r.value.below == Without(s.below, input.reply) && r.value.l1.missQ == s.l1.missQ
  {
    ReplySettles(cfg, s, input);
    if input.reply.Some? { assert L1Cache.Sendable(s.below[input.reply.value]); }
  }

  lemma HitsTraffic(cfg: SmConfig, s: SmState)
    requires Inv(cfg, s)
    ensures var r := WriteBackHits(s);
            && r.Ok? && Inv(cfg, r.value) && r.value.now == s.now
            && r.value.below == s.below && r.value.l1.missQ == s.l1.missQ
  {
    hide Inv, Release;
    WriteBackHitsSettles(cfg, s);
  }

  /** The L1's part: the head of the miss queue joins `below`. */
  lemma L1Traffic(cfg: SmConfig, s: SmState, hasBuffer: bool)
    requires Inv(cfg, s) && s.now < TagStore.MAX_TIME && OwnMisses(cfg, s.l1.missQ)
    ensures Shaped(cfg, s)
    ensures var r := L1Cycle(cfg, s, hasBuffer);
            && r.Ok? && Inv(cfg, r.value) && r.value.now == s.now
            && r.value.below == s.below + Items(Sent(cfg, s, hasBuffer)) && OwnMisses(cfg, r.value.l1.missQ)
  {
    InvParts(cfg, s);
    L1CycleSettles(cfg, s, hasBuffer);
    SendMissSettles(cfg, s, hasBuffer);
    hide Inv, AccessBanks, Shaped;
    AccessBanksOwn(cfg, SendMiss(cfg, s, hasBuffer), 0);
  }

  /** The memory half of a cycle, seen from below. */
  lemma MemoryTraffic(cfg: SmConfig, s: SmState, input: SmInput)
    requires Inv(cfg, s) && ReplyOk(s, input) && s.now < TagStore.MAX_TIME && OwnMisses(cfg, s.l1.missQ)
    ensures Shaped(cfg, s)
    ensures var r := MemoryPhase(cfg, s, input);
            && r.Ok? && Inv(cfg, r.value) && r.value.now == s.now
            && r.value.below == Without(s.below, input.reply) + Items(Sent(cfg, s, input.hasBuffer))
            && OwnMisses(cfg, r.value.l1.missQ)
  {
    InvParts(cfg, s);
    HitsTraffic(cfg, s);
    var s1 := WriteBackHits(s).value;
    assert ReplyOk(s1, input);
    InvParts(cfg, s1);
    hide Inv, Shaped, WriteBackHits, WriteBackReply, L1Cycle;
    ReplyTraffic(cfg, s1, input);
    L1Traffic(cfg, WriteBackReply(cfg, s1, input.reply).value, input.hasBuffer);
  }

  lemma ActiveTraffic(cfg: SmConfig, s: SmState, input: SmInput)
    requires Inv(cfg, s) && ReplyOk(s, input) && s.now < INT_MAX && OwnMisses(cfg, s.l1.missQ)
    ensures Shaped(cfg, s)
    ensures var r := ActiveCycle(cfg, s, input);
            && r.Ok? && Inv(cfg, r.value) && r.value.now == s.now
            && r.value.below == Without(s.below, input.reply) + Items(Sent(cfg, s, input.hasBuffer))
            && OwnMisses(cfg, r.value.l1.missQ)
  {
    MemoryTraffic(cfg, s, input);
    InvParts(cfg, s);
    hide Inv, Shaped, MemoryPhase, CorePhase;
    CorePhaseSettles(cfg, MemoryPhase(cfg, s, input).value);
  }

  /** A whole cycle: what is below afterwards is what was, without the popped packet, and then the sent
      one; an inactive SM pops and sends nothing. */
  lemma CycleTraffic(cfg: SmConfig, s: SmState, input: SmInput)
    requires Inv(cfg, s) && InputOk(cfg, s, input) && s.now + 1 < INT_MAX && Own(cfg, s)
    ensures Shaped(cfg, s)
    ensures var r, active := Cycle(cfg, s, input), IsActive(cfg, Arrived(s, input));
            && r.Ok? && Inv(cfg, r.value) && Own(cfg, r.value)
            && r.value.now == s.now + (if active then 1 else 0)
            && r.value.below
               == if active then Without(s.below, input.reply) + Items(Sent(cfg, s, input.hasBuffer)) else s.below
  {
    InvParts(cfg, s);
    ArrivedSettles(cfg, s, input);
    if IsActive(cfg, Arrived(s, input)) {
      TickedSettles(cfg, Arrived(s, input), input);
      ActiveTraffic(cfg, Ticked(Arrived(s, input)), input);
      StillOwn(cfg, s, input);
      hide Inv, ActiveCycle, Shaped;
    }
  }

  /** Is f routed as SM cfg routes its misses? */
  predicate IsRouted(cfg: SmConfig, f: Fetch) { f == Routed(cfg, f) }

  lemma RoutedOnce(cfg: SmConfig, f: Fetch)
    ensures IsRouted(cfg, Routed(cfg, f)) && Routed(cfg, f).sm == f.sm
  {
    assert Routed(cfg, f).SectorAddr() == f.SectorAddr();
  }

  /** What is below stays the SM's own and routed. */
  lemma StillOwn(cfg: SmConfig, s: SmState, input: SmInput)
    requires Own(cfg, s)
    ensures var below := Without(s.below, input.reply) + Items(Sent(cfg, s, input.hasBuffer));
            OwnMisses(cfg, below) && AllRouted(cfg, below)
  {
    hide IsRouted, Routed;
    if s.l1.missQ != [] { RoutedOnce(cfg, s.l1.missQ[0]); }
  }
}
