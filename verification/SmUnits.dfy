/** The load/store units: in its turn a unit sends the next request of the record that it holds, a read for
    a load and a write for a store, unless its bank is taken in this cycle. */
module SmUnits {
  import opened Wrappers
  import opened MemFetch
  import opened Warps
  import opened Sm
  import opened Ledger
  import opened SmLog
  import SmCompletion
  import SmInv
  import SmTiming

  // ---------------------------------------------------------------- the load/store units

  /** Does a turn of unit u send a request: it holds a record, and its next bank is not taken? */
  predicate Sends(s: SmState, u: nat, busy: set<nat>)
    requires u < |s.units|
  {
    var unit := s.units[u];
    unit.isLds && unit.held.Some? && unit.held.value.point < |unit.held.value.inst.coalesced|
    && unit.held.value.inst.coalesced[unit.held.value.point].1 !in busy
  }

  /** The request of a turn: the next target of the record, a read for a load and a write for a store. */
  predicate IsNext(cfg: SmConfig, s: SmState, h: Held, f: Fetch)
    requires h.point < |h.inst.coalesced|
  {
    && f.id == s.nextId && f.sm == cfg.smId && One(f, TicketOf(h)) == 1
    && (f.addr, f.sector) == h.inst.coalesced[h.point]
    && (f.isWrite <==> !h.inst.isLoad) && !f.isAtomic && f.writeType.Normal? && f.space.Global?
    && f.status.Init? && !f.tlbHit
  }

  /** The unit after its turn: at the next target, or free from this cycle on. */
  predicate UnitDone(unit: PipelineUnit, unit': PipelineUnit, h: Held, now: int) {
    if h.point + 1 == |h.inst.coalesced| then unit' == unit.(held := None, ready := now)
    else unit' == unit.(held := Some(h.(point := h.point + 1)))
  }

  /** The warp after the turn: one more request is owed to its slot; the last request ends the
      instruction. */
  ghost predicate WarpAsked(x: Warp, x': Warp, h: Held) {
    && x' == x.(pending := x'.pending, pendingNum := x.pendingNum + 1,
                pendingInst := x.pendingInst - (if h.point + 1 == |h.inst.coalesced| then 1 else 0))
    && forall j: nat :: x'.Pending(j) == x.Pending(j) + (if j == h.ci then 1 else 0)
  }

  /** A turn of a unit that sends request f. */
  ghost predicate Sent(cfg: SmConfig, s: SmState, u: nat, f: Fetch, s': SmState)
    requires u < |s.units| && s.units[u].held.Some?
  {
    var h := s.units[u].held.value;
    && h.point < |h.inst.coalesced| && IsNext(cfg, s, h, f) && f.sector < |s.banks|
    && Live(s, h.block, h.warp) && Live(s', h.block, h.warp) && |s'.units| == |s.units|
    && s' == PutWarp(s, h.block, h.warp, s'.blocks[h.block][h.warp])
             .(units := s.units[u := s'.units[u]], banks := s.banks[f.sector := s.banks[f.sector] + [f]],
               nextId := s.nextId + 1)
    && UnitDone(s.units[u], s'.units[u], h, s.now)
    && WarpAsked(s.blocks[h.block][h.warp], s'.blocks[h.block][h.warp], h)
  }

  /** unit_cycle: at most one request, for the next target of the held record, to its own bank, if no
      other unit has used that bank in this cycle; otherwise nothing happens. */
  lemma UnitTurn(cfg: SmConfig, s: SmState, u: nat, busy: set<nat>) returns (f: Fetch)
    requires SmInv.CoreOk(cfg, s) && u < |s.units|
    ensures var (r, busy') := UnitCycle(cfg, s, u, busy);
            && r.Ok?
            && if Sends(s, u, busy) then Sent(cfg, s, u, f, r.value) && busy' == busy + {f.sector}
               else r.value == s && busy' == busy
  {
    f :| true;
    assert SmInv.HeldOk(s, s.units[u]);
    if Sends(s, u, busy) {
      var h := s.units[u].held.value;
      var target := h.inst.coalesced[h.point];
      assert SmInv.TargetOk(target);
      f := NewFetch(cfg, s.nextId, !h.inst.isLoad, false, target, h.block, h.warp, h.ci);
    }
  }

  lemma OtherTicket(log: Log, f: Fetch, t: Ticket)
    requires One(f, t) == 0
    ensures Of(log + [f], t) == Of(log, t)
  {
    OfSnoc(log, f, t);
  }

  lemma SentSlot(x: Warp, x': Warp, t: Ticket, log: Log, h: Held, f: Fetch, now: int)
    requires t == TicketOf(h) && t.ci < |x.completions| <= |x.insts| && Slot(x, t, log, now)
    requires SmTiming.Latency(x, t.ci).None? && !x.insts[t.ci].kind.AtomicAccess? && Record(x, t.ci) == Some(h.inst)
    requires |Of(log, t)| == h.point < |h.inst.coalesced| && WarpAsked(x, x', h) && x.Pending(t.ci) >= 0
    requires One(f, t) == 1 && (f.addr, f.sector) == h.inst.coalesced[h.point] && (f.isWrite <==> !h.inst.isLoad)
    requires !f.isAtomic && f.writeType.Normal? && f.space.Global?
    ensures Slot(x', t, log + [f], now) && |Of(log + [f], t)| == h.point + 1
  {
    OfSnoc(log, f, t);
    SameDue(x, x', t.ci);
    hide SmTiming.Latency;
  }

  lemma SentWarp(x: Warp, x': Warp, log: Log, h: Held, f: Fetch, now: int)
    requires WarpLogged(x, h.block, h.warp, log, now) && h.ci < |x.completions|
    requires SmTiming.Latency(x, h.ci).None? && !x.insts[h.ci].kind.AtomicAccess? && Record(x, h.ci) == Some(h.inst)
    requires |Of(log, TicketOf(h))| == h.point < |h.inst.coalesced| && WarpAsked(x, x', h) && x.Pending(h.ci) >= 0
    requires One(f, TicketOf(h)) == 1 && (f.addr, f.sector) == h.inst.coalesced[h.point]
    requires (f.isWrite <==> !h.inst.isLoad) && !f.isAtomic && f.writeType.Normal? && f.space.Global?
    ensures WarpLogged(x', h.block, h.warp, log + [f], now) && |Of(log + [f], TicketOf(h))| == h.point + 1
  {
    hide SmTiming.Latency, SlotSent, Record;
    SentSlot(x, x', TicketOf(h), log, h, f, now);
    forall ci: nat | ci < |x'.completions| ensures Slot(x', Ticket(h.block, h.warp, ci), log + [f], now) {
      var t := Ticket(h.block, h.warp, ci);
      assert Slot(x, t, log, now);
      if ci != h.ci {
        OtherTicket(log, f, t);
        SameSent(x, x', t, Of(log, t));
        SameLatency(x, x', ci);
      }
    }
    forall ci: nat | ci >= |x'.completions| ensures Of(log + [f], Ticket(h.block, h.warp, ci)) == [] {
      OtherTicket(log, f, Ticket(h.block, h.warp, ci));
    }
  }

  /** A warp none of whose slots the request belongs to. */
  lemma UnaskedWarp(x: Warp, b: nat, w: nat, log: Log, f: Fetch, now: int)
    requires WarpLogged(x, b, w, log, now) && (f.block != b || f.warp != w)
    ensures WarpLogged(x, b, w, log + [f], now)
  {
    hide SlotSent, SlotDone;
    forall ci: nat ensures Of(log + [f], Ticket(b, w, ci)) == Of(log, Ticket(b, w, ci)) {
      OtherTicket(log, f, Ticket(b, w, ci));
    }
    forall ci: nat | ci < |x.completions| ensures Slot(x, Ticket(b, w, ci), log + [f], now) {
      assert Slot(x, Ticket(b, w, ci), log, now);
    }
  }

  /** The unit that sends holds a record of a live warp, as the log has it. */
  ghost predicate SenderOk(s: SmState, u: nat, log: Log)
    requires u < |s.units| && s.units[u].held.Some?
  {
    var h := s.units[u].held.value;
    && Live(s, h.block, h.warp) && h.block < s.ptr && UnitLogged(s, h, log)
    && h.point < |h.inst.coalesced| && s.blocks[h.block][h.warp].Pending(h.ci) >= 0
    && WarpLogged(s.blocks[h.block][h.warp], h.block, h.warp, log, s.now)
  }

  lemma SenderIsOk(cfg: SmConfig, s: SmState, u: nat, log: Log)
    requires SmInv.CoreOk(cfg, s) && Logged(s, log) && u < |s.units| && s.units[u].held.Some?
    ensures SenderOk(s, u, log)
  {
    assert SmInv.HeldOk(s, s.units[u]);
    var h := s.units[u].held.value;
    assert SmInv.WarpOk(cfg, s.blocks[h.block][h.warp]);
  }

  lemma SentWarps(cfg: SmConfig, s: SmState, u: nat, f: Fetch, s': SmState, log: Log)
    requires WarpsLogged(s, log) && u < |s.units| && s.units[u].held.Some? && SenderOk(s, u, log)
    requires Sent(cfg, s, u, f, s')
    ensures WarpsLogged(s', log + [f])
    ensures |Of(log + [f], TicketOf(s.units[u].held.value))| == s.units[u].held.value.point + 1
  {
    hide WarpLogged, SmTiming.Latency, WarpAsked, UnitDone;
    var h := s.units[u].held.value;
    SmInv.PutWarpLive(s, h.block, h.warp, s'.blocks[h.block][h.warp]);
    AskedWarp(cfg, s, u, f, s', log);
    forall b, w | Live(s', b, w) ensures WarpLogged(s'.blocks[b][w], b, w, log + [f], s'.now) {
      if b != h.block || w != h.warp { UnaskedWarp(s.blocks[b][w], b, w, log, f, s.now); }
    }
  }

  lemma AskedWarp(cfg: SmConfig, s: SmState, u: nat, f: Fetch, s': SmState, log: Log)
    requires u < |s.units| && s.units[u].held.Some? && SenderOk(s, u, log) && Sent(cfg, s, u, f, s')
    ensures var h := s.units[u].held.value;
            && Live(s', h.block, h.warp)
            && WarpLogged(s'.blocks[h.block][h.warp], h.block, h.warp, log + [f], s.now)
            && |Of(log + [f], TicketOf(h))| == h.point + 1
  {
    hide WarpLogged, SmTiming.Latency, WarpAsked, UnitDone, Record;
    var h := s.units[u].held.value;
    SentWarp(s.blocks[h.block][h.warp], s'.blocks[h.block][h.warp], log, h, f, s.now);
  }

  lemma SentUnits(cfg: SmConfig, s: SmState, u: nat, f: Fetch, s': SmState, log: Log)
    requires UnitsLogged(s, log) && Apart(s.units) && u < |s.units| && s.units[u].held.Some?
    requires Sent(cfg, s, u, f, s') && Live(s, s.units[u].held.value.block, s.units[u].held.value.warp)
    requires |Of(log + [f], TicketOf(s.units[u].held.value))| == s.units[u].held.value.point + 1
    ensures UnitsLogged(s', log + [f])
  {
    hide SmTiming.Latency;
    var h := s.units[u].held.value;
    SmInv.PutWarpLive(s, h.block, h.warp, s'.blocks[h.block][h.warp]);
    assert Holds(s.units[u], TicketOf(h));
    forall v | 0 <= v < |s'.units| && s'.units[v].held.Some? ensures UnitLogged(s', s'.units[v].held.value, log + [f]) {
      var g := s.units[v].held.value;
      assert UnitLogged(s, g, log) && Holds(s.units[v], TicketOf(g));
      if Live(s, g.block, g.warp) { SameDue(s.blocks[g.block][g.warp], s'.blocks[g.block][g.warp], g.ci); }
      if v != u { OtherTicket(log, f, TicketOf(g)); }
    }
  }

  lemma SentApart(cfg: SmConfig, s: SmState, u: nat, f: Fetch, s': SmState)
    requires Apart(s.units) && u < |s.units| && s.units[u].held.Some? && Sent(cfg, s, u, f, s')
    ensures Apart(s'.units)
  {
    forall v, t | 0 <= v < |s'.units| && Holds(s'.units[v], t) ensures Holds(s.units[v], t) { }
  }

  lemma SentOpen(cfg: SmConfig, s: SmState, u: nat, f: Fetch, s': SmState, log: Log)
    requires OpenAreHeld(s, log) && u < |s.units| && s.units[u].held.Some? && SenderOk(s, u, log)
    requires Sent(cfg, s, u, f, s')
    requires |Of(log + [f], TicketOf(s.units[u].held.value))| == s.units[u].held.value.point + 1
    ensures OpenAreHeld(s', log + [f])
  {
    hide SmTiming.Latency, WarpLogged;
    var h := s.units[u].held.value;
    SmInv.PutWarpLive(s, h.block, h.warp, s'.blocks[h.block][h.warp]);
    forall t | Open(s', log + [f], t) ensures HeldSomewhere(s'.units, t) {
      SameDue(s.blocks[t.block][t.warp], s'.blocks[t.block][t.warp], t.ci);
      if t == TicketOf(h) {
        assert Holds(s'.units[u], t);
      } else {
        OtherTicket(log, f, t);
        assert Open(s, log, t);
        var v :| 0 <= v < |s.units| && Holds(s.units[v], t);
        assert v != u && Holds(s'.units[v], t);
      }
    }
  }

  lemma SentFuture(cfg: SmConfig, s: SmState, u: nat, f: Fetch, s': SmState, log: Log)
    requires FutureEmpty(s, log) && u < |s.units| && s.units[u].held.Some? && s.units[u].held.value.block < s.ptr
    requires Sent(cfg, s, u, f, s')
    ensures FutureEmpty(s', log + [f])
  {
    forall t: Ticket | t.block >= s'.ptr ensures Of(log + [f], t) == [] { OtherTicket(log, f, t); }
  }

  lemma SentMoves(cfg: SmConfig, s: SmState, u: nat, f: Fetch, s': SmState)
    requires u < |s.units| && s.units[u].held.Some? && Sent(cfg, s, u, f, s')
    ensures Moves(cfg, s, s', [f])
  {
    var h := s.units[u].held.value;
    SmInv.PutWarpLive(s, h.block, h.warp, s'.blocks[h.block][h.warp]);
    assert [f][..0] == [];
    forall k | 0 <= k < |s.banks| ensures s'.banks[k] == s.banks[k] + OnBank([f], k) { }
  }

  lemma SentLogged(cfg: SmConfig, s: SmState, u: nat, f: Fetch, s': SmState, log: Log)
    requires SmInv.CoreOk(cfg, s) && Logged(s, log) && u < |s.units| && s.units[u].held.Some? && Sent(cfg, s, u, f, s')
    ensures Logged(s', log + [f])
  {
    hide SmInv.CoreOk, WarpsLogged, UnitsLogged, Apart, OpenAreHeld, FutureEmpty, Sent;
    SenderIsOk(cfg, s, u, log);
    SentWarps(cfg, s, u, f, s', log);
    SentUnits(cfg, s, u, f, s', log);
    SentApart(cfg, s, u, f, s');
    SentOpen(cfg, s, u, f, s', log);
    SentFuture(cfg, s, u, f, s', log);
  }

  lemma UnitSteps(cfg: SmConfig, s: SmState, u: nat, busy: set<nat>, log: Log) returns (fs: Log)
    requires SmInv.Inv(cfg, s) && Logged(s, log) && u < |s.units|
    ensures var r := UnitCycle(cfg, s, u, busy).0; r.Ok? && Steps(cfg, s, r.value, log, fs)
  {
    SmCompletion.InvCore(cfg, s);
    var f := UnitTurn(cfg, s, u, busy);
    hide SmInv.Inv, SmInv.CoreOk, Logged, UnitCycle, Sent, Moves, Grew;
    if Sends(s, u, busy) {
      fs := [f];
      SentLogged(cfg, s, u, f, UnitCycle(cfg, s, u, busy).0.value, log);
      SentMoves(cfg, s, u, f, UnitCycle(cfg, s, u, busy).0.value);
    } else {
      fs := [];
      GrewItself(s);
      StepsNothing(cfg, s, s, log);
    }
  }

  lemma UnitCyclesUnfold(cfg: SmConfig, s: SmState, sub: nat, busy: set<nat>)
    requires Shaped(cfg, s) && sub <= SUBCORES
    ensures sub == SUBCORES ==> UnitCycles(cfg, s, sub, busy) == Ok(s)
    ensures sub < SUBCORES ==>
              && sub < |cfg.unitOf| && cfg.ldsClass < |cfg.unitOf[sub]| && cfg.unitOf[sub][cfg.ldsClass] < |s.units|
              && var (r, busy') := UnitCycle(cfg, s, cfg.unitOf[sub][cfg.ldsClass], busy);
                 r.Ok? ==> UnitCycles(cfg, s, sub, busy) == UnitCycles(cfg, r.value, sub + 1, busy')
  {
    hide UnitCycle;
  }

  lemma {:induction false} UnitsStep(cfg: SmConfig, s: SmState, sub: nat, busy: set<nat>, log: Log)
    returns (fs: Log)
    requires SmInv.Inv(cfg, s) && Logged(s, log) && sub <= SUBCORES
    ensures Shaped(cfg, s)
    ensures var r := UnitCycles(cfg, s, sub, busy); r.Ok? && Steps(cfg, s, r.value, log, fs)
    decreases SUBCORES - sub
  {
    hide *;
    SmInv.InvIsShaped(cfg, s);
    UnitCyclesUnfold(cfg, s, sub, busy);
    if sub < SUBCORES {
      var u := cfg.unitOf[sub][cfg.ldsClass];
      var p := UnitSteps(cfg, s, u, busy, log);
      SmInv.UnitCycleSettles(cfg, s, u, busy);
      var (r, busy') := UnitCycle(cfg, s, u, busy);
      StepsParts(cfg, s, r.value, log, p);
      var q := UnitsStep(cfg, r.value, sub + 1, busy', log + p);
      fs := p + q;
      StepsTwice(cfg, s, r.value, UnitCycles(cfg, s, sub, busy).value, log, p, q);
    } else {
      fs := [];
      GrewItself(s);
      StepsNothing(cfg, s, s, log);
    }
  }

  lemma StepsParts(cfg: SmConfig, s: SmState, s': SmState, log: Log, fs: Log)
    requires Steps(cfg, s, s', log, fs)
    ensures Moves(cfg, s, s', fs) && Logged(s', log + fs)
  {
  }

  // ---------------------------------------------------------------- one turn for every subcore

  /** One unit has had its turn. */
  ghost predicate TakesTurn(cfg: SmConfig, s: SmState, u: nat, busy: set<nat>, s': SmState, busy': set<nat>) {
    u < |s.units| &&
    if Sends(s, u, busy) then exists f :: Sent(cfg, s, u, f, s') && busy' == busy + {f.sector}
    else s' == s && busy' == busy
  }

  /** The turn of the unit of subcore sub + k. */
  ghost predicate TurnAt(cfg: SmConfig, sub: nat, states: seq<SmState>, taken: seq<set<nat>>, k: nat)
    requires k + 1 < |states| == |taken| && sub + k < |cfg.unitOf|
  {
    && cfg.ldsClass < |cfg.unitOf[sub + k]|
    && TakesTurn(cfg, states[k], cfg.unitOf[sub + k][cfg.ldsClass], taken[k], states[k + 1], taken[k + 1])
  }

  /** A pass over the subcores: the states between the turns, and the banks that are taken. */
  ghost predicate Pass(cfg: SmConfig, sub: nat, states: seq<SmState>, taken: seq<set<nat>>)
    requires sub <= SUBCORES
  {
    && |states| == |taken| == SUBCORES - sub + 1 && |cfg.unitOf| == SUBCORES
    && forall k :: 0 <= k < SUBCORES - sub ==> TurnAt(cfg, sub, states, taken, k)
  }

  lemma UnitTakesTurn(cfg: SmConfig, s: SmState, u: nat, busy: set<nat>)
    requires SmInv.Inv(cfg, s) && u < |s.units|
    ensures var (r, busy') := UnitCycle(cfg, s, u, busy); r.Ok? && TakesTurn(cfg, s, u, busy, r.value, busy')
  {
    SmCompletion.InvCore(cfg, s);
    var f := UnitTurn(cfg, s, u, busy);
    hide SmInv.Inv, SmInv.CoreOk, UnitCycle, Sent;
  }

  lemma PassOneMore(cfg: SmConfig, sub: nat, s: SmState, busy: set<nat>, states: seq<SmState>, taken: seq<set<nat>>)
    requires sub < SUBCORES && Pass(cfg, sub + 1, states, taken) && cfg.ldsClass < |cfg.unitOf[sub]|
    requires TakesTurn(cfg, s, cfg.unitOf[sub][cfg.ldsClass], busy, states[0], taken[0])
    ensures Pass(cfg, sub, [s] + states, [busy] + taken)
  {
    hide TakesTurn;
    var all, sets := [s] + states, [busy] + taken;
    forall k | 0 <= k < SUBCORES - sub ensures TurnAt(cfg, sub, all, sets, k) {
      if k > 0 { assert TurnAt(cfg, sub + 1, states, taken, k - 1); }
    }
  }

  /** In a cycle the load/store unit of every subcore has its turn, in the order of the subcores, and no
      bank gets more than one request. */
  lemma {:induction false} EveryUnitHasItsTurn(cfg: SmConfig, s: SmState, sub: nat, busy: set<nat>)
    returns (states: seq<SmState>, taken: seq<set<nat>>)
    requires SmInv.Inv(cfg, s) && sub <= SUBCORES
    ensures Shaped(cfg, s) && Pass(cfg, sub, states, taken) && states[0] == s && taken[0] == busy
    ensures UnitCycles(cfg, s, sub, busy) == Ok(states[SUBCORES - sub])
    decreases SUBCORES - sub
  {
    SmInv.InvIsShaped(cfg, s);
    UnitCyclesUnfold(cfg, s, sub, busy);
    assert |cfg.unitOf| == SUBCORES;
    hide Shaped, SmInv.Inv, UnitCycle, UnitCycles, TakesTurn;
    if sub == SUBCORES {
      states, taken := [s], [busy];
    } else {
      var u := cfg.unitOf[sub][cfg.ldsClass];
      UnitTakesTurn(cfg, s, u, busy);
      SmInv.UnitCycleSettles(cfg, s, u, busy);
      var (r, busy') := UnitCycle(cfg, s, u, busy);
      var rest, sets := EveryUnitHasItsTurn(cfg, r.value, sub + 1, busy');
      PassOneMore(cfg, sub, s, busy, rest, sets);
      states, taken := [s] + rest, [busy] + sets;
    }
  }
}
