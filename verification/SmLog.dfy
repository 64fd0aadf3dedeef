/** The log of all requests that the units and the atomics of an SM have queued, in the order of their ids,
    and what it says of every instruction that has issued. */
module SmLog {
  import opened Wrappers
  import opened MemFetch
  import opened Warps
  import opened Sm
  import opened Ledger
  import SmCompletion
  import SmTiming

  type Log = seq<Fetch>

  /** The requests of one completion slot, in order. */
  function Of(log: Log, t: Ticket): Log {
    if log == [] then []
    else
      var f := log[|log| - 1];
      Of(log[..|log| - 1], t) + (if One(f, t) == 1 then [f] else [])
  }

  /** The requests for bank k, in order. */
  function OnBank(log: Log, k: nat): Log {
    if log == [] then []
    else
      var f := log[|log| - 1];
      OnBank(log[..|log| - 1], k) + (if f.sector == k then [f] else [])
  }

  lemma OfSnoc(log: Log, f: Fetch, t: Ticket)
    ensures Of(log + [f], t) == Of(log, t) + (if One(f, t) == 1 then [f] else [])
  {
    assert (log + [f])[..|log|] == log;
  }

  lemma {:induction false} OnBankAppend(p: Log, q: Log, k: nat)
    ensures OnBank(p + q, k) == OnBank(p, k) + OnBank(q, k)
    decreases |q|
  {
    if q == [] {
      assert p + q == p;
    } else {
      var q0 := q[..|q| - 1];
      OnBankAppend(p, q0, k);
      assert (p + q)[..|p + q| - 1] == p + q0;
    }
  }

  // ---------------------------------------------------------------- the invariant

  /** The record of instruction i. */
  function Record(x: Warp, i: nat): Option<MemInst>
    requires i < |x.insts|
  {
    FindMemInst(x.memInsts, x.insts[i].pc, x.insts[i].pcIndex, 0)
  }

  /** What instruction i is to request: nothing if its latency is known, else its record's list. */
  function Due(x: Warp, i: nat): seq<(nat, nat)>
    requires i < |x.insts|
  {
    if SmTiming.Latency(x, i).Some? || Record(x, i).None? then [] else Record(x, i).value.coalesced
  }

  /** A request of slot t for one target: an atomic is written, and otherwise loads read and stores write. */
  predicate Right(x: Warp, t: Ticket, f: Fetch, target: (nat, nat))
    requires t.ci < |x.insts|
  {
    && One(f, t) == 1 && (f.addr, f.sector) == target
    && f.writeType.Normal? && f.space.Global?
    && (if x.insts[t.ci].kind.AtomicAccess? then f.isWrite && f.isAtomic
        else !f.isAtomic && Record(x, t.ci).Some? && (f.isWrite <==> !Record(x, t.ci).value.isLoad))
  }

  /** The requests of slot t so far are the first of those it is to make, in order. */
  ghost predicate SlotSent(x: Warp, t: Ticket, sent: Log)
    requires t.ci < |x.insts|
  {
    |sent| <= |Due(x, t.ci)| && forall i :: 0 <= i < |sent| ==> Right(x, t, sent[i], Due(x, t.ci)[i])
  }

  /** A slot of unknown latency is incomplete before its first request, and complete when nothing is owed
      after that. */
  ghost predicate SlotDone(x: Warp, ci: nat, sent: Log, now: int)
    requires ci < |x.completions| && ci < |x.insts|
  {
    SmTiming.Latency(x, ci).None? ==>
      if sent == [] then x.completions[ci] == INT_MAX && x.Pending(ci) == 0
      else x.Pending(ci) == 0 ==> x.completions[ci] <= now
  }

  ghost predicate Slot(x: Warp, t: Ticket, log: Log, now: int)
    requires t.ci < |x.completions| && t.ci < |x.insts|
  {
    SlotSent(x, t, Of(log, t)) && SlotDone(x, t.ci, Of(log, t), now)
  }

  ghost predicate WarpLogged(x: Warp, b: nat, w: nat, log: Log, now: int) {
    && |x.completions| <= |x.insts|
    && (forall ci: nat :: ci < |x.completions| ==> Slot(x, Ticket(b, w, ci), log, now))
    && (forall ci: nat :: ci >= |x.completions| ==> Of(log, Ticket(b, w, ci)) == [])
  }

  ghost predicate WarpsLogged(s: SmState, log: Log) {
    forall b, w :: Live(s, b, w) ==> WarpLogged(s.blocks[b][w], b, w, log, s.now)
  }

  /** Blocks that are still to come have requested nothing. */
  ghost predicate FutureEmpty(s: SmState, log: Log) { forall t: Ticket :: t.block >= s.ptr ==> Of(log, t) == [] }

  function TicketOf(h: Held): Ticket { Ticket(h.block, h.warp, h.ci) }

  /** A unit works through the list of a load or store, and is where the log says. */
  ghost predicate UnitLogged(s: SmState, h: Held, log: Log) {
    Live(s, h.block, h.warp) ==>
      var x := s.blocks[h.block][h.warp];
      && h.ci < |x.completions| <= |x.insts|
      && SmTiming.Latency(x, h.ci).None? && !x.insts[h.ci].kind.AtomicAccess?
      && Record(x, h.ci) == Some(h.inst) && |Of(log, TicketOf(h))| == h.point
  }

  ghost predicate UnitsLogged(s: SmState, log: Log) {
    forall u :: 0 <= u < |s.units| && s.units[u].held.Some? ==> UnitLogged(s, s.units[u].held.value, log)
  }

  predicate Holds(unit: PipelineUnit, t: Ticket) { unit.held.Some? && TicketOf(unit.held.value) == t }

  /** No two units work for the same slot. */
  ghost predicate Apart(units: seq<PipelineUnit>) {
    forall u, v, t :: 0 <= u < v < |units| && Holds(units[u], t) ==> !Holds(units[v], t)
  }

  /** Has slot t requests still to make? */
  ghost predicate Open(s: SmState, log: Log, t: Ticket) {
    && Live(s, t.block, t.warp)
    && var x := s.blocks[t.block][t.warp];
       t.ci < |x.completions| && t.ci < |x.insts| && |Of(log, t)| < |Due(x, t.ci)|
  }

  ghost predicate HeldSomewhere(units: seq<PipelineUnit>, t: Ticket) {
    exists u :: 0 <= u < |units| && Holds(units[u], t)
  }

  /** Some unit works for every slot that has requests still to make. */
  ghost predicate OpenAreHeld(s: SmState, log: Log) { forall t :: Open(s, log, t) ==> HeldSomewhere(s.units, t) }

  ghost predicate Logged(s: SmState, log: Log) {
    && WarpsLogged(s, log) && FutureEmpty(s, log) && UnitsLogged(s, log) && Apart(s.units) && OpenAreHeld(s, log)
  }

  // ---------------------------------------------------------------- steps without requests

  /** Warps with the same program and slots are to make the same requests. */
  predicate SameSlots(x: Warp, x': Warp) {
    x'.insts == x.insts && x'.memInsts == x.memInsts && |x'.completions| == |x.completions|
  }

  lemma SameDue(x: Warp, x': Warp, i: nat)
    requires x'.insts == x.insts && x'.memInsts == x.memInsts && i < |x.insts|
    ensures SmTiming.Latency(x', i) == SmTiming.Latency(x, i)
    ensures Record(x', i) == Record(x, i) && Due(x', i) == Due(x, i)
  {
  }

  lemma SameSent(x: Warp, x': Warp, t: Ticket, sent: Log)
    requires x'.insts == x.insts && x'.memInsts == x.memInsts && t.ci < |x.insts|
    ensures SlotSent(x', t, sent) <==> SlotSent(x, t, sent)
  {
    hide SmTiming.Latency, Due;
    SameDue(x, x', t.ci);
    forall i | 0 <= i < |sent| && |sent| <= |Due(x, t.ci)|
      ensures Right(x', t, sent[i], Due(x', t.ci)[i]) <==> Right(x, t, sent[i], Due(x, t.ci)[i])
    {
    }
  }

  /** Only the warps change, and they keep their programs and slots. */
  ghost predicate SameShape(s: SmState, s': SmState) {
    && s'.units == s.units && s'.ptr >= s.ptr
    && (forall b, w :: Live(s', b, w) ==> Live(s, b, w) && SameSlots(s.blocks[b][w], s'.blocks[b][w]))
  }

  lemma ShapeKeepsUnits(s: SmState, s': SmState, log: Log)
    requires UnitsLogged(s, log) && SameShape(s, s')
    ensures UnitsLogged(s', log)
  {
    hide SmTiming.Latency;
    forall u | 0 <= u < |s'.units| && s'.units[u].held.Some? ensures UnitLogged(s', s'.units[u].held.value, log) {
      var h := s'.units[u].held.value;
      assert UnitLogged(s, h, log);
      if Live(s', h.block, h.warp) { SameDue(s.blocks[h.block][h.warp], s'.blocks[h.block][h.warp], h.ci); }
    }
  }

  lemma ShapeKeepsOpen(s: SmState, s': SmState, log: Log)
    requires OpenAreHeld(s, log) && SameShape(s, s')
    ensures OpenAreHeld(s', log)
  {
    hide Due, SmTiming.Latency;
    forall t | Open(s', log, t) ensures HeldSomewhere(s'.units, t) {
      SameDue(s.blocks[t.block][t.warp], s'.blocks[t.block][t.warp], t.ci);
      assert Open(s, log, t);
    }
  }

  /** A warp that keeps its program and slots, and whose slots are as complete as they should be. */
  ghost predicate StillDone(x: Warp, x': Warp, b: nat, w: nat, log: Log, now: int) {
    && SameSlots(x, x') && |x.completions| <= |x.insts|
    && forall ci: nat :: ci < |x.completions| ==> SlotDone(x', ci, Of(log, Ticket(b, w, ci)), now)
  }

  lemma StillLogged(x: Warp, x': Warp, b: nat, w: nat, log: Log, now: int, now': int)
    requires WarpLogged(x, b, w, log, now) && StillDone(x, x', b, w, log, now')
    ensures WarpLogged(x', b, w, log, now')
  {
    hide SmTiming.Latency, Due, SlotSent, SlotDone;
    forall ci: nat | ci < |x'.completions| ensures Slot(x', Ticket(b, w, ci), log, now') {
      assert Slot(x, Ticket(b, w, ci), log, now);
      SameSent(x, x', Ticket(b, w, ci), Of(log, Ticket(b, w, ci)));
    }
  }

  lemma ShapeKeepsLogged(s: SmState, s': SmState, log: Log)
    requires Logged(s, log) && SameShape(s, s')
    requires forall b, w :: Live(s', b, w) ==> StillDone(s.blocks[b][w], s'.blocks[b][w], b, w, log, s'.now)
    ensures Logged(s', log)
  {
    hide StillDone, Open, UnitLogged, Holds, WarpLogged;
    ShapeKeepsUnits(s, s', log);
    ShapeKeepsOpen(s, s', log);
    forall b, w | Live(s', b, w) ensures WarpLogged(s'.blocks[b][w], b, w, log, s'.now) {
      StillLogged(s.blocks[b][w], s'.blocks[b][w], b, w, log, s.now, s'.now);
    }
  }

  /** Replies complete the slots whose last request they bring. */
  lemma ReplyStillDone(x: Warp, x': Warp, b: nat, w: nat, log: Log, now: int)
    requires WarpLogged(x, b, w, log, now) && SmCompletion.WarpStep(x, x', now)
    ensures StillDone(x, x', b, w, log, now)
  {
    hide SmTiming.Latency, Due, SlotSent;
    forall ci: nat | ci < |x.completions| ensures SlotDone(x', ci, Of(log, Ticket(b, w, ci)), now) {
      assert Slot(x, Ticket(b, w, ci), log, now);
      assert SmCompletion.SlotStep(x, x', ci, now) && 0 <= x'.Pending(ci) <= x.Pending(ci);
      SameLatency(x, x', ci);
    }
  }

  lemma SameLatency(x: Warp, x': Warp, i: nat)
    requires x'.insts == x.insts && x'.memInsts == x.memInsts && i < |x.insts|
    ensures SmTiming.Latency(x', i) == SmTiming.Latency(x, i)
  {
  }

  lemma RepliedLogged(s: SmState, s': SmState, log: Log)
    requires Logged(s, log) && SmCompletion.Replied(s, s')
    ensures Logged(s', log)
  {
    hide StillDone, Open, UnitLogged, Holds, WarpLogged, SmCompletion.SlotStep;
    forall b, w | Live(s', b, w)
      ensures SameSlots(s.blocks[b][w], s'.blocks[b][w])
      ensures StillDone(s.blocks[b][w], s'.blocks[b][w], b, w, log, s'.now)
    {
      assert SmCompletion.WarpStep(s.blocks[b][w], s'.blocks[b][w], s.now);
      ReplyStillDone(s.blocks[b][w], s'.blocks[b][w], b, w, log, s.now);
    }
    ShapeKeepsLogged(s, s', log);
  }

  lemma LaterStillDone(x: Warp, b: nat, w: nat, log: Log, now: int, now': int)
    requires WarpLogged(x, b, w, log, now) && now <= now'
    ensures StillDone(x, x, b, w, log, now')
  {
    hide SmTiming.Latency, Due, SlotSent;
    forall ci: nat | ci < |x.completions| ensures SlotDone(x, ci, Of(log, Ticket(b, w, ci)), now') {
      assert Slot(x, Ticket(b, w, ci), log, now);
    }
  }

  /** Warps that go, blocks without warps that go, and time that passes. */
  lemma FewerLogged(s: SmState, s': SmState, log: Log)
    requires Logged(s, log) && s'.units == s.units && s'.ptr >= s.ptr && s'.now >= s.now
    requires forall b, w :: Live(s', b, w) ==> Live(s, b, w) && s'.blocks[b][w] == s.blocks[b][w]
    ensures Logged(s', log)
  {
    hide StillDone, Open, UnitLogged, Holds, WarpLogged;
    forall b, w | Live(s', b, w) ensures StillDone(s.blocks[b][w], s'.blocks[b][w], b, w, log, s'.now) {
      assert WarpLogged(s.blocks[b][w], b, w, log, s.now);
      LaterStillDone(s.blocks[b][w], b, w, log, s.now, s'.now);
    }
    ShapeKeepsLogged(s, s', log);
  }

  // ---------------------------------------------------------------- what a step queues

  /** The step queues the requests `fs`, each behind those of its own bank, with consecutive ids. */
  ghost predicate Adds(cfg: SmConfig, s: SmState, s': SmState, fs: Log) {
    && |s'.banks| == |s.banks| && s'.nextId == s.nextId + |fs|
    && (forall k :: 0 <= k < |s.banks| ==> s'.banks[k] == s.banks[k] + OnBank(fs, k))
    && (forall i :: 0 <= i < |fs| ==> fs[i].id == s.nextId + i && fs[i].sm == cfg.smId)
  }

  /** A warp that may have got new completion slots and owed requests; the old slots stay as they were. */
  ghost predicate WarpGrew(x: Warp, x': Warp) {
    && x'.insts == x.insts && x'.memInsts == x.memInsts && x.completions <= x'.completions
    && forall j: nat :: x.Pending(j) <= x'.Pending(j)
  }

  /** No time passes, and no completion slot of a warp that stays is written. */
  ghost predicate Grew(s: SmState, s': SmState) {
    && s'.now == s.now && s.ptr <= s'.ptr
    && forall b: nat, w: nat :: Live(s', b, w) ==>
         b >= s.ptr || (Live(s, b, w) && WarpGrew(s.blocks[b][w], s'.blocks[b][w]))
  }

  ghost predicate Moves(cfg: SmConfig, s: SmState, s': SmState, fs: Log) { Adds(cfg, s, s', fs) && Grew(s, s') }

  lemma AddsTwice(cfg: SmConfig, s: SmState, s1: SmState, s2: SmState, p: Log, q: Log)
    requires Adds(cfg, s, s1, p) && Adds(cfg, s1, s2, q)
    ensures Adds(cfg, s, s2, p + q)
  {
    forall k | 0 <= k < |s.banks| ensures s2.banks[k] == s.banks[k] + OnBank(p + q, k) { OnBankAppend(p, q, k); }
  }

  lemma MovesTwice(cfg: SmConfig, s: SmState, s1: SmState, s2: SmState, p: Log, q: Log)
    requires Moves(cfg, s, s1, p) && Moves(cfg, s1, s2, q)
    ensures Moves(cfg, s, s2, p + q)
  {
    AddsTwice(cfg, s, s1, s2, p, q);
  }

  lemma MovesNothing(cfg: SmConfig, s: SmState, s': SmState)
    requires s'.banks == s.banks && s'.nextId == s.nextId && Grew(s, s')
    ensures Moves(cfg, s, s', [])
  {
  }

  /** A step of the core half: it queues `fs`, and the log goes on with it. */
  ghost predicate Steps(cfg: SmConfig, s: SmState, s': SmState, log: Log, fs: Log) {
    Moves(cfg, s, s', fs) && Logged(s', log + fs)
  }

  lemma StepsTwice(cfg: SmConfig, s: SmState, s1: SmState, s2: SmState, log: Log, p: Log, q: Log)
    requires Steps(cfg, s, s1, log, p) && Steps(cfg, s1, s2, log + p, q)
    ensures Steps(cfg, s, s2, log, p + q)
  {
    hide Moves, Logged;
    MovesTwice(cfg, s, s1, s2, p, q);
    assert log + (p + q) == log + p + q;
  }

  lemma StepsNothing(cfg: SmConfig, s: SmState, s': SmState, log: Log)
    requires s'.banks == s.banks && s'.nextId == s.nextId && Grew(s, s') && Logged(s', log)
    ensures Steps(cfg, s, s', log, [])
  {
    assert log + [] == log;
  }

  lemma GrewItself(s: SmState)
    ensures Grew(s, s)
  {
  }
}
