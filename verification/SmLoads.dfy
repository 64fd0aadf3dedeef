/** Memory instructions over whole runs of an SM.  Each queues exactly its coalesced list, in order, with the
    right access type; and a load, store or atomic is complete once nothing is owed for it. */
module SmLoads {
  import opened Wrappers
  import opened Warps
  import opened Sm
  import opened Ledger
  import opened SmIssue
  import opened SmLog
  import opened SmUnits
  import SmCompletion
  import SmHits
  import SmInv
  import SmRuns
  import SmTiming
  import TagStore

  // ---------------------------------------------------------------- blocks that go and come

  lemma DeleteSteps(cfg: SmConfig, s: SmState, log: Log)
    requires Logged(s, log)
    ensures Steps(cfg, s, DeleteInactive(s), log, [])
  {
    hide Logged;
    FewerLogged(s, DeleteInactive(s), log);
    StepsNothing(cfg, s, DeleteInactive(s), log);
  }

  lemma FreshLogged(t: WarpTrace, b: nat, w: nat, log: Log, now: int)
    requires forall ci: nat :: Of(log, Ticket(b, w, ci)) == []
    ensures WarpLogged(FreshWarp(t), b, w, log, now)
  {
  }

  lemma DispatchOneLogged(cfg: SmConfig, s: SmState, log: Log)
    requires Logged(s, log) && SmInv.UnitsOk(s) && s.ptr !in s.blocks && s.ptr < |cfg.kernel|
    ensures Logged(DispatchOne(cfg, s), log)
  {
    hide WarpLogged, UnitLogged, SmTiming.Latency;
    var s' := DispatchOne(cfg, s);
    forall b: nat, w: nat | Live(s', b, w) ensures WarpLogged(s'.blocks[b][w], b, w, log, s'.now) {
      if b == s.ptr { FreshLogged(cfg.kernel[b][w], b, w, log, s.now); } else { assert Live(s, b, w); }
    }
    forall u | 0 <= u < |s'.units| && s'.units[u].held.Some? ensures UnitLogged(s', s'.units[u].held.value, log) {
      assert SmInv.HeldOk(s, s.units[u]) && UnitLogged(s, s.units[u].held.value, log);
      SameUnitLogged(s, s', s.units[u].held.value, log);
    }
    forall t | Open(s', log, t) ensures HeldSomewhere(s'.units, t) { assert t.block != s.ptr && Open(s, log, t); }
  }

  lemma SameUnitLogged(s: SmState, s': SmState, h: Held, log: Log)
    requires UnitLogged(s, h, log) && Live(s, h.block, h.warp) && Live(s', h.block, h.warp)
    requires s'.blocks[h.block][h.warp] == s.blocks[h.block][h.warp]
    ensures UnitLogged(s', h, log)
  {
  }

  lemma DispatchOneGrew(cfg: SmConfig, s: SmState)
    requires s.ptr < |cfg.kernel|
    ensures Grew(s, DispatchOne(cfg, s))
  {
  }

  lemma DispatchUnfold(cfg: SmConfig, s: SmState)
    ensures Dispatch(cfg, s) == if |s.blocks| < cfg.maxBlocks && s.ptr < |cfg.kernel|
                                then Dispatch(cfg, DispatchOne(cfg, s)) else s
  {
    hide DispatchOne;
  }

  lemma NewBlockIsNew(cfg: SmConfig, s: SmState)
    requires SmInv.Inv(cfg, s)
    ensures s.ptr !in s.blocks && SmInv.UnitsOk(s)
  {
  }

  lemma {:induction false} DispatchSteps(cfg: SmConfig, s: SmState, log: Log)
    requires SmInv.Inv(cfg, s) && Logged(s, log)
    ensures Steps(cfg, s, Dispatch(cfg, s), log, [])
    decreases |cfg.kernel| - s.ptr
  {
    hide SmInv.Inv, Logged, Grew, Dispatch, Moves;
    DispatchUnfold(cfg, s);
    if |s.blocks| < cfg.maxBlocks && s.ptr < |cfg.kernel| {
      NewBlockIsNew(cfg, s);
      DispatchOneLogged(cfg, s, log);
      DispatchOneGrew(cfg, s);
      StepsNothing(cfg, s, DispatchOne(cfg, s), log);
      SmInv.DispatchOneSettles(cfg, s);
      DispatchSteps(cfg, DispatchOne(cfg, s), log);
      var none: Log := [];
      assert log + none == log && none + none == none;
      StepsTwice(cfg, s, DispatchOne(cfg, s), Dispatch(cfg, s), log, none, none);
    } else {
      GrewItself(s);
      StepsNothing(cfg, s, s, log);
    }
  }

  // ---------------------------------------------------------------- the scheduler and the core half

  lemma VisitIssueSteps(cfg: SmConfig, s: SmState, b: nat, w: nat, active: set<nat>, log: Log) returns (fs: Log)
    requires SmInv.Inv(cfg, s) && Logged(s, log) && s.now < INT_MAX && w < cfg.warpLimit && active != {}
    requires Live(s, b, w) && !s.blocks[b][w].Retires() && s.blocks[b][w].point < |s.blocks[b][w].insts|
    requires Shaped(cfg, s) && SmInv.MayIssue(cfg, s, b, w, active)
    ensures var r := VisitWarps(cfg, s, b, w, active); r.Ok? && Steps(cfg, s, r.value.0, log, fs)
  {
    SmTiming.VisitIsIssue(cfg, s, b, w, active);
    hide SmInv.Inv, Logged, Shaped, VisitWarps, Steps, SmInv.MayIssue, Issue;
    fs := IssueSteps(cfg, s, b, w, SmTiming.Picked(cfg, s, b, w, active), log);
  }

  /** The visit of one warp: it issues and ends the visit, or the visit goes on. */
  lemma VisitOneSteps(cfg: SmConfig, s: SmState, b: nat, w: nat, active: set<nat>, log: Log) returns (fs: Log)
    requires SmInv.Inv(cfg, s) && Logged(s, log) && s.now < INT_MAX && w < cfg.warpLimit && active != {}
    ensures Shaped(cfg, s) && Shaped(cfg, SmInv.AfterVisit(s, b, w))
    ensures Steps(cfg, s, SmInv.AfterVisit(s, b, w), log, [])
    ensures var r := VisitWarps(cfg, s, b, w, active);
            || r == VisitWarps(cfg, SmInv.AfterVisit(s, b, w), b, w + 1, active)
            || (r.Ok? && Steps(cfg, s, r.value.0, log, fs))
  {
    SmInv.InvIsShaped(cfg, s);
    AfterVisitSteps(cfg, s, b, w, log);
    fs := [];
    hide SmInv.Inv, Logged, Steps, SmInv.MayIssue;
    if Live(s, b, w) && !s.blocks[b][w].Retires() && s.blocks[b][w].point < |s.blocks[b][w].insts| {
      SmInv.VisitIssueSettles(cfg, s, b, w, active);
      if SmInv.MayIssue(cfg, s, b, w, active) { fs := VisitIssueSteps(cfg, s, b, w, active, log); }
    }
  }

  lemma AfterVisitSteps(cfg: SmConfig, s: SmState, b: nat, w: nat, log: Log)
    requires Logged(s, log)
    ensures Steps(cfg, s, SmInv.AfterVisit(s, b, w), log, [])
  {
    hide Logged;
    FewerLogged(s, SmInv.AfterVisit(s, b, w), log);
    StepsNothing(cfg, s, SmInv.AfterVisit(s, b, w), log);
  }

  /** A step that queues nothing, followed by one that queues `fs`. */
  lemma ThenSteps(cfg: SmConfig, s: SmState, s1: SmState, s2: SmState, log: Log, fs: Log)
    requires Steps(cfg, s, s1, log, []) && (Logged(s1, log) ==> Steps(cfg, s1, s2, log, fs))
    ensures Logged(s1, log) && Steps(cfg, s, s2, log, fs)
  {
    hide Moves, Logged;
    var none: Log := [];
    assert log + none == log && none + fs == fs;
    StepsTwice(cfg, s, s1, s2, log, none, fs);
  }

  lemma StillLoggedAfter(cfg: SmConfig, s: SmState, s1: SmState, log: Log)
    requires Steps(cfg, s, s1, log, [])
    ensures Logged(s1, log)
  {
    hide Logged;
    assert log + [] == log;
  }

  lemma {:induction false} VisitWarpsStep(cfg: SmConfig, s: SmState, b: nat, w: nat, active: set<nat>, log: Log)
    returns (fs: Log)
    requires SmInv.Inv(cfg, s) && Logged(s, log) && s.now < INT_MAX
    ensures Shaped(cfg, s)
    ensures var r := VisitWarps(cfg, s, b, w, active); r.Ok? && Steps(cfg, s, r.value.0, log, fs)
    decreases if w < cfg.warpLimit then cfg.warpLimit - w else 0
  {
    hide *;
    SmInv.InvIsShaped(cfg, s);
    SmInv.VisitWarpsEnd(cfg, s, b, w, active);
    if w < cfg.warpLimit && active != {} {
      var s1 := SmInv.AfterVisit(s, b, w);
      fs := VisitOneSteps(cfg, s, b, w, active, log);
      SmInv.VisitOneSettles(cfg, s, b, w, active);
      StillLoggedAfter(cfg, s, s1, log);
      var rest := VisitWarpsStep(cfg, s1, b, w + 1, active, log);
      if VisitWarps(cfg, s, b, w, active) == VisitWarps(cfg, s1, b, w + 1, active) {
        fs := rest;
        ThenSteps(cfg, s, s1, VisitWarps(cfg, s, b, w, active).value.0, log, fs);
      }
    } else {
      fs := [];
      GrewItself(s);
      StepsNothing(cfg, s, s, log);
    }
  }

  lemma VisitBlockStep(cfg: SmConfig, s: SmState, b: nat, active: set<nat>, log: Log) returns (fs: Log)
    requires SmInv.Inv(cfg, s) && Logged(s, log) && s.now < INT_MAX
    ensures Shaped(cfg, s)
    ensures var r := VisitBlock(cfg, s, b, active); r.Ok? && Steps(cfg, s, r.value.0, log, fs)
  {
    SmInv.InvIsShaped(cfg, s);
    hide SmInv.Inv, Logged, Steps, VisitWarps, Grew, Shaped;
    if b in s.blocks {
      fs := VisitWarpsStep(cfg, s, b, 0, active, log);
    } else {
      fs := [];
      GrewItself(s);
      StepsNothing(cfg, s, s, log);
    }
  }

  lemma {:induction false} VisitBlocksStep(cfg: SmConfig, s: SmState, b: nat, active: set<nat>, log: Log)
    returns (fs: Log)
    requires SmInv.Inv(cfg, s) && Logged(s, log) && s.now < INT_MAX
    ensures Shaped(cfg, s)
    ensures var r := VisitBlocks(cfg, s, b, active); r.Ok? && Steps(cfg, s, r.value, log, fs)
    decreases if b < |cfg.kernel| then |cfg.kernel| - b else 0
  {
    hide *;
    SmInv.InvIsShaped(cfg, s);
    SmInv.VisitBlocksUnfold(cfg, s, b, active);
    if b < |cfg.kernel| && active != {} {
      var p := VisitBlockStep(cfg, s, b, active, log);
      SmInv.VisitBlockSettles(cfg, s, b, active);
      var (s', active') := VisitBlock(cfg, s, b, active).value;
      StepsParts(cfg, s, s', log, p);
      var q := VisitBlocksStep(cfg, s', b + 1, active', log + p);
      fs := p + q;
      StepsTwice(cfg, s, s', VisitBlocks(cfg, s, b, active).value, log, p, q);
    } else {
      fs := [];
      GrewItself(s);
      StepsNothing(cfg, s, s, log);
    }
  }

  lemma CoreUnfold(cfg: SmConfig, s: SmState)
    requires Shaped(cfg, s)
    ensures Shaped(cfg, DeleteInactive(s)) && DeleteInactive(s).now == s.now
    ensures var r := UnitCycles(cfg, DeleteInactive(s), 0, {});
            r.Ok? ==>
              && Shaped(cfg, Dispatch(cfg, r.value))
              && CorePhase(cfg, s) == VisitBlocks(cfg, Dispatch(cfg, r.value), 0,
                                                  ActiveSubcores(cfg, Dispatch(cfg, r.value)))
  {
    hide UnitCycles, VisitBlocks, ActiveSubcores, Dispatch;
  }

  /** The core half of a cycle: what it queues goes on with the log. */
  lemma CoreSteps(cfg: SmConfig, s: SmState, log: Log) returns (fs: Log)
    requires SmInv.Inv(cfg, s) && Logged(s, log) && s.now < INT_MAX
    ensures Shaped(cfg, s)
    ensures var r := CorePhase(cfg, s); r.Ok? && Steps(cfg, s, r.value, log, fs)
  {
    hide *;
    SmInv.InvIsShaped(cfg, s);
    CoreUnfold(cfg, s);
    var s0 := DeleteInactive(s);
    DeleteSteps(cfg, s, log);
    StillLoggedAfter(cfg, s, s0, log);
    SmInv.DeleteInactiveSettles(cfg, s);
    var p := UnitsStep(cfg, s0, 0, {}, log);
    SmInv.UnitCyclesSettles(cfg, s0, 0, {});
    var s1 := UnitCycles(cfg, s0, 0, {}).value;
    StepsParts(cfg, s0, s1, log, p);
    DispatchSteps(cfg, s1, log + p);
    SmInv.DispatchSettles(cfg, s1);
    var s2 := Dispatch(cfg, s1);
    StillLoggedAfter(cfg, s1, s2, log + p);
    var q := VisitBlocksStep(cfg, s2, 0, ActiveSubcores(cfg, s2), log + p);
    var s3 := VisitBlocks(cfg, s2, 0, ActiveSubcores(cfg, s2)).value;
    ThenSteps(cfg, s1, s2, s3, log + p, q);
    StepsTwice(cfg, s0, s1, s3, log, p, q);
    fs := p + q;
    ThenSteps(cfg, s, s0, s3, log, fs);
  }

  // ---------------------------------------------------------------- cycles and runs

  lemma PtrIsPast(s: SmState, log: Log, s': SmState)
    requires Logged(s, log) && s'.blocks == s.blocks && s'.units == s.units && s'.ptr >= s.ptr && s'.now >= s.now
    ensures Logged(s', log)
  {
    hide Logged;
    FewerLogged(s, s', log);
  }

  /** The state between the memory half and the core half of a cycle. */
  function Midway(cfg: SmConfig, s: SmState, input: SmInput): SmState
    requires Shaped(cfg, s)
  {
    var r := MemoryPhase(cfg, Ticked(Arrived(s, input)), input);
    if r.Ok? then r.value else s
  }

  /** What a cycle does: replies first, and then the core half queues `fs`.  An inactive SM does nothing. */
  ghost predicate CycleQueues(cfg: SmConfig, s: SmState, input: SmInput, s': SmState, fs: Log)
    requires Shaped(cfg, s)
  {
    if IsActive(cfg, Arrived(s, input)) then
      && SmCompletion.Replied(Ticked(Arrived(s, input)), Midway(cfg, s, input))
      && Moves(cfg, Midway(cfg, s, input), s', fs)
    else s' == Arrived(s, input) && fs == []
  }

  lemma ActiveUnfold(cfg: SmConfig, s: SmState, input: SmInput)
    requires Shaped(cfg, s)
    ensures var r := MemoryPhase(cfg, s, input);
            r.Ok? ==> ActiveCycle(cfg, s, input) == CorePhase(cfg, r.value)
  {
    hide MemoryPhase, CorePhase;
  }

  lemma CycleLogged(cfg: SmConfig, s: SmState, input: SmInput, log: Log) returns (fs: Log)
    requires SmInv.Inv(cfg, s) && SmInv.InputOk(cfg, s, input) && Logged(s, log) && s.now + 1 < INT_MAX
    ensures Shaped(cfg, s)
    ensures var r := Cycle(cfg, s, input);
            r.Ok? && CycleQueues(cfg, s, input, r.value, fs) && Logged(r.value, log + fs)
  {
    SmInv.InvIsShaped(cfg, s);
    SmHits.CycleUnfold(cfg, s, input);
    ArrivedIsOk(cfg, s, input, log);
    hide SmInv.Inv, Logged, MemoryPhase, CorePhase, ActiveCycle, Cycle, Moves, Shaped, SmCompletion.Replied, IsActive;
    var s0 := Ticked(Arrived(s, input));
    if IsActive(cfg, Arrived(s, input)) {
      SmCompletion.MemoryReplies(cfg, s0, input);
      ActiveUnfold(cfg, s0, input);
      SmInv.MemoryPhaseSettles(cfg, s0, input);
      var mid := MemoryPhase(cfg, s0, input).value;
      RepliedLogged(s0, mid, log);
      fs := CoreSteps(cfg, mid, log);
      StepsParts(cfg, mid, CorePhase(cfg, mid).value, log, fs);
    } else {
      fs := [];
      assert log + [] == log;
    }
  }

  lemma ArrivedIsOk(cfg: SmConfig, s: SmState, input: SmInput, log: Log)
    requires SmInv.Inv(cfg, s) && SmInv.InputOk(cfg, s, input) && Logged(s, log)
    ensures Logged(Arrived(s, input), log)
    ensures var s0 := Ticked(Arrived(s, input)); SmInv.Inv(cfg, s0) && SmInv.ReplyOk(s0, input) && Logged(s0, log)
  {
    hide SmInv.Inv, Logged;
    SmInv.ArrivedSettles(cfg, s, input);
    SmInv.TickedSettles(cfg, Arrived(s, input), input);
    PtrIsPast(s, log, Arrived(s, input));
    PtrIsPast(s, log, Ticked(Arrived(s, input)));
  }

  /** The requests that a run has queued, one sequence for each cycle. */
  ghost predicate IsLog(cfg: SmConfig, s: SmState, inputs: seq<SmInput>, queued: seq<Log>)
    requires Shaped(cfg, s)
    decreases |inputs|
  {
    && |queued| == |inputs|
    && (inputs != [] ==>
          var r := Cycle(cfg, s, inputs[0]);
          && r.Ok? && CycleQueues(cfg, s, inputs[0], r.value, queued[0])
          && IsLog(cfg, r.value, inputs[1..], queued[1..]))
  }

  function Flat(queued: seq<Log>): Log { if queued == [] then [] else queued[0] + Flat(queued[1..]) }

  /** Over every run there is a log of what was queued in each cycle, and the state at the end agrees with
      it: every slot has requested the first so many of its targets, all of them unless a unit still works
      for it, and is complete if something was requested and nothing is owed. */
  lemma {:induction false} RunLogged(cfg: SmConfig, s: SmState, inputs: seq<SmInput>, log: Log)
    returns (queued: seq<Log>)
    requires SmInv.Inv(cfg, s) && SmInv.InputsOk(cfg, s, inputs) && Logged(s, log) && s.now + |inputs| < INT_MAX
    ensures IsLog(cfg, s, inputs, queued)
    ensures var r := SmInv.Run(cfg, s, inputs); r.Ok? && SmInv.Inv(cfg, r.value) && Logged(r.value, log + Flat(queued))
    decreases |inputs|
  {
    hide SmInv.Inv, Logged, Cycle, CycleQueues, Shaped, SmInv.InputOk;
    queued := [];
    if inputs != [] {
      var fs := CycleLogged(cfg, s, inputs[0], log);
      SmInv.CycleSettles(cfg, s, inputs[0]);
      var rest := RunLogged(cfg, Cycle(cfg, s, inputs[0]).value, inputs[1..], log + fs);
      queued := [fs] + rest;
      assert queued[1..] == rest && log + Flat(queued) == log + fs + Flat(rest);
    } else {
      assert log + [] == log;
    }
  }

  /** A fresh SM has requested nothing. */
  lemma StartLogged(cfg: SmConfig, units: seq<PipelineUnit>, lines: seq<TagStore.Line>, mine: set<nat>, ptr: nat)
    requires SmRuns.FreshSm(cfg, units, lines) && ptr <= |cfg.kernel| && forall b :: b in mine ==> b < ptr
    ensures Logged(SmRuns.Spawned(cfg, units, lines, mine, ptr), [])
  {
    var s := SmRuns.Spawned(cfg, units, lines, mine, ptr);
    forall b: nat, w: nat | Live(s, b, w) ensures WarpLogged(s.blocks[b][w], b, w, [], s.now) {
      FreshLogged(cfg.kernel[b][w], b, w, [], s.now);
    }
  }

  // ---------------------------------------------------------------- what it means

  /** Whatever a warp has issued: its requests so far are the first of its coalesced list, in order and of
      the right type, and all of them once no unit works for it any more. */
  lemma InstructionRequests(s: SmState, log: Log, t: Ticket)
    requires Logged(s, log) && Live(s, t.block, t.warp) && t.ci < |s.blocks[t.block][t.warp].completions|
    ensures t.ci < |s.blocks[t.block][t.warp].insts|
    ensures var x, sent := s.blocks[t.block][t.warp], Of(log, t);
            && |sent| <= |Due(x, t.ci)|
            && (forall i :: 0 <= i < |sent| ==> Right(x, t, sent[i], Due(x, t.ci)[i]))
            && (!HeldSomewhere(s.units, t) ==> |sent| == |Due(x, t.ci)|)
            && (forall u :: 0 <= u < |s.units| && Holds(s.units[u], t) ==> s.units[u].held.value.point == |sent|)
  {
    hide SmTiming.Latency, Due, Right;
    assert WarpLogged(s.blocks[t.block][t.warp], t.block, t.warp, log, s.now);
    assert Slot(s.blocks[t.block][t.warp], t, log, s.now);
    if |Of(log, t)| < |Due(s.blocks[t.block][t.warp], t.ci)| { assert Open(s, log, t); }
    forall u | 0 <= u < |s.units| && Holds(s.units[u], t) ensures s.units[u].held.value.point == |Of(log, t)| {
      assert UnitLogged(s, s.units[u].held.value, log);
    }
  }

  /** Is the slot complete: its known latency is over, or something was requested and nothing is owed? */
  ghost predicate Settled(x: Warp, t: Ticket, log: Log, now: int)
    requires t.ci < |x.completions| && t.ci < |x.insts|
  {
    if SmTiming.Latency(x, t.ci).Some? then x.completions[t.ci] <= now else Of(log, t) != [] && x.Pending(t.ci) == 0
  }

  /** A load, store or atomic that has requested something and is owed nothing is complete. */
  lemma AnsweredIsComplete(s: SmState, log: Log, t: Ticket)
    requires Logged(s, log) && Live(s, t.block, t.warp)
    requires var x := s.blocks[t.block][t.warp];
             t.ci < |x.completions| && t.ci < |x.insts| && Settled(x, t, log, s.now)
    ensures s.blocks[t.block][t.warp].completions[t.ci] <= s.now
  {
    hide SmTiming.Latency, Due, SlotSent;
    assert WarpLogged(s.blocks[t.block][t.warp], t.block, t.warp, log, s.now);
    assert Slot(s.blocks[t.block][t.warp], t, log, s.now);
  }

  /** So an instruction all of whose dependencies are settled passes check_dependency. */
  lemma DependantIsFree(s: SmState, log: Log, b: nat, w: nat)
    requires Logged(s, log) && Live(s, b, w) && s.blocks[b][w].point < |s.blocks[b][w].insts|
    requires var x := s.blocks[b][w];
             forall k :: 0 <= k < |x.insts[x.point].deps| ==>
               var d := x.insts[x.point].deps[k];
               0 <= d < |x.completions| && d < |x.insts| && Settled(x, Ticket(b, w, d), log, s.now)
    ensures var x := s.blocks[b][w];
            DepsReady(x.completions, x.insts[x.point].deps, |x.insts[x.point].deps|, s.now) == Ok(true)
  {
    var x := s.blocks[b][w];
    var deps := x.insts[x.point].deps;
    forall k | 0 <= k < |deps| ensures x.completions[deps[k]] <= s.now {
      AnsweredIsComplete(s, log, Ticket(b, w, deps[k]));
    }
    SmInv.DepsInBounds(x.completions, deps, |deps|, s.now);
  }

  /** An instruction of unknown latency without anything to request can only be an atomic with an empty
      record.  Nothing ever completes it, so no instruction that depends on it passes check_dependency. */
  lemma EmptyAtomicBlocks(s: SmState, log: Log, b: nat, w: nat, k: nat)
    requires Logged(s, log) && Live(s, b, w) && s.blocks[b][w].point < |s.blocks[b][w].insts| && s.now < INT_MAX
    requires var x := s.blocks[b][w];
             && k < |x.insts[x.point].deps|
             && (forall j :: 0 <= j < |x.insts[x.point].deps| ==> 0 <= x.insts[x.point].deps[j] < |x.completions|)
             && x.insts[x.point].deps[k] < |x.insts|
             && SmTiming.Latency(x, x.insts[x.point].deps[k]).None? && Due(x, x.insts[x.point].deps[k]) == []
    ensures var x := s.blocks[b][w];
            && x.completions[x.insts[x.point].deps[k]] == INT_MAX
            && x.insts[x.insts[x.point].deps[k]].kind.AtomicAccess?
            && DepsReady(x.completions, x.insts[x.point].deps, |x.insts[x.point].deps|, s.now) == Ok(false)
  {
    var x := s.blocks[b][w];
    var deps := x.insts[x.point].deps;
    var t := Ticket(b, w, deps[k]);
    assert WarpLogged(x, b, w, log, s.now);
    assert Slot(x, t, log, s.now);
    SmInv.DepsInBounds(x.completions, deps, |deps|, s.now);
  }

  /** What a cycle of an active SM does to a completion time: when the last request of the slot came back
      in this cycle, it is this cycle, and otherwise it stays. */
  lemma CycleCompletes(cfg: SmConfig, s: SmState, input: SmInput, s': SmState, fs: Log, b: nat, w: nat, ci: nat)
    requires Shaped(cfg, s) && IsActive(cfg, Arrived(s, input)) && CycleQueues(cfg, s, input, s', fs)
    requires Live(s, b, w) && Live(s', b, w) && b < input.ptr && ci < |s.blocks[b][w].completions|
    ensures Live(Midway(cfg, s, input), b, w) && ci < |s'.blocks[b][w].completions|
    ensures var x, m, x' := s.blocks[b][w], Midway(cfg, s, input).blocks[b][w], s'.blocks[b][w];
            && 0 <= m.Pending(ci) <= x.Pending(ci) && m.Pending(ci) <= x'.Pending(ci)
            && x'.completions[ci] == (if x.Pending(ci) > 0 && m.Pending(ci) == 0 then s'.now else x.completions[ci])
            && (x.Pending(ci) > 0 && x'.Pending(ci) == 0 ==> x'.completions[ci] == s'.now)
  {
    hide MemoryPhase, Adds;
    var s0, mid := Ticked(Arrived(s, input)), Midway(cfg, s, input);
    assert Live(s0, b, w) && Live(mid, b, w);
    assert SmCompletion.WarpStep(s0.blocks[b][w], mid.blocks[b][w], s0.now);
    assert SmCompletion.SlotStep(s0.blocks[b][w], mid.blocks[b][w], ci, s0.now);
    assert WarpGrew(mid.blocks[b][w], s'.blocks[b][w]);
  }
}
