/** Which instructions issue in a cycle, without the loops of the scheduler: in the order of the blocks,
    each block issues the next instruction of its first warp that may, in the first free subcore. */
module SmSchedule {
  import opened Wrappers
  import opened Warps
  import opened Sm
  import opened SmInv
  import SmIssue
  import SmLog

  /** Is the unit for class c of subcore sub free in this cycle? */
  predicate IsFree(cfg: SmConfig, s: SmState, sub: nat, c: nat) {
    && sub < |cfg.unitOf| && c < |cfg.unitOf[sub]| && cfg.unitOf[sub][c] < |s.units|
    && s.units[cfg.unitOf[sub][c]].ready <= s.now
  }

  /** Are all dependencies of the next instruction complete? */
  predicate DepsDone(x: Warp, now: int) {
    x.point < |x.insts| && forall k :: 0 <= k < |x.insts[x.point].deps| ==>
      var d := x.insts[x.point].deps[k]; 0 <= d < |x.completions| && x.completions[d] <= now
  }

  /** Has warp w of block b an instruction that can issue in one of the subcores in `active`? */
  ghost predicate Eligible(cfg: SmConfig, s: SmState, b: nat, w: nat, active: set<nat>) {
    && Live(s, b, w)
    && var x := s.blocks[b][w];
       DepsDone(x, s.now) && exists sub :: sub in active && IsFree(cfg, s, sub, x.insts[x.point].unitClass)
  }

  /** The least of the subcores in `active` whose unit is free. */
  ghost predicate IsFirstFree(cfg: SmConfig, s: SmState, active: set<nat>, c: nat, sub: nat) {
    sub in active && IsFree(cfg, s, sub, c) && forall k: nat :: k in active && k < sub ==> !IsFree(cfg, s, k, c)
  }

  /** Block b without those of its warps below n that retire. */
  function Removed(s: SmState, b: nat, n: nat): SmState
    requires b in s.blocks
  {
    var kept: WarpMap := map w | w in s.blocks[b] && !(w < n && s.blocks[b][w].Retires()) :: s.blocks[b][w];
    s.(blocks := s.blocks[b := kept])
  }

  /** Warp w of block b issues in subcore sub, once the warps before it that retire are gone. */
  ghost predicate IssuesIn(cfg: SmConfig, s: SmState, b: nat, w: nat, active: set<nat>, s': SmState,
                           active': set<nat>, sub: nat)
    requires b in s.blocks && Eligible(cfg, s, b, w, active)
  {
    var c := s.blocks[b][w].insts[s.blocks[b][w].point].unitClass;
    && IsFirstFree(cfg, s, active, c, sub) && active' == active - {sub}
    && exists fs :: SmIssue.Issued(cfg, Removed(s, b, w), b, w, cfg.unitOf[sub][c], s', fs)
  }

  /** What the visit of block b does, if the SM holds it and a subcore is left: its first warp that may
      issue does; if there is none, all its warps that retire are removed. */
  ghost predicate Visited(cfg: SmConfig, s: SmState, b: nat, active: set<nat>, s': SmState, active': set<nat>) {
    if b !in s.blocks || active == {} then s' == s && active' == active
    else if forall w: nat :: !Eligible(cfg, s, b, w, active) then
      s' == Removed(s, b, cfg.warpLimit) && active' == active
    else
      exists w: nat, sub: nat ::
        Eligible(cfg, s, b, w, active) && (forall v: nat :: v < w ==> !Eligible(cfg, s, b, v, active))
        && IssuesIn(cfg, s, b, w, active, s', active', sub)
  }

  // ---------------------------------------------------------------- the subcores

  /** The search finds the first active subcore whose unit is free, and fails only if there is none. */
  lemma {:induction false} PickIs(cfg: SmConfig, s: SmState, active: set<nat>, c: nat, sub: nat)
    requires Shaped(cfg, s) && sub <= SUBCORES
    ensures var r := PickSubcore(cfg, s, active, c, sub);
            && (r.Some? <==> exists k :: sub <= k < SUBCORES && k in active && IsFree(cfg, s, k, c))
            && (r.Some? ==> sub <= r.value < SUBCORES && r.value in active && IsFree(cfg, s, r.value, c)
                            && forall k :: sub <= k < r.value && k in active ==> !IsFree(cfg, s, k, c))
    decreases SUBCORES - sub
  {
    if sub < SUBCORES {
      assert UnitReady(cfg, s, sub, c) <==> IsFree(cfg, s, sub, c);
      PickIs(cfg, s, active, c, sub + 1);
    }
  }

  lemma PickIsFirst(cfg: SmConfig, s: SmState, active: set<nat>, c: nat)
    requires Shaped(cfg, s)
    ensures var r := PickSubcore(cfg, s, active, c, 0);
            && (r.Some? <==> exists k :: k in active && IsFree(cfg, s, k, c))
            && (r.Some? ==> IsFirstFree(cfg, s, active, c, r.value))
  {
    PickIs(cfg, s, active, c, 0);
    hide PickSubcore;
    assert forall k: nat :: IsFree(cfg, s, k, c) ==> k < SUBCORES;
  }

  /** A subcore takes part in a pass if and only if one of its units is free. */
  lemma ActiveIs(cfg: SmConfig, s: SmState, sub: nat)
    requires Shaped(cfg, s)
    ensures sub in ActiveSubcores(cfg, s) <==> exists c :: IsFree(cfg, s, sub, c)
  {
    assert sub < SUBCORES ==>
        forall c: nat :: c < |cfg.unitOf[sub]| ==> (UnitReady(cfg, s, sub, c) <==> IsFree(cfg, s, sub, c));
  }

  // ---------------------------------------------------------------- one block

  lemma RemovedLive(s: SmState, b: nat, n: nat)
    requires b in s.blocks
    ensures forall v: nat :: v >= n ==> (Live(Removed(s, b, n), b, v) <==> Live(s, b, v))
    ensures forall v: nat :: v >= n && Live(s, b, v) ==> Removed(s, b, n).blocks[b][v] == s.blocks[b][v]
  {
  }

  /** What the visit of the next warp leaves behind when it issues nothing. */
  lemma RemovedNext(s: SmState, b: nat, w: nat)
    requires b in s.blocks
    ensures AfterVisit(Removed(s, b, w), b, w) == Removed(s, b, w + 1)
  {
    var l, r := AfterVisit(Removed(s, b, w), b, w), Removed(s, b, w + 1);
    assert l.blocks[b] == r.blocks[b];
    assert l.blocks == r.blocks;
  }

  lemma RemovedNone(s: SmState, b: nat)
    requires b in s.blocks
    ensures Removed(s, b, 0) == s
  {
    assert Removed(s, b, 0).blocks[b] == s.blocks[b];
    assert Removed(s, b, 0).blocks == s.blocks;
  }

  /** The scheduler's tests are the ones stated here. */
  lemma MayIssueIff(cfg: SmConfig, s: SmState, b: nat, w: nat, active: set<nat>)
    requires Inv(cfg, s) && Live(s, b, w) && s.blocks[b][w].point < |s.blocks[b][w].insts|
    ensures Shaped(cfg, s) && (MayIssue(cfg, s, b, w, active) <==> Eligible(cfg, s, b, w, active))
  {
    var x := s.blocks[b][w];
    RecordOk(cfg, s, b, w);
    DepsInBounds(x.completions, x.insts[x.point].deps, |x.insts[x.point].deps|, s.now);
    PickIsFirst(cfg, s, active, x.insts[x.point].unitClass);
  }

  lemma EligibleIsLive(cfg: SmConfig, s: SmState, b: nat, w: nat, active: set<nat>)
    requires Eligible(cfg, s, b, w, active)
    ensures Live(s, b, w) && s.blocks[b][w].point < |s.blocks[b][w].insts| && !s.blocks[b][w].Retires()
  {
  }

  /** Removing retired warps changes nothing for the others. */
  lemma SameEligible(cfg: SmConfig, s: SmState, b: nat, w: nat, active: set<nat>)
    requires b in s.blocks
    ensures Eligible(cfg, Removed(s, b, w), b, w, active) <==> Eligible(cfg, s, b, w, active)
  {
    RemovedLive(s, b, w);
    var r := Removed(s, b, w);
    assert forall sub, c :: IsFree(cfg, r, sub, c) <==> IsFree(cfg, s, sub, c);
  }

  lemma VisitUnfold(cfg: SmConfig, s: SmState, b: nat, w: nat, active: set<nat>)
    requires Shaped(cfg, s) && w < cfg.warpLimit && active != {} && Live(s, b, w)
    requires s.blocks[b][w].point < |s.blocks[b][w].insts| && !s.blocks[b][w].Retires()
    requires MayIssue(cfg, s, b, w, active)
    ensures var c := s.blocks[b][w].insts[s.blocks[b][w].point].unitClass;
            var sub := PickSubcore(cfg, s, active, c, 0).value;
            && sub < |cfg.unitOf| && c < |cfg.unitOf[sub]| && cfg.unitOf[sub][c] < |s.units|
            && var r := Issue(cfg, s, b, w, cfg.unitOf[sub][c]);
               r.Ok? ==> VisitWarps(cfg, s, b, w, active) == Ok((r.value, active - {sub}))
  {
  }

  /** A warp that may issue does, in the first free subcore. */
  lemma EligibleIssues(cfg: SmConfig, s: SmState, b: nat, w: nat, active: set<nat>) returns (sub: nat)
    requires Inv(cfg, s) && s.now < INT_MAX && w < cfg.warpLimit && active != {} && Eligible(cfg, s, b, w, active)
    ensures Shaped(cfg, s) && Live(s, b, w)
    ensures var c, r := s.blocks[b][w].insts[s.blocks[b][w].point].unitClass, VisitWarps(cfg, s, b, w, active);
            && r.Ok? && r.value.1 == active - {sub} && IsFirstFree(cfg, s, active, c, sub)
            && exists fs :: SmIssue.Issued(cfg, s, b, w, cfg.unitOf[sub][c], r.value.0, fs)
  {
    EligibleIsLive(cfg, s, b, w, active);
    MayIssueIff(cfg, s, b, w, active);
    hide Inv, Shaped, VisitWarps, Issue, Eligible, PickSubcore, SmIssue.Issued, DepsReady;
    var c := s.blocks[b][w].insts[s.blocks[b][w].point].unitClass;
    PickIsFirst(cfg, s, active, c);
    VisitUnfold(cfg, s, b, w, active);
    sub := PickSubcore(cfg, s, active, c, 0).value;
    var fs := SmIssue.IssueIs(cfg, s, b, w, cfg.unitOf[sub][c]);
    assert SmIssue.Issued(cfg, s, b, w, cfg.unitOf[sub][c], Issue(cfg, s, b, w, cfg.unitOf[sub][c]).value, fs);
  }

  lemma OthersPass(cfg: SmConfig, s: SmState, b: nat, w: nat, active: set<nat>)
    requires Inv(cfg, s) && s.now < INT_MAX && w < cfg.warpLimit && active != {} && !Eligible(cfg, s, b, w, active)
    ensures Shaped(cfg, s) && Inv(cfg, AfterVisit(s, b, w)) && Shaped(cfg, AfterVisit(s, b, w))
    ensures AfterVisit(s, b, w).now == s.now
    ensures VisitWarps(cfg, s, b, w, active) == VisitWarps(cfg, AfterVisit(s, b, w), b, w + 1, active)
  {
    hide Inv, Eligible, MayIssue;
    InvIsShaped(cfg, s);
    VisitOneSettles(cfg, s, b, w, active);
    if Live(s, b, w) && !s.blocks[b][w].Retires() && s.blocks[b][w].point < |s.blocks[b][w].insts| {
      MayIssueIff(cfg, s, b, w, active);
      VisitIssueSettles(cfg, s, b, w, active);
    }
  }

  lemma NoneFrom(cfg: SmConfig, s: SmState, b: nat, w: nat)
    requires Inv(cfg, s) && w >= cfg.warpLimit
    ensures !Live(s, b, w)
  {
  }

  /** The warps of one block from w on, when those before it have been visited in vain. */
  lemma {:induction false} WarpsVisited(cfg: SmConfig, s0: SmState, b: nat, w: nat, active: set<nat>)
    requires b in s0.blocks && active != {} && w <= cfg.warpLimit && s0.now < INT_MAX
    requires Inv(cfg, s0) && Inv(cfg, Removed(s0, b, w)) && forall v: nat :: v < w ==> !Eligible(cfg, s0, b, v, active)
    ensures Shaped(cfg, Removed(s0, b, w))
    ensures var r := VisitWarps(cfg, Removed(s0, b, w), b, w, active);
            r.Ok? && Visited(cfg, s0, b, active, r.value.0, r.value.1)
    decreases cfg.warpLimit - w
  {
    hide Inv, Shaped, VisitWarps, Eligible, IssuesIn, Removed;
    var s := Removed(s0, b, w);
    InvIsShaped(cfg, s);
    SameClock(s0, b, w);
    SameEligible(cfg, s0, b, w, active);
    if w == cfg.warpLimit {
      VisitWarpsEnd(cfg, s, b, w, active);
      forall v: nat ensures !Eligible(cfg, s0, b, v, active) {
        if v >= cfg.warpLimit && Eligible(cfg, s0, b, v, active) {
          EligibleIsLive(cfg, s0, b, v, active);
          NoneFrom(cfg, s0, b, v);
        }
      }
    } else if Eligible(cfg, s0, b, w, active) {
      EligibleIsLive(cfg, s, b, w, active);
      var sub := EligibleIssues(cfg, s, b, w, active);
      var r := VisitWarps(cfg, s, b, w, active).value;
      FirstIssues(cfg, s0, b, w, active, r.0, sub);
    } else {
      OthersPass(cfg, s, b, w, active);
      RemovedNext(s0, b, w);
      WarpsVisited(cfg, s0, b, w + 1, active);
    }
  }

  lemma SameClock(s0: SmState, b: nat, w: nat)
    requires b in s0.blocks
    ensures Removed(s0, b, w).now == s0.now
  {
  }

  lemma FirstIssues(cfg: SmConfig, s0: SmState, b: nat, w: nat, active: set<nat>, s': SmState, sub: nat)
    requires b in s0.blocks && Eligible(cfg, s0, b, w, active) && Live(Removed(s0, b, w), b, w)
    requires var s := Removed(s0, b, w);
             && s.blocks[b][w].point < |s.blocks[b][w].insts|
             && var c := s.blocks[b][w].insts[s.blocks[b][w].point].unitClass;
                && IsFirstFree(cfg, s, active, c, sub)
                && exists fs :: SmIssue.Issued(cfg, s, b, w, cfg.unitOf[sub][c], s', fs)
    ensures IssuesIn(cfg, s0, b, w, active, s', active - {sub}, sub)
  {
    RemovedLive(s0, b, w);
    var s := Removed(s0, b, w);
    assert forall k: nat, c: nat :: IsFree(cfg, s, k, c) <==> IsFree(cfg, s0, k, c);
  }

  lemma BlockVisited(cfg: SmConfig, s: SmState, b: nat, active: set<nat>)
    requires Inv(cfg, s) && s.now < INT_MAX
    ensures Shaped(cfg, s)
    ensures var r := VisitBlock(cfg, s, b, active); r.Ok? && Visited(cfg, s, b, active, r.value.0, r.value.1)
  {
    hide Inv, Shaped, VisitWarps, Visited;
    InvIsShaped(cfg, s);
    NothingVisited(cfg, s, b, active);
    VisitWarpsEnd(cfg, s, b, 0, active);
    if b in s.blocks && active != {} {
      RemovedNone(s, b);
      WarpsVisited(cfg, s, b, 0, active);
    }
  }

  lemma NothingVisited(cfg: SmConfig, s: SmState, b: nat, active: set<nat>)
    ensures b !in s.blocks || active == {} ==> Visited(cfg, s, b, active, s, active)
  {
  }

  // ---------------------------------------------------------------- the pass over all blocks

  ghost predicate VisitedAt(cfg: SmConfig, from: nat, states: seq<SmState>, actives: seq<set<nat>>, i: nat)
    requires i + 1 < |states| == |actives|
  {
    Visited(cfg, states[i], from + i, actives[i], states[i + 1], actives[i + 1])
  }

  /** A pass over the blocks of the kernel from `from` on: the states between the visits, and the subcores
      that are left. */
  ghost predicate Pass(cfg: SmConfig, from: nat, states: seq<SmState>, actives: seq<set<nat>>) {
    && |states| == |actives| == (if from < |cfg.kernel| then |cfg.kernel| - from else 0) + 1
    && forall i :: 0 <= i < |states| - 1 ==> VisitedAt(cfg, from, states, actives, i)
  }

  lemma PassOneMore(cfg: SmConfig, from: nat, s: SmState, active: set<nat>, states: seq<SmState>,
                    actives: seq<set<nat>>)
    requires from < |cfg.kernel| && Pass(cfg, from + 1, states, actives)
    requires Visited(cfg, s, from, active, states[0], actives[0])
    ensures Pass(cfg, from, [s] + states, [active] + actives)
  {
    hide Visited;
    var all, sets := [s] + states, [active] + actives;
    forall i | 0 <= i < |all| - 1 ensures VisitedAt(cfg, from, all, sets, i) {
      if i > 0 { assert VisitedAt(cfg, from + 1, states, actives, i - 1); }
    }
  }

  /** schedule_warps_in_subcores is such a pass: every block of the SM is visited, in order, with the
      subcores that the blocks before it have left. */
  lemma {:induction false} ScheduleIs(cfg: SmConfig, s: SmState, b: nat, active: set<nat>)
    returns (states: seq<SmState>, actives: seq<set<nat>>)
    requires Inv(cfg, s) && s.now < INT_MAX
    ensures Shaped(cfg, s) && Pass(cfg, b, states, actives) && states[0] == s && actives[0] == active
    ensures VisitBlocks(cfg, s, b, active) == Ok(states[|states| - 1])
    decreases if b < |cfg.kernel| then |cfg.kernel| - b else 0
  {
    hide Inv, Shaped, VisitBlock, VisitBlocks, Visited;
    InvIsShaped(cfg, s);
    VisitBlocksUnfold(cfg, s, b, active);
    if b >= |cfg.kernel| {
      states, actives := [s], [active];
    } else {
      BlockVisited(cfg, s, b, active);
      VisitBlockSettles(cfg, s, b, active);
      var (s', active') := VisitBlock(cfg, s, b, active).value;
      var rest, sets := ScheduleIs(cfg, s', b + 1, active');
      PassOneMore(cfg, b, s, active, rest, sets);
      states, actives := [s] + rest, [active] + sets;
      if active == {} { NothingLeft(cfg, s, b, s', active'); }
    }
  }

  /** Without a subcore the rest of the pass does nothing. */
  lemma NothingLeft(cfg: SmConfig, s: SmState, b: nat, s': SmState, active': set<nat>)
    requires Shaped(cfg, s) && Visited(cfg, s, b, {}, s', active')
    ensures s' == s && active' == {}
    ensures VisitBlocks(cfg, s, b + 1, {}) == Ok(s)
  {
  }

  // ---------------------------------------------------------------- no subcore is left idle

  /** A unit that is free after an issue was free before it. */
  lemma IssueTakes(x: Warp, b: nat, w: nat, i: nat, unit: PipelineUnit, now: int)
    requires i < |x.insts| && now < INT_MAX && SmIssue.UnitAfter(x, b, w, i, unit).ready <= now
    ensures unit.ready <= now
  {
  }

  lemma IssuedOthers(cfg: SmConfig, s: SmState, c: nat, v: nat, u: nat, s': SmState, fs: SmLog.Log, b: nat, w: nat,
                     active: set<nat>)
    requires SmIssue.Issued(cfg, s, c, v, u, s', fs) && b != c && s.now < INT_MAX && Eligible(cfg, s', b, w, active)
    ensures Eligible(cfg, s, b, w, active)
  {
    hide SmIssue.UnitAfter, SmIssue.WarpIssued, SmIssue.QueuedAtOnce, SmLog.Adds;
    PutWarpLive(s, c, v, s'.blocks[c][v]);
    var x := s.blocks[c][v];
    var k :| k in active && IsFree(cfg, s', k, s'.blocks[b][w].insts[s'.blocks[b][w].point].unitClass);
    if s'.units[u].ready <= s.now { IssueTakes(x, c, v, |x.completions|, s.units[u], s.now); }
    assert IsFree(cfg, s, k, s.blocks[b][w].insts[s.blocks[b][w].point].unitClass);
  }

  lemma RemovedOthers(cfg: SmConfig, s: SmState, c: nat, n: nat, b: nat, w: nat, active: set<nat>)
    requires c in s.blocks && b != c && Eligible(cfg, Removed(s, c, n), b, w, active)
    ensures Eligible(cfg, s, b, w, active)
  {
    var r := Removed(s, c, n);
    assert Live(s, b, w) && r.blocks[b] == s.blocks[b];
    assert forall k: nat, d: nat :: IsFree(cfg, r, k, d) <==> IsFree(cfg, s, k, d);
  }

  lemma FewerSubcores(cfg: SmConfig, s: SmState, b: nat, w: nat, active: set<nat>, active': set<nat>)
    requires active' <= active && Eligible(cfg, s, b, w, active')
    ensures Eligible(cfg, s, b, w, active)
  {
  }

  /** The visit of another block makes no warp eligible. */
  lemma VisitedOthers(cfg: SmConfig, s: SmState, c: nat, active: set<nat>, s': SmState, active': set<nat>, b: nat,
                      w: nat)
    requires Visited(cfg, s, c, active, s', active') && c != b && s.now < INT_MAX && Eligible(cfg, s', b, w, active')
    ensures Eligible(cfg, s, b, w, active) && s'.now == s.now
  {
    hide Eligible, Removed, SmIssue.Issued, IsFirstFree;
    if c !in s.blocks || active == {} {
    } else if forall v: nat :: !Eligible(cfg, s, c, v, active) {
      RemovedOthers(cfg, s, c, cfg.warpLimit, b, w, active);
      SameClock(s, c, cfg.warpLimit);
    } else {
      var v: nat, sub: nat :| Eligible(cfg, s, c, v, active) && IssuesIn(cfg, s, c, v, active, s', active', sub);
      IssuesOthers(cfg, s, c, v, active, s', active', sub, b, w);
    }
  }

  lemma IssuesOthers(cfg: SmConfig, s: SmState, c: nat, v: nat, active: set<nat>, s': SmState, active': set<nat>,
                     sub: nat, b: nat, w: nat)
    requires c in s.blocks && Eligible(cfg, s, c, v, active) && IssuesIn(cfg, s, c, v, active, s', active', sub)
    requires c != b && s.now < INT_MAX && Eligible(cfg, s', b, w, active')
    ensures Eligible(cfg, s, b, w, active) && s'.now == s.now
  {
    EligibleIsLive(cfg, s, c, v, active);
    hide Eligible, Removed, IsFirstFree;
    var d := s.blocks[c][v].insts[s.blocks[c][v].point].unitClass;
    var fs :| SmIssue.Issued(cfg, Removed(s, c, v), c, v, cfg.unitOf[sub][d], s', fs);
    SameClock(s, c, v);
    IssuedOthers(cfg, Removed(s, c, v), c, v, cfg.unitOf[sub][d], s', fs, b, w, active');
    RemovedOthers(cfg, s, c, v, b, w, active');
    FewerSubcores(cfg, s, b, w, active, active');
  }

  lemma PassClock(cfg: SmConfig, from: nat, states: seq<SmState>, actives: seq<set<nat>>, i: nat)
    requires Pass(cfg, from, states, actives) && i + 1 < |states|
    ensures states[i + 1].now == states[i].now
  {
    assert VisitedAt(cfg, from, states, actives, i);
    var s, c, active := states[i], from + i, actives[i];
    if c in s.blocks && active != {} && exists v: nat :: Eligible(cfg, s, c, v, active) {
      var v: nat, sub: nat :| Eligible(cfg, s, c, v, active)
                              && IssuesIn(cfg, s, c, v, active, states[i + 1], actives[i + 1], sub);
    }
  }

  lemma {:induction false} EligibleBefore(cfg: SmConfig, from: nat, states: seq<SmState>, actives: seq<set<nat>>,
                                          i: nat, j: nat, b: nat, w: nat)
    requires Pass(cfg, from, states, actives) && i <= j < |states| && (from + i > b || j == i)
    requires states[j].now < INT_MAX && Eligible(cfg, states[j], b, w, actives[j])
    ensures states[i].now == states[j].now && Eligible(cfg, states[i], b, w, actives[i])
    decreases j - i
  {
    if i < j {
      hide Eligible, Visited;
      PassClock(cfg, from, states, actives, j - 1);
      assert VisitedAt(cfg, from, states, actives, j - 1);
      VisitedOthers(cfg, states[j - 1], from + j - 1, actives[j - 1], states[j], actives[j], b, w);
      EligibleBefore(cfg, from, states, actives, i, j - 1, b, w);
    }
  }

  /** Some warp of block b issues in its visit. */
  ghost predicate HasIssued(cfg: SmConfig, s: SmState, b: nat, active: set<nat>, s': SmState, active': set<nat>) {
    && b in s.blocks
    && exists v: nat, sub: nat ::
         Eligible(cfg, s, b, v, active) && IssuesIn(cfg, s, b, v, active, s', active', sub)
  }

  /** No subcore is left idle: a block that, after the pass, still has a warp that could issue in a subcore
      that is left, has issued an instruction in this pass. */
  lemma LeftOverHasIssued(cfg: SmConfig, from: nat, states: seq<SmState>, actives: seq<set<nat>>, b: nat, w: nat)
    requires Pass(cfg, from, states, actives) && from <= b < |cfg.kernel| && states[|states| - 1].now < INT_MAX
    requires Eligible(cfg, states[|states| - 1], b, w, actives[|states| - 1])
    ensures b - from + 1 < |states|
    ensures HasIssued(cfg, states[b - from], b, actives[b - from], states[b - from + 1], actives[b - from + 1])
  {
    var i := b - from;
    EligibleBefore(cfg, from, states, actives, i + 1, |states| - 1, b, w);
    assert VisitedAt(cfg, from, states, actives, i);
    hide IssuesIn, Removed;
    var s, s' := states[i], states[i + 1];
    if b !in s.blocks || actives[i] == {} {
      assert false;
    } else if forall v: nat :: !Eligible(cfg, s, b, v, actives[i]) {
      StillEligible(cfg, s, b, cfg.warpLimit, w, actives[i]);
      assert false;
    }
  }

  lemma StillEligible(cfg: SmConfig, s: SmState, b: nat, n: nat, w: nat, active: set<nat>)
    requires b in s.blocks && Eligible(cfg, Removed(s, b, n), b, w, active)
    ensures Eligible(cfg, s, b, w, active)
  {
    var r := Removed(s, b, n);
    assert Live(s, b, w) && r.blocks[b][w] == s.blocks[b][w];
    assert forall k: nat, d: nat :: IsFree(cfg, r, k, d) <==> IsFree(cfg, s, k, d);
  }
}
