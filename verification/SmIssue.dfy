/** issue_inst and process, as a whole: the slot and the completion time that an instruction gets, what it
    does to its unit, and the requests that an atomic queues. */
module SmIssue {
  import opened Wrappers
  import opened CacheConfig
  import opened MemFetch
  import opened Warps
  import opened Sm
  import opened Ledger
  import opened SmLog
  import SmInv
  import SmTiming

  // ---------------------------------------------------------------- issue

  /** Does instruction i go through a load/store unit request by request? */
  predicate ByUnit(x: Warp, i: nat)
    requires i < |x.insts|
  {
    Due(x, i) != [] && !x.insts[i].kind.AtomicAccess?
  }

  /** The unit after instruction i of warp w has issued on it: it holds the record of a load or store with
      requests to make; otherwise it has spent 4 cycles on an atomic, or the cycles that its width needs
      for 32 threads. */
  function UnitAfter(x: Warp, b: nat, w: nat, i: nat, unit: PipelineUnit): PipelineUnit
    requires i < |x.insts|
  {
    if ByUnit(x, i) then unit.(ready := INT_MAX, held := Some(Held(b, w, Record(x, i).value, i, 0)))
    else if x.insts[i].isLds && x.insts[i].kind.AtomicAccess? then unit.(ready := unit.ready + 4)
    else unit.(ready := unit.ready + 32 / unit.width)
  }

  /** The completion time that instruction i gets when it issues. */
  function FirstTime(x: Warp, i: nat, now: int): int
    requires i < |x.insts|
  {
    if SmTiming.Latency(x, i).Some? then now + SmTiming.Latency(x, i).value else INT_MAX
  }

  /** The requests that issuing instruction i queues at once: all of an atomic, and none of any other. */
  ghost predicate QueuedAtOnce(x: Warp, t: Ticket, fs: Log)
    requires t.ci < |x.insts|
  {
    if x.insts[t.ci].isLds && x.insts[t.ci].kind.AtomicAccess? then
      |fs| == |Due(x, t.ci)| && forall i :: 0 <= i < |fs| ==> Right(x, t, fs[i], Due(x, t.ci)[i])
    else fs == []
  }

  /** The warp after its next instruction has issued. */
  ghost predicate WarpIssued(x: Warp, x': Warp, now: int, fs: Log)
    requires |x.completions| < |x.insts|
  {
    var i := |x.completions|;
    && x' == x.(point := x.point + 1, completions := x.completions + [FirstTime(x, i, now)], pending := x'.pending,
                pendingNum := x.pendingNum + |fs|, pendingInst := x.pendingInst + if ByUnit(x, i) then 1 else 0)
    && forall j: nat :: x'.Pending(j) == x.Pending(j) + (if j == i then |fs| else 0)
  }

  /** What issue_inst does on a free unit: one more slot for the warp, the unit is taken, the requests of
      an atomic are queued; nothing else changes. */
  ghost predicate Issued(cfg: SmConfig, s: SmState, b: nat, w: nat, u: nat, s': SmState, fs: Log) {
    && Live(s, b, w) && Live(s', b, w) && u < |s.units| && |s.blocks[b][w].completions| < |s.blocks[b][w].insts|
    && var x := s.blocks[b][w];
       var i := |x.completions|;
       && s' == Changed(s, b, w, s'.blocks[b][w], u, UnitAfter(x, b, w, i, s.units[u]))
                .(banks := s'.banks, nextId := s'.nextId)
       && WarpIssued(x, s'.blocks[b][w], s.now, fs)
       && QueuedAtOnce(x, Ticket(b, w, i), fs)
       && Adds(cfg, s, s', fs)
  }

  /** The result of process, before warp_point moves on. */
  ghost predicate Processed(cfg: SmConfig, s: SmState, b: nat, w: nat, u: nat, s1: SmState, fs: Log) {
    Live(s1, b, w) && Issued(cfg, s, b, w, u, AdvancePoint(s1, b, w), fs)
  }

  lemma AddsNothing(cfg: SmConfig, s: SmState, s': SmState)
    requires s'.banks == s.banks && s'.nextId == s.nextId
    ensures Adds(cfg, s, s', [])
  {
  }

  lemma FixedIssues(cfg: SmConfig, s: SmState, b: nat, w: nat, u: nat, latency: int)
    requires Live(s, b, w) && u < |s.units| && s.blocks[b][w].point == |s.blocks[b][w].completions|
    requires |s.blocks[b][w].completions| < |s.blocks[b][w].insts|
    requires SmTiming.Latency(s.blocks[b][w], |s.blocks[b][w].completions|) == Some(latency)
    requires var inst := s.blocks[b][w].insts[s.blocks[b][w].point]; !(inst.isLds && inst.kind.AtomicAccess?)
    ensures Processed(cfg, s, b, w, u, IssueFixed(s, b, w, u, latency), [])
  {
    hide SmTiming.Latency;
    var x := s.blocks[b][w];
    var s1 := IssueFixed(s, b, w, u, latency);
    SmInv.AdvanceChanged(s, b, w, Completing(x, s.now + latency), u, s.units[u].Occupied());
    AddsNothing(cfg, s, AdvancePoint(s1, b, w));
  }

  lemma GlobalIssues(cfg: SmConfig, s: SmState, b: nat, w: nat, u: nat, m: MemInst)
    requires Live(s, b, w) && u < |s.units| && s.blocks[b][w].point == |s.blocks[b][w].completions|
    requires |s.blocks[b][w].completions| < |s.blocks[b][w].insts|
    requires var x := s.blocks[b][w];
             && SmTiming.Latency(x, x.point).None? && Record(x, x.point) == Some(m) && m.coalesced != []
             && x.insts[x.point].kind.GlobalAccess?
    ensures Processed(cfg, s, b, w, u, IssueGlobal(s, b, w, u, m), [])
  {
    hide SmTiming.Latency, Record;
    var x := s.blocks[b][w];
    var s1 := IssueGlobal(s, b, w, u, m);
    SmInv.IssueGlobalIsChange(s, b, w, u, m);
    AddsNothing(cfg, s, AdvancePoint(s1, b, w));
  }

  /** A request of an atomic. */
  predicate IsAtomicRequest(f: Fetch, t: Ticket, target: (nat, nat)) {
    && One(f, t) == 1 && (f.addr, f.sector) == target && f.isWrite && f.isAtomic
    && f.writeType.Normal? && f.space.Global?
  }

  /** process_ATOM_ATOMG queues one written, atomic request for each sector of the record, in order. */
  ghost predicate Queued(cfg: SmConfig, s: SmState, t: Ticket, targets: seq<(nat, nat)>, s': SmState, fs: Log) {
    && Live(s, t.block, t.warp) && Live(s', t.block, t.warp)
    && s' == PutWarp(s, t.block, t.warp, s'.blocks[t.block][t.warp]).(banks := s'.banks, nextId := s'.nextId)
    && WarpQueued(s.blocks[t.block][t.warp], s'.blocks[t.block][t.warp], t.ci, |targets|)
    && Adds(cfg, s, s', fs)
    && |fs| == |targets| && forall i :: 0 <= i < |fs| ==> IsAtomicRequest(fs[i], t, targets[i])
  }

  /** A warp with n more requests owed to slot ci. */
  ghost predicate WarpQueued(x: Warp, x': Warp, ci: nat, n: nat) {
    && x' == x.(pending := x'.pending, pendingNum := x.pendingNum + n)
    && forall j: nat :: x'.Pending(j) == x.Pending(j) + (if j == ci then n else 0)
  }

  lemma OneQueued(cfg: SmConfig, s: SmState, t: Ticket, target: (nat, nat))
    requires Shaped(cfg, s) && Live(s, t.block, t.warp) && target.1 < SECTORS
    ensures var f := NewFetch(cfg, s.nextId, true, true, target, t.block, t.warp, t.ci);
            var s1 := Enqueue(PutWarp(s, t.block, t.warp, s.blocks[t.block][t.warp].Increase(t.ci)), target.1, f);
            Shaped(cfg, s1) && Queued(cfg, s, t, [target], s1, [f])
  {
    var f := NewFetch(cfg, s.nextId, true, true, target, t.block, t.warp, t.ci);
    assert [f][..0] == [];
    var s1 := Enqueue(PutWarp(s, t.block, t.warp, s.blocks[t.block][t.warp].Increase(t.ci)), target.1, f);
    forall k | 0 <= k < |s.banks| ensures s1.banks[k] == s.banks[k] + OnBank([f], k) { }
  }

  lemma QueuedTwice(cfg: SmConfig, s: SmState, t: Ticket, p: seq<(nat, nat)>, q: seq<(nat, nat)>, s1: SmState,
                    s2: SmState, fs: Log, gs: Log)
    requires Queued(cfg, s, t, p, s1, fs) && Queued(cfg, s1, t, q, s2, gs)
    ensures Queued(cfg, s, t, p + q, s2, fs + gs)
  {
    hide Adds;
    AddsTwice(cfg, s, s1, s2, fs, gs);
    assert s2.blocks[t.block] == s.blocks[t.block][t.warp := s2.blocks[t.block][t.warp]];
    assert s2.blocks == s.blocks[t.block := s2.blocks[t.block]];
  }

  lemma QueuedNothing(cfg: SmConfig, s: SmState, t: Ticket)
    requires Live(s, t.block, t.warp)
    ensures Queued(cfg, s, t, [], s, [])
  {
    assert s.blocks[t.block][t.warp := s.blocks[t.block][t.warp]] == s.blocks[t.block];
    assert s.blocks[t.block := s.blocks[t.block]] == s.blocks;
  }

  lemma QueueUnfold(cfg: SmConfig, s: SmState, t: Ticket, targets: seq<(nat, nat)>)
    requires Shaped(cfg, s) && Live(s, t.block, t.warp) && SmInv.TargetsOk(targets)
    ensures targets == [] ==> QueueAtomics(cfg, s, t.block, t.warp, t.ci, targets) == Ok(s)
    ensures targets != [] ==>
              var f := NewFetch(cfg, s.nextId, true, true, targets[0], t.block, t.warp, t.ci);
              && targets[0].1 < SECTORS && |s.banks| == SECTORS
              && var x := s.blocks[t.block][t.warp].Increase(t.ci);
                 var s1 := Enqueue(PutWarp(s, t.block, t.warp, x), targets[0].1, f);
                 && Shaped(cfg, s1) && Live(s1, t.block, t.warp)
                 && QueueAtomics(cfg, s, t.block, t.warp, t.ci, targets)
                    == QueueAtomics(cfg, s1, t.block, t.warp, t.ci, targets[1..])
  {
    if targets != [] { assert SmInv.TargetOk(targets[0]); }
  }

  lemma {:induction false} AtomicsQueue(cfg: SmConfig, s: SmState, t: Ticket, targets: seq<(nat, nat)>)
    returns (fs: Log)
    requires Shaped(cfg, s) && Live(s, t.block, t.warp) && SmInv.TargetsOk(targets)
    ensures var r := QueueAtomics(cfg, s, t.block, t.warp, t.ci, targets);
            r.Ok? && Queued(cfg, s, t, targets, r.value, fs)
    decreases |targets|
  {
    QueueUnfold(cfg, s, t, targets);
    hide Shaped, QueueAtomics, Queued, Enqueue, PutWarp;
    if targets == [] {
      fs := [];
      QueuedNothing(cfg, s, t);
    } else {
      var f := NewFetch(cfg, s.nextId, true, true, targets[0], t.block, t.warp, t.ci);
      var s1 := Enqueue(PutWarp(s, t.block, t.warp, s.blocks[t.block][t.warp].Increase(t.ci)), targets[0].1, f);
      OneQueued(cfg, s, t, targets[0]);
      var rest := AtomicsQueue(cfg, s1, t, targets[1..]);
      fs := [f] + rest;
      assert [targets[0]] + targets[1..] == targets;
      QueuedTwice(cfg, s, t, [targets[0]], targets[1..], s1,
          QueueAtomics(cfg, s1, t.block, t.warp, t.ci, targets[1..]).value, [f], rest);
    }
  }

  lemma AtomicIssues(cfg: SmConfig, s: SmState, b: nat, w: nat, u: nat, m: MemInst) returns (fs: Log)
    requires Shaped(cfg, s) && Live(s, b, w) && u < |s.units| && s.blocks[b][w].point == |s.blocks[b][w].completions|
    requires |s.blocks[b][w].completions| < |s.blocks[b][w].insts| && SmInv.TargetsOk(m.coalesced)
    requires var x := s.blocks[b][w];
             Record(x, x.point) == Some(m) && x.insts[x.point].isLds && x.insts[x.point].kind.AtomicAccess?
    ensures var r := IssueAtomic(cfg, s, b, w, u, m); r.Ok? && Processed(cfg, s, b, w, u, r.value, fs)
  {
    var x := s.blocks[b][w];
    var s0 := SmInv.AtomicStart(s, b, w, u);
    fs := AtomicsQueue(cfg, s0, Ticket(b, w, |x.completions|), m.coalesced);
    var s1 := IssueAtomic(cfg, s, b, w, u, m).value;
    hide Shaped, QueueAtomics, Adds, IssueAtomic, IsAtomicRequest;
    AtomicProcessed(cfg, s, b, w, u, m, s0, s1, fs);
  }

  lemma AtomicProcessed(cfg: SmConfig, s: SmState, b: nat, w: nat, u: nat, m: MemInst, s0: SmState, s1: SmState,
                        fs: Log)
    requires Live(s, b, w) && u < |s.units| && s.blocks[b][w].point == |s.blocks[b][w].completions|
    requires |s.blocks[b][w].completions| < |s.blocks[b][w].insts|
    requires var x := s.blocks[b][w];
             Record(x, x.point) == Some(m) && x.insts[x.point].isLds && x.insts[x.point].kind.AtomicAccess?
    requires s0 == SmInv.AtomicStart(s, b, w, u)
    requires Queued(cfg, s0, Ticket(b, w, |s.blocks[b][w].completions|), m.coalesced, s1, fs)
    ensures Processed(cfg, s, b, w, u, s1, fs)
  {
    var x, x0, s' := s.blocks[b][w], s0.blocks[b][w], AdvancePoint(s1, b, w);
    forall j: nat ensures s'.blocks[b][w].Pending(j) == x.Pending(j) + (if j == |x.completions| then |fs| else 0) {
      assert x0.Pending(j) == x.Pending(j);
    }
    assert s'.blocks[b] == s.blocks[b][w := s'.blocks[b][w]];
    assert s'.blocks == s.blocks[b := s'.blocks[b]];
    assert Adds(cfg, s, s', fs);
    assert Due(x, x.point) == m.coalesced;
  }

  lemma ProcessIssues(cfg: SmConfig, s: SmState, b: nat, w: nat, u: nat) returns (fs: Log)
    requires Shaped(cfg, s) && Live(s, b, w) && u < |s.units| && s.blocks[b][w].point == |s.blocks[b][w].completions|
    requires |s.blocks[b][w].completions| < |s.blocks[b][w].insts| && s.blocks[b][w].insts[s.blocks[b][w].point].isLds
    requires var x := s.blocks[b][w];
             && (Record(x, x.point).Some? ==> SmInv.TargetsOk(Record(x, x.point).value.coalesced))
             && (x.insts[x.point].kind.AtomicAccess? ==> Record(x, x.point).Some?)
    ensures var r := ProcessLds(cfg, s, b, w, u, s.blocks[b][w].insts[s.blocks[b][w].point]);
            r.Ok? && Processed(cfg, s, b, w, u, r.value, fs)
  {
    hide Shaped, Processed, IssueAtomic, IssueFixed, IssueGlobal, SmInv.TargetsOk;
    var x := s.blocks[b][w];
    var inst, m := x.insts[x.point], Record(x, x.point);
    fs := [];
    match inst.kind {
      case GlobalAccess =>
        if m.None? || inst.activeThreads == 0 || m.value.coalesced == [] {
          FixedIssues(cfg, s, b, w, u, 1);
        } else {
          GlobalIssues(cfg, s, b, w, u, m.value);
        }
      case SharedAccess => FixedIssues(cfg, s, b, w, u, SharedLatency(inst.activeThreads));
      case AtomicAccess => fs := AtomicIssues(cfg, s, b, w, u, m.value);
      case OtherAccess => FixedIssues(cfg, s, b, w, u, inst.latency);
    }
  }

  lemma IssueFacts(cfg: SmConfig, s: SmState, b: nat, w: nat)
    requires SmInv.Inv(cfg, s) && Live(s, b, w) && s.blocks[b][w].point < |s.blocks[b][w].insts|
    ensures Shaped(cfg, s) && b < s.ptr
    ensures var x := s.blocks[b][w];
            && x.point == |x.completions| && x.Pending(x.point) == 0
            && (Record(x, x.point).Some? ==> SmInv.TargetsOk(Record(x, x.point).value.coalesced))
            && (x.insts[x.point].isLds && x.insts[x.point].kind.AtomicAccess? ==> Record(x, x.point).Some?)
  {
    SmInv.RecordOk(cfg, s, b, w);
    assert SmInv.WarpOk(cfg, s.blocks[b][w]);
  }

  lemma IssueUnfold(cfg: SmConfig, s: SmState, b: nat, w: nat, u: nat)
    requires Shaped(cfg, s) && Live(s, b, w) && s.blocks[b][w].point < |s.blocks[b][w].insts| && u < |s.units|
    ensures var inst := s.blocks[b][w].insts[s.blocks[b][w].point];
            if s.units[u].ready > s.now then Issue(cfg, s, b, w, u) == Ok(s)
            else if inst.isLds then
              var r := ProcessLds(cfg, s, b, w, u, inst);
              r.Ok? ==> Issue(cfg, s, b, w, u) == Ok(AdvancePoint(r.value, b, w))
            else
              var s1 := IssueFixed(s, b, w, u, inst.latency);
              Live(s1, b, w) ==> Issue(cfg, s, b, w, u) == Ok(AdvancePoint(s1, b, w))
  {
    hide ProcessLds, IssueFixed;
  }

  /** issue_inst on a unit that is ready. */
  lemma IssueIs(cfg: SmConfig, s: SmState, b: nat, w: nat, u: nat) returns (fs: Log)
    requires SmInv.Inv(cfg, s) && Live(s, b, w) && s.blocks[b][w].point < |s.blocks[b][w].insts|
    requires u < |s.units| && s.units[u].ready <= s.now
    ensures Shaped(cfg, s)
    ensures var r := Issue(cfg, s, b, w, u); r.Ok? && Issued(cfg, s, b, w, u, r.value, fs)
  {
    hide SmInv.Inv, Shaped, ProcessLds, IssueFixed, Issued, Issue, Record, AdvancePoint, SmInv.TargetsOk;
    IssueFacts(cfg, s, b, w);
    IssueUnfold(cfg, s, b, w, u);
    var x := s.blocks[b][w];
    if x.insts[x.point].isLds {
      fs := ProcessIssues(cfg, s, b, w, u);
    } else {
      fs := [];
      FixedIssues(cfg, s, b, w, u, x.insts[x.point].latency);
    }
  }

  // ---------------------------------------------------------------- issue and the log

  lemma {:induction false} OfOwn(log: Log, fs: Log, t0: Ticket, t: Ticket)
    requires forall i :: 0 <= i < |fs| ==> One(fs[i], t0) == 1
    ensures Of(log + fs, t) == if t == t0 then Of(log, t) + fs else Of(log, t)
    decreases |fs|
  {
    if fs == [] {
      assert log + fs == log;
    } else {
      var p, f := fs[..|fs| - 1], fs[|fs| - 1];
      OfOwn(log, p, t0, t);
      assert log + fs == log + p + [f];
      OfSnoc(log + p, f, t);
    }
  }

  /** The requests queued at once are the slot's own. */
  lemma QueuedAreOwn(x: Warp, t: Ticket, fs: Log)
    requires t.ci < |x.insts| && QueuedAtOnce(x, t, fs)
    ensures forall i :: 0 <= i < |fs| ==> One(fs[i], t) == 1
  {
  }

  lemma NewSlotSent(x: Warp, x': Warp, t: Ticket, fs: Log, now: int)
    requires t.ci == |x.completions| < |x.insts| && WarpIssued(x, x', now, fs) && QueuedAtOnce(x, t, fs)
    ensures SlotSent(x', t, fs)
  {
    hide SmTiming.Latency, Record, ByUnit, FirstTime, Right, Due;
    SameSent(x, x', t, fs);
  }

  lemma NewSlotDone(x: Warp, x': Warp, t: Ticket, fs: Log, now: int)
    requires t.ci == |x.completions| < |x.insts| && WarpIssued(x, x', now, fs) && x.Pending(t.ci) == 0
    ensures SlotDone(x', t.ci, fs, now)
  {
    hide SmTiming.Latency, Record, ByUnit, Due;
    SameLatency(x, x', t.ci);
  }

  lemma NewSlot(x: Warp, x': Warp, t: Ticket, log: Log, fs: Log, now: int)
    requires t.ci == |x.completions| < |x.insts| && WarpIssued(x, x', now, fs) && QueuedAtOnce(x, t, fs)
    requires Of(log, t) == [] && x.Pending(t.ci) == 0
    ensures Slot(x', t, log + fs, now) && Of(log + fs, t) == fs
  {
    hide SmTiming.Latency, Record, ByUnit, Due, FirstTime, QueuedAtOnce, SlotSent, SlotDone;
    QueuedAreOwn(x, t, fs);
    OfOwn(log, fs, t, t);
    assert [] + fs == fs;
    NewSlotSent(x, x', t, fs, now);
    NewSlotDone(x, x', t, fs, now);
  }

  lemma OldSlot(x: Warp, x': Warp, t: Ticket, log: Log, log': Log, now: int, fs: Log)
    requires t.ci < |x.completions| < |x.insts| && WarpIssued(x, x', now, fs) && Slot(x, t, log, now)
    requires Of(log', t) == Of(log, t)
    ensures Slot(x', t, log', now)
  {
    hide SmTiming.Latency, SlotSent, ByUnit;
    SameSent(x, x', t, Of(log, t));
    SameLatency(x, x', t.ci);
  }

  lemma IssuedWarp(x: Warp, x': Warp, b: nat, w: nat, log: Log, fs: Log, now: int)
    requires WarpLogged(x, b, w, log, now) && |x.completions| < |x.insts| && x.Pending(|x.completions|) == 0
    requires WarpIssued(x, x', now, fs) && QueuedAtOnce(x, Ticket(b, w, |x.completions|), fs)
    ensures WarpLogged(x', b, w, log + fs, now) && Of(log + fs, Ticket(b, w, |x.completions|)) == fs
  {
    hide SmTiming.Latency, SlotSent, SlotDone, QueuedAtOnce, ByUnit, FirstTime;
    var t0 := Ticket(b, w, |x.completions|);
    NewSlot(x, x', t0, log, fs, now);
    QueuedAreOwn(x, t0, fs);
    forall ci: nat | ci != t0.ci ensures Of(log + fs, Ticket(b, w, ci)) == Of(log, Ticket(b, w, ci)) {
      OfOwn(log, fs, t0, Ticket(b, w, ci));
    }
    forall ci: nat | ci < |x'.completions| ensures Slot(x', Ticket(b, w, ci), log + fs, now) {
      if ci < t0.ci {
        assert Slot(x, Ticket(b, w, ci), log, now);
        OldSlot(x, x', Ticket(b, w, ci), log, log + fs, now, fs);
      }
    }
  }

  lemma OtherWarp(x: Warp, b: nat, w: nat, log: Log, log': Log, now: int)
    requires WarpLogged(x, b, w, log, now) && forall ci: nat :: Of(log', Ticket(b, w, ci)) == Of(log, Ticket(b, w, ci))
    ensures WarpLogged(x, b, w, log', now)
  {
    hide SlotSent, SlotDone;
    forall ci: nat | ci < |x.completions| ensures Slot(x, Ticket(b, w, ci), log', now) {
      assert Slot(x, Ticket(b, w, ci), log, now);
    }
  }

  /** The log grows by the requests of the new slot, and by no others. */
  ghost predicate OnlyNewSlot(log: Log, log': Log, t0: Ticket) { forall t :: t != t0 ==> Of(log', t) == Of(log, t) }

  lemma IssuedWarps(cfg: SmConfig, s: SmState, b: nat, w: nat, u: nat, s': SmState, fs: Log, log: Log)
    requires WarpsLogged(s, log) && Issued(cfg, s, b, w, u, s', fs)
    requires s.blocks[b][w].Pending(|s.blocks[b][w].completions|) == 0
    ensures WarpsLogged(s', log + fs) && OnlyNewSlot(log, log + fs, Ticket(b, w, |s.blocks[b][w].completions|))
    ensures Of(log + fs, Ticket(b, w, |s.blocks[b][w].completions|)) == fs
  {
    hide WarpLogged, WarpIssued, QueuedAtOnce, Adds, UnitAfter;
    var x, t0 := s.blocks[b][w], Ticket(b, w, |s.blocks[b][w].completions|);
    SmInv.PutWarpLive(s, b, w, s'.blocks[b][w]);
    IssuedWarp(x, s'.blocks[b][w], b, w, log, fs, s.now);
    QueuedAreOwn(x, t0, fs);
    forall t | t != t0 ensures Of(log + fs, t) == Of(log, t) { OfOwn(log, fs, t0, t); }
    forall b', w' | Live(s', b', w') ensures WarpLogged(s'.blocks[b'][w'], b', w', log + fs, s'.now) {
      if b' != b || w' != w { OtherWarp(s.blocks[b'][w'], b', w', log, log + fs, s.now); }
    }
  }

  /** The unit that a load or store keeps. */
  lemma IssuedUnit(x: Warp, b: nat, w: nat, unit: PipelineUnit, fs: Log)
    requires |x.completions| < |x.insts| && unit.held.None? && QueuedAtOnce(x, Ticket(b, w, |x.completions|), fs)
    ensures var i, unit' := |x.completions|, UnitAfter(x, b, w, |x.completions|, unit);
            && (unit'.held.Some? ==> TicketOf(unit'.held.value) == Ticket(b, w, i) && unit'.held.value.point == 0
                                     && Record(x, i) == Some(unit'.held.value.inst) && fs == []
                                     && SmTiming.Latency(x, i).None? && !x.insts[i].kind.AtomicAccess?)
            && (unit'.held.None? ==> |fs| == |Due(x, i)|)
  {
  }

  lemma IssuedUnits(cfg: SmConfig, s: SmState, b: nat, w: nat, u: nat, s': SmState, fs: Log, log: Log, log': Log)
    requires UnitsLogged(s, log) && Issued(cfg, s, b, w, u, s', fs) && s.units[u].held.None?
    requires OnlyNewSlot(log, log', Ticket(b, w, |s.blocks[b][w].completions|))
    requires Of(log', Ticket(b, w, |s.blocks[b][w].completions|)) == fs
    ensures UnitsLogged(s', log')
  {
    hide SmTiming.Latency, Record, QueuedAtOnce, Adds, UnitAfter, ByUnit, FirstTime;
    var x := s.blocks[b][w];
    SmInv.PutWarpLive(s, b, w, s'.blocks[b][w]);
    IssuedUnit(x, b, w, s.units[u], fs);
    forall v | 0 <= v < |s'.units| && s'.units[v].held.Some? ensures UnitLogged(s', s'.units[v].held.value, log') {
      var h := s'.units[v].held.value;
      if v == u {
        SameDue(x, s'.blocks[b][w], h.ci);
      } else {
        assert UnitLogged(s, h, log);
        if Live(s, h.block, h.warp) { SameDue(s.blocks[h.block][h.warp], s'.blocks[h.block][h.warp], h.ci); }
      }
    }
  }

  lemma IssuedApart(cfg: SmConfig, s: SmState, b: nat, w: nat, u: nat, s': SmState, fs: Log, log: Log)
    requires UnitsLogged(s, log) && Apart(s.units) && Issued(cfg, s, b, w, u, s', fs) && s.units[u].held.None?
    ensures Apart(s'.units)
  {
    hide SmTiming.Latency, Record, QueuedAtOnce, Adds, UnitAfter, WarpIssued;
    var t0 := Ticket(b, w, |s.blocks[b][w].completions|);
    IssuedUnit(s.blocks[b][w], b, w, s.units[u], fs);
    forall v, t | 0 <= v < |s'.units| && Holds(s'.units[v], t)
      ensures if v == u then t == t0 else Holds(s.units[v], t) && t != t0
    {
      if v != u { assert UnitLogged(s, s.units[v].held.value, log); }
    }
  }

  lemma IssuedOpen(cfg: SmConfig, s: SmState, b: nat, w: nat, u: nat, s': SmState, fs: Log, log: Log, log': Log)
    requires OpenAreHeld(s, log) && Issued(cfg, s, b, w, u, s', fs) && s.units[u].held.None?
    requires OnlyNewSlot(log, log', Ticket(b, w, |s.blocks[b][w].completions|))
    requires Of(log', Ticket(b, w, |s.blocks[b][w].completions|)) == fs
    ensures OpenAreHeld(s', log')
  {
    hide SmTiming.Latency, Record, QueuedAtOnce, Adds, UnitAfter, ByUnit, FirstTime, Due;
    var x, t0 := s.blocks[b][w], Ticket(b, w, |s.blocks[b][w].completions|);
    SmInv.PutWarpLive(s, b, w, s'.blocks[b][w]);
    IssuedUnit(x, b, w, s.units[u], fs);
    forall t | Open(s', log', t) ensures HeldSomewhere(s'.units, t) {
      SameDue(s.blocks[t.block][t.warp], s'.blocks[t.block][t.warp], t.ci);
      if t == t0 {
        assert Holds(s'.units[u], t);
      } else {
        assert Open(s, log, t);
        var v :| 0 <= v < |s.units| && Holds(s.units[v], t);
        assert v != u && Holds(s'.units[v], t);
      }
    }
  }

  lemma IssuedLogged(cfg: SmConfig, s: SmState, b: nat, w: nat, u: nat, s': SmState, fs: Log, log: Log)
    requires Logged(s, log) && Issued(cfg, s, b, w, u, s', fs) && s.units[u].held.None? && b < s.ptr
    requires s.blocks[b][w].Pending(|s.blocks[b][w].completions|) == 0
    ensures Logged(s', log + fs)
  {
    hide WarpsLogged, UnitsLogged, Apart, OpenAreHeld, QueuedAtOnce, Adds, UnitAfter, WarpIssued;
    IssuedWarps(cfg, s, b, w, u, s', fs, log);
    IssuedUnits(cfg, s, b, w, u, s', fs, log, log + fs);
    IssuedApart(cfg, s, b, w, u, s', fs, log);
    IssuedOpen(cfg, s, b, w, u, s', fs, log, log + fs);
  }

  lemma IssuedMoves(cfg: SmConfig, s: SmState, b: nat, w: nat, u: nat, s': SmState, fs: Log)
    requires Issued(cfg, s, b, w, u, s', fs)
    ensures Moves(cfg, s, s', fs)
  {
    hide UnitAfter, QueuedAtOnce, Adds, FirstTime, ByUnit;
    SmInv.PutWarpLive(s, b, w, s'.blocks[b][w]);
  }

  lemma IssueSteps(cfg: SmConfig, s: SmState, b: nat, w: nat, u: nat, log: Log) returns (fs: Log)
    requires SmInv.Inv(cfg, s) && Logged(s, log) && s.now < INT_MAX && Live(s, b, w) && u < |s.units|
    requires s.blocks[b][w].point < |s.blocks[b][w].insts|
    ensures Shaped(cfg, s)
    ensures var r := Issue(cfg, s, b, w, u); r.Ok? && Steps(cfg, s, r.value, log, fs)
  {
    hide SmInv.Inv, Logged, Issued, Moves, Shaped, Issue, Grew, Record;
    IssueFacts(cfg, s, b, w);
    IssueUnfold(cfg, s, b, w, u);
    if s.units[u].ready > s.now {
      fs := [];
      GrewItself(s);
      StepsNothing(cfg, s, s, log);
    } else {
      UnitIsIdle(cfg, s, u);
      fs := IssueIs(cfg, s, b, w, u);
      IssuedLogged(cfg, s, b, w, u, Issue(cfg, s, b, w, u).value, fs, log);
      IssuedMoves(cfg, s, b, w, u, Issue(cfg, s, b, w, u).value, fs);
    }
  }

  lemma UnitIsIdle(cfg: SmConfig, s: SmState, u: nat)
    requires SmInv.Inv(cfg, s) && u < |s.units| && s.units[u].ready <= s.now < INT_MAX
    ensures s.units[u].held.None?
  {
    SmInv.IdleUnit(s, u);
  }
}
