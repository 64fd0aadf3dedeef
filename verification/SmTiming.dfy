/** When instructions issue, over whole runs of an SM: the history of a warp is the sequence of the
    cycles in which its instructions really issued, and every dependency whose completion time is
    known was complete by then. */
module SmTiming {
  import opened Wrappers
  import opened CacheConfig
  import opened MemFetch
  import opened Warps
  import opened Sm
  import Mshr
  import SmInv
  import SmRuns
  import Scoreboard
  import TagStore

  /** The latency of instruction i of a warp, when it is known at issue: not for a global access with
      requests to make, nor for an atomic. */
  function Latency(x: Warp, i: nat): Option<int>
    requires i < |x.insts|
  {
    var inst := x.insts[i];
    if !inst.isLds then Some(inst.latency)
    else
      match inst.kind
      case SharedAccess => Some(SharedLatency(inst.activeThreads))
      case OtherAccess => Some(inst.latency)
      case AtomicAccess => None
      case GlobalAccess =>
        var m := FindMemInst(x.memInsts, inst.pc, inst.pcIndex, 0);
        if m.None? || inst.activeThreads == 0 || m.value.coalesced == [] then Some(1) else None
  }

  /** The latency of a shared-memory access grows with its active threads, in steps at the powers of 2. */
  lemma SharedLatencySteps(a: int, b: int, step: nat)
    ensures SharedLatency(2) == 10 && SharedLatency(4) == 14 && SharedLatency(8) == 22 && SharedLatency(16) == 37
    ensures (a < 2 ==> SharedLatency(a) == 8) && (a >= 32 ==> SharedLatency(a) == 69)
    ensures a <= b ==> SharedLatency(a) <= SharedLatency(b)
    ensures step in {2, 4, 8, 16} && step <= a <= b < step + step ==> SharedLatency(a) == SharedLatency(b)
  {
  }

  /** issue[i] is the cycle in which instruction i issued.  Instructions issue in order; one of known
      latency completes exactly that much later; and a dependency of known latency is complete when
      its dependant issues. */
  ghost predicate OnTime(x: Warp, issue: seq<int>, now: int) {
    && |issue| == |x.completions| <= |x.insts|
    && (forall i :: 0 <= i < |issue| ==> issue[i] <= now)
    && (forall i, k :: 0 <= i < k < |issue| ==> issue[i] <= issue[k])
    && (forall i :: 0 <= i < |issue| && Latency(x, i).Some? ==> x.completions[i] == issue[i] + Latency(x, i).value)
    && (forall i, k :: 0 <= i < |issue| && 0 <= k < |x.insts[i].deps| ==> DepDone(x, issue, i, x.insts[i].deps[k]))
  }

  ghost predicate DepDone(x: Warp, issue: seq<int>, i: nat, d: int)
    requires i < |issue| == |x.completions| <= |x.insts|
  {
    0 <= d < i && (Latency(x, d).Some? ==> x.completions[d] <= issue[i])
  }

  /** Only instructions of unknown latency have requests outstanding. */
  ghost predicate SlotsOk(x: Warp) {
    forall ci: nat :: x.Pending(ci) > 0 ==> ci < |x.completions| <= |x.insts| && Latency(x, ci).None?
  }

  /** The issue cycles of every warp so far. */
  type History = map<(nat, nat), seq<int>>

  function Of(h: History, b: nat, w: nat): seq<int> { if (b, w) in h then h[(b, w)] else [] }

  /** Units work for instructions of unknown latency. */
  ghost predicate HeldOk(s: SmState) {
    forall u :: 0 <= u < |s.units| && s.units[u].held.Some? ==> HeldSlotOk(s, s.units[u].held.value)
  }

  ghost predicate HeldSlotOk(s: SmState, h: Held) {
    Live(s, h.block, h.warp) ==>
      var x := s.blocks[h.block][h.warp]; h.ci < |x.completions| <= |x.insts| && Latency(x, h.ci).None?
  }

  ghost predicate Timely(x: Warp, issue: seq<int>, now: int) { OnTime(x, issue, now) && SlotsOk(x) }

  ghost predicate WarpsTimely(s: SmState, h: History) {
    forall b, w :: Live(s, b, w) ==> Timely(s.blocks[b][w], Of(h, b, w), s.now)
  }

  ghost predicate AllTimely(s: SmState, h: History) {
    WarpsTimely(s, h) && HeldOk(s) && forall b, w :: (b, w) in h ==> b < s.ptr
  }

  // ---------------------------------------------------------------- steps that issue nothing

  /** A warp with the same program. */
  predicate SameProgram(x: Warp, x': Warp) { x'.insts == x.insts && x'.memInsts == x.memInsts }

  lemma PutWarps(s: SmState, h: History, b: nat, w: nat, x: Warp)
    requires WarpsTimely(s, h) && Live(s, b, w) && Timely(x, Of(h, b, w), s.now)
    ensures WarpsTimely(PutWarp(s, b, w, x), h)
  {
    SmInv.PutWarpLive(s, b, w, x);
  }

  lemma PutHeld(s: SmState, b: nat, w: nat, x: Warp)
    requires HeldOk(s) && Live(s, b, w) && SameProgram(s.blocks[b][w], x)
    requires |s.blocks[b][w].completions| <= |x.completions| <= |x.insts|
    ensures HeldOk(PutWarp(s, b, w, x))
  {
    SmInv.PutWarpLive(s, b, w, x);
    var s' := PutWarp(s, b, w, x);
    forall u | 0 <= u < |s'.units| && s'.units[u].held.Some? ensures HeldSlotOk(s', s'.units[u].held.value) {
      assert HeldSlotOk(s, s.units[u].held.value);
    }
  }

  lemma PutTimely(s: SmState, h: History, b: nat, w: nat, x: Warp)
    requires AllTimely(s, h) && Live(s, b, w) && SameProgram(s.blocks[b][w], x)
    requires |x.completions| >= |s.blocks[b][w].completions| && Timely(x, Of(h, b, w), s.now)
    ensures AllTimely(PutWarp(s, b, w, x), h)
  {
    PutWarps(s, h, b, w, x);
    PutHeld(s, b, w, x);
  }

  /** A returned request can only complete an instruction of unknown latency. */
  lemma DecreaseTimely(x: Warp, issue: seq<int>, ci: nat, now: int)
    requires Timely(x, issue, now) && x.Decrease(ci, now).Ok?
    ensures Timely(x.Decrease(ci, now).value, issue, now)
  {
    var x' := x.Decrease(ci, now).value;
    assert x.Pending(ci) > 0;
    forall i, k | 0 <= i < |issue| && 0 <= k < |x'.insts[i].deps| ensures DepDone(x', issue, i, x'.insts[i].deps[k]) {
      assert DepDone(x, issue, i, x.insts[i].deps[k]);
    }
    forall j: nat | x'.Pending(j) > 0 ensures j < |x'.completions| <= |x'.insts| && Latency(x', j).None? {
      assert x.Pending(j) > 0;
    }
  }

  lemma ReleaseTimely(s: SmState, h: History, f: Fetch)
    requires AllTimely(s, h)
    ensures Release(s, f).Ok? ==> AllTimely(Release(s, f).value, h)
  {
    if Release(s, f).Ok? {
      var x := s.blocks[f.block][f.warp];
      DecreaseTimely(x, Of(h, f.block, f.warp), f.ci, s.now);
      PutTimely(s, h, f.block, f.warp, x.Decrease(f.ci, s.now).value);
    }
  }

  /** Only the clock, the warps and the units matter. */
  lemma SameWarps(s: SmState, h: History, s': SmState)
    requires AllTimely(s, h) && s'.blocks == s.blocks && s'.units == s.units && s'.now >= s.now && s'.ptr >= s.ptr
    ensures AllTimely(s', h)
  {
    forall b, w ensures Live(s', b, w) <==> Live(s, b, w) { }
    forall u | 0 <= u < |s'.units| && s'.units[u].held.Some? ensures HeldSlotOk(s', s'.units[u].held.value) {
      assert HeldSlotOk(s, s.units[u].held.value);
    }
  }

  lemma {:induction false} HitsTimely(s: SmState, h: History)
    requires AllTimely(s, h)
    ensures WriteBackHits(s).Ok? ==> AllTimely(WriteBackHits(s).value, h)
    decreases |s.l1.toSm|
  {
    if s.l1.toSm != [] && s.l1.toSm[0].l1Ready <= s.now {
      var popped := s.(l1 := s.l1.(toSm := s.l1.toSm[1..]));
      SameWarps(s, h, popped);
      var r := Release(popped, s.l1.toSm[0]);
      ReleaseTimely(popped, h, s.l1.toSm[0]);
      if r.Ok? { HitsTimely(r.value, h); } else if r.error.CannotDecrease? { HitsTimely(popped, h); }
    }
  }

  lemma {:induction false} DrainTimely(cfg: SmConfig, s: SmState, h: History, f: Fetch)
    requires AllTimely(s, h) && Shaped(cfg, s) && f.sector < SECTORS
    ensures DrainEntry(cfg, s, f).Ok? ==> AllTimely(DrainEntry(cfg, s, f).value, h)
    decreases if f.SectorAddr() in s.l1.mshr then 1 + |s.l1.mshr[f.SectorAddr()]| else 0
  {
    var sa := f.SectorAddr();
    if sa in s.l1.mshr && s.l1.mshr[sa] != [] {
      var popped := s.(l1 := s.l1.(mshr := Mshr.AfterNext(s.l1.mshr, sa)));
      SameWarps(s, h, popped);
      var r := Release(popped, s.l1.mshr[sa][0]);
      ReleaseTimely(popped, h, s.l1.mshr[sa][0]);
      if r.Ok? {
        var lines := TagStore.Fill(cfg.l1.cache, r.value.l1.lines, f.addr, f.sector, s.now);
        if lines.Some? {
          var s2 := r.value.(l1 := r.value.l1.(lines := lines.value));
          SameWarps(r.value, h, s2);
          DrainTimely(cfg, s2, h, f);
        }
      }
    }
  }

  lemma ReplyTimely(cfg: SmConfig, s: SmState, h: History, reply: Option<nat>)
    requires AllTimely(s, h) && Shaped(cfg, s)
    ensures WriteBackReply(cfg, s, reply).Ok? ==> AllTimely(WriteBackReply(cfg, s, reply).value, h)
  {
    if reply.Some? && reply.value < |s.below| {
      var i := reply.value;
      var f, popped := s.below[i], s.(below := s.below[..i] + s.below[i + 1..]);
      SameWarps(s, h, popped);
      if f.sector < SECTORS {
        if f.isWrite { ReleaseTimely(popped, h, f); } else { DrainTimely(cfg, popped, h, f); }
      }
    }
  }

  lemma {:induction false} BanksTimely(cfg: SmConfig, s: SmState, h: History, bank: nat)
    requires AllTimely(s, h) && Shaped(cfg, s) && bank <= SECTORS
    ensures AccessBanks(cfg, s, bank).Ok? ==> AllTimely(AccessBanks(cfg, s, bank).value, h)
    decreases SECTORS - bank
  {
    if bank < SECTORS {
      hide AllTimely, AccessBank, Shaped;
      var r := AccessBank(cfg, s, bank);
      if r.Ok? {
        OneBankTimely(cfg, s, h, bank);
        BanksTimely(cfg, r.value, h, bank + 1);
      }
    }
  }

  lemma OneBankTimely(cfg: SmConfig, s: SmState, h: History, bank: nat)
    requires AllTimely(s, h) && Shaped(cfg, s) && bank < SECTORS
    ensures AccessBank(cfg, s, bank).Ok? ==> AllTimely(AccessBank(cfg, s, bank).value, h)
  {
    hide AllTimely, Shaped;
    if AccessBank(cfg, s, bank).Ok? { SameWarps(s, h, AccessBank(cfg, s, bank).value); }
  }

  lemma MemoryTimely(cfg: SmConfig, s: SmState, h: History, input: SmInput)
    requires AllTimely(s, h) && Shaped(cfg, s)
    ensures MemoryPhase(cfg, s, input).Ok? ==> AllTimely(MemoryPhase(cfg, s, input).value, h)
  {
    HitsTimely(s, h);
    var r1 := WriteBackHits(s);
    if r1.Ok? {
      ReplyTimely(cfg, r1.value, h, input.reply);
      var r2 := WriteBackReply(cfg, r1.value, input.reply);
      if r2.Ok? {
        SameWarps(r2.value, h, SendMiss(cfg, r2.value, input.hasBuffer));
        BanksTimely(cfg, SendMiss(cfg, r2.value, input.hasBuffer), h, 0);
      }
    }
  }

  // ---------------------------------------------------------------- the core half

  lemma DeleteTimely(s: SmState, h: History)
    requires AllTimely(s, h)
    ensures AllTimely(DeleteInactive(s), h)
  {
    var s' := DeleteInactive(s);
    forall b, w ensures Live(s', b, w) <==> Live(s, b, w) { }
    forall u | 0 <= u < |s'.units| && s'.units[u].held.Some? ensures HeldSlotOk(s', s'.units[u].held.value) {
      assert HeldSlotOk(s, s.units[u].held.value);
    }
  }

  /** A warp and a unit change together. */
  lemma ChangedTimely(s: SmState, h: History, b: nat, w: nat, x: Warp, u: nat, unit: PipelineUnit)
    requires AllTimely(s, h) && Live(s, b, w) && u < |s.units| && SameProgram(s.blocks[b][w], x)
    requires |x.completions| >= |s.blocks[b][w].completions| && Timely(x, Of(h, b, w), s.now)
    requires unit.held.Some? ==> HeldSlotOk(PutWarp(s, b, w, x), unit.held.value)
    ensures AllTimely(Changed(s, b, w, x, u, unit), h)
  {
    PutTimely(s, h, b, w, x);
    var p, s' := PutWarp(s, b, w, x), Changed(s, b, w, x, u, unit);
    forall b', w' ensures Live(s', b', w') <==> Live(p, b', w') { }
    forall k | 0 <= k < |s'.units| && s'.units[k].held.Some? ensures HeldSlotOk(s', s'.units[k].held.value) {
      if k != u { assert HeldSlotOk(p, p.units[k].held.value); }
    }
  }

  lemma IncreaseTimely(x: Warp, issue: seq<int>, ci: nat, now: int, x': Warp)
    requires Timely(x, issue, now) && ci < |x.completions| && Latency(x, ci).None?
    requires x' == x.Increase(ci).(pendingInst := x'.pendingInst)
    ensures Timely(x', issue, now)
  {
    forall i, k | 0 <= i < |issue| && 0 <= k < |x'.insts[i].deps| ensures DepDone(x', issue, i, x'.insts[i].deps[k]) {
      assert DepDone(x, issue, i, x.insts[i].deps[k]);
    }
    forall j: nat | x'.Pending(j) > 0 ensures j < |x'.completions| <= |x'.insts| && Latency(x', j).None? {
      if j != ci { assert x.Pending(j) > 0; }
    }
  }

  lemma UnitTimely(cfg: SmConfig, s: SmState, h: History, u: nat, busy: set<nat>)
    requires AllTimely(s, h) && Shaped(cfg, s) && u < |s.units|
    ensures UnitCycle(cfg, s, u, busy).0.Ok? ==> AllTimely(UnitCycle(cfg, s, u, busy).0.value, h)
  {
    var unit := s.units[u];
    if unit.isLds && unit.held.Some? {
      var held := unit.held.value;
      if held.point < |held.inst.coalesced| && Live(s, held.block, held.warp) {
        assert HeldSlotOk(s, held);
        var x0 := s.blocks[held.block][held.warp];
        var x := Requesting(x0, held);
        IncreaseTimely(x0, Of(h, held.block, held.warp), held.ci, s.now, x);
        ChangedTimely(s, h, held.block, held.warp, x, u, UnitAfterRequest(unit, held, s.now));
        var s' := Changed(s, held.block, held.warp, x, u, UnitAfterRequest(unit, held, s.now));
        var r := UnitCycle(cfg, s, u, busy).0;
        if r.Ok? && r.value != s { SameWarps(s', h, r.value); }
      }
    }
  }

  lemma {:induction false} UnitsTimely(cfg: SmConfig, s: SmState, h: History, sub: nat, busy: set<nat>)
    requires AllTimely(s, h) && sub <= SUBCORES && Shaped(cfg, s)
    ensures UnitCycles(cfg, s, sub, busy).Ok? ==> AllTimely(UnitCycles(cfg, s, sub, busy).value, h)
    decreases SUBCORES - sub
  {
    if sub < SUBCORES {
      var u := cfg.unitOf[sub][cfg.ldsClass];
      UnitTimely(cfg, s, h, u, busy);
      var (r, busy') := UnitCycle(cfg, s, u, busy);
      if r.Ok? { UnitsTimely(cfg, r.value, h, sub + 1, busy'); }
    }
  }

  lemma FreshTimely(t: WarpTrace, now: int)
    ensures Timely(FreshWarp(t), [], now)
  {
  }

  lemma DispatchOneTimely(cfg: SmConfig, s: SmState, h: History)
    requires AllTimely(s, h) && SmInv.UnitsOk(s) && s.ptr !in s.blocks && s.ptr < |cfg.kernel|
    ensures AllTimely(DispatchOne(cfg, s), h)
  {
    var s' := DispatchOne(cfg, s);
    forall b: nat, w: nat | Live(s', b, w) ensures Timely(s'.blocks[b][w], Of(h, b, w), s'.now) {
      if b == s.ptr { FreshTimely(cfg.kernel[b][w], s.now); } else { assert Live(s, b, w); }
    }
    forall u | 0 <= u < |s'.units| && s'.units[u].held.Some? ensures HeldSlotOk(s', s'.units[u].held.value) {
      assert SmInv.HeldOk(s, s.units[u]) && HeldSlotOk(s, s.units[u].held.value);
    }
  }

  lemma {:induction false} DispatchTimely(cfg: SmConfig, s: SmState, h: History)
    requires AllTimely(s, h) && SmInv.Inv(cfg, s)
    ensures AllTimely(Dispatch(cfg, s), h)
    decreases |cfg.kernel| - s.ptr
  {
    if |s.blocks| < cfg.maxBlocks && s.ptr < |cfg.kernel| {
      assert s.ptr !in s.blocks;
      DispatchOneTimely(cfg, s, h);
      SmInv.DispatchOneSettles(cfg, s);
      DispatchTimely(cfg, DispatchOne(cfg, s), h);
    }
  }

  // ---------------------------------------------------------------- issue

  /** The issue conditions of the scheduler, for the current instruction of a warp. */
  ghost predicate Ready(x: Warp, now: int) {
    && |x.completions| == x.point < |x.insts|
    && forall k :: 0 <= k < |x.insts[x.point].deps| ==>
         0 <= x.insts[x.point].deps[k] < x.point && x.completions[x.insts[x.point].deps[k]] <= now
  }

  /** The history with one more issue. */
  function Issued(h: History, b: nat, w: nat, now: int): History { h[(b, w) := Of(h, b, w) + [now]] }

  /** A ready warp issues at time now; when the latency is known, `time` is that much later. */
  lemma StepTimely(x: Warp, issue: seq<int>, now: int, time: int, x': Warp)
    requires Timely(x, issue, now) && Ready(x, now)
    requires Latency(x, x.point).Some? ==> time == now + Latency(x, x.point).value
    requires x' == Completing(x, time).(pendingInst := x'.pendingInst)
    ensures Timely(x', issue + [now], now)
  {
    var issue' := issue + [now];
    forall i, k | 0 <= i < |issue'| && 0 <= k < |x'.insts[i].deps| ensures DepDone(x', issue', i, x'.insts[i].deps[k]) {
      if i < |issue| { assert DepDone(x, issue, i, x.insts[i].deps[k]); }
    }
    forall j: nat | x'.Pending(j) > 0 ensures j < |x'.completions| <= |x'.insts| && Latency(x', j).None? {
      assert x.Pending(j) > 0;
    }
  }

  /** What issuing an instruction makes of its warp: one more completion slot. */
  predicate Slotted(x: Warp, x': Warp, time: int) { x' == Completing(x, time).(pendingInst := x'.pendingInst) }

  lemma OfIssued(h: History, b: nat, w: nat, now: int, b': nat, w': nat)
    ensures Of(Issued(h, b, w, now), b', w') == if b' == b && w' == w then Of(h, b, w) + [now] else Of(h, b', w')
  {
  }

  lemma IssuedWarps(s: SmState, h: History, b: nat, w: nat, x': Warp)
    requires WarpsTimely(s, h) && Live(s, b, w) && Timely(x', Of(h, b, w) + [s.now], s.now)
    ensures WarpsTimely(PutWarp(s, b, w, x'), Issued(h, b, w, s.now))
  {
    var s', h' := PutWarp(s, b, w, x'), Issued(h, b, w, s.now);
    SmInv.PutWarpLive(s, b, w, x');
    forall b', w' | Live(s', b', w') ensures Timely(s'.blocks[b'][w'], Of(h', b', w'), s'.now) {
      OfIssued(h, b, w, s.now, b', w');
    }
  }

  lemma UnitHeld(s: SmState, u: nat, unit: PipelineUnit)
    requires HeldOk(s) && u < |s.units| && (unit.held.Some? ==> HeldSlotOk(s, unit.held.value))
    ensures HeldOk(s.(units := s.units[u := unit]))
  {
    var s' := s.(units := s.units[u := unit]);
    forall k | 0 <= k < |s'.units| && s'.units[k].held.Some? ensures HeldSlotOk(s', s'.units[k].held.value) {
      var held := s'.units[k].held.value;
      assert HeldSlotOk(s, held);
      assert Live(s', held.block, held.warp) <==> Live(s, held.block, held.warp);
    }
  }

  /** The warp of the issued instruction is also the one that the unit may hold. */
  lemma IssueStepTimely(s: SmState, h: History, b: nat, w: nat, u: nat, x': Warp, time: int, unit: PipelineUnit,
                        s': SmState)
    requires AllTimely(s, h) && Live(s, b, w) && u < |s.units| && b < s.ptr
    requires Ready(s.blocks[b][w], s.now) && Slotted(s.blocks[b][w], x', time)
    requires var x := s.blocks[b][w]; Latency(x, x.point).Some? ==> time == s.now + Latency(x, x.point).value
    requires unit.held.Some? ==> HeldSlotOk(PutWarp(s, b, w, x'), unit.held.value)
    requires s' == Changed(s, b, w, x', u, unit)
    ensures AllTimely(s', Issued(h, b, w, s.now))
  {
    var p := PutWarp(s, b, w, x');
    StepTimely(s.blocks[b][w], Of(h, b, w), s.now, time, x');
    IssuedWarps(s, h, b, w, x');
    PutHeld(s, b, w, x');
    UnitHeld(p, u, unit);
    SameLive(p, s', Issued(h, b, w, s.now));
  }

  lemma SameLive(s: SmState, s': SmState, h: History)
    requires WarpsTimely(s, h) && s'.blocks == s.blocks && s'.now == s.now
    ensures WarpsTimely(s', h)
  {
    forall b, w ensures Live(s', b, w) <==> Live(s, b, w) { }
  }

  /** An instruction of unknown latency has a slot. */
  ghost predicate OpenSlot(s: SmState, b: nat, w: nat, ci: nat) {
    Live(s, b, w) && var x := s.blocks[b][w]; ci < |x.completions| <= |x.insts| && Latency(x, ci).None?
  }

  lemma AtomicTimely(s: SmState, h: History, b: nat, w: nat, ci: nat, s': SmState)
    requires AllTimely(s, h) && OpenSlot(s, b, w, ci)
    requires s' == PutWarp(s, b, w, s.blocks[b][w].Increase(ci)).(banks := s'.banks, nextId := s'.nextId)
    ensures AllTimely(s', h) && OpenSlot(s', b, w, ci) && s'.now == s.now
  {
    var x := s.blocks[b][w].Increase(ci);
    IncreaseTimely(s.blocks[b][w], Of(h, b, w), ci, s.now, x);
    PutTimely(s, h, b, w, x);
    SameWarps(PutWarp(s, b, w, x), h, s');
  }

  lemma {:induction false} AtomicsTimely(cfg: SmConfig, s: SmState, h: History, b: nat, w: nat, ci: nat,
                                         targets: seq<(nat, nat)>)
    requires AllTimely(s, h) && Shaped(cfg, s) && OpenSlot(s, b, w, ci)
    ensures var r := QueueAtomics(cfg, s, b, w, ci, targets); r.Ok? ==> AllTimely(r.value, h) && r.value.now == s.now
    decreases |targets|
  {
    if targets != [] && targets[0].1 < |s.banks| {
      var f := NewFetch(cfg, s.nextId, true, true, targets[0], b, w, ci);
      var s' := Enqueue(PutWarp(s, b, w, s.blocks[b][w].Increase(ci)), targets[0].1, f);
      AtomicTimely(s, h, b, w, ci, s');
      AtomicsTimely(cfg, s', h, b, w, ci, targets[1..]);
    }
  }

  lemma FixedTimely(s: SmState, h: History, b: nat, w: nat, u: nat, latency: int)
    requires AllTimely(s, h) && Live(s, b, w) && u < |s.units| && b < s.ptr && Ready(s.blocks[b][w], s.now)
    requires Latency(s.blocks[b][w], s.blocks[b][w].point) == Some(latency) && s.units[u].held.None?
    ensures AllTimely(IssueFixed(s, b, w, u, latency), Issued(h, b, w, s.now))
  {
    var time := s.now + latency;
    IssueStepTimely(s, h, b, w, u, Completing(s.blocks[b][w], time), time, s.units[u].Occupied(),
        IssueFixed(s, b, w, u, latency));
  }

  /** The slot that a global access leaves to its unit. */
  lemma HeldByUnit(s: SmState, b: nat, w: nat, x': Warp, time: int, held: Held)
    requires Live(s, b, w) && |s.blocks[b][w].completions| == s.blocks[b][w].point < |s.blocks[b][w].insts|
    requires Slotted(s.blocks[b][w], x', time) && Latency(s.blocks[b][w], s.blocks[b][w].point).None?
    requires held.block == b && held.warp == w && held.ci == s.blocks[b][w].point
    ensures HeldSlotOk(PutWarp(s, b, w, x'), held)
  {
    SmInv.PutWarpLive(s, b, w, x');
  }

  lemma GlobalTimely(s: SmState, h: History, b: nat, w: nat, u: nat, m: MemInst)
    requires AllTimely(s, h) && Live(s, b, w) && u < |s.units| && b < s.ptr && Ready(s.blocks[b][w], s.now)
    requires Latency(s.blocks[b][w], s.blocks[b][w].point).None?
    ensures AllTimely(IssueGlobal(s, b, w, u, m), Issued(h, b, w, s.now))
  {
    var x := s.blocks[b][w];
    var x' := Completing(x, INT_MAX).(pendingInst := x.pendingInst + 1);
    var unit := s.units[u].(ready := INT_MAX, held := Some(Held(b, w, m, |x.completions|, 0)));
    HeldByUnit(s, b, w, x', INT_MAX, unit.held.value);
    IssueStepTimely(s, h, b, w, u, x', INT_MAX, unit, IssueGlobal(s, b, w, u, m));
  }

  /** The first half of an atomic instruction: its completion slot. */
  lemma AtomicSlotTimely(s: SmState, h: History, b: nat, w: nat, u: nat)
    requires AllTimely(s, h) && Live(s, b, w) && u < |s.units| && b < s.ptr && Ready(s.blocks[b][w], s.now)
    requires Latency(s.blocks[b][w], s.blocks[b][w].point).None? && s.units[u].held.None?
    ensures AllTimely(SmInv.AtomicStart(s, b, w, u), Issued(h, b, w, s.now))
  {
    var unit := s.units[u].(ready := s.units[u].ready + 4);
    IssueStepTimely(s, h, b, w, u, Completing(s.blocks[b][w], INT_MAX), INT_MAX, unit, SmInv.AtomicStart(s, b, w, u));
  }

  /** The slot of an atomic instruction stays of unknown latency. */
  lemma AtomicStartSlot(s: SmState, b: nat, w: nat, u: nat)
    requires Live(s, b, w) && u < |s.units| && Ready(s.blocks[b][w], s.now)
    requires Latency(s.blocks[b][w], s.blocks[b][w].point).None?
    ensures var p := SmInv.AtomicStart(s, b, w, u); p.now == s.now && OpenSlot(p, b, w, s.blocks[b][w].point)
  {
  }

  lemma AtomicInstTimely(cfg: SmConfig, s: SmState, h: History, b: nat, w: nat, u: nat, m: MemInst)
    requires AllTimely(s, h) && Shaped(cfg, s) && Live(s, b, w) && u < |s.units| && b < s.ptr
    requires Ready(s.blocks[b][w], s.now) && Latency(s.blocks[b][w], s.blocks[b][w].point).None?
    requires s.units[u].held.None?
    ensures var r := IssueAtomic(cfg, s, b, w, u, m);
            r.Ok? ==> AllTimely(r.value, Issued(h, b, w, s.now)) && r.value.now == s.now
  {
    hide AllTimely, Issued, QueueAtomics, Latency, OpenSlot;
    AtomicSlotTimely(s, h, b, w, u);
    AtomicStartSlot(s, b, w, u);
    AtomicsTimely(cfg, SmInv.AtomicStart(s, b, w, u), Issued(h, b, w, s.now), b, w, s.blocks[b][w].point, m.coalesced);
  }

  lemma ProcessTimely(cfg: SmConfig, s: SmState, h: History, b: nat, w: nat, u: nat)
    requires AllTimely(s, h) && Shaped(cfg, s) && Live(s, b, w) && u < |s.units| && b < s.ptr
    requires Ready(s.blocks[b][w], s.now) && s.units[u].held.None? && s.blocks[b][w].insts[s.blocks[b][w].point].isLds
    ensures var r := ProcessLds(cfg, s, b, w, u, s.blocks[b][w].insts[s.blocks[b][w].point]);
            r.Ok? ==> AllTimely(r.value, Issued(h, b, w, s.now)) && r.value.now == s.now
  {
    var x := s.blocks[b][w];
    var inst := x.insts[x.point];
    var m := FindMemInst(x.memInsts, inst.pc, inst.pcIndex, 0);
    match inst.kind {
      case GlobalAccess =>
        if m.None? || inst.activeThreads == 0 || m.value.coalesced == [] {
          FixedTimely(s, h, b, w, u, 1);
        } else {
          GlobalTimely(s, h, b, w, u, m.value);
        }
      case SharedAccess => FixedTimely(s, h, b, w, u, SharedLatency(inst.activeThreads));
      case AtomicAccess => if m.Some? { AtomicInstTimely(cfg, s, h, b, w, u, m.value); }
      case OtherAccess => FixedTimely(s, h, b, w, u, inst.latency);
    }
  }

  lemma AdvanceWarp(x: Warp, issue: seq<int>, now: int)
    requires Timely(x, issue, now)
    ensures Timely(x.(point := x.point + 1), issue, now)
  {
    var x' := x.(point := x.point + 1);
    forall i, k | 0 <= i < |issue| && 0 <= k < |x'.insts[i].deps| ensures DepDone(x', issue, i, x'.insts[i].deps[k]) {
      assert DepDone(x, issue, i, x.insts[i].deps[k]);
    }
    forall j: nat | x'.Pending(j) > 0 ensures j < |x'.completions| <= |x'.insts| && Latency(x', j).None? {
      assert x.Pending(j) > 0;
    }
  }

  lemma AdvanceTimely(s: SmState, h: History, b: nat, w: nat, x': Warp, s': SmState)
    requires AllTimely(s, h) && Live(s, b, w) && x' == s.blocks[b][w].(point := s.blocks[b][w].point + 1)
    requires s' == PutWarp(s, b, w, x')
    ensures AllTimely(s', h)
  {
    AdvanceWarp(s.blocks[b][w], Of(h, b, w), s.now);
    assert |x'.completions| <= |x'.insts|;
    PutWarps(s, h, b, w, x');
    PutHeld(s, b, w, x');
  }

  lemma AdvancedTimely(s: SmState, h: History, b: nat, w: nat)
    requires AllTimely(s, h) && Live(s, b, w)
    ensures AllTimely(AdvancePoint(s, b, w), h)
  {
    AdvanceTimely(s, h, b, w, s.blocks[b][w].(point := s.blocks[b][w].point + 1), AdvancePoint(s, b, w));
  }

  /** issue_inst: nothing happens, or the instruction issues now. */
  lemma IssueTimely(cfg: SmConfig, s: SmState, h: History, b: nat, w: nat, u: nat)
    requires AllTimely(s, h) && Shaped(cfg, s) && Live(s, b, w) && u < |s.units| && b < s.ptr
    requires Ready(s.blocks[b][w], s.now) && (s.units[u].ready <= s.now ==> s.units[u].held.None?)
    ensures var r := Issue(cfg, s, b, w, u);
            r.Ok? ==> r.value.now == s.now
                      && (if s.units[u].ready > s.now then r.value == s else AllTimely(r.value, Issued(h, b, w, s.now)))
  {
    var x := s.blocks[b][w];
    var inst := x.insts[x.point];
    if s.units[u].ready <= s.now {
      var r := if inst.isLds then ProcessLds(cfg, s, b, w, u, inst) else Ok(IssueFixed(s, b, w, u, inst.latency));
      if inst.isLds { ProcessTimely(cfg, s, h, b, w, u); } else { FixedTimely(s, h, b, w, u, inst.latency); }
      if r.Ok? { AdvancedTimely(r.value, Issued(h, b, w, s.now), b, w); }
    }
  }

  lemma RetireTimely(s: SmState, h: History, b: nat, w: nat)
    requires AllTimely(s, h) && Live(s, b, w)
    ensures AllTimely(WithoutWarp(s, b, w), h)
  {
    var s' := WithoutWarp(s, b, w);
    forall b', w' ensures Live(s', b', w') <==> Live(s, b', w') && (b' != b || w' != w) { }
    forall u | 0 <= u < |s'.units| && s'.units[u].held.Some? ensures HeldSlotOk(s', s'.units[u].held.value) {
      assert HeldSlotOk(s, s.units[u].held.value);
    }
  }

  // ---------------------------------------------------------------- the scheduler

  /** h' is h with some more instructions, all issued at time now. */
  ghost predicate Extends(h: History, h': History, now: int) {
    forall b, w {:trigger Of(h', b, w)} ::
      && Of(h, b, w) <= Of(h', b, w)
      && forall i :: |Of(h, b, w)| <= i < |Of(h', b, w)| ==> Of(h', b, w)[i] == now
  }

  lemma ExtendsItself(h: History, now: int)
    ensures Extends(h, h, now)
  {
  }

  lemma IssuedExtends(h: History, b: nat, w: nat, now: int)
    ensures Extends(h, Issued(h, b, w, now), now)
  {
    forall b', w' {:trigger Of(Issued(h, b, w, now), b', w')} {
      OfIssued(h, b, w, now, b', w');
    }
  }

  lemma ExtendsTwice(h: History, h1: History, h2: History, now: int)
    requires Extends(h, h1, now) && Extends(h1, h2, now)
    ensures Extends(h, h2, now)
  {
    forall b, w ensures Of(h, b, w) <= Of(h2, b, w)
                        && forall i :: |Of(h, b, w)| <= i < |Of(h2, b, w)| ==> Of(h2, b, w)[i] == now {
      assert Of(h, b, w) <= Of(h1, b, w) <= Of(h2, b, w);
    }
  }

  /** The dependency check and the invariant give the issue conditions. */
  lemma CheckedIsReady(cfg: SmConfig, s: SmState, b: nat, w: nat)
    requires SmInv.Inv(cfg, s) && Live(s, b, w) && s.blocks[b][w].point < |s.blocks[b][w].insts|
    requires var x := s.blocks[b][w];
             DepsReady(x.completions, x.insts[x.point].deps, |x.insts[x.point].deps|, s.now) == Ok(true)
    ensures Ready(s.blocks[b][w], s.now) && b < s.ptr
  {
    var x := s.blocks[b][w];
    SmInv.RecordOk(cfg, s, b, w);
    SmInv.DepsInBounds(x.completions, x.insts[x.point].deps, |x.insts[x.point].deps|, s.now);
    assert SmInv.WarpOk(cfg, x);
  }

  /** The unit that the scheduler picks for a warp. */
  function Picked(cfg: SmConfig, s: SmState, b: nat, w: nat, active: set<nat>): (u: nat)
    requires Shaped(cfg, s) && Live(s, b, w) && s.blocks[b][w].point < |s.blocks[b][w].insts|
    requires SmInv.MayIssue(cfg, s, b, w, active)
    ensures u < |s.units|
  {
    var c := s.blocks[b][w].insts[s.blocks[b][w].point].unitClass;
    cfg.unitOf[PickSubcore(cfg, s, active, c, 0).value][c]
  }

  lemma VisitIsIssue(cfg: SmConfig, s: SmState, b: nat, w: nat, active: set<nat>)
    requires Shaped(cfg, s) && Live(s, b, w) && s.blocks[b][w].point < |s.blocks[b][w].insts|
    requires w < cfg.warpLimit && active != {} && !s.blocks[b][w].Retires() && SmInv.MayIssue(cfg, s, b, w, active)
    ensures var r, i := VisitWarps(cfg, s, b, w, active), Issue(cfg, s, b, w, Picked(cfg, s, b, w, active));
            r.Ok? == i.Ok? && (r.Ok? ==> r.value.0 == i.value)
  {
  }

  lemma IssueExtends(cfg: SmConfig, s: SmState, h: History, b: nat, w: nat, u: nat) returns (h': History)
    requires SmInv.Inv(cfg, s) && AllTimely(s, h) && s.now < INT_MAX && Live(s, b, w) && u < |s.units|
    requires Ready(s.blocks[b][w], s.now) && b < s.ptr
    ensures var r := Issue(cfg, s, b, w, u); r.Ok? ==> AllTimely(r.value, h') && Extends(h, h', s.now)
  {
    if s.units[u].ready <= s.now { SmInv.IdleUnit(s, u); }
    IssueTimely(cfg, s, h, b, w, u);
    IssuedExtends(h, b, w, s.now);
    h' := if s.units[u].ready > s.now then h else Issued(h, b, w, s.now);
  }

  lemma VisitIssueTimely(cfg: SmConfig, s: SmState, h: History, b: nat, w: nat, active: set<nat>) returns (h': History)
    requires SmInv.Inv(cfg, s) && AllTimely(s, h) && s.now < INT_MAX && w < cfg.warpLimit && active != {}
    requires Live(s, b, w)
    requires !s.blocks[b][w].Retires() && s.blocks[b][w].point < |s.blocks[b][w].insts|
    requires SmInv.MayIssue(cfg, s, b, w, active)
    ensures var r := VisitWarps(cfg, s, b, w, active); r.Ok? ==> AllTimely(r.value.0, h') && Extends(h, h', s.now)
  {
    CheckedIsReady(cfg, s, b, w);
    VisitIsIssue(cfg, s, b, w, active);
    h' := IssueExtends(cfg, s, h, b, w, Picked(cfg, s, b, w, active));
  }

  /** The visit of one warp: it issues and ends the visit, or the visit goes on. */
  lemma VisitOneTimely(cfg: SmConfig, s: SmState, h: History, b: nat, w: nat, active: set<nat>) returns (h': History)
    requires SmInv.Inv(cfg, s) && AllTimely(s, h) && s.now < INT_MAX && w < cfg.warpLimit && active != {}
    ensures AllTimely(SmInv.AfterVisit(s, b, w), h)
    ensures var r := VisitWarps(cfg, s, b, w, active);
            || r == VisitWarps(cfg, SmInv.AfterVisit(s, b, w), b, w + 1, active)
            || (r.Ok? ==> AllTimely(r.value.0, h') && Extends(h, h', s.now))
  {
    h' := h;
    if Live(s, b, w) {
      if s.blocks[b][w].Retires() {
        RetireTimely(s, h, b, w);
      } else if s.blocks[b][w].point < |s.blocks[b][w].insts| {
        SmInv.VisitIssueSettles(cfg, s, b, w, active);
        if SmInv.MayIssue(cfg, s, b, w, active) { h' := VisitIssueTimely(cfg, s, h, b, w, active); }
      }
    }
  }

  lemma {:induction false} VisitWarpsTimely(cfg: SmConfig, s: SmState, h: History, b: nat, w: nat, active: set<nat>)
    returns (h': History)
    requires SmInv.Inv(cfg, s) && AllTimely(s, h) && s.now < INT_MAX
    ensures var r := VisitWarps(cfg, s, b, w, active); r.Ok? ==> AllTimely(r.value.0, h') && Extends(h, h', s.now)
    decreases if w < cfg.warpLimit then cfg.warpLimit - w else 0
  {
    h' := h;
    ExtendsItself(h, s.now);
    SmInv.InvIsShaped(cfg, s);
    hide *;
    SmInv.VisitWarpsEnd(cfg, s, b, w, active);
    if w < cfg.warpLimit && active != {} {
      h' := VisitOneTimely(cfg, s, h, b, w, active);
      SmInv.VisitOneSettles(cfg, s, b, w, active);
      var rest := VisitWarpsTimely(cfg, SmInv.AfterVisit(s, b, w), h, b, w + 1, active);
      if VisitWarps(cfg, s, b, w, active) == VisitWarps(cfg, SmInv.AfterVisit(s, b, w), b, w + 1, active) {
        h' := rest;
      }
    }
  }

  lemma VisitBlockTimely(cfg: SmConfig, s: SmState, h: History, b: nat, active: set<nat>) returns (h': History)
    requires SmInv.Inv(cfg, s) && AllTimely(s, h) && s.now < INT_MAX
    ensures var r := VisitBlock(cfg, s, b, active); r.Ok? ==> AllTimely(r.value.0, h') && Extends(h, h', s.now)
  {
    h' := h;
    if b in s.blocks { h' := VisitWarpsTimely(cfg, s, h, b, 0, active); }
  }

  lemma {:induction false} VisitBlocksTimely(cfg: SmConfig, s: SmState, h: History, b: nat, active: set<nat>)
    returns (h': History)
    requires SmInv.Inv(cfg, s) && AllTimely(s, h) && s.now < INT_MAX
    ensures var r := VisitBlocks(cfg, s, b, active); r.Ok? ==> AllTimely(r.value, h') && Extends(h, h', s.now)
    decreases if b < |cfg.kernel| then |cfg.kernel| - b else 0
  {
    h' := h;
    ExtendsItself(h, s.now);
    SmInv.InvIsShaped(cfg, s);
    hide *;
    SmInv.VisitBlocksUnfold(cfg, s, b, active);
    if b < |cfg.kernel| && active != {} {
      SmInv.VisitBlockSettles(cfg, s, b, active);
      var h1 := VisitBlockTimely(cfg, s, h, b, active);
      var (s', active') := VisitBlock(cfg, s, b, active).value;
      h' := VisitBlocksTimely(cfg, s', h1, b + 1, active');
      if VisitBlocks(cfg, s', b + 1, active').Ok? { ExtendsTwice(h, h1, h', s.now); }
    }
  }

  // ---------------------------------------------------------------- cycles and runs

  lemma DispatchedTimely(cfg: SmConfig, s: SmState, h: History) returns (h': History)
    requires SmInv.Inv(cfg, s) && AllTimely(s, h) && s.now < INT_MAX
    ensures var s2 := Dispatch(cfg, s);
            var r := VisitBlocks(cfg, s2, 0, ActiveSubcores(cfg, s2));
            r.Ok? ==> AllTimely(r.value, h') && Extends(h, h', s.now)
  {
    DispatchTimely(cfg, s, h);
    SmInv.DispatchSettles(cfg, s);
    h' := VisitBlocksTimely(cfg, Dispatch(cfg, s), h, 0, ActiveSubcores(cfg, Dispatch(cfg, s)));
  }

  lemma CoreTimely(cfg: SmConfig, s: SmState, h: History) returns (h': History)
    requires SmInv.Inv(cfg, s) && AllTimely(s, h) && s.now < INT_MAX
    ensures var r := CorePhase(cfg, s); r.Ok? ==> AllTimely(r.value, h') && Extends(h, h', s.now)
  {
    DeleteTimely(s, h);
    SmInv.DeleteInactiveSettles(cfg, s);
    UnitsTimely(cfg, DeleteInactive(s), h, 0, {});
    SmInv.UnitCyclesSettles(cfg, DeleteInactive(s), 0, {});
    h' := DispatchedTimely(cfg, UnitCycles(cfg, DeleteInactive(s), 0, {}).value, h);
  }

  lemma ActiveTimely(cfg: SmConfig, s: SmState, h: History, input: SmInput) returns (h': History)
    requires SmInv.Inv(cfg, s) && SmInv.ReplyOk(s, input) && AllTimely(s, h) && s.now < INT_MAX
    ensures var r := ActiveCycle(cfg, s, input); r.Ok? ==> AllTimely(r.value, h') && Extends(h, h', s.now)
  {
    MemoryTimely(cfg, s, h, input);
    SmInv.MemoryPhaseSettles(cfg, s, input);
    h' := CoreTimely(cfg, MemoryPhase(cfg, s, input).value, h);
  }

  /** The clock of the SM during a cycle. */
  function ClockOf(cfg: SmConfig, s: SmState, input: SmInput): nat {
    if IsActive(cfg, Arrived(s, input)) then s.now + 1 else s.now
  }

  lemma CycleExtends(cfg: SmConfig, s: SmState, h: History, input: SmInput) returns (h': History)
    requires SmInv.Inv(cfg, s) && SmInv.InputOk(cfg, s, input) && AllTimely(s, h) && s.now + 1 < INT_MAX
    ensures var r := Cycle(cfg, s, input); r.Ok? ==> AllTimely(r.value, h') && Extends(h, h', ClockOf(cfg, s, input))
  {
    var s0 := Arrived(s, input);
    h' := h;
    SameWarps(s, h, s0);
    if IsActive(cfg, s0) {
      SmInv.ArrivedSettles(cfg, s, input);
      SmInv.TickedSettles(cfg, s0, input);
      SameWarps(s0, h, Ticked(s0));
      h' := ActiveTimely(cfg, Ticked(s0), h, input);
    }
  }

  function Cycles(n: int, now: int): (c: seq<int>)
    ensures |c| == (if n < 0 then 0 else n) && forall i :: 0 <= i < |c| ==> c[i] == now
  {
    if n <= 0 then [] else Cycles(n - 1, now) + [now]
  }

  /** The history after a cycle that ends in s: whatever got a completion slot issued in that cycle. */
  ghost function Recorded(h: History, s: SmState): History {
    map b: nat, w: nat | b in s.blocks && w in s.blocks[b]
        :: (b, w) := Of(h, b, w) + Cycles(|s.blocks[b][w].completions| - |Of(h, b, w)|, s.now)
  }

  lemma RecordedIsIt(h: History, h': History, s: SmState, b: nat, w: nat)
    requires Live(s, b, w) && Extends(h, h', s.now) && |Of(h', b, w)| == |s.blocks[b][w].completions|
    ensures Of(Recorded(h, s), b, w) == Of(h', b, w)
  {
    var l, r := Of(Recorded(h, s), b, w), Of(h', b, w);
    assert Of(h, b, w) <= Of(h', b, w);
    assert |l| == |r|;
    forall i | 0 <= i < |l| ensures l[i] == r[i] { }
  }

  lemma RecordedTimely(cfg: SmConfig, h: History, h': History, s: SmState)
    requires AllTimely(s, h') && Extends(h, h', s.now) && SmInv.BlocksOk(cfg, s)
    ensures AllTimely(s, Recorded(h, s))
  {
    forall b, w | Live(s, b, w) ensures Timely(s.blocks[b][w], Of(Recorded(h, s), b, w), s.now) {
      assert Timely(s.blocks[b][w], Of(h', b, w), s.now);
      RecordedIsIt(h, h', s, b, w);
    }
  }

  lemma CycleTimely(cfg: SmConfig, s: SmState, h: History, input: SmInput)
    requires SmInv.Inv(cfg, s) && SmInv.InputOk(cfg, s, input) && AllTimely(s, h) && s.now + 1 < INT_MAX
    ensures var r := Cycle(cfg, s, input); r.Ok? && AllTimely(r.value, Recorded(h, r.value))
  {
    var h' := CycleExtends(cfg, s, h, input);
    SmInv.CycleSettles(cfg, s, input);
    SmInv.CycleClock(cfg, s, input);
    RecordedTimely(cfg, h, h', Cycle(cfg, s, input).value);
  }

  /** The history after a run. */
  ghost function RunHistory(cfg: SmConfig, s: SmState, h: History, inputs: seq<SmInput>): History
    requires Shaped(cfg, s)
    decreases |inputs|
  {
    if inputs == [] then h
    else
      var r := Cycle(cfg, s, inputs[0]);
      if r.Err? then h else RunHistory(cfg, r.value, Recorded(h, r.value), inputs[1..])
  }

  /** Over every run, the cycles in which the instructions of every warp really issued form an honest
      schedule: in order, each of known latency completing exactly that much later, and each issued
      only when all its dependencies of known latency were complete. */
  lemma {:induction false} RunIsTimely(cfg: SmConfig, s: SmState, h: History, inputs: seq<SmInput>)
    requires SmInv.Inv(cfg, s) && AllTimely(s, h) && SmInv.InputsOk(cfg, s, inputs) && s.now + |inputs| < INT_MAX
    ensures var r := SmInv.Run(cfg, s, inputs); r.Ok? && AllTimely(r.value, RunHistory(cfg, s, h, inputs))
    decreases |inputs|
  {
    if inputs != [] {
      CycleTimely(cfg, s, h, inputs[0]);
      SmInv.CycleSettles(cfg, s, inputs[0]);
      var s' := Cycle(cfg, s, inputs[0]).value;
      RunIsTimely(cfg, s', Recorded(h, s'), inputs[1..]);
    }
  }

  // ---------------------------------------------------------------- what it means for EXIT and BAR

  /** The dependency lists of a warp are those of the scoreboard pass over its operands. */
  ghost predicate Scored(x: Warp, code: seq<Scoreboard.Operands>) {
    && |code| == |x.insts|
    && forall i :: 0 <= i < |code| ==> Scoreboard.Names(code, i, x.insts[i].deps)
  }

  /** The instructions of known latency. */
  function Known(x: Warp): set<nat> { set i: nat | i < |x.insts| && Latency(x, i).Some? }

  lemma OnTimeIsHonoured(x: Warp, code: seq<Scoreboard.Operands>, issue: seq<int>, now: int)
    requires Scored(x, code) && OnTime(x, issue, now)
    ensures Scoreboard.Honours(code, |issue|, issue, x.completions, Known(x))
  {
    forall i | 0 <= i < |issue| ensures Scoreboard.IssuedAfter(code, i, issue[i], x.completions, Known(x)) {
      forall d: nat | d < i && d in Known(x) && Scoreboard.DependsOn(code, i, d) ensures x.completions[d] <= issue[i] {
        assert d in x.insts[i].deps;
        var k :| 0 <= k < |x.insts[i].deps| && x.insts[i].deps[k] == d;
        assert DepDone(x, issue, i, x.insts[i].deps[k]);
      }
    }
  }

  /** In any state of a run, for any warp: when an EXIT or BAR issued, every earlier register write of
      known latency was complete.  The EXIT's own issue is its completion time less its latency. */
  lemma IssuedExitFollowsAllWrites(s: SmState, h: History, b: nat, w: nat, code: seq<Scoreboard.Operands>, e: nat,
                                   j: nat)
    requires AllTimely(s, h) && Live(s, b, w) && Scored(s.blocks[b][w], code)
    requires j < e < |s.blocks[b][w].completions|
    requires e < |code| && code[e].waitsForAll && code[e].dests == [] && code[j].dests != []
    requires j in Known(s.blocks[b][w])
    ensures |Of(h, b, w)| == |s.blocks[b][w].completions| <= |s.blocks[b][w].insts|
    ensures var x, issue := s.blocks[b][w], Of(h, b, w);
            && x.completions[j] == issue[j] + Latency(x, j).value <= issue[e]
            && (e in Known(x) ==> issue[e] == x.completions[e] - Latency(x, e).value)
  {
    var x, issue := s.blocks[b][w], Of(h, b, w);
    assert Timely(x, issue, s.now);
    OnTimeIsHonoured(x, code, issue, s.now);
    Scoreboard.ExitWaitsForAllWrites(code, |issue|, issue, x.completions, Known(x), e, j);
  }

  /** The same for the registers that an instruction reads or writes. */
  lemma IssuedFollowsItsOperands(s: SmState, h: History, b: nat, w: nat, code: seq<Scoreboard.Operands>, i: nat, j: nat,
                                 r: Scoreboard.Reg)
    requires AllTimely(s, h) && Live(s, b, w) && Scored(s.blocks[b][w], code)
    requires j < i < |s.blocks[b][w].completions| && i < |code| && r in code[j].dests
    requires (r in code[i].srcs || r in code[i].dests) && j in Known(s.blocks[b][w])
    ensures |Of(h, b, w)| == |s.blocks[b][w].completions|
    ensures s.blocks[b][w].completions[j] <= Of(h, b, w)[i]
  {
    var x, issue := s.blocks[b][w], Of(h, b, w);
    assert Timely(x, issue, s.now);
    OnTimeIsHonoured(x, code, issue, s.now);
    Scoreboard.OperandsAreSettled(code, |issue|, issue, x.completions, Known(x), i, j, r);
  }

  /** The state after the initial spawn is timely, with nothing issued. */
  lemma StartIsTimely(cfg: SmConfig, units: seq<PipelineUnit>, lines: seq<TagStore.Line>, mine: set<nat>, ptr: nat)
    requires SmRuns.FreshSm(cfg, units, lines) && ptr <= |cfg.kernel| && forall b :: b in mine ==> b < ptr
    ensures AllTimely(SmRuns.Spawned(cfg, units, lines, mine, ptr), map[])
  {
    var s := SmRuns.Spawned(cfg, units, lines, mine, ptr);
    forall b: nat, w: nat | Live(s, b, w) ensures Timely(s.blocks[b][w], [], s.now) {
      FreshTimely(cfg.kernel[b][w], s.now);
    }
  }
}
