/** streaming_multiprocessor: one cycle of an SM as functions over its state.  The packets that the
    SM has sent below its L1 and not got back are kept in `below`; faults stand for the exits,
    null dereferences and out-of-range accesses of the source. */
module Sm {
  import opened Wrappers
  import opened CacheConfig
  import opened MemFetch
  import opened Warps
  import Mshr
  import TagStore
  import L1Cache
  import AddressDecode

  const INT_MAX: int := 0x7FFF_FFFF
  const SUBCORES: nat := 4

  /** What a load/store unit is working on: m_inst, m_warp, the completion slot and mem_fetch_point. */
  datatype Held = Held(block: nat, warp: nat, inst: MemInst, ci: nat, point: nat)

  type pos = n: nat | n > 0 witness 1

  datatype PipelineUnit = PipelineUnit(isLds: bool, ready: int, width: pos, held: Option<Held>) {
    /** ready_time += 32 / unit_width. */
    function Occupied(): PipelineUnit { this.(ready := ready + 32 / width) }
  }

  datatype WarpTrace = WarpTrace(insts: seq<Inst>, memInsts: seq<MemInst>)

  type BlockTrace = map<nat, WarpTrace>

  /** unitOf[subcore][class] is the position of a pipeline unit; all warp ids are below warpLimit. */
  datatype SmConfig = SmConfig(l1: L1Cache.L1Config, unitOf: seq<seq<nat>>, ldsClass: nat, maxBlocks: nat, smId: nat,
                               kernel: seq<BlockTrace>, warpLimit: nat, channels: pos, smNum: nat)

  type WarpMap = map<nat, Warp>

  datatype SmState = SmState(now: nat, blocks: map<nat, WarpMap>, banks: seq<seq<Fetch>>, l1: L1Cache.L1State,
                             units: seq<PipelineUnit>, ptr: nat, nextId: nat, below: seq<Fetch>)

  /** What the rest of the GPU contributes to a cycle: the packet popped from the crossbar (a
      position in `below`), room in the crossbar, and the global counters. */
  datatype SmInput = SmInput(reply: Option<nat>, hasBuffer: bool, ptr: nat, nextId: nat)

  type Outcome = Result<SmState, Fault>

  predicate UnitsMapped(cfg: SmConfig, n: nat) {
    && |cfg.unitOf| == SUBCORES
    && (forall sub {:trigger cfg.unitOf[sub]} :: 0 <= sub < SUBCORES ==> cfg.ldsClass < |cfg.unitOf[sub]|)
    && (forall sub, c {:trigger cfg.unitOf[sub][c]} :: 0 <= sub < SUBCORES && 0 <= c < |cfg.unitOf[sub]| ==>
       cfg.unitOf[sub][c] < n)
  }

  /** The tag array and the unit table have the sizes the configuration promises. */
  predicate Shaped(cfg: SmConfig, s: SmState) {
    TagStore.Shape(cfg.l1.cache, s.l1.lines) && UnitsMapped(cfg, |s.units|) && |s.banks| == SECTORS
  }

  /** An SM before the first block arrives. */
  function StartState(units: seq<PipelineUnit>, lines: seq<TagStore.Line>): SmState {
    SmState(0, map[], [[], [], [], []], L1Cache.L1State(lines, map[], [], [], false), units, 0, 0, [])
  }

  // ---------------------------------------------------------------- warps by id

  predicate Live(s: SmState, b: nat, w: nat) { b in s.blocks && w in s.blocks[b] }

  function PutWarp(s: SmState, b: nat, w: nat, x: Warp): SmState
    requires Live(s, b, w)
  {
    var ws: WarpMap := s.blocks[b][w := x];
    s.(blocks := s.blocks[b := ws])
  }

  /** get_block, get_warp and the decrement for one returned request. */
  function Release(s: SmState, f: Fetch): (r: Outcome)
    ensures r.Ok? ==> r.value == s.(blocks := r.value.blocks)
  {
    if f.block !in s.blocks then Err(NoBlock)
    else if f.warp !in s.blocks[f.block] then Err(NullWarp)
    else
      match s.blocks[f.block][f.warp].Decrease(f.ci, s.now)
      case Err(e) => Err(e)
      case Ok(x) => Ok(PutWarp(s, f.block, f.warp, x))
  }

  // ---------------------------------------------------------------- write-back

  /** write_back: hits leave l1_to_sm in order while the front one is ready; a request that
      cannot be decreased is dropped silently. */
  function WriteBackHits(s: SmState): (r: Outcome)
    ensures r.Ok? ==> r.value == s.(blocks := r.value.blocks, l1 := s.l1.(toSm := r.value.l1.toSm))
    decreases |s.l1.toSm|
  {
    if s.l1.toSm == [] || s.l1.toSm[0].l1Ready > s.now then Ok(s)
    else
      var popped := s.(l1 := s.l1.(toSm := s.l1.toSm[1..]));
      match Release(popped, s.l1.toSm[0])
      case Ok(s') => WriteBackHits(s')
      case Err(CannotDecrease) => WriteBackHits(popped)
      case Err(e) => Err(e)
  }

  /** The drain loop of a load reply: release each merged request and fill the sector. */
  function DrainEntry(cfg: SmConfig, s: SmState, f: Fetch): (r: Outcome)
    requires Shaped(cfg, s) && f.sector < SECTORS
    ensures r.Ok? ==> Shaped(cfg, r.value) && r.value.below == s.below && r.value.l1.missQ == s.l1.missQ
    decreases if f.SectorAddr() in s.l1.mshr then 1 + |s.l1.mshr[f.SectorAddr()]| else 0
  {
    var sa := f.SectorAddr();
    if sa !in s.l1.mshr then Ok(s)
    else if s.l1.mshr[sa] == [] then Err(EmptyMshrEntry)
    else
      var popped := s.(l1 := s.l1.(mshr := Mshr.AfterNext(s.l1.mshr, sa)));
      match Release(popped, s.l1.mshr[sa][0])
      case Err(e) => Err(e)
      case Ok(s') =>
        match TagStore.Fill(cfg.l1.cache, s'.l1.lines, f.addr, f.sector, s.now)
        case None => Err(NoFillIndex)
        case Some(lines) => DrainEntry(cfg, s'.(l1 := s'.l1.(lines := lines)), f)
  }

  /** write_back_request_l2. */
  function WriteBackReply(cfg: SmConfig, s: SmState, reply: Option<nat>): (r: Outcome)
    requires Shaped(cfg, s)
    ensures r.Ok? ==> Shaped(cfg, r.value)
  {
    if reply.None? || reply.value >= |s.below| then Ok(s)
    else
      var i := reply.value;
      var f := s.below[i];
      var popped := s.(below := s.below[..i] + s.below[i + 1..]);
      if f.sector >= SECTORS then Err(NoFillIndex)
      else if !f.isWrite then DrainEntry(cfg, popped, f)
      else Release(popped, f)
  }

  // ---------------------------------------------------------------- the L1's part of the cycle

  /** get_mem_sub_partition_id of a request. */
  function Decoded(cfg: SmConfig, f: Fetch): AddressDecode.Decoded {
    AddressDecode.Decode(f.SectorAddr(), cfg.channels, cfg.smNum)
  }

  /** A request on its way below knows its DRAM bank. */
  function Routed(cfg: SmConfig, f: Fetch): Fetch { f.(bank := Decoded(cfg, f).bk) }

  /** m_miss_queue_cycle. */
  function SendMiss(cfg: SmConfig, s: SmState, hasBuffer: bool): SmState {
    if s.l1.missQ == [] || !hasBuffer then s
    else s.(l1 := s.l1.(missQ := s.l1.missQ[1..]), below := s.below + [Routed(cfg, s.l1.missQ[0])])
  }

  /** One bank of l1_cache_cycle: the front request is popped unless the access fails. */
  function AccessBank(cfg: SmConfig, s: SmState, bank: nat): (r: Outcome)
    requires Shaped(cfg, s) && bank < SECTORS
    ensures r.Ok? ==> Shaped(cfg, r.value)
  {
    if s.banks[bank] == [] then Ok(s)
    else
      var f := s.banks[bank][0];
      if f.sector >= SECTORS then Err(ProbeAborted)
      else
        var (status, l1) := L1Cache.Access(cfg.l1, s.l1, f, s.now, s.nextId);
        var copies := if status.AccessHit? && f.isWrite && L1Cache.WritesThrough(cfg.l1, f) then 1 else 0;
        match status
        case AccessAbort => Err(ProbeAborted)
        case AccessFail => Ok(s)
        case _ => Ok(s.(l1 := l1, banks := s.banks[bank := s.banks[bank][1..]], nextId := s.nextId + copies))
  }

  function AccessBanks(cfg: SmConfig, s: SmState, bank: nat): (r: Outcome)
    requires Shaped(cfg, s) && bank <= SECTORS
    ensures r.Ok? ==> Shaped(cfg, r.value) && r.value.below == s.below
    decreases SECTORS - bank
  {
    if bank == SECTORS then Ok(s)
    else
      match AccessBank(cfg, s, bank)
      case Err(e) => Err(e)
      case Ok(s') => AccessBanks(cfg, s', bank + 1)
  }

  // ---------------------------------------------------------------- blocks

  /** del_inactive_block: blocks without warps go. */
  function DeleteInactive(s: SmState): SmState {
    s.(blocks := map b | b in s.blocks && s.blocks[b] != map[] :: s.blocks[b])
  }

  function FreshWarp(t: WarpTrace): Warp { Warp(t.insts, t.memInsts, 0, [], map[], 0, 0) }

  function FreshBlock(t: BlockTrace): WarpMap { map w | w in t :: FreshWarp(t[w]) }

  function DispatchOne(cfg: SmConfig, s: SmState): SmState
    requires s.ptr < |cfg.kernel|
  {
    s.(blocks := s.blocks[s.ptr := FreshBlock(cfg.kernel[s.ptr])], ptr := s.ptr + 1)
  }

  /** The dispatch loop of sm_cycle. */
  function Dispatch(cfg: SmConfig, s: SmState): (s': SmState)
    ensures s' == s.(blocks := s'.blocks, ptr := s'.ptr)
    decreases |cfg.kernel| - s.ptr
  {
    if |s.blocks| < cfg.maxBlocks && s.ptr < |cfg.kernel| then Dispatch(cfg, DispatchOne(cfg, s)) else s
  }

  // ---------------------------------------------------------------- load/store units

  /** The mem_fetch that unit_cycle and process_ATOM_ATOMG build. */
  function NewFetch(cfg: SmConfig, id: nat, isWrite: bool, isAtomic: bool, target: (nat, nat), b: nat, w: nat,
                    ci: nat): Fetch {
    Fetch(id, cfg.smId, isWrite, target.0, target.1, Global, isAtomic, b, w, ci, Normal, Init, false, 0, 0, 0, 0)
  }

  function Enqueue(s: SmState, bank: nat, f: Fetch): SmState
    requires bank < |s.banks|
  {
    s.(banks := s.banks[bank := s.banks[bank] + [f]], nextId := s.nextId + 1)
  }

  /** A warp and a unit change together. */
  function Changed(s: SmState, b: nat, w: nat, x: Warp, u: nat, unit: PipelineUnit): SmState
    requires Live(s, b, w) && u < |s.units|
  {
    PutWarp(s, b, w, x).(units := s.units[u := unit])
  }

  predicate LastRequest(h: Held) { h.point + 1 == |h.inst.coalesced| }

  /** The warp after one more request; the last one ends the instruction. */
  function Requesting(x: Warp, h: Held): Warp {
    if LastRequest(h) then x.Increase(h.ci).(pendingInst := x.pendingInst - 1) else x.Increase(h.ci)
  }

  function UnitAfterRequest(unit: PipelineUnit, h: Held, now: nat): PipelineUnit {
    if LastRequest(h) then unit.(ready := now, held := None) else unit.(held := Some(h.(point := h.point + 1)))
  }

  /** sm_unit::unit_cycle with the busy banks of this cycle. */
  function UnitCycle(cfg: SmConfig, s: SmState, u: nat, busy: set<nat>): (r: (Outcome, set<nat>))
    requires Shaped(cfg, s) && u < |s.units|
    ensures r.0.Ok? ==> Shaped(cfg, r.0.value) && r.0.value.l1 == s.l1 && r.0.value.below == s.below
  {
    var unit := s.units[u];
    if !unit.isLds || unit.held.None? then (Ok(s), busy)
    else
      var h := unit.held.value;
      if h.point >= |h.inst.coalesced| then (Ok(s), busy)
      else
        var target := h.inst.coalesced[h.point];
        if target.1 in busy then (Ok(s), busy)
        else if target.1 >= |s.banks| then (Err(BadBank), busy)
        else if !Live(s, h.block, h.warp) then (Err(NullWarp), busy)
        else
          var f := NewFetch(cfg, s.nextId, !h.inst.isLoad, false, target, h.block, h.warp, h.ci);
          var s' := Changed(s, h.block, h.warp, Requesting(s.blocks[h.block][h.warp], h), u,
              UnitAfterRequest(unit, h, s.now));
          (Ok(Enqueue(s', target.1, f)), busy + {target.1})
  }

  /** The LDS unit of every subcore from `sub` on. */
  function UnitCycles(cfg: SmConfig, s: SmState, sub: nat, busy: set<nat>): (r: Outcome)
    requires sub <= SUBCORES && Shaped(cfg, s)
    ensures r.Ok? ==> Shaped(cfg, r.value) && r.value.l1 == s.l1 && r.value.below == s.below
    decreases SUBCORES - sub
  {
    if sub == SUBCORES then Ok(s)
    else
      var (r, busy') := UnitCycle(cfg, s, cfg.unitOf[sub][cfg.ldsClass], busy);
      match r
      case Err(e) => Err(e)
      case Ok(s') => UnitCycles(cfg, s', sub + 1, busy')
  }

  // ---------------------------------------------------------------- issue

  /** check_dependency over the first n dependencies, last one first. */
  function DepsReady(completions: seq<int>, deps: seq<int>, n: nat, now: int): Result<bool, Fault>
    requires n <= |deps|
  {
    if n == 0 then Ok(true)
    else if !(0 <= deps[n - 1] < |completions|) then Err(BadDependency)
    else if now < completions[deps[n - 1]] then Ok(false)
    else DepsReady(completions, deps, n - 1, now)
  }

  /** The latency of a shared-memory access by its number of active threads. */
  function SharedLatency(threads: int): int {
    if threads < 2 then 8 else if threads < 4 then 10 else if threads < 8 then 14
    else if threads < 16 then 22 else if threads < 32 then 37 else 69
  }

  /** Queue one request of an atomic instruction for each of its sectors. */
  function QueueAtomics(cfg: SmConfig, s: SmState, b: nat, w: nat, ci: nat, targets: seq<(nat, nat)>): (r: Outcome)
    requires Shaped(cfg, s) && Live(s, b, w)
    ensures r.Ok? ==> Shaped(cfg, r.value) && Live(r.value, b, w) && r.value.l1 == s.l1 && r.value.below == s.below
    decreases |targets|
  {
    if targets == [] then Ok(s)
    else
      if targets[0].1 >= |s.banks| then Err(BadBank)
      else
        var f := NewFetch(cfg, s.nextId, true, true, targets[0], b, w, ci);
        QueueAtomics(cfg, Enqueue(PutWarp(s, b, w, s.blocks[b][w].Increase(ci)), targets[0].1, f), b, w, ci,
            targets[1..])
  }

  /** The warp with a new completion time. */
  function Completing(x: Warp, time: int): Warp { x.(completions := x.completions + [time]) }

  /** A fixed-latency instruction: the unit is occupied and the completion time is known. */
  function IssueFixed(s: SmState, b: nat, w: nat, u: nat, latency: int): SmState
    requires Live(s, b, w) && u < |s.units|
  {
    Changed(s, b, w, Completing(s.blocks[b][w], s.now + latency), u, s.units[u].Occupied())
  }

  /** A global access hands its record to the unit until every request is out. */
  function IssueGlobal(s: SmState, b: nat, w: nat, u: nat, m: MemInst): SmState
    requires Live(s, b, w) && u < |s.units|
  {
    var x := s.blocks[b][w];
    Changed(s, b, w, Completing(x, INT_MAX).(pendingInst := x.pendingInst + 1),
            u, s.units[u].(ready := INT_MAX, held := Some(Held(b, w, m, |x.completions|, 0))))
  }

  /** process_ATOM_ATOMG: every request is queued at once. */
  function IssueAtomic(cfg: SmConfig, s: SmState, b: nat, w: nat, u: nat, m: MemInst): (r: Outcome)
    requires Shaped(cfg, s) && Live(s, b, w) && u < |s.units|
    ensures r.Ok? ==> Shaped(cfg, r.value) && Live(r.value, b, w) && r.value.l1 == s.l1 && r.value.below == s.below
  {
    var x, unit := s.blocks[b][w], s.units[u];
    QueueAtomics(cfg, Changed(s, b, w, Completing(x, INT_MAX), u, unit.(ready := unit.ready + 4)),
                 b, w, |x.completions|, m.coalesced)
  }

  /** LdStInst::process. */
  function ProcessLds(cfg: SmConfig, s: SmState, b: nat, w: nat, u: nat, inst: Inst): (r: Outcome)
    requires Shaped(cfg, s) && Live(s, b, w) && u < |s.units|
    ensures r.Ok? ==> Shaped(cfg, r.value) && Live(r.value, b, w) && r.value.l1 == s.l1 && r.value.below == s.below
  {
    var m := FindMemInst(s.blocks[b][w].memInsts, inst.pc, inst.pcIndex, 0);
    match inst.kind
    case GlobalAccess =>
      if m.None? || inst.activeThreads == 0 || m.value.coalesced == [] then Ok(IssueFixed(s, b, w, u, 1))
      else Ok(IssueGlobal(s, b, w, u, m.value))
    case SharedAccess => Ok(IssueFixed(s, b, w, u, SharedLatency(inst.activeThreads)))
    case AtomicAccess =>
      if m.None? then Err(NullMemInst)
      else IssueAtomic(cfg, s, b, w, u, m.value)
    case OtherAccess => Ok(IssueFixed(s, b, w, u, inst.latency))
  }

  function AdvancePoint(s: SmState, b: nat, w: nat): SmState
    requires Live(s, b, w)
  {
    PutWarp(s, b, w, s.blocks[b][w].(point := s.blocks[b][w].point + 1))
  }

  /** issue_inst with one dispatch unit per warp. */
  function Issue(cfg: SmConfig, s: SmState, b: nat, w: nat, u: nat): (r: Outcome)
    requires Shaped(cfg, s) && Live(s, b, w) && u < |s.units|
    requires s.blocks[b][w].point < |s.blocks[b][w].insts|
    ensures r.Ok? ==> Shaped(cfg, r.value) && r.value.l1 == s.l1 && r.value.below == s.below
  {
    var inst := s.blocks[b][w].insts[s.blocks[b][w].point];
    if s.units[u].ready > s.now then Ok(s)
    else
      match (if inst.isLds then ProcessLds(cfg, s, b, w, u, inst) else Ok(IssueFixed(s, b, w, u, inst.latency)))
      case Err(e) => Err(e)
      case Ok(s') => Ok(AdvancePoint(s', b, w))
  }

  predicate UnitReady(cfg: SmConfig, s: SmState, sub: nat, c: nat)
    requires Shaped(cfg, s) && sub < SUBCORES
  {
    c < |cfg.unitOf[sub]| && s.units[cfg.unitOf[sub][c]].ready <= s.now
  }

  /** The first active subcore from `sub` on whose unit for class c is ready. */
  function PickSubcore(cfg: SmConfig, s: SmState, active: set<nat>, c: nat, sub: nat): (r: Option<nat>)
    requires Shaped(cfg, s) && sub <= SUBCORES
    ensures r.Some? ==> r.value < SUBCORES && r.value in active && UnitReady(cfg, s, r.value, c)
    decreases SUBCORES - sub
  {
    if sub == SUBCORES then None
    else if sub in active && UnitReady(cfg, s, sub, c) then Some(sub)
    else PickSubcore(cfg, s, active, c, sub + 1)
  }

  function WithoutWarp(s: SmState, b: nat, w: nat): SmState
    requires b in s.blocks
  {
    s.(blocks := s.blocks[b := s.blocks[b] - {w}])
  }

  /** The warps of block b from id w on: retire, skip, or issue one and stop. */
  function VisitWarps(cfg: SmConfig, s: SmState, b: nat, w: nat, active: set<nat>)
    : (r: Result<(SmState, set<nat>), Fault>)
    requires Shaped(cfg, s)
    ensures r.Ok? ==> Shaped(cfg, r.value.0) && r.value.0.l1 == s.l1 && r.value.0.below == s.below
    decreases if w < cfg.warpLimit then cfg.warpLimit - w else 0
  {
    if w >= cfg.warpLimit || active == {} then Ok((s, active))
    else if !Live(s, b, w) then VisitWarps(cfg, s, b, w + 1, active)
    else
      var x := s.blocks[b][w];
      if x.Retires() then VisitWarps(cfg, WithoutWarp(s, b, w), b, w + 1, active)
      else if x.point >= |x.insts| then VisitWarps(cfg, s, b, w + 1, active)
      else
        match DepsReady(x.completions, x.insts[x.point].deps, |x.insts[x.point].deps|, s.now)
        case Err(e) => Err(e)
        case Ok(ready) =>
          var sub := PickSubcore(cfg, s, active, x.insts[x.point].unitClass, 0);
          if !ready || sub.None? then VisitWarps(cfg, s, b, w + 1, active)
          else
            match Issue(cfg, s, b, w, cfg.unitOf[sub.value][x.insts[x.point].unitClass])
            case Err(e) => Err(e)
            case Ok(s') => Ok((s', active - {sub.value}))
  }

  /** The visit of block b, if the SM holds it. */
  function VisitBlock(cfg: SmConfig, s: SmState, b: nat, active: set<nat>): (r: Result<(SmState, set<nat>), Fault>)
    requires Shaped(cfg, s)
    ensures r.Ok? ==> Shaped(cfg, r.value.0) && r.value.0.l1 == s.l1 && r.value.0.below == s.below
  {
    if b in s.blocks then VisitWarps(cfg, s, b, 0, active) else Ok((s, active))
  }

  /** schedule_warps_in_subcores from block b on. */
  function VisitBlocks(cfg: SmConfig, s: SmState, b: nat, active: set<nat>): (r: Outcome)
    requires Shaped(cfg, s)
    ensures r.Ok? ==> Shaped(cfg, r.value) && r.value.l1 == s.l1 && r.value.below == s.below
    decreases if b < |cfg.kernel| then |cfg.kernel| - b else 0
  {
    if b >= |cfg.kernel| || active == {} then Ok(s)
    else
      match VisitBlock(cfg, s, b, active)
      case Err(e) => Err(e)
      case Ok((s', active')) => VisitBlocks(cfg, s', b + 1, active')
  }

  function ActiveSubcores(cfg: SmConfig, s: SmState): set<nat>
    requires Shaped(cfg, s)
  {
    set sub | 0 <= sub < SUBCORES && exists c | 0 <= c < |cfg.unitOf[sub]| :: UnitReady(cfg, s, sub, c)
  }

  // ---------------------------------------------------------------- one cycle

  /** sm_active: some warp is left, or some block is not yet dispatched. */
  predicate IsActive(cfg: SmConfig, s: SmState) {
    (exists b | b in s.blocks :: s.blocks[b] != map[]) || s.ptr < |cfg.kernel|
  }

  /** l1_cache_cycle. */
  function L1Cycle(cfg: SmConfig, s: SmState, hasBuffer: bool): (r: Outcome)
    requires Shaped(cfg, s)
    ensures r.Ok? ==> Shaped(cfg, r.value)
  {
    AccessBanks(cfg, SendMiss(cfg, s, hasBuffer), 0)
  }

  /** The memory half of sm_cycle: both write-backs and the L1. */
  function MemoryPhase(cfg: SmConfig, s: SmState, input: SmInput): (r: Outcome)
    requires Shaped(cfg, s)
    ensures r.Ok? ==> Shaped(cfg, r.value)
  {
    match WriteBackHits(s)
    case Err(e) => Err(e)
    case Ok(s1) =>
      match WriteBackReply(cfg, s1, input.reply)
      case Err(e) => Err(e)
      case Ok(s2) => L1Cycle(cfg, s2, input.hasBuffer)
  }

  /** The core half of sm_cycle: block deletion, load/store units, dispatch and issue. */
  function CorePhase(cfg: SmConfig, s: SmState): (r: Outcome)
    requires Shaped(cfg, s)
    ensures r.Ok? ==> Shaped(cfg, r.value) && r.value.l1 == s.l1 && r.value.below == s.below
  {
    match UnitCycles(cfg, DeleteInactive(s), 0, {})
    case Err(e) => Err(e)
    case Ok(s1) =>
      var s2 := Dispatch(cfg, s1);
      VisitBlocks(cfg, s2, 0, ActiveSubcores(cfg, s2))
  }

  function ActiveCycle(cfg: SmConfig, s: SmState, input: SmInput): (r: Outcome)
    requires Shaped(cfg, s)
    ensures r.Ok? ==> Shaped(cfg, r.value)
  {
    match MemoryPhase(cfg, s, input)
    case Err(e) => Err(e)
    case Ok(s1) => CorePhase(cfg, s1)
  }

  /** The counters that all SMs share, as the SM finds them. */
  function Arrived(s: SmState, input: SmInput): SmState { s.(ptr := input.ptr, nextId := input.nextId) }

  function Ticked(s: SmState): SmState { s.(now := s.now + 1) }

  /** sm_cycle; an inactive SM does nothing. */
  function Cycle(cfg: SmConfig, s: SmState, input: SmInput): (r: Outcome)
    requires Shaped(cfg, s)
    ensures r.Ok? ==> Shaped(cfg, r.value)
  {
    var s0 := Arrived(s, input);
    if IsActive(cfg, s0) then ActiveCycle(cfg, Ticked(s0), input) else Ok(s0)
  }
}
