/** The streaming_multiprocessor class.  Every method is proved equal to its function in Sm, so
    what SmInv proves about whole runs holds of the object. */
module StreamingMultiprocessors {
  import opened Wrappers
  import opened CacheConfig
  import opened MemFetch
  import opened Warps
  import opened Sm
  import AddressDecode
  import L1Cache
  import L1DataCaches
  import SmInv
  import TagStore

  class StreamingMultiprocessor {
    const cfg: SmConfig
    const l1: L1DataCaches.L1DataCache
    var now: nat
    var blocks: map<nat, WarpMap>
    var banks: seq<seq<Fetch>>
    var units: seq<PipelineUnit>
    var ptr: nat
    var nextId: nat
    var below: seq<Fetch>

    constructor (cfg: SmConfig, units: seq<PipelineUnit>)
      requires GoodSets(cfg.l1.cache) && UnitsMapped(cfg, |units|)
      ensures Valid() && fresh(l1) && fresh(l1.mshrs) && fresh(l1.tags.lines) && this.cfg == cfg
      ensures View() == StartState(units, View().l1.lines)
      ensures forall i :: 0 <= i < |View().l1.lines| ==> View().l1.lines[i] == TagStore.FRESH_LINE
    {
      this.cfg := cfg;
      l1 := new L1DataCaches.L1DataCache(cfg.l1);
      now, blocks, this.units, ptr, nextId, below := 0, map[], units, 0, 0, [];
      banks := [[], [], [], []];
    }

    ghost predicate Valid()
      reads this, l1, l1.mshrs, l1.tags.lines
    {
      l1.Valid() && l1.cfg == cfg.l1 && UnitsMapped(cfg, |units|) && |banks| == SECTORS
    }

    ghost function View(): SmState
      reads this, l1, l1.mshrs, l1.tags.lines
    {
      SmState(now, blocks, banks, l1.State(), units, ptr, nextId, below)
    }

    /** The object is where the function says, or the error is the function's fault. */
    ghost predicate Reached(o: Outcome, e: Option<Fault>)
      reads this, l1, l1.mshrs, l1.tags.lines
    {
      match o
      case Ok(s) => e.None? && View() == s
      case Err(x) => e == Some(x)
    }

    /** get_block, get_warp, pending_request_can_decrease, decrease_pending_request. */
    method Release(f: Fetch) returns (e: Option<Fault>)
      modifies this
      ensures Reached(Sm.Release(old(View()), f), e)
      ensures e.Some? ==> View() == old(View())
    {
      if f.block !in blocks { return Some(NoBlock); }
      if f.warp !in blocks[f.block] { return Some(NullWarp); }
      var r := blocks[f.block][f.warp].Decrease(f.ci, now);
      if r.Err? { return Some(r.error); }
      var ws: WarpMap := blocks[f.block][f.warp := r.value];
      blocks := blocks[f.block := ws];
      e := None;
    }

    /** write_back. */
    method WriteBack() returns (e: Option<Fault>)
      requires Valid()
      modifies this, l1
      ensures Valid() && Reached(WriteBackHits(old(View())), e)
    {
      while l1.toSm != [] && l1.toSm[0].l1Ready <= now
        invariant Valid() && WriteBackHits(View()) == WriteBackHits(old(View()))
        decreases |l1.toSm|
      {
        var f := l1.toSm[0];
        l1.toSm := l1.toSm[1..];
        var err := Release(f);
        if err.Some? && !err.value.CannotDecrease? { return err; }
      }
      e := None;
    }

    /** write_back_request_l2. */
    method WriteBackRequestL2(reply: Option<nat>) returns (e: Option<Fault>)
      requires Valid()
      modifies this, l1, l1.mshrs, l1.tags.lines
      ensures Valid() && Reached(WriteBackReply(cfg, old(View()), reply), e)
    {
      if reply.None? || reply.value >= |below| { return None; }
      var f := below[reply.value];
      below := below[..reply.value] + below[reply.value + 1..];
      if f.sector >= SECTORS { return Some(NoFillIndex); }
      if f.isWrite {
        e := Release(f);
      } else {
        e := Drain(f);
      }
    }

    method Drain(f: Fetch) returns (e: Option<Fault>)
      requires Valid() && f.sector < SECTORS
      modifies this, l1, l1.mshrs, l1.tags.lines
      ensures Valid() && Reached(DrainEntry(cfg, old(View()), f), e)
    {
      var sa := f.SectorAddr();
      while l1.mshrs.Probe(sa)
        invariant Valid() && DrainEntry(cfg, View(), f) == DrainEntry(cfg, old(View()), f)
        decreases if sa in l1.mshrs.table then 1 + |l1.mshrs.table[sa]| else 0
      {
        if l1.mshrs.table[sa] == [] { return Some(EmptyMshrEntry); }
        var next := l1.mshrs.NextAccess(sa);
        e := Release(next);
        if e.Some? { return e; }
        var ok := l1.tags.Fill(f.addr, f.sector, now);
        if !ok { return Some(NoFillIndex); }
      }
      e := None;
    }

    /** m_miss_queue_cycle. */
    method MissQueueCycle(hasBuffer: bool)
      requires Valid()
      modifies this, l1
      ensures Valid() && View() == SendMiss(cfg, old(View()), hasBuffer)
    {
      if l1.missQ == [] { return; }
      var f := l1.missQ[0];
      var decoded := AddressDecode.GetMemSubPartitionId(f.SectorAddr(), cfg.channels, cfg.smNum);
      if hasBuffer {
        below := below + [f.(bank := decoded.bk)];
        l1.missQ := l1.missQ[1..];
      }
    }

    /** l1_cache_cycle. */
    method L1CacheCycle(hasBuffer: bool) returns (e: Option<Fault>)
      requires Valid()
      modifies this, l1, l1.mshrs, l1.tags.lines
      ensures Valid() && Reached(L1Cycle(cfg, old(View()), hasBuffer), e)
    {
      MissQueueCycle(hasBuffer);
      e := BankCycles();
    }

    /** The loop over the bank queues. */
    method BankCycles() returns (e: Option<Fault>)
      requires Valid()
      modifies this, l1, l1.mshrs, l1.tags.lines
      ensures Valid() && Reached(AccessBanks(cfg, old(View()), 0), e)
    {
      var bank := 0;
      while bank < SECTORS
        invariant bank <= SECTORS && Valid()
        invariant AccessBanks(cfg, View(), bank) == AccessBanks(cfg, old(View()), 0)
      {
        e := BankCycle(bank);
        if e.Some? { return e; }
        bank := bank + 1;
      }
      e := None;
    }

    method BankCycle(bank: nat) returns (e: Option<Fault>)
      requires Valid() && bank < SECTORS
      modifies this, l1, l1.mshrs, l1.tags.lines
      ensures Valid() && Reached(AccessBank(cfg, old(View()), bank), e)
    {
      if banks[bank] == [] { return None; }
      var f := banks[bank][0];
      if f.sector >= SECTORS { return Some(ProbeAborted); }
      var status := l1.CacheAccess(f, now, nextId);
      if status.AccessAbort? { return Some(ProbeAborted); }
      if status.AccessFail? { return None; }
      if status.AccessHit? && f.isWrite && L1Cache.WritesThrough(cfg.l1, f) { nextId := nextId + 1; }
      banks := banks[bank := banks[bank][1..]];
      e := None;
    }

    /** del_inactive_block. */
    method DelInactiveBlocks()
      requires Valid()
      modifies this
      ensures Valid() && View() == DeleteInactive(old(View()))
    {
      var todo, kept := blocks.Keys, blocks;
      while |todo| > 0
        invariant todo <= blocks.Keys && blocks == old(blocks) && View() == old(View())
        invariant kept == map b | b in blocks && (b in todo || blocks[b] != map[]) :: blocks[b]
        decreases |todo|
      {
        var b :| b in todo;
        if blocks[b] == map[] { kept := kept - {b}; }
        todo := todo - {b};
      }
      blocks := kept;
    }

    method PutWarp(b: nat, w: nat, x: Warp)
      requires Live(View(), b, w)
      modifies this
      ensures View() == Sm.PutWarp(old(View()), b, w, x)
    {
      var ws: WarpMap := blocks[b][w := x];
      blocks := blocks[b := ws];
    }

    /** sm_unit::unit_cycle with the busy flags of the bank queues. */
    method UnitCycle(u: nat, busy: set<nat>) returns (e: Option<Fault>, busy': set<nat>)
      requires Valid() && u < |units|
      modifies this
      ensures Valid() && busy' == Sm.UnitCycle(cfg, old(View()), u, busy).1
      ensures Reached(Sm.UnitCycle(cfg, old(View()), u, busy).0, e)
    {
      e, busy' := None, busy;
      var unit := units[u];
      if !unit.isLds || unit.held.None? { return; }
      var h := unit.held.value;
      if h.point >= |h.inst.coalesced| { return; }
      var target := h.inst.coalesced[h.point];
      if target.1 in busy { return; }
      if target.1 >= |banks| { return Some(BadBank), busy; }
      if h.block !in blocks || h.warp !in blocks[h.block] { return Some(NullWarp), busy; }
      var f := NewFetch(cfg, nextId, !h.inst.isLoad, false, target, h.block, h.warp, h.ci);
      nextId := nextId + 1;
      banks := banks[target.1 := banks[target.1] + [f]];
      busy' := busy + {target.1};
      var x := blocks[h.block][h.warp].Increase(h.ci);
      if h.point + 1 == |h.inst.coalesced| {
        x := x.(pendingInst := x.pendingInst - 1);
        unit := unit.(ready := now, held := None);
      } else {
        unit := unit.(held := Some(h.(point := h.point + 1)));
      }
      PutWarp(h.block, h.warp, x);
      units := units[u := unit];
    }

    method LoadStoreCycle() returns (e: Option<Fault>)
      requires Valid()
      modifies this
      ensures Valid() && Reached(UnitCycles(cfg, old(View()), 0, {}), e)
    {
      var busy: set<nat> := {};
      var sub := 0;
      while sub < SUBCORES
        invariant sub <= SUBCORES && Valid()
        invariant UnitCycles(cfg, View(), sub, busy) == UnitCycles(cfg, old(View()), 0, {})
      {
        e, busy := UnitCycle(cfg.unitOf[sub][cfg.ldsClass], busy);
        if e.Some? { return e; }
        sub := sub + 1;
      }
      e := None;
    }

    /** The next block of the kernel, with fresh warps. */
    method DispatchNext()
      requires Valid() && ptr < |cfg.kernel|
      modifies this
      ensures Valid() && View() == DispatchOne(cfg, old(View()))
    {
      blocks := blocks[ptr := FreshBlock(cfg.kernel[ptr])];
      ptr := ptr + 1;
    }

    /** The dispatch loop of sm_cycle. */
    method DispatchBlocks()
      requires Valid()
      modifies this
      ensures Valid() && View() == Dispatch(cfg, old(View()))
    {
      while |blocks| < cfg.maxBlocks && ptr < |cfg.kernel|
        invariant Valid() && Dispatch(cfg, View()) == Dispatch(cfg, old(View()))
        decreases |cfg.kernel| - ptr
      {
        DispatchNext();
      }
    }

    /** check_dependency. */
    method CheckDependency(completions: seq<int>, deps: seq<int>) returns (r: Result<bool, Fault>)
      ensures r == DepsReady(completions, deps, |deps|, now)
    {
      var i := |deps| - 1;
      while i >= 0
        invariant -1 <= i < |deps|
        invariant DepsReady(completions, deps, i + 1, now) == DepsReady(completions, deps, |deps|, now)
        decreases i
      {
        if !(0 <= deps[i] < |completions|) { return Err(BadDependency); }
        if now < completions[deps[i]] { return Ok(false); }
        i := i - 1;
      }
      r := Ok(true);
    }

    /** One request of an atomic instruction. */
    method QueueAtomic(b: nat, w: nat, ci: nat, target: (nat, nat))
      requires Valid() && Live(View(), b, w) && target.1 < |banks|
      modifies this
      ensures Valid() && Live(View(), b, w)
      ensures var s := old(View());
              View() == Enqueue(Sm.PutWarp(s, b, w, s.blocks[b][w].Increase(ci)), target.1,
                                NewFetch(cfg, s.nextId, true, true, target, b, w, ci))
    {
      var f := NewFetch(cfg, nextId, true, true, target, b, w, ci);
      PutWarp(b, w, blocks[b][w].Increase(ci));
      nextId := nextId + 1;
      banks := banks[target.1 := banks[target.1] + [f]];
    }

    /** process_ATOM_ATOMG's loop over the sectors. */
    method QueueAtomics(b: nat, w: nat, ci: nat, targets: seq<(nat, nat)>) returns (e: Option<Fault>)
      requires Valid() && Live(View(), b, w)
      modifies this
      ensures Valid() && Reached(Sm.QueueAtomics(cfg, old(View()), b, w, ci, targets), e)
    {
      var i := 0;
      while i < |targets|
        invariant i <= |targets| && Valid() && Live(View(), b, w)
        invariant Sm.QueueAtomics(cfg, View(), b, w, ci, targets[i..])
                  == Sm.QueueAtomics(cfg, old(View()), b, w, ci, targets)
      {
        if targets[i].1 >= |banks| { return Some(BadBank); }
        QueueAtomic(b, w, ci, targets[i]);
        assert targets[i..][1..] == targets[i + 1..];
        i := i + 1;
      }
      e := None;
    }

    method Change(b: nat, w: nat, x: Warp, u: nat, unit: PipelineUnit)
      requires Valid() && Live(View(), b, w) && u < |units|
      modifies this
      ensures Valid() && View() == Changed(old(View()), b, w, x, u, unit)
    {
      PutWarp(b, w, x);
      units := units[u := unit];
    }

    /** The latency table of process_LDS_STS_ATOMS. */
    method SharedMemoryLatency(threads: int) returns (latency: int)
      ensures latency == SharedLatency(threads)
    {
      if threads < 2 {
        latency := 8;
      } else if threads < 4 {
        latency := 10;
      } else if threads < 8 {
        latency := 14;
      } else if threads < 16 {
        latency := 22;
      } else if threads < 32 {
        latency := 37;
      } else {
        latency := 69;
      }
    }

    /** LdStInst::process. */
    method ProcessLds(b: nat, w: nat, u: nat, inst: Inst) returns (e: Option<Fault>)
      requires Valid() && Live(View(), b, w) && u < |units|
      modifies this
      ensures Valid() && Reached(Sm.ProcessLds(cfg, old(View()), b, w, u, inst), e)
    {
      var x, unit := blocks[b][w], units[u];
      var m := GetMemInst(x.memInsts, inst.pc, inst.pcIndex);
      e := None;
      match inst.kind
      case GlobalAccess =>
        if m.None? || inst.activeThreads == 0 || m.value.coalesced == [] {
          Change(b, w, Completing(x, now + 1), u, unit.(ready := unit.ready + 32 / unit.width));
        } else {
          Change(b, w, Completing(x, INT_MAX).(pendingInst := x.pendingInst + 1),
                 u, unit.(ready := INT_MAX, held := Some(Held(b, w, m.value, |x.completions|, 0))));
        }
      case SharedAccess =>
        var latency := SharedMemoryLatency(inst.activeThreads);
        Change(b, w, Completing(x, now + latency), u, unit.(ready := unit.ready + 32 / unit.width));
      case AtomicAccess =>
        if m.None? { return Some(NullMemInst); }
        Change(b, w, Completing(x, INT_MAX), u, unit.(ready := unit.ready + 4));
        e := QueueAtomics(b, w, |x.completions|, m.value.coalesced);
      case OtherAccess => Change(b, w, Completing(x, now + inst.latency), u,
          unit.(ready := unit.ready + 32 / unit.width));
    }

    /** issue_inst. */
    method IssueInst(b: nat, w: nat, u: nat) returns (e: Option<Fault>)
      requires Valid() && Live(View(), b, w) && u < |units| && blocks[b][w].point < |blocks[b][w].insts|
      modifies this
      ensures Valid() && Reached(Issue(cfg, old(View()), b, w, u), e)
    {
      var x := blocks[b][w];
      var inst := x.insts[x.point];
      if units[u].ready > now { return None; }
      if inst.isLds {
        e := ProcessLds(b, w, u, inst);
        if e.Some? { return; }
      } else {
        e := None;
        Change(b, w, Completing(x, now + inst.latency), u, units[u].(ready := units[u].ready + 32 / units[u].width));
      }
      PutWarp(b, w, blocks[b][w].(point := blocks[b][w].point + 1));
    }

    /** The search for a subcore whose unit is ready. */
    method FindSubcore(active: set<nat>, c: nat) returns (r: Option<nat>)
      requires Valid()
      ensures r == PickSubcore(cfg, View(), active, c, 0)
    {
      var sub := 0;
      while sub < SUBCORES
        invariant sub <= SUBCORES
        invariant PickSubcore(cfg, View(), active, c, sub) == PickSubcore(cfg, View(), active, c, 0)
      {
        if sub in active && c < |cfg.unitOf[sub]| && units[cfg.unitOf[sub][c]].ready <= now { return Some(sub); }
        sub := sub + 1;
      }
      r := None;
    }

    /** The warps of one block: retire finished ones, issue at most one instruction. */
    method ScheduleBlock(b: nat, free: set<nat>) returns (e: Option<Fault>, active: set<nat>)
      requires Valid()
      modifies this
      ensures Valid()
      ensures match VisitWarps(cfg, old(View()), b, 0, free)
              case Ok(r) => e.None? && View() == r.0 && active == r.1
              case Err(x) => e == Some(x)
    {
      active := free;
      var w := 0;
      while w < cfg.warpLimit && active != {}
        invariant Valid() && VisitWarps(cfg, View(), b, w, active) == VisitWarps(cfg, old(View()), b, 0, free)
        decreases if w < cfg.warpLimit then cfg.warpLimit - w else 0
      {
        if b in blocks && w in blocks[b] {
          var x := blocks[b][w];
          if x.Retires() {
            blocks := blocks[b := blocks[b] - {w}];
          } else if x.point < |x.insts| {
            var inst := x.insts[x.point];
            var ready := CheckDependency(x.completions, inst.deps);
            if ready.Err? { return Some(ready.error), active; }
            var sub := FindSubcore(active, inst.unitClass);
            if ready.value && sub.Some? {
              e := IssueInst(b, w, cfg.unitOf[sub.value][inst.unitClass]);
              active := active - {sub.value};
              return;
            }
          }
        }
        w := w + 1;
      }
      e := None;
    }

    /** schedule_warps_in_subcores. */
    method ScheduleWarpsInSubcores() returns (e: Option<Fault>)
      requires Valid()
      modifies this
      ensures Valid() && Reached(VisitBlocks(cfg, old(View()), 0, ActiveSubcores(cfg, old(View()))), e)
    {
      var active := FreeSubcores();
      var b := 0;
      while b < |cfg.kernel| && active != {}
        invariant Valid()
        invariant VisitBlocks(cfg, View(), b, active)
                  == VisitBlocks(cfg, old(View()), 0, ActiveSubcores(cfg, old(View())))
        decreases |cfg.kernel| - b
      {
        if b in blocks {
          e, active := ScheduleBlock(b, active);
          if e.Some? { return; }
        }
        b := b + 1;
      }
      e := None;
    }

    method FreeSubcores() returns (active: set<nat>)
      requires Valid()
      ensures active == ActiveSubcores(cfg, View())
    {
      active := {};
      var sub := 0;
      while sub < SUBCORES
        invariant sub <= SUBCORES
        invariant active == set k | k in ActiveSubcores(cfg, View()) && k < sub
      {
        var c, found := 0, false;
        while c < |cfg.unitOf[sub]| && !found
          invariant c <= |cfg.unitOf[sub]|
          invariant found <==> exists k | 0 <= k < c :: UnitReady(cfg, View(), sub, k)
        {
          found := units[cfg.unitOf[sub][c]].ready <= now;
          assert found == UnitReady(cfg, View(), sub, c);
          c := c + 1;
        }
        if found { active := active + {sub}; }
        sub := sub + 1;
      }
    }

    /** sm_active. */
    method SmActive() returns (active: bool)
      ensures active == IsActive(cfg, View())
    {
      var todo := blocks.Keys;
      while |todo| > 0
        invariant todo <= blocks.Keys && forall b :: b in blocks && b !in todo ==> blocks[b] == map[]
        decreases |todo|
      {
        var b :| b in todo;
        if blocks[b] != map[] { return true; }
        todo := todo - {b};
      }
      active := ptr < |cfg.kernel|;
    }

    method MemoryCycle(input: SmInput) returns (e: Option<Fault>)
      requires Valid()
      modifies this, l1, l1.mshrs, l1.tags.lines
      ensures Valid() && Reached(MemoryPhase(cfg, old(View()), input), e)
    {
      e := WriteBack();
      if e.Some? { return e; }
      e := WriteBackRequestL2(input.reply);
      if e.Some? { return e; }
      e := L1CacheCycle(input.hasBuffer);
    }

    method CoreCycle() returns (e: Option<Fault>)
      requires Valid()
      modifies this
      ensures Valid() && Reached(CorePhase(cfg, old(View())), e)
    {
      DelInactiveBlocks();
      e := LoadStoreCycle();
      if e.Some? { return e; }
      DispatchBlocks();
      e := ScheduleWarpsInSubcores();
    }

    method ActiveSmCycle(input: SmInput) returns (e: Option<Fault>)
      requires Valid()
      modifies this, l1, l1.mshrs, l1.tags.lines
      ensures Valid() && Reached(ActiveCycle(cfg, old(View()), input), e)
    {
      e := MemoryCycle(input);
      if e.Some? { return e; }
      e := CoreCycle();
    }

    method Receive(input: SmInput)
      requires Valid()
      modifies this
      ensures Valid() && View() == Arrived(old(View()), input)
    {
      ptr, nextId := input.ptr, input.nextId;
    }

    method Tick()
      requires Valid()
      modifies this
      ensures Valid() && View() == Ticked(old(View()))
    {
      now := now + 1;
    }

    /** sm_cycle. */
    method SmCycle(input: SmInput) returns (e: Option<Fault>)
      requires Valid()
      modifies this, l1, l1.mshrs, l1.tags.lines
      ensures Valid() && Reached(Cycle(cfg, old(View()), input), e)
    {
      Receive(input);
      var active := SmActive();
      if !active { return None; }
      Tick();
      e := ActiveSmCycle(input);
    }

    /** Any number of cycles: with inputs the GPU can produce, none of them fails. */
    method Simulate(inputs: seq<SmInput>) returns (e: Option<Fault>)
      requires Valid() && SmInv.Inv(cfg, View()) && SmInv.InputsOk(cfg, View(), inputs)
      requires now + |inputs| < INT_MAX
      modifies this, l1, l1.mshrs, l1.tags.lines
      ensures Valid() && e.None? && SmInv.Inv(cfg, View()) && SmInv.Run(cfg, old(View()), inputs) == Ok(View())
    {
      SmInv.RunSettles(cfg, View(), inputs);
      var i := 0;
      while i < |inputs|
        invariant i <= |inputs| && Valid()
        invariant SmInv.Run(cfg, View(), inputs[i..]) == SmInv.Run(cfg, old(View()), inputs)
      {
        e := SmCycle(inputs[i]);
        assert inputs[i..][1..] == inputs[i + 1..];
        i := i + 1;
      }
      e := None;
    }
  }
}
