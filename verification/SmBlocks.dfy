/** Which blocks an SM holds: only the dispatch loop adds blocks, each of them the next of the
    kernel, and there are never more than m_max_blocks. */
module SmBlocks {
  import opened Wrappers
  import opened CacheConfig
  import opened MemFetch
  import opened Warps
  import opened Sm
  import Mshr
  import TagStore

  /** A step that adds and removes no block. */
  predicate SameBlocks(s: SmState, s': SmState) { s'.blocks.Keys == s.blocks.Keys && s'.ptr == s.ptr }

  predicate Keeps(s: SmState, r: Outcome) { r.Ok? ==> SameBlocks(s, r.value) }

  lemma ReleaseKeeps(s: SmState, f: Fetch)
    ensures Keeps(s, Release(s, f))
  {
  }

  lemma {:induction false} HitsKeep(s: SmState)
    ensures Keeps(s, WriteBackHits(s))
    decreases |s.l1.toSm|
  {
    if s.l1.toSm != [] && s.l1.toSm[0].l1Ready <= s.now {
      var popped := s.(l1 := s.l1.(toSm := s.l1.toSm[1..]));
      var r := Release(popped, s.l1.toSm[0]);
      ReleaseKeeps(popped, s.l1.toSm[0]);
      if r.Ok? { HitsKeep(r.value); } else if r.error.CannotDecrease? { HitsKeep(popped); }
    }
  }

  lemma {:induction false} DrainKeeps(cfg: SmConfig, s: SmState, f: Fetch)
    requires Shaped(cfg, s) && f.sector < SECTORS
    ensures Keeps(s, DrainEntry(cfg, s, f))
    decreases if f.SectorAddr() in s.l1.mshr then 1 + |s.l1.mshr[f.SectorAddr()]| else 0
  {
    var sa := f.SectorAddr();
    if sa in s.l1.mshr && s.l1.mshr[sa] != [] {
      var popped := s.(l1 := s.l1.(mshr := Mshr.AfterNext(s.l1.mshr, sa)));
      var r := Release(popped, s.l1.mshr[sa][0]);
      ReleaseKeeps(popped, s.l1.mshr[sa][0]);
      if r.Ok? {
        var lines := TagStore.Fill(cfg.l1.cache, r.value.l1.lines, f.addr, f.sector, s.now);
        if lines.Some? { DrainKeeps(cfg, r.value.(l1 := r.value.l1.(lines := lines.value)), f); }
      }
    }
  }

  lemma ReplyKeeps(cfg: SmConfig, s: SmState, reply: Option<nat>)
    requires Shaped(cfg, s)
    ensures Keeps(s, WriteBackReply(cfg, s, reply))
  {
    if reply.Some? && reply.value < |s.below| {
      var i := reply.value;
      var f, popped := s.below[i], s.(below := s.below[..i] + s.below[i + 1..]);
      if f.sector < SECTORS {
        if f.isWrite { ReleaseKeeps(popped, f); } else { DrainKeeps(cfg, popped, f); }
      }
    }
  }

  lemma BankKeeps(cfg: SmConfig, s: SmState, bank: nat)
    requires Shaped(cfg, s) && bank < SECTORS
    ensures Keeps(s, AccessBank(cfg, s, bank))
  {
  }

  lemma {:induction false} BanksKeep(cfg: SmConfig, s: SmState, bank: nat)
    requires Shaped(cfg, s) && bank <= SECTORS
    ensures Keeps(s, AccessBanks(cfg, s, bank))
    decreases SECTORS - bank
  {
    if bank < SECTORS {
      var r := AccessBank(cfg, s, bank);
      BankKeeps(cfg, s, bank);
      if r.Ok? { BanksKeep(cfg, r.value, bank + 1); }
    }
  }

  lemma MemoryKeeps(cfg: SmConfig, s: SmState, input: SmInput)
    requires Shaped(cfg, s)
    ensures Keeps(s, MemoryPhase(cfg, s, input))
  {
    HitsKeep(s);
    var r1 := WriteBackHits(s);
    if r1.Ok? {
      ReplyKeeps(cfg, r1.value, input.reply);
      var r2 := WriteBackReply(cfg, r1.value, input.reply);
      if r2.Ok? { BanksKeep(cfg, SendMiss(cfg, r2.value, input.hasBuffer), 0); }
    }
  }

  lemma UnitKeeps(cfg: SmConfig, s: SmState, u: nat, busy: set<nat>)
    requires Shaped(cfg, s) && u < |s.units|
    ensures Keeps(s, UnitCycle(cfg, s, u, busy).0)
  {
  }

  lemma {:induction false} UnitsKeep(cfg: SmConfig, s: SmState, sub: nat, busy: set<nat>)
    requires sub <= SUBCORES && Shaped(cfg, s)
    ensures Keeps(s, UnitCycles(cfg, s, sub, busy))
    decreases SUBCORES - sub
  {
    if sub < SUBCORES {
      var u := cfg.unitOf[sub][cfg.ldsClass];
      UnitKeeps(cfg, s, u, busy);
      var (r, busy') := UnitCycle(cfg, s, u, busy);
      if r.Ok? { UnitsKeep(cfg, r.value, sub + 1, busy'); }
    }
  }

  lemma {:induction false} AtomicsKeep(cfg: SmConfig, s: SmState, b: nat, w: nat, ci: nat, targets: seq<(nat, nat)>)
    requires Shaped(cfg, s) && Live(s, b, w)
    ensures Keeps(s, QueueAtomics(cfg, s, b, w, ci, targets))
    decreases |targets|
  {
    if targets != [] && targets[0].1 < |s.banks| {
      var f := NewFetch(cfg, s.nextId, true, true, targets[0], b, w, ci);
      AtomicsKeep(cfg, Enqueue(PutWarp(s, b, w, s.blocks[b][w].Increase(ci)), targets[0].1, f), b, w, ci, targets[1..]);
    }
  }

  lemma ProcessKeeps(cfg: SmConfig, s: SmState, b: nat, w: nat, u: nat, inst: Inst)
    requires Shaped(cfg, s) && Live(s, b, w) && u < |s.units|
    ensures Keeps(s, ProcessLds(cfg, s, b, w, u, inst))
  {
    var m := FindMemInst(s.blocks[b][w].memInsts, inst.pc, inst.pcIndex, 0);
    if inst.kind.AtomicAccess? && m.Some? {
      var x, unit := s.blocks[b][w], s.units[u];
      AtomicsKeep(cfg, Changed(s, b, w, Completing(x, INT_MAX), u, unit.(ready := unit.ready + 4)), b, w,
          |x.completions|, m.value.coalesced);
    }
  }

  lemma IssueKeeps(cfg: SmConfig, s: SmState, b: nat, w: nat, u: nat)
    requires Shaped(cfg, s) && Live(s, b, w) && u < |s.units| && s.blocks[b][w].point < |s.blocks[b][w].insts|
    ensures Keeps(s, Issue(cfg, s, b, w, u))
  {
    ProcessKeeps(cfg, s, b, w, u, s.blocks[b][w].insts[s.blocks[b][w].point]);
  }

  lemma {:induction false} WarpsKeep(cfg: SmConfig, s: SmState, b: nat, w: nat, active: set<nat>)
    requires Shaped(cfg, s)
    ensures var r := VisitWarps(cfg, s, b, w, active); r.Ok? ==> SameBlocks(s, r.value.0)
    decreases if w < cfg.warpLimit then cfg.warpLimit - w else 0
  {
    if w < cfg.warpLimit && active != {} {
      if !Live(s, b, w) {
        WarpsKeep(cfg, s, b, w + 1, active);
      } else {
        var x := s.blocks[b][w];
        if x.Retires() {
          WarpsKeep(cfg, WithoutWarp(s, b, w), b, w + 1, active);
        } else {
          WarpsKeep(cfg, s, b, w + 1, active);
          if x.point < |x.insts| {
            var sub := PickSubcore(cfg, s, active, x.insts[x.point].unitClass, 0);
            if sub.Some? { IssueKeeps(cfg, s, b, w, cfg.unitOf[sub.value][x.insts[x.point].unitClass]); }
          }
        }
      }
    }
  }

  lemma {:induction false} VisitsKeep(cfg: SmConfig, s: SmState, b: nat, active: set<nat>)
    requires Shaped(cfg, s)
    ensures Keeps(s, VisitBlocks(cfg, s, b, active))
    decreases if b < |cfg.kernel| then |cfg.kernel| - b else 0
  {
    if b < |cfg.kernel| && active != {} {
      WarpsKeep(cfg, s, b, 0, active);
      var r := VisitBlock(cfg, s, b, active);
      if r.Ok? { VisitsKeep(cfg, r.value.0, b + 1, r.value.1); }
    }
  }

  // ---------------------------------------------------------------- dispatch

  /** Blocks taken from the kernel between two values of the pointer. */
  predicate Between(b: nat, from: nat, to: nat) { from <= b < to }

  /** What a cycle does to the blocks of an SM: it keeps some, and takes exactly the next ones of the
      kernel, those that the pointer passes. */
  ghost predicate Takes(cfg: SmConfig, s: SmState, s': SmState) {
    && s.ptr <= s'.ptr && (s.ptr <= |cfg.kernel| ==> s'.ptr <= |cfg.kernel|)
    && (forall b :: b in s'.blocks ==> b in s.blocks || Between(b, s.ptr, s'.ptr))
    && (forall b :: Between(b, s.ptr, s'.ptr) ==> b in s'.blocks)
    && (|s.blocks| <= cfg.maxBlocks ==> |s'.blocks| <= cfg.maxBlocks)
  }

  /** One dispatched block fits, when the SM has room. */
  lemma OneMoreBlock(cfg: SmConfig, s: SmState)
    requires |s.blocks| < cfg.maxBlocks && s.ptr < |cfg.kernel|
    ensures var s1 := DispatchOne(cfg, s);
            && s1.ptr == s.ptr + 1 && s1.blocks.Keys == s.blocks.Keys + {s.ptr} && |s1.blocks| <= cfg.maxBlocks
  {
    var s1 := DispatchOne(cfg, s);
    assert s1.blocks.Keys == s.blocks.Keys + {s.ptr};
    assert |s1.blocks| == |s1.blocks.Keys| && |s.blocks| == |s.blocks.Keys|;
  }

  /** Taking the block at the pointer and then the ones behind it. */
  lemma TakesOneThenMore(cfg: SmConfig, s: SmState, s1: SmState, s2: SmState)
    requires s1.ptr == s.ptr + 1 <= |cfg.kernel| && s1.blocks.Keys == s.blocks.Keys + {s.ptr}
    requires |s1.blocks| <= cfg.maxBlocks && Takes(cfg, s1, s2) && s1.blocks.Keys <= s2.blocks.Keys
    ensures Takes(cfg, s, s2) && s.blocks.Keys <= s2.blocks.Keys
  {
    forall b | Between(b, s.ptr, s2.ptr) ensures b in s2.blocks {
      if b != s.ptr { assert Between(b, s1.ptr, s2.ptr); } else { assert b in s1.blocks.Keys; }
    }
  }

  lemma {:induction false} DispatchTakes(cfg: SmConfig, s: SmState)
    ensures Takes(cfg, s, Dispatch(cfg, s)) && s.blocks.Keys <= Dispatch(cfg, s).blocks.Keys
    decreases |cfg.kernel| - s.ptr
  {
    if |s.blocks| < cfg.maxBlocks && s.ptr < |cfg.kernel| {
      var s1 := DispatchOne(cfg, s);
      OneMoreBlock(cfg, s);
      DispatchTakes(cfg, s1);
      TakesOneThenMore(cfg, s, s1, Dispatch(cfg, s1));
    }
  }

  lemma SameSize(s: SmState, s': SmState)
    requires s'.blocks.Keys == s.blocks.Keys
    ensures |s'.blocks| == |s.blocks|
  {
    assert |s.blocks| == |s.blocks.Keys| && |s'.blocks| == |s'.blocks.Keys|;
  }

  lemma DeleteShrinks(s: SmState)
    ensures DeleteInactive(s).blocks.Keys <= s.blocks.Keys && |DeleteInactive(s).blocks| <= |s.blocks|
  {
    var kept := DeleteInactive(s).blocks.Keys;
    SubsetSize(kept, s.blocks.Keys);
    assert |s.blocks| == |s.blocks.Keys| && |DeleteInactive(s).blocks| == |kept|;
  }

  lemma {:induction false} SubsetSize(a: set<nat>, b: set<nat>)
    requires a <= b
    ensures |a| <= |b|
    decreases |a|
  {
    if |a| > 0 {
      var x :| x in a;
      SubsetSize(a - {x}, b - {x});
    }
  }

  lemma CoreTakes(cfg: SmConfig, s: SmState)
    requires Shaped(cfg, s)
    ensures var r := CorePhase(cfg, s); r.Ok? ==> Takes(cfg, s, r.value)
  {
    var s0 := DeleteInactive(s);
    DeleteShrinks(s);
    UnitsKeep(cfg, s0, 0, {});
    var r := UnitCycles(cfg, s0, 0, {});
    if r.Ok? {
      SameSize(s0, r.value);
      DispatchTakes(cfg, r.value);
      var s2 := Dispatch(cfg, r.value);
      VisitsKeep(cfg, s2, 0, ActiveSubcores(cfg, s2));
      var r' := VisitBlocks(cfg, s2, 0, ActiveSubcores(cfg, s2));
      if r'.Ok? { SameSize(s2, r'.value); }
    }
  }

  /** A whole sm_cycle adds only blocks that the kernel had not given out, in order, and never holds
      more than m_max_blocks. */
  lemma CycleTakes(cfg: SmConfig, s: SmState, input: SmInput)
    requires Shaped(cfg, s)
    ensures var r := Cycle(cfg, s, input); r.Ok? ==> Takes(cfg, Arrived(s, input), r.value)
  {
    var s0 := Arrived(s, input);
    if IsActive(cfg, s0) {
      MemoryKeeps(cfg, Ticked(s0), input);
      var r := MemoryPhase(cfg, Ticked(s0), input);
      if r.Ok? {
        SameSize(Ticked(s0), r.value);
        CoreTakes(cfg, r.value);
      }
    }
  }
}
