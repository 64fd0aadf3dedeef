/** What the SM invariant means for whole runs: where a run may start, that no reply is ever lost,
    and exactly when a warp retires or an SM goes idle. */
module SmRuns {
  import opened MemFetch
  import opened Warps
  import opened Sm
  import opened Ledger
  import opened SmInv
  import L1Cache
  import Mshr
  import TagStore

  /** The SM after first_spawn_block gave it the blocks in `mine` out of the first `ptr`. */
  function Spawned(cfg: SmConfig, units: seq<PipelineUnit>, lines: seq<TagStore.Line>, mine: set<nat>,
                   ptr: nat): SmState
    requires forall b :: b in mine ==> b < ptr
    requires ptr <= |cfg.kernel|
  {
    StartState(units, lines).(blocks := map b | b in mine :: FreshBlock(cfg.kernel[b]), ptr := ptr)
  }

  ghost predicate FreshSm(cfg: SmConfig, units: seq<PipelineUnit>, lines: seq<TagStore.Line>) {
    && KernelOk(cfg) && UnitsMapped(cfg, |units|) && (forall u :: 0 <= u < |units| ==> units[u].held.None?)
    && TagStore.Shape(cfg.l1.cache, lines) && (forall i :: 0 <= i < |lines| ==> lines[i] == TagStore.FRESH_LINE)
    && cfg.l1.cache.assoc >= 1 && !cfg.l1.cache.replacement.OtherReplacement? && cfg.l1.cache.mshrMaxMerge >= 1
  }

  lemma SpawnedCore(cfg: SmConfig, units: seq<PipelineUnit>, lines: seq<TagStore.Line>, mine: set<nat>, ptr: nat)
    requires FreshSm(cfg, units, lines) && ptr <= |cfg.kernel| && forall b :: b in mine ==> b < ptr
    ensures CoreOk(cfg, Spawned(cfg, units, lines, mine, ptr))
  {
    var s := Spawned(cfg, units, lines, mine, ptr);
    forall b, w | Live(s, b, w)
      ensures WarpOk(cfg, s.blocks[b][w]) && s.blocks[b][w].pendingInst == Holding(s.units, b, w)
    {
      FreshWarpOk(cfg, b, w);
      NotHeld(s, s.units, b, w);
    }
  }

  lemma SpawnedLedger(cfg: SmConfig, units: seq<PipelineUnit>, lines: seq<TagStore.Line>, mine: set<nat>, ptr: nat)
    requires ptr <= |cfg.kernel| && forall b :: b in mine ==> b < ptr
    ensures LedgerOk(Spawned(cfg, units, lines, mine, ptr))
  {
    var s := Spawned(cfg, units, lines, mine, ptr);
    forall t ensures Owed(s, t) == Claimed(s, t) {
      EmptyBanks(s.banks, t);
    }
  }

  lemma {:induction false} EmptyBanks(banks: seq<seq<Fetch>>, t: Ticket)
    requires forall k :: 0 <= k < |banks| ==> banks[k] == []
    ensures CountBanks(banks, t) == 0
    decreases |banks|
  {
    if banks != [] { EmptyBanks(banks[1..], t); }
  }

  lemma SpawnedSettles(cfg: SmConfig, units: seq<PipelineUnit>, lines: seq<TagStore.Line>, mine: set<nat>, ptr: nat)
    requires FreshSm(cfg, units, lines) && ptr <= |cfg.kernel| && forall b :: b in mine ==> b < ptr
    ensures Inv(cfg, Spawned(cfg, units, lines, mine, ptr))
  {
    SpawnedCore(cfg, units, lines, mine, ptr);
    SpawnedLedger(cfg, units, lines, mine, ptr);
    TagStore.InitialTags(cfg.l1.cache, lines);
    assert L1Cache.LoadSectors([]) + L1Cache.LoadSectors([])
        == multiset(Spawned(cfg, units, lines, mine, ptr).l1.mshr.Keys);
  }

  /** The main theorem: from a fresh SM, with whatever blocks it was given, no run of fewer than
      2^31 - 1 cycles ever fails, and the ledger balances in the state it reaches. */
  lemma NoRunFails(cfg: SmConfig, units: seq<PipelineUnit>, lines: seq<TagStore.Line>, mine: set<nat>, ptr: nat,
                   inputs: seq<SmInput>)
    requires FreshSm(cfg, units, lines) && ptr <= |cfg.kernel| && forall b :: b in mine ==> b < ptr
    requires InputsOk(cfg, Spawned(cfg, units, lines, mine, ptr), inputs) && |inputs| < INT_MAX
    ensures var r := Run(cfg, Spawned(cfg, units, lines, mine, ptr), inputs); r.Ok? && Inv(cfg, r.value)
  {
    SpawnedSettles(cfg, units, lines, mine, ptr);
    RunSettles(cfg, Spawned(cfg, units, lines, mine, ptr), inputs);
  }

  /** Exactly one load of a pending sector is in the miss queue or below, and the sector does not hit;
      no load of any other sector is in transit. */
  ghost predicate SentOnce(c: L1Cache.L1State, below: seq<Fetch>, sa: nat) {
    && TagStore.UniqueTags(c.lines)
    && (L1Cache.LoadSectors(c.missQ) + L1Cache.LoadSectors(below))[sa] == (if sa in c.mshr then 1 else 0)
    && (sa in c.mshr ==> c.mshr[sa] != [] && !L1Cache.Hits(c.lines, sa))
  }

  /** After every run, every sector with an MSHR entry has exactly one load in transit, and no other
      sector has any. */
  lemma MissesAreSentOnce(cfg: SmConfig, units: seq<PipelineUnit>, lines: seq<TagStore.Line>, mine: set<nat>, ptr: nat,
                          inputs: seq<SmInput>, sa: nat)
    requires FreshSm(cfg, units, lines) && ptr <= |cfg.kernel| && forall b :: b in mine ==> b < ptr
    requires InputsOk(cfg, Spawned(cfg, units, lines, mine, ptr), inputs) && |inputs| < INT_MAX
    ensures var r := Run(cfg, Spawned(cfg, units, lines, mine, ptr), inputs);
            r.Ok? && SentOnce(r.value.l1, r.value.below, sa)
  {
    NoRunFails(cfg, units, lines, mine, ptr, inputs);
    var s := Run(cfg, Spawned(cfg, units, lines, mine, ptr), inputs).value;
    L1Cache.EntryIffOneInTransit(cfg.l1, s.l1, s.below, sa);
  }

  // ---------------------------------------------------------------- the counters, read as numbers

  /** All requests outstanding for the first n completion slots of a warp. */
  ghost function OwedTo(s: SmState, b: nat, w: nat, n: nat): nat {
    if n == 0 then 0 else OwedTo(s, b, w, n - 1) + Owed(s, Ticket(b, w, n - 1))
  }

  lemma {:induction false} SumIsOwed(s: SmState, b: nat, w: nat, n: nat)
    requires LedgerOk(s) && Live(s, b, w)
    ensures SumTo(s.blocks[b][w], n) == OwedTo(s, b, w, n)
    decreases n
  {
    if n > 0 {
      SumIsOwed(s, b, w, n - 1);
      assert Owed(s, Ticket(b, w, n - 1)) == Claimed(s, Ticket(b, w, n - 1));
    }
  }

  /** The three counters of a live warp, in terms of the containers of the SM. */
  lemma CountersMean(cfg: SmConfig, s: SmState, b: nat, w: nat)
    requires Inv(cfg, s) && Live(s, b, w)
    ensures var x := s.blocks[b][w];
            && (forall ci: nat :: x.Pending(ci) == Owed(s, Ticket(b, w, ci)))
            && (forall ci: nat :: ci >= |x.completions| ==> Owed(s, Ticket(b, w, ci)) == 0)
            && x.pendingNum == OwedTo(s, b, w, |x.completions|)
            && x.pendingInst == Holding(s.units, b, w)
            && |x.completions| == x.point
  {
    var x := s.blocks[b][w];
    assert WarpOk(cfg, x);
    forall ci: nat ensures x.Pending(ci) == Owed(s, Ticket(b, w, ci)) {
      assert Owed(s, Ticket(b, w, ci)) == Claimed(s, Ticket(b, w, ci));
    }
    SumIsOwed(s, b, w, |x.completions|);
  }

  lemma {:induction false} NothingOwed(s: SmState, b: nat, w: nat, n: nat)
    requires forall ci: nat :: Owed(s, Ticket(b, w, ci)) == 0
    ensures OwedTo(s, b, w, n) == 0
    decreases n
  {
    if n > 0 { NothingOwed(s, b, w, n - 1); }
  }

  /** The retire test is exact: a warp passes it if and only if all its instructions are issued,
      no container holds a request of it, and no unit works for it. */
  lemma RetiresIff(cfg: SmConfig, s: SmState, b: nat, w: nat)
    requires Inv(cfg, s) && Live(s, b, w)
    ensures s.blocks[b][w].Retires()
            <==> && s.blocks[b][w].point == |s.blocks[b][w].insts|
                 && (forall ci: nat :: Owed(s, Ticket(b, w, ci)) == 0)
                 && Holding(s.units, b, w) == 0
  {
    CountersMean(cfg, s, b, w);
    if s.blocks[b][w].Retires() {
      forall ci: nat ensures Owed(s, Ticket(b, w, ci)) == 0 { RetiringWarpIsOwedNothing(cfg, s, b, w, ci); }
    } else if forall ci: nat :: Owed(s, Ticket(b, w, ci)) == 0 {
      NothingOwed(s, b, w, |s.blocks[b][w].completions|);
    }
  }

  // ---------------------------------------------------------------- nobody waits for a ghost

  ghost predicate WaitedFor(s: SmState, f: Fetch) {
    Live(s, f.block, f.warp) && s.blocks[f.block][f.warp].Pending(f.ci) > 0
  }

  lemma OwedIsWaitedFor(s: SmState, f: Fetch)
    requires LedgerOk(s) && Owed(s, Ticket(f.block, f.warp, f.ci)) > 0
    ensures WaitedFor(s, f)
  {
    var t := Ticket(f.block, f.warp, f.ci);
    assert Owed(s, t) == Claimed(s, t);
  }

  lemma {:induction false} ForwardedMember(q: seq<Fetch>, i: nat)
    requires i < |q| && q[i].ForwardedWrite()
    ensures CountForwarded(q, Ticket(q[i].block, q[i].warp, q[i].ci)) >= 1
    decreases |q|
  {
    if i > 0 { ForwardedMember(q[1..], i - 1); }
  }

  lemma {:induction false} BankMember(banks: seq<seq<Fetch>>, k: nat, i: nat)
    requires k < |banks| && i < |banks[k]|
    ensures var f := banks[k][i]; CountBanks(banks, Ticket(f.block, f.warp, f.ci)) >= 1
    decreases |banks|
  {
    if k > 0 { BankMember(banks[1..], k - 1, i); } else { MemberCounts(banks[0], i); }
  }

  lemma MshrMember(m: Mshr.Table, sa: nat, i: nat)
    requires sa in m && i < |m[sa]|
    ensures var f := m[sa][i]; CountMshr(m, Ticket(f.block, f.warp, f.ci)) >= 1
  {
    var f := m[sa][i];
    MshrWithout(m, sa, Ticket(f.block, f.warp, f.ci));
    MemberCounts(m[sa], i);
  }

  /** Every request queued in an SM, merged in its MSHR, served by its L1 or forwarded below has a
      live warp that still waits for it. */
  lemma RequestsAreWaitedFor(cfg: SmConfig, s: SmState)
    requires Inv(cfg, s)
    ensures forall k, i :: 0 <= k < |s.banks| && 0 <= i < |s.banks[k]| ==> WaitedFor(s, s.banks[k][i])
    ensures forall sa, i :: sa in s.l1.mshr && 0 <= i < |s.l1.mshr[sa]| ==> WaitedFor(s, s.l1.mshr[sa][i])
    ensures forall i :: 0 <= i < |s.l1.toSm| ==> WaitedFor(s, s.l1.toSm[i])
    ensures forall i :: 0 <= i < |s.l1.missQ| && s.l1.missQ[i].ForwardedWrite() ==> WaitedFor(s, s.l1.missQ[i])
    ensures forall i :: 0 <= i < |s.below| && s.below[i].ForwardedWrite() ==> WaitedFor(s, s.below[i])
  {
    forall k, i | 0 <= k < |s.banks| && 0 <= i < |s.banks[k]| ensures WaitedFor(s, s.banks[k][i]) {
      BankMember(s.banks, k, i);
      OwedIsWaitedFor(s, s.banks[k][i]);
    }
    forall sa, i | sa in s.l1.mshr && 0 <= i < |s.l1.mshr[sa]| ensures WaitedFor(s, s.l1.mshr[sa][i]) {
      MshrMember(s.l1.mshr, sa, i);
      OwedIsWaitedFor(s, s.l1.mshr[sa][i]);
    }
    forall i | 0 <= i < |s.l1.toSm| ensures WaitedFor(s, s.l1.toSm[i]) {
      MemberCounts(s.l1.toSm, i);
      OwedIsWaitedFor(s, s.l1.toSm[i]);
    }
    forall i | 0 <= i < |s.l1.missQ| && s.l1.missQ[i].ForwardedWrite() ensures WaitedFor(s, s.l1.missQ[i]) {
      ForwardedMember(s.l1.missQ, i);
      OwedIsWaitedFor(s, s.l1.missQ[i]);
    }
    forall i | 0 <= i < |s.below| && s.below[i].ForwardedWrite() ensures WaitedFor(s, s.below[i]) {
      ForwardedMember(s.below, i);
      OwedIsWaitedFor(s, s.below[i]);
    }
  }

  /** A packet that may come back finds its MSHR entry, if it is a load, or its waiting warp. */
  lemma ReplyFindsItsWarps(cfg: SmConfig, s: SmState, i: nat)
    requires Inv(cfg, s) && i < |s.below| && s.below[i].writeType != WriteThroughL2
    ensures var f := s.below[i];
            if f.isWrite then WaitedFor(s, f)
            else f.SectorAddr() in s.l1.mshr && s.l1.mshr[f.SectorAddr()] != []
                 && forall k :: 0 <= k < |s.l1.mshr[f.SectorAddr()]| ==> WaitedFor(s, s.l1.mshr[f.SectorAddr()][k])
  {
    assert L1Cache.Sendable(s.below[i]);
    RequestsAreWaitedFor(cfg, s);
    L1Cache.ReturnHasEntry(cfg.l1, s.l1, s.below, i);
  }

  // ---------------------------------------------------------------- idle SMs

  /** Only write-through copies, which the L2 does not answer. */
  predicate OnlyCopies(q: seq<Fetch>) { forall i :: 0 <= i < |q| ==> q[i].isWrite && q[i].writeType == WriteThroughL2 }

  lemma {:induction false} NoLoadsCounted(q: seq<Fetch>)
    requires L1Cache.LoadSectors(q) == multiset{}
    ensures forall i :: 0 <= i < |q| ==> q[i].isWrite
    decreases |q|
  {
    if q != [] {
      HeadIsCounted(q);
      NoLoadsCounted(q[1..]);
    }
  }

  lemma HeadIsCounted(q: seq<Fetch>)
    requires q != []
    ensures q[0].isWrite || L1Cache.LoadSectors(q)[q[0].SectorAddr()] > 0
  {
  }

  lemma NoMshrNoLoads(cfg: SmConfig, s: SmState)
    requires L1Cache.L1Inv(cfg.l1, s.l1, s.below) && s.l1.mshr == map[]
    ensures forall i :: 0 <= i < |s.l1.missQ| ==> s.l1.missQ[i].isWrite
    ensures forall i :: 0 <= i < |s.below| ==> s.below[i].isWrite
  {
    assert L1Cache.LoadSectors(s.l1.missQ) + L1Cache.LoadSectors(s.below) == multiset{};
    forall sa: nat
      ensures L1Cache.LoadSectors(s.l1.missQ)[sa] == 0 && L1Cache.LoadSectors(s.below)[sa] == 0
    {
      assert (L1Cache.LoadSectors(s.l1.missQ) + L1Cache.LoadSectors(s.below))[sa] == 0;
    }
    NoLoadsCounted(s.l1.missQ);
    NoLoadsCounted(s.below);
  }

  lemma QueuedMeansLive(s: SmState, q: seq<Fetch>)
    requires forall i :: 0 <= i < |q| ==> WaitedFor(s, q[i])
    ensures q == [] || exists b, w :: Live(s, b, w)
  {
    if q != [] { assert WaitedFor(s, q[0]); }
  }

  lemma CopiesOnly(q: seq<Fetch>)
    requires L1Cache.AllSendable(q) && forall i :: 0 <= i < |q| ==> q[i].isWrite && !q[i].ForwardedWrite()
    ensures OnlyCopies(q)
  {
    forall i | 0 <= i < |q| ensures q[i].writeType == WriteThroughL2 { assert L1Cache.Sendable(q[i]); }
  }

  /** An SM that sm_active calls inactive has nothing left to receive: all its queues and its MSHR
      are empty, and below it travel only copies that nobody answers.  So no reply is lost. */
  lemma InactiveSmIsDone(cfg: SmConfig, s: SmState)
    requires Inv(cfg, s) && !IsActive(cfg, s)
    ensures s.l1.mshr == map[] && s.l1.toSm == [] && forall k :: 0 <= k < |s.banks| ==> s.banks[k] == []
    ensures OnlyCopies(s.l1.missQ) && OnlyCopies(s.below)
  {
    RequestsAreWaitedFor(cfg, s);
    forall b, w ensures !Live(s, b, w) { }
    forall k | 0 <= k < |s.banks| ensures s.banks[k] == [] { QueuedMeansLive(s, s.banks[k]); }
    QueuedMeansLive(s, s.l1.toSm);
    forall sa | sa in s.l1.mshr ensures s.l1.mshr[sa] == [] { QueuedMeansLive(s, s.l1.mshr[sa]); }
    assert s.l1.mshr.Keys == {};
    NoMshrNoLoads(cfg, s);
    CopiesOnly(s.l1.missQ);
    CopiesOnly(s.below);
  }

  // ---------------------------------------------------------------- the one fault a trace can cause

  /** An atomic instruction fails if and only if the trace has no record for it. */
  lemma AtomicFailsIff(cfg: SmConfig, s: SmState, b: nat, w: nat, u: nat, inst: Inst)
    requires Shaped(cfg, s) && Live(s, b, w) && u < |s.units| && inst.kind.AtomicAccess?
    requires forall i :: 0 <= i < |s.blocks[b][w].memInsts| ==> TargetsOk(s.blocks[b][w].memInsts[i].coalesced)
    ensures ProcessLds(cfg, s, b, w, u, inst).Err?
            <==> forall m :: m in s.blocks[b][w].memInsts ==> m.pc != inst.pc || m.pcIndex != inst.pcIndex
  {
    var ms := s.blocks[b][w].memInsts;
    FindMemInstFinds(ms, inst.pc, inst.pcIndex, 0);
    var m := FindMemInst(ms, inst.pc, inst.pcIndex, 0);
    if m.Some? {
      TargetsQueue(cfg, Changed(s, b, w, Completing(s.blocks[b][w], INT_MAX), u,
          s.units[u].(ready := s.units[u].ready + 4)),
                   b, w, |s.blocks[b][w].completions|, m.value.coalesced);
    }
  }

  lemma {:induction false} TargetsQueue(cfg: SmConfig, s: SmState, b: nat, w: nat, ci: nat, targets: seq<(nat, nat)>)
    requires Shaped(cfg, s) && Live(s, b, w) && TargetsOk(targets)
    ensures QueueAtomics(cfg, s, b, w, ci, targets).Ok?
    decreases |targets|
  {
    if targets != [] {
      assert TargetOk(targets[0]);
      var f := NewFetch(cfg, s.nextId, true, true, targets[0], b, w, ci);
      TargetsQueue(cfg, Enqueue(PutWarp(s, b, w, s.blocks[b][w].Increase(ci)), targets[0].1, f), b, w, ci,
          targets[1..]);
    }
  }
}
