/** Whole runs of the GPU, from the state that the initial spawn leaves: no assumption about what the
    SMs receive is left. */
module GpuRuns {
  import opened MemFetch
  import opened Crossbar
  import opened Dram
  import opened DramInv
  import opened L2Cache
  import opened GpuPackets
  import opened GpuMemory
  import opened Gpu
  import opened GpuSteps
  import opened GpuSmSteps
  import Dispatch
  import Sm
  import SmRuns

  // ---------------------------------------------------------------- the Advance

  lemma AdvanceNetsOk(cfg: GpuConfig, s: GpuState, s': GpuState)
    requires GpuInv(cfg, s) && Steps(cfg, s, AdvanceNets, s')
    ensures |cfg.drams| > 0 && NetsOk(cfg, s') && Assembled(cfg, s')
  {
    hide GpuInv, NetOk, Advances, Sm.Shaped, Formed;
    Parts(cfg, s);
    AdvanceMoves(cfg.Layout(), Requests, s.requests, s'.requests);
    AdvanceMoves(cfg.Layout(), Replies, s.replies, s'.replies);
    NetHasNodes(cfg.Layout(), Requests, s'.requests);
    NetHasNodes(cfg.Layout(), Replies, s'.replies);
  }

  lemma NetHasNodes(g: Layout, net: Net, r: Router)
    requires g.channels > 0 && NetOk(g, net, r)
    ensures |r.ins| == |r.outs| == g.Nodes()
  {
  }

  lemma AdvanceStaysInOnePlace(cfg: GpuConfig, s: GpuState, s': GpuState, c: nat, k: nat, key: Fetch)
    requires GpuInv(cfg, s) && Steps(cfg, s, AdvanceNets, s') && |cfg.drams| > 0 && Assembled(cfg, s)
    requires Assembled(cfg, s')
    requires c < |cfg.drams| && k < SLICES && Serves(cfg, c, k, key) && key.sm < |cfg.sms|
    ensures InOnePlace(cfg, s', c, k, key)
  {
    hide GpuInv, Assembled, NetOk, Advances, OnNet, HeldBy, Serves, Tally;
    Parts(cfg, s);
    WasBalanced(cfg, s, c, k, key);
    SameHeld(cfg, s, s', c, k, key);
    AdvanceCounts(cfg.Layout(), Requests, s.requests, s'.requests, key);
    AdvanceCounts(cfg.Layout(), Replies, s.replies, s'.replies, key);
  }

  lemma AdvanceBalanced(cfg: GpuConfig, s: GpuState, s': GpuState)
    requires GpuInv(cfg, s) && Steps(cfg, s, AdvanceNets, s') && |cfg.drams| > 0 && Assembled(cfg, s)
    requires Assembled(cfg, s')
    ensures AllBalanced(cfg, s') && NoStrays(cfg, s') && PartsOk(cfg, s')
  {
    assert s'.parts == s.parts;
    hide GpuInv, Steps, InOnePlace, Home, Held, PartitionInv;
    forall c, k, key | 0 <= c < |cfg.drams| && 0 <= k < SLICES && Serves(cfg, c, k, key)
      ensures InOnePlace(cfg, s', c, k, key)
    {
      AdvanceStaysInOnePlace(cfg, s, s', c, k, key);
    }
    forall c, k, key | 0 <= c < |cfg.drams| && 0 <= k < SLICES && !Serves(cfg, c, k, key)
      ensures HeldBy(cfg, s', c, k, key) == 0
    {
      NothingStrayHeld(cfg, s, c, k, key);
    }
    forall c | 0 <= c < |s'.parts| ensures PartOk(cfg, s', c) { PartOf(cfg, s, c); }
  }

  lemma AdvanceKeepsInv(cfg: GpuConfig, s: GpuState, s': GpuState)
    requires GpuInv(cfg, s) && Steps(cfg, s, AdvanceNets, s')
    ensures GpuInv(cfg, s')
  {
    assert s'.sms == s.sms && s'.ptr == s.ptr && s'.parts == s.parts;
    hide GpuInv, Steps, Assembled, SmsOk, PartsOk, NetsOk, NoStrays, AllBalanced;
    Parts(cfg, s);
    AdvanceNetsOk(cfg, s, s');
    AdvanceBalanced(cfg, s, s');
    SameSms(cfg, s, s');
    FromParts(cfg, s');
  }

  // ---------------------------------------------------------------- any step

  /** The clocks of 32 bits do not run over in this step. */
  predicate InTime(s: GpuState, e: Event) { Clock(s, e) + 1 < Sm.INT_MAX }

  /** Only the clock of e ticks. */
  ghost predicate Ticks(s: GpuState, e: Event, s': GpuState) {
    forall d :: Clock(s', d) <= Clock(s, d) + (if d == e then 1 else 0)
  }

  lemma TurnOf(cfg: GpuConfig, s: GpuState, c: nat, s': GpuState) returns (t: Turn)
    requires cfg.Ok() && Assembled(cfg, s) && c < |cfg.drams| && Steps(cfg, s, MemoryCycle(c), s')
    ensures Turned(cfg, s, c, t) && |t.replies| == SLICES && s' == AfterMemory(cfg, s, c, t)
  {
    t := PartitionCycle(cfg.l2, cfg.drams[c], s.parts[c], Arrivals(cfg, s, c)).value;
  }

  lemma MemoryTicks(cfg: GpuConfig, s: GpuState, c: nat, t: Turn)
    requires Assembled(cfg, s) && c < |cfg.drams| && |t.replies| == SLICES && t.state.Now() == s.parts[c].Now() + 1
    ensures Ticks(s, MemoryCycle(c), AfterMemory(cfg, s, c, t))
  {
    hide Formed, Sm.Shaped, PopPacket, Arrivals;
  }

  lemma MemoryStepKeeps(cfg: GpuConfig, s: GpuState, c: nat, s': GpuState)
    requires GpuInv(cfg, s) && c < |cfg.drams| && Steps(cfg, s, MemoryCycle(c), s') && InTime(s, MemoryCycle(c))
    ensures GpuInv(cfg, s') && Ticks(s, MemoryCycle(c), s')
  {
    hide GpuInv, Steps, Turned, Assembled, Ticks, PartitionInv, NoneSilent, AfterMemory, SmsOk, PartsOk, NetsOk,
         NoStrays, AllBalanced, NetOk;
    Parts(cfg, s);
    var t := TurnOf(cfg, s, c, s');
    TurnKeeps(cfg, s, c, t);
    MemoryKeeps(cfg, s, c, t);
    MemoryTicks(cfg, s, c, t);
  }

  lemma SmTicks(cfg: GpuConfig, s: GpuState, i: nat, x: Sm.SmState)
    requires Assembled(cfg, s) && |cfg.drams| > 0 && i < |cfg.sms| && x.now <= s.sms[i].now + 1
    ensures Ticks(s, SmCycle(i), AfterSm(cfg, s, i, x))
  {
    hide Formed, Sm.Shaped, PopPacket, Active, SentBy, PushSent;
  }

  lemma SmStepIs(cfg: GpuConfig, s: GpuState, i: nat, x: Sm.SmState, s': GpuState)
    requires cfg.Ok() && |cfg.drams| > 0 && Assembled(cfg, s) && i < |cfg.sms| && Turns(cfg, s, i, x)
    requires Steps(cfg, s, SmCycle(i), s')
    ensures s' == AfterSm(cfg, s, i, x)
  {
    hide Active, InputOf, Sm.Cycle, AfterSm;
  }

  lemma SmStepKeeps(cfg: GpuConfig, s: GpuState, i: nat, s': GpuState)
    requires GpuInv(cfg, s) && i < |cfg.sms| && Steps(cfg, s, SmCycle(i), s') && InTime(s, SmCycle(i))
    ensures GpuInv(cfg, s') && Ticks(s, SmCycle(i), s')
  {
    hide GpuInv, Steps, Turns, Assembled, Ticks, AfterSm, SmsOk, PartsOk, NetsOk, NoStrays, AllBalanced, NetOk;
    Parts(cfg, s);
    var x := SmKeeps(cfg, s, i);
    SmStepIs(cfg, s, i, x, s');
    SmTicks(cfg, s, i, x);
  }

  /** Every step keeps the invariant, and only the clock of its component ticks. */
  lemma StepKeepsInv(cfg: GpuConfig, s: GpuState, e: Event, s': GpuState)
    requires GpuInv(cfg, s) && Exists(cfg, e) && Steps(cfg, s, e, s') && InTime(s, e)
    ensures GpuInv(cfg, s') && Ticks(s, e, s')
  {
    match e {
      case MemoryCycle(c) =>
        hide GpuInv, Steps, Assembled;
        MemoryStepKeeps(cfg, s, c, s');
      case SmCycle(i) =>
        hide GpuInv, Steps, Assembled;
        SmStepKeeps(cfg, s, i, s');
      case AdvanceNets =>
        hide GpuInv, Advances, Assembled;
        AdvanceKeepsInv(cfg, s, s');
    }
  }

  // ---------------------------------------------------------------- the start

  function FreshPartition(cfg: L2Config, dcfg: DramConfig): Partition {
    Partition(FreshChannel(dcfg), [FreshL2(cfg), FreshL2(cfg)], [])
  }

  ghost predicate FreshNet(r: Router, nodes: nat) {
    && |r.ins| == |r.outs| == nodes && r.next < nodes
    && (forall j :: 0 <= j < nodes ==> r.ins[j] == [] && r.outs[j] == [])
  }

  /** The GPU right after first_spawn_block gave out the first blocks as `owner` says. */
  ghost predicate FreshGpu(cfg: GpuConfig, s: GpuState, owner: Dispatch.Owners) {
    && cfg.Ok() && Dispatch.SpawnedSms(cfg.sms, s.sms, owner) && s.ptr == |owner|
    && (forall i :: 0 <= i < |cfg.sms| ==> FreshSmAt(cfg, s, i, owner))
    && FreshNet(s.requests, cfg.Layout().Nodes()) && FreshNet(s.replies, cfg.Layout().Nodes())
    && |s.parts| == |cfg.drams| && forall c :: 0 <= c < |cfg.drams| ==>
       s.parts[c] == FreshPartition(cfg.l2, cfg.drams[c])
  }

  ghost predicate FreshSmAt(cfg: GpuConfig, s: GpuState, i: nat, owner: Dispatch.Owners)
    requires i < |cfg.sms|
  {
    && i < |s.sms| && SmRuns.FreshSm(cfg.sms[i], s.sms[i].units, s.sms[i].l1.lines)
    && |owner| <= |cfg.sms[i].kernel| && (forall b :: b in Dispatch.BlocksOf(owner, i) ==> b < |owner|)
    && s.sms[i] == SmRuns.Spawned(cfg.sms[i], s.sms[i].units, s.sms[i].l1.lines, Dispatch.BlocksOf(owner, i), |owner|)
  }

  function EmptyNet(nodes: nat, inLimit: nat, outLimit: nat): Router {
    Router(seq(nodes, j => []), seq(nodes, o => []), inLimit, outLimit, 0, 0, 0, 0, 0)
  }

  /** Whatever SMs the spawn leaves, they can be the SMs of a GPU at its start. */
  lemma StartExists(cfg: GpuConfig, sms: seq<Sm.SmState>, owner: Dispatch.Owners, nextId: nat, inLimit: nat,
                    outLimit: nat)
    returns (s: GpuState)
    requires cfg.Ok() && Dispatch.SpawnedSms(cfg.sms, sms, owner)
    requires forall i :: 0 <= i < |cfg.sms| ==> SmRuns.FreshSm(cfg.sms[i], sms[i].units, sms[i].l1.lines)
    ensures FreshGpu(cfg, s, owner) && s.sms == sms
  {
    var net := EmptyNet(cfg.Layout().Nodes(), inLimit, outLimit);
    s := GpuState(|owner|, nextId, sms, net, net, seq(|cfg.drams|, c requires 0 <= c < |cfg.drams| =>
                  FreshPartition(cfg.l2, cfg.drams[c])));
    hide SmRuns.FreshSm, FreshPartition, SmRuns.Spawned, Dispatch.BlocksOf;
    forall i | 0 <= i < |cfg.sms| ensures FreshSmAt(cfg, s, i, owner) { }
  }

  lemma FreshSmOk(cfg: GpuConfig, s: GpuState, i: nat, owner: Dispatch.Owners)
    requires FreshGpu(cfg, s, owner) && i < |cfg.sms|
    ensures i < |s.sms| && SmOk(cfg, s, i) && Sm.Shaped(cfg.sms[i], s.sms[i]) && s.sms[i].now == 0
    ensures s.sms[i].below == []
  {
    assert FreshSmAt(cfg, s, i, owner);
    SmRuns.SpawnedSettles(cfg.sms[i], s.sms[i].units, s.sms[i].l1.lines, Dispatch.BlocksOf(owner, i), |owner|);
  }

  lemma FreshSliceOk(g: Layout, cfg: L2Config)
    requires g.channels > 0 && ConfigOk(cfg)
    ensures SliceInv(g, cfg, FreshL2(cfg), 0) && Shaped(cfg, FreshL2(cfg))
    ensures FreshL2(cfg).l1ToL2 == [] && FreshL2(cfg).toSms == [[], [], []]
  {
    InitialL2(cfg);
  }

  lemma FreshWaits(dcfg: DramConfig, k: nat)
    requires k < SLICES
    ensures |FreshChannel(dcfg).slices| == SLICES && Waiting(FreshChannel(dcfg), k) == []
  {
  }

  lemma FreshLoud(dcfg: DramConfig)
    ensures Loud(FreshChannel(dcfg), [])
  {
    hide FreshChannel, Waiting;
    FreshWaits(dcfg, 0);
    FreshWaits(dcfg, 1);
  }

  lemma FreshPartitionOk(g: Layout, cfg: L2Config, dcfg: DramConfig)
    requires g.channels > 0 && ConfigOk(cfg)
    ensures PartitionInv(g, cfg, dcfg, FreshPartition(cfg, dcfg)) && Formed(cfg, FreshPartition(cfg, dcfg))
  {
    hide PartitionInv, ChannelInv, Loud, SliceInv, FreshL2, FreshChannel, ConfigOk, Shaped;
    FreshSliceOk(g, cfg);
    FreshChannelOk(dcfg);
    FreshLoud(dcfg);
    InvFromParts(g, cfg, dcfg, FreshPartition(cfg, dcfg));
    FormedAfter(g, cfg, dcfg, FreshPartition(cfg, dcfg));
  }

  lemma FreshHolds(g: Layout, cfg: L2Config, dcfg: DramConfig, k: nat, key: Fetch)
    requires g.channels > 0 && ConfigOk(cfg) && k < SLICES
    ensures var p := FreshPartition(cfg, dcfg);
            |p.chan.slices| == SLICES == |p.l2| && |p.l2[k].toSms| == REPLY_QUEUES && Held(dcfg, p, k, key) == 0
  {
    hide SliceInv, FreshL2, FreshChannel, ConfigOk, Shaped, Latency, Waiting, SharesFrom;
    FreshSliceOk(g, cfg);
    FreshWaits(dcfg, k);
    NothingShared(dcfg, k, 0 - Latency(dcfg));
  }

  lemma {:induction false} NothingShared(dcfg: DramConfig, k: nat, n: int)
    ensures SharesFrom(dcfg, [], k, n) == []
    decreases -n
  {
    if n < 0 { NothingShared(dcfg, k, n + 1); }
  }

  lemma FreshNetOk(g: Layout, net: Net, r: Router)
    requires g.channels > 0 && FreshNet(r, g.Nodes())
    ensures NetOk(g, net, r)
  {
  }

  lemma FreshNetCounts(g: Layout, net: Net, r: Router, key: Fetch)
    requires g.channels > 0 && FreshNet(r, g.Nodes()) && key.sm < g.sms
    ensures OnNet(g, net, r, key) == 0
  {
    hide Home;
    HomeIsASlice(g, key);
  }

  lemma FreshAssembled(cfg: GpuConfig, s: GpuState, owner: Dispatch.Owners)
    requires FreshGpu(cfg, s, owner)
    ensures Assembled(cfg, s) && |s.sms| == |cfg.sms| && SmsOk(cfg, s) && |cfg.drams| > 0 && PartsOk(cfg, s)
    ensures NetsOk(cfg, s)
  {
    forall i | 0 <= i < |cfg.sms| ensures i < |s.sms| && SmOk(cfg, s, i) && Sm.Shaped(cfg.sms[i], s.sms[i]) {
      FreshSmOk(cfg, s, i, owner);
    }
    hide SmOk, Sm.Shaped, PartitionInv, Formed, FreshPartition, FreshNet, NetOk;
    forall c | 0 <= c < |cfg.drams| ensures PartOk(cfg, s, c) && Formed(cfg.l2, s.parts[c]) {
      FreshPartitionOk(cfg.Layout(), cfg.l2, cfg.drams[c]);
    }
    FreshNetOk(cfg.Layout(), Requests, s.requests);
    FreshNetOk(cfg.Layout(), Replies, s.replies);
    NetHasNodes(cfg.Layout(), Requests, s.requests);
    NetHasNodes(cfg.Layout(), Replies, s.replies);
  }

  lemma FreshBalanced(cfg: GpuConfig, s: GpuState, owner: Dispatch.Owners)
    requires FreshGpu(cfg, s, owner) && Assembled(cfg, s) && |cfg.drams| > 0
    ensures NoStrays(cfg, s) && AllBalanced(cfg, s)
  {
    forall c, k, key | 0 <= c < |cfg.drams| && 0 <= k < SLICES ensures HeldBy(cfg, s, c, k, key) == 0 {
      hide Sm.Shaped, Formed, PartitionInv, Held, FreshNet, FreshSmAt, Dispatch.SpawnedSms;
      FreshHolds(cfg.Layout(), cfg.l2, cfg.drams[c], k, key);
    }
    forall c, k, key | 0 <= c < |cfg.drams| && 0 <= k < SLICES && Serves(cfg, c, k, key)
      ensures InOnePlace(cfg, s, c, k, key)
    {
      hide Assembled, HeldBy, FreshNet, OnNet, Home, FreshSmAt, Dispatch.SpawnedSms, FreshPartition;
      FreshSmOk(cfg, s, key.sm, owner);
      FreshNetCounts(cfg.Layout(), Requests, s.requests, key);
      FreshNetCounts(cfg.Layout(), Replies, s.replies, key);
    }
  }

  /** The start satisfies the invariant. */
  lemma FreshSettles(cfg: GpuConfig, s: GpuState, owner: Dispatch.Owners)
    requires FreshGpu(cfg, s, owner)
    ensures GpuInv(cfg, s)
  {
    assert cfg.Ok();
    hide FreshGpu, Assembled, SmsOk, PartsOk, NetsOk, NoStrays, AllBalanced;
    FreshAssembled(cfg, s, owner);
    FreshBalanced(cfg, s, owner);
    FromParts(cfg, s);
  }

  lemma FreshClocks(cfg: GpuConfig, s: GpuState, owner: Dispatch.Owners, e: Event)
    requires FreshGpu(cfg, s, owner)
    ensures Clock(s, e) <= 0
  {
    if e.SmCycle? && e.sm < |s.sms| {
      assert e.sm < |cfg.sms|;
      FreshSmOk(cfg, s, e.sm, owner);
    }
  }
}
