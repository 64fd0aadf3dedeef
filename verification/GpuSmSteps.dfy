/** The turn of an SM as a step of the GPU: the packet it pops is always one that it waits for. */
module GpuSmSteps {
  import opened Wrappers
  import opened CacheConfig
  import opened MemFetch
  import opened Crossbar
  import opened Dram
  import opened L2Cache
  import opened GpuPackets
  import opened GpuMemory
  import opened Gpu
  import opened GpuSteps
  import L1Cache
  import Sm
  import SmBlocks
  import SmInv
  import SmTraffic

  // ---------------------------------------------------------------- the popped packet

  /** Every request has a slice that serves it. */
  lemma ServingSlice(cfg: GpuConfig, key: Fetch) returns (c: nat, k: nat)
    requires |cfg.drams| > 0 && key.sm < |cfg.sms|
    ensures c < |cfg.drams| && k < SLICES && Serves(cfg, c, k, key)
  {
    hide Home;
    HomeIsASlice(cfg.Layout(), key);
    var n := Home(cfg.Layout(), key) - |cfg.sms|;
    c, k := n / 2, n % 2;
  }

  /** The head of an SM's output is a reply for it. */
  lemma ReplyIsAddressed(cfg: GpuConfig, s: GpuState, i: nat)
    requires GpuInv(cfg, s) && i < |cfg.sms|
    ensures |cfg.drams| > 0 && i < |s.replies.outs| && i < |s.requests.ins| && i < |s.sms| && i < cfg.Layout().Nodes()
    ensures var p := TopPacket(s.replies, i); p.Some? ==> !Silent(p.value.data) && p.value.data.sm == i
  {
    hide GpuInv, Assembled, NetOk, Silent, Home;
    Parts(cfg, s);
    PopMoves(cfg.Layout(), Replies, s.replies, i);
  }

  lemma MineOfCore(f: Fetch)
    requires !Silent(f)
    ensures L2Cache.Mine(f, Core(f)) == 1 && Core(f).sm == f.sm
  {
  }

  /** The SM waits for what it pops: a packet with the same core is below it. */
  lemma ReplyIsBelow(cfg: GpuConfig, s: GpuState, i: nat)
    requires GpuInv(cfg, s) && i < |cfg.sms|
    ensures i < |s.replies.outs| && i < |s.sms|
    ensures var p := TopPacket(s.replies, i); p.Some? ==> Tally(s.sms[i].below, Core(p.value.data)) >= 1
  {
    hide GpuInv, Assembled, NetOk, Silent, Home, Core, Tally, OnNet, HeldBy, L2Cache.Mine, Serves;
    Parts(cfg, s);
    ReplyIsAddressed(cfg, s, i);
    var p := TopPacket(s.replies, i);
    if p.Some? {
      var key := Core(p.value.data);
      MineOfCore(p.value.data);
      var c, k := ServingSlice(cfg, key);
      WasBalanced(cfg, s, c, k, key);
      PopCounts(cfg.Layout(), Replies, s.replies, i, key);
    }
  }

  /** The search finds such a packet, if there is one. */
  lemma {:induction false} FindFinds(below: seq<Fetch>, f: Fetch)
    requires Tally(below, Core(f)) >= 1
    ensures Find(below, f).Some?
    decreases |below|
  {
    var n := |below| - 1;
    if Core(below[n]) != Core(f) {
      assert below == below[..n] + [below[n]];
      TallyAppend(below[..n], [below[n]], Core(f));
      TallyOne(below[n], Core(f));
      FindFinds(below[..n], f);
    }
  }

  /** Packets with the same core count alike. */
  lemma SameCore(a: Fetch, b: Fetch, key: Fetch)
    requires Core(a) == Core(b)
    ensures Silent(a) == Silent(b) && L2Cache.Mine(a, key) == L2Cache.Mine(b, key) && a.writeType == b.writeType
    ensures a.isWrite == b.isWrite
  {
    assert Core(a).isWrite == a.isWrite && Core(b).isWrite == b.isWrite;
    assert Core(a).writeType == a.writeType && Core(b).writeType == b.writeType;
  }

  /** The reply that SM i pops is known, waited for and not a copy. */
  lemma ReplyIsKnown(cfg: GpuConfig, s: GpuState, i: nat)
    requires GpuInv(cfg, s) && i < |cfg.sms|
    ensures i < |s.replies.outs| && i < |s.requests.ins| && i < |s.sms|
    ensures var p, j := TopPacket(s.replies, i), InputOf(s, i).reply;
            && (p.Some? <==> j.Some?)
            && (j.Some? ==> j.value < |s.sms[i].below| && Core(s.sms[i].below[j.value]) == Core(p.value.data)
                            && !Silent(s.sms[i].below[j.value]))
  {
    hide GpuInv, Silent, Core, Tally, Find;
    ReplyIsAddressed(cfg, s, i);
    ReplyIsBelow(cfg, s, i);
    var p := TopPacket(s.replies, i);
    if p.Some? {
      FindFinds(s.sms[i].below, p.value.data);
      SameCore(s.sms[i].below[Find(s.sms[i].below, p.value.data).value], p.value.data, p.value.data);
    }
  }

  lemma BelowIsSendable(cfg: Sm.SmConfig, s: Sm.SmState, j: nat)
    requires SmInv.Inv(cfg, s) && j < |s.below| && !Silent(s.below[j])
    ensures s.below[j].writeType != WriteThroughL2
  {
    assert L1Cache.Sendable(s.below[j]);
  }

  /** So the SM may take it. */
  lemma InputIsOk(cfg: GpuConfig, s: GpuState, i: nat)
    requires GpuInv(cfg, s) && i < |cfg.sms|
    ensures i < |s.replies.outs| && i < |s.requests.ins| && i < |s.sms|
    ensures SmInv.InputOk(cfg.sms[i], s.sms[i], InputOf(s, i))
    ensures SmInv.Inv(cfg.sms[i], s.sms[i]) && SmTraffic.Own(cfg.sms[i], s.sms[i])
  {
    hide GpuInv, Silent, SmInv.Inv, SmTraffic.Own, Find, Core;
    SmOf(cfg, s, i);
    ReplyIsKnown(cfg, s, i);
    var j := InputOf(s, i).reply;
    if j.Some? { BelowIsSendable(cfg.sms[i], s.sms[i], j.value); }
  }

  // ---------------------------------------------------------------- the sent packet

  lemma MissIsOwn(cfg: Sm.SmConfig, s: Sm.SmState)
    requires SmInv.Inv(cfg, s) && SmTraffic.Own(cfg, s) && s.l1.missQ != []
    ensures s.l1.missQ[0].sm == cfg.smId && s.l1.missQ[0].Aligned()
  {
    assert L1Cache.Sendable(s.l1.missQ[0]);
  }

  /** What SM i sends is its own and aimed at its bank, so the packet is addressed. */
  lemma SentIsAddressed(cfg: GpuConfig, s: GpuState, i: nat)
    requires GpuInv(cfg, s) && i < |cfg.sms|
    ensures |cfg.drams| > 0 && i < |s.replies.outs| && i < |s.requests.ins| && i < |s.sms|
    ensures var f := SentBy(cfg, s, i);
            f.Some? ==> Addressed(cfg.Layout(), Requests, Packet(f.value, i, Home(cfg.Layout(), f.value)))
  {
    hide GpuInv, SmInv.Inv, SmTraffic.Own;
    Parts(cfg, s);
    SmOf(cfg, s, i);
    var x := s.sms[i];
    if x.l1.missQ != [] {
      MissIsOwn(cfg.sms[i], x);
      assert x.l1.missQ[0].SectorAddr() == Sm.Routed(cfg.sms[i], x.l1.missQ[0]).SectorAddr();
    }
  }

  // ---------------------------------------------------------------- the turn

  /** SM i goes to state x in this turn. */
  ghost predicate Turns(cfg: GpuConfig, s: GpuState, i: nat, x: Sm.SmState)
    requires Assembled(cfg, s) && i < |cfg.sms|
  {
    Sm.Cycle(cfg.sms[i], s.sms[i], InputOf(s, i)) == Sm.Outcome.Ok(x)
  }

  /** The SM's cycle never fails, whatever it pops; what it has below loses the popped packet and gains
      the sent one. */
  lemma SmSettles(cfg: GpuConfig, s: GpuState, i: nat) returns (x: Sm.SmState)
    requires GpuInv(cfg, s) && i < |cfg.sms| && s.sms[i].now + 1 < Sm.INT_MAX
    ensures Assembled(cfg, s) && Turns(cfg, s, i, x)
    ensures SmInv.Inv(cfg.sms[i], x) && SmTraffic.Own(cfg.sms[i], x) && x.now <= s.sms[i].now + 1
    ensures x.below == if Active(cfg, s, i)
                       then SmTraffic.Without(s.sms[i].below, InputOf(s, i).reply) + Items(SentBy(cfg, s, i))
                       else s.sms[i].below
  {
    hide GpuInv, SmInv.Inv, SmTraffic.Own, InputOf, Sm.IsActive, Sm.Cycle, SmsOk, PartsOk, NetsOk, NoStrays,
         AllBalanced;
    Parts(cfg, s);
    InputIsOk(cfg, s, i);
    SmTraffic.CycleTraffic(cfg.sms[i], s.sms[i], InputOf(s, i));
    x := Sm.Cycle(cfg.sms[i], s.sms[i], InputOf(s, i)).value;
  }

  /** The shared pointer only moves up, and stays inside the kernel. */
  lemma PointerMoves(cfg: GpuConfig, s: GpuState, i: nat, x: Sm.SmState)
    requires GpuInv(cfg, s) && i < |cfg.sms| && Assembled(cfg, s) && Turns(cfg, s, i, x)
    ensures s.ptr <= x.ptr <= |cfg.sms[i].kernel|
  {
    hide SmInv.Inv, SmTraffic.Own, Sm.Cycle, PartsOk, NetsOk, NoStrays, AllBalanced;
    SmOf(cfg, s, i);
    SmBlocks.CycleTakes(cfg.sms[i], s.sms[i], InputOf(s, i));
  }

  lemma SameKernel(cfg: GpuConfig, i: nat, j: nat)
    requires cfg.Ok() && i < |cfg.sms| && j < |cfg.sms|
    ensures cfg.sms[i].kernel == cfg.sms[j].kernel
  {
    assert cfg.SmFits(i) && cfg.SmFits(j);
  }

  lemma OtherSmOk(cfg: GpuConfig, s: GpuState, i: nat, x: Sm.SmState, s': GpuState, j: nat)
    requires GpuInv(cfg, s) && i < |cfg.sms| && j < |cfg.sms| && i != j && Assembled(cfg, s)
    requires s'.ptr == x.ptr && s'.sms == s.sms[i := x] && s.ptr <= x.ptr <= |cfg.sms[i].kernel|
    ensures SmOk(cfg, s', j)
  {
    hide GpuInv, SmInv.Inv, SmTraffic.Own, Sm.Shaped;
    Parts(cfg, s);
    SmOf(cfg, s, j);
    SameKernel(cfg, i, j);
  }

  /** All SMs are well after the turn of one. */
  lemma SmsAfter(cfg: GpuConfig, s: GpuState, i: nat, x: Sm.SmState, s': GpuState)
    requires GpuInv(cfg, s) && i < |cfg.sms| && Assembled(cfg, s) && Turns(cfg, s, i, x)
    requires SmInv.Inv(cfg.sms[i], x) && SmTraffic.Own(cfg.sms[i], x)
    requires s'.ptr == x.ptr && s'.sms == s.sms[i := x]
    ensures |s'.sms| == |cfg.sms| && SmsOk(cfg, s')
  {
    hide GpuInv, Turns, SmInv.Inv, SmTraffic.Own, SmsOk, PartsOk, NetsOk, NoStrays, AllBalanced;
    Parts(cfg, s);
    PointerMoves(cfg, s, i, x);
    assert SmOk(cfg, s', i);
    forall j | 0 <= j < |s'.sms| ensures SmOk(cfg, s', j) {
      if j != i { OtherSmOk(cfg, s, i, x, s', j); }
    }
    AllSms(cfg, s');
  }

  lemma AllSms(cfg: GpuConfig, s: GpuState)
    requires |s.sms| == |cfg.sms| && forall j :: 0 <= j < |s.sms| ==> SmOk(cfg, s, j)
    ensures SmsOk(cfg, s)
  {
  }

  /** Nothing else changes shape. */
  lemma SmAssembled(cfg: GpuConfig, s: GpuState, i: nat, x: Sm.SmState)
    requires GpuInv(cfg, s) && i < |cfg.sms| && Assembled(cfg, s) && Turns(cfg, s, i, x) && |cfg.drams| > 0
    ensures Assembled(cfg, AfterSm(cfg, s, i, x))
  {
    hide GpuInv, Sm.Shaped, Formed, Active, SentBy, Home;
  }

  /** Both subnets stay in order. */
  lemma SmNets(cfg: GpuConfig, s: GpuState, i: nat, x: Sm.SmState)
    requires GpuInv(cfg, s) && i < |cfg.sms| && Assembled(cfg, s) && |cfg.drams| > 0
    ensures NetsOk(cfg, AfterSm(cfg, s, i, x))
  {
    hide GpuInv, Assembled, NetOk, Addressed, Active, SentBy, Home;
    Parts(cfg, s);
    PopMoves(cfg.Layout(), Replies, s.replies, i);
    SentIsAddressed(cfg, s, i);
    var f := SentBy(cfg, s, i);
    if f.Some? {
      HomeIsASlice(cfg.Layout(), f.value);
      PushMoves(cfg.Layout(), Requests, s.requests, i, Home(cfg.Layout(), f.value), f.value);
    }
  }

  lemma SmNoStrays(cfg: GpuConfig, s: GpuState, i: nat, x: Sm.SmState)
    requires GpuInv(cfg, s) && i < |cfg.sms| && |cfg.drams| > 0 && Assembled(cfg, s)
    requires Assembled(cfg, AfterSm(cfg, s, i, x))
    ensures NoStrays(cfg, AfterSm(cfg, s, i, x)) && PartsOk(cfg, AfterSm(cfg, s, i, x))
  {
    var s' := AfterSm(cfg, s, i, x);
    assert s'.parts == s.parts;
    hide GpuInv, Assembled, Held, Serves, AfterSm, PartitionInv;
    forall c, k, key | 0 <= c < |cfg.drams| && 0 <= k < SLICES && !Serves(cfg, c, k, key)
      ensures HeldBy(cfg, s', c, k, key) == 0
    {
      NothingStrayHeld(cfg, s, c, k, key);
    }
    forall c | 0 <= c < |s'.parts| ensures PartOk(cfg, s', c) { PartOf(cfg, s, c); }
  }

  // ---------------------------------------------------------------- the books

  lemma WithoutTally(q: seq<Fetch>, j: nat, key: Fetch)
    requires j < |q|
    ensures Tally(SmTraffic.Without(q, Some(j)), key) + L2Cache.Mine(q[j], key) == Tally(q, key)
  {
    assert q == q[..j] + ([q[j]] + q[j + 1..]);
    hide Tally, L2Cache.Mine;
    TallyAppend(q[..j], [q[j]] + q[j + 1..], key);
    TallyAppend([q[j]], q[j + 1..], key);
    TallyAppend(q[..j], q[j + 1..], key);
    TallyOne(q[j], key);
  }

  /** How often the sent packet counts. */
  ghost function SentCount(f: Option<Fetch>, key: Fetch): nat { if f.Some? then L2Cache.Mine(f.value, key) else 0 }

  /** What is below an active SM: less the popped packet, and the sent one more. */
  lemma BelowCounts(cfg: GpuConfig, s: GpuState, i: nat, key: Fetch)
    requires GpuInv(cfg, s) && i < |cfg.sms|
    ensures i < |s.replies.outs| && i < |s.requests.ins| && i < |s.sms|
    ensures Tally(SmTraffic.Without(s.sms[i].below, InputOf(s, i).reply) + Items(SentBy(cfg, s, i)), key)
            + Popped(TopPacket(s.replies, i), key)
            == Tally(s.sms[i].below, key) + SentCount(SentBy(cfg, s, i), key)
  {
    hide GpuInv, Core, Silent, Tally, L2Cache.Mine, InputOf, SentBy;
    ReplyIsKnown(cfg, s, i);
    var below, j, sent := s.sms[i].below, InputOf(s, i).reply, SentBy(cfg, s, i);
    TallyAppend(SmTraffic.Without(below, j), Items(sent), key);
    ItemsTally(sent, key);
    if j.Some? {
      WithoutTally(below, j.value, key);
      SameCore(below[j.value], TopPacket(s.replies, i).value.data, key);
    }
  }

  /** The subnets, as the turn of an active SM leaves them. */
  lemma SmNetsCount(cfg: GpuConfig, s: GpuState, i: nat, x: Sm.SmState, key: Fetch)
    requires GpuInv(cfg, s) && i < |cfg.sms| && Assembled(cfg, s) && |cfg.drams| > 0 && Active(cfg, s, i)
    requires key.sm < |cfg.sms|
    requires Assembled(cfg, AfterSm(cfg, s, i, x))
    ensures var g, s' := cfg.Layout(), AfterSm(cfg, s, i, x);
            && OnNet(g, Requests, s'.requests, key)
               == OnNet(g, Requests, s.requests, key) + SentCount(SentBy(cfg, s, i), key)
            && OnNet(g, Replies, s'.replies, key) + Popped(TopPacket(s.replies, i), key)
               == OnNet(g, Replies, s.replies, key)
  {
    hide GpuInv, Assembled, NetOk, Addressed, Active, SentBy, Home, OnNet;
    Parts(cfg, s);
    PopCounts(cfg.Layout(), Replies, s.replies, i, key);
    SentIsAddressed(cfg, s, i);
    var f := SentBy(cfg, s, i);
    if f.Some? {
      HomeIsASlice(cfg.Layout(), f.value);
      PushCounts(cfg.Layout(), Requests, s.requests, i, Home(cfg.Layout(), f.value), f.value, key);
    }
  }

  /** Requests of other SMs are neither popped nor sent by SM i. */
  lemma OthersDoNotCount(cfg: GpuConfig, s: GpuState, i: nat, key: Fetch)
    requires GpuInv(cfg, s) && i < |cfg.sms| && key.sm != i
    ensures |cfg.drams| > 0 && i < |s.replies.outs| && i < |s.requests.ins| && i < |s.sms|
    ensures Popped(TopPacket(s.replies, i), key) == 0 == SentCount(SentBy(cfg, s, i), key)
  {
    hide GpuInv, Silent, Home, SentBy, Aimed;
    ReplyIsAddressed(cfg, s, i);
    SentIsAddressed(cfg, s, i);
  }

  lemma SameHeld(cfg: GpuConfig, s: GpuState, s': GpuState, c: nat, k: nat, key: Fetch)
    requires Assembled(cfg, s) && Assembled(cfg, s') && s'.parts == s.parts && c < |cfg.drams| && k < SLICES
    ensures HeldBy(cfg, s', c, k, key) == HeldBy(cfg, s, c, k, key)
  {
    hide Held;
  }

  /** What the turn of SM i does to the requests that look like `key` below their SM. */
  lemma OwnerCounts(cfg: GpuConfig, s: GpuState, i: nat, x: Sm.SmState, key: Fetch)
    requires GpuInv(cfg, s) && i < |cfg.sms| && |cfg.drams| > 0 && Assembled(cfg, s) && Active(cfg, s, i)
    requires key.sm < |cfg.sms|
    requires x.below == SmTraffic.Without(s.sms[i].below, InputOf(s, i).reply) + Items(SentBy(cfg, s, i))
    ensures Tally(AfterSm(cfg, s, i, x).sms[key.sm].below, key) + Popped(TopPacket(s.replies, i), key)
            == Tally(s.sms[key.sm].below, key) + SentCount(SentBy(cfg, s, i), key)
  {
    hide GpuInv, Assembled, Active, InputOf, SentBy, Tally, SmTraffic.Without, Popped, SentCount, TopPacket,
         PopPacket, PushSent;
    Parts(cfg, s);
    if key.sm == i { BelowCounts(cfg, s, i, key); } else { OthersDoNotCount(cfg, s, i, key); }
  }

  lemma ActiveStaysInOnePlace(cfg: GpuConfig, s: GpuState, i: nat, x: Sm.SmState, c: nat, k: nat, key: Fetch)
    requires GpuInv(cfg, s) && i < |cfg.sms| && |cfg.drams| > 0 && Assembled(cfg, s)
    requires Assembled(cfg, AfterSm(cfg, s, i, x))
    requires Active(cfg, s, i) && c < |cfg.drams| && k < SLICES && Serves(cfg, c, k, key) && key.sm < |cfg.sms|
    requires x.below == SmTraffic.Without(s.sms[i].below, InputOf(s, i).reply) + Items(SentBy(cfg, s, i))
    ensures InOnePlace(cfg, AfterSm(cfg, s, i, x), c, k, key)
  {
    assert AfterSm(cfg, s, i, x).parts == s.parts;
    hide GpuInv, Assembled, Active, InputOf, SentBy, Tally, SmTraffic.Without, Popped, SentCount, TopPacket, AfterSm,
         OnNet, HeldBy, Serves;
    WasBalanced(cfg, s, c, k, key);
    SameHeld(cfg, s, AfterSm(cfg, s, i, x), c, k, key);
    OwnerCounts(cfg, s, i, x, key);
    SmNetsCount(cfg, s, i, x, key);
  }

  lemma IdleStaysInOnePlace(cfg: GpuConfig, s: GpuState, i: nat, x: Sm.SmState, c: nat, k: nat, key: Fetch)
    requires GpuInv(cfg, s) && i < |cfg.sms| && |cfg.drams| > 0 && Assembled(cfg, s)
    requires Assembled(cfg, AfterSm(cfg, s, i, x))
    requires !Active(cfg, s, i) && c < |cfg.drams| && k < SLICES && Serves(cfg, c, k, key) && key.sm < |cfg.sms|
    requires x.below == s.sms[i].below
    ensures InOnePlace(cfg, AfterSm(cfg, s, i, x), c, k, key)
  {
    hide GpuInv, Assembled, Active, Tally, AfterSm, OnNet, HeldBy, Serves;
    Parts(cfg, s);
    IdleChangesNothing(cfg, s, i, x, key);
    WasBalanced(cfg, s, c, k, key);
    SameHeld(cfg, s, AfterSm(cfg, s, i, x), c, k, key);
  }

  lemma IdleChangesNothing(cfg: GpuConfig, s: GpuState, i: nat, x: Sm.SmState, key: Fetch)
    requires i < |cfg.sms| && |cfg.drams| > 0 && Assembled(cfg, s) && !Active(cfg, s, i) && key.sm < |cfg.sms|
    requires x.below == s.sms[i].below
    ensures var s' := AfterSm(cfg, s, i, x);
            && |s'.sms| == |s.sms| == |cfg.sms| && s'.sms[key.sm].below == s.sms[key.sm].below
            && s'.requests == s.requests && s'.replies == s.replies && s'.parts == s.parts
  {
    hide Active, SentBy, PushSent, PopPacket, Sm.Shaped, Formed;
  }

  lemma SmBalanced(cfg: GpuConfig, s: GpuState, i: nat, x: Sm.SmState)
    requires GpuInv(cfg, s) && i < |cfg.sms| && |cfg.drams| > 0 && Assembled(cfg, s)
    requires Assembled(cfg, AfterSm(cfg, s, i, x))
    requires x.below == if Active(cfg, s, i)
                        then SmTraffic.Without(s.sms[i].below, InputOf(s, i).reply) + Items(SentBy(cfg, s, i))
                        else s.sms[i].below
    ensures AllBalanced(cfg, AfterSm(cfg, s, i, x))
  {
    hide GpuInv, Active, InputOf, SentBy, SmTraffic.Without, AfterSm, InOnePlace, Home;
    forall c, k, key | 0 <= c < |cfg.drams| && 0 <= k < SLICES && Serves(cfg, c, k, key)
      ensures InOnePlace(cfg, AfterSm(cfg, s, i, x), c, k, key)
    {
      if Active(cfg, s, i) {
        ActiveStaysInOnePlace(cfg, s, i, x, c, k, key);
      } else {
        IdleStaysInOnePlace(cfg, s, i, x, c, k, key);
      }
    }
  }

  /** The turn of an SM never fails and keeps the invariant. */
  lemma SmKeeps(cfg: GpuConfig, s: GpuState, i: nat) returns (x: Sm.SmState)
    requires GpuInv(cfg, s) && i < |cfg.sms| && s.sms[i].now + 1 < Sm.INT_MAX
    ensures Assembled(cfg, s) && |cfg.drams| > 0 && Turns(cfg, s, i, x) && x.now <= s.sms[i].now + 1
    ensures GpuInv(cfg, AfterSm(cfg, s, i, x))
  {
    x := SmSettles(cfg, s, i);
    hide GpuInv, Assembled, Turns, Active, InputOf, SentBy, SmTraffic.Without, SmInv.Inv, SmTraffic.Own,
         SmsOk, PartsOk, NetsOk, NoStrays, AllBalanced;
    Parts(cfg, s);
    SmAssembled(cfg, s, i, x);
    SmsAfter(cfg, s, i, x, AfterSm(cfg, s, i, x));
    SmNets(cfg, s, i, x);
    SmNoStrays(cfg, s, i, x);
    SmBalanced(cfg, s, i, x);
    FromParts(cfg, AfterSm(cfg, s, i, x));
  }
}
