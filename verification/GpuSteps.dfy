/** Every step of the GPU keeps its invariant, and nothing but the overflow of a slice's queue to its
    channel can make one fail. */
module GpuSteps {
  import opened Wrappers
  import opened MemFetch
  import opened Crossbar
  import opened Dram
  import opened L2Cache
  import opened GpuPackets
  import opened GpuMemory
  import opened Gpu
  import Sm
  import SmInv
  import SmTraffic
  import TagStore

  // ---------------------------------------------------------------- counting

  lemma {:induction false} TallyMember(q: seq<Fetch>, i: nat, key: Fetch)
    requires i < |q| && L2Cache.Mine(q[i], key) == 1
    ensures Tally(q, key) >= 1
    decreases |q|
  {
    if i > 0 { TallyMember(q[1..], i - 1, key); }
  }

  lemma ItemsTally(x: Option<Fetch>, key: Fetch)
    ensures Tally(Items(x), key) == if x.Some? then L2Cache.Mine(x.value, key) else 0
  {
    if x.Some? { TallyOne(x.value, key); }
  }

  /** Requests with the same core are at home in the same slice. */
  lemma CoreIsHome(g: Layout, f: Fetch)
    requires g.channels > 0
    ensures Home(g, Core(f)) == Home(g, f) && Core(f).sm == f.sm && Silent(Core(f)) == Silent(f)
  {
  }

  // ---------------------------------------------------------------- parts of the invariant

  lemma Parts(cfg: GpuConfig, s: GpuState)
    requires GpuInv(cfg, s)
    ensures cfg.Ok() && |cfg.drams| > 0 && Assembled(cfg, s) && SmsOk(cfg, s) && PartsOk(cfg, s) && NetsOk(cfg, s)
    ensures NoStrays(cfg, s) && AllBalanced(cfg, s)
    ensures |s.sms| == |cfg.sms| && |s.parts| == |cfg.drams|
    ensures |s.requests.ins| == |s.requests.outs| == |s.replies.ins| == |s.replies.outs| == cfg.Layout().Nodes()
    ensures NetOk(cfg.Layout(), Requests, s.requests) && NetOk(cfg.Layout(), Replies, s.replies)
    ensures cfg.Layout().channels == |cfg.drams| && cfg.Layout().sms == |cfg.sms|
  {
  }

  lemma PartOf(cfg: GpuConfig, s: GpuState, c: nat)
    requires GpuInv(cfg, s) && c < |cfg.drams|
    ensures c < |s.parts| && PartitionInv(cfg.Layout(), cfg.l2, cfg.drams[c], s.parts[c]) && cfg.drams[c].nbk >= 16
    ensures Formed(cfg.l2, s.parts[c])
  {
    assert PartOk(cfg, s, c);
  }

  lemma SmOf(cfg: GpuConfig, s: GpuState, i: nat)
    requires GpuInv(cfg, s) && i < |cfg.sms|
    ensures i < |s.sms| && SmOk(cfg, s, i) && Sm.Shaped(cfg.sms[i], s.sms[i]) && cfg.SmFits(i)
  {
  }

  // ---------------------------------------------------------------- a memory partition's turn

  /** What a slice pops is for it, and from an SM. */
  lemma ArrivalsBelong(cfg: GpuConfig, s: GpuState, c: nat, k: nat)
    requires GpuInv(cfg, s) && c < |cfg.drams| && k < SLICES
    ensures |cfg.drams| > 0 && |s.requests.outs| == cfg.Layout().Nodes()
    ensures var a := Arrivals(cfg, s, c)[k];
            a.Some? ==> Aimed(cfg.Layout(), a.value) && Serves(cfg, c, k, a.value)
  {
    Parts(cfg, s);
    hide GpuInv, Assembled, SmsOk, PartsOk, NetsOk, NoStrays, AllBalanced, NetOk, Aimed;
    PopMoves(cfg.Layout(), Requests, s.requests, Node(cfg, c, k));
  }

  lemma ArrivalsAimed(cfg: GpuConfig, s: GpuState, c: nat)
    requires GpuInv(cfg, s) && c < |cfg.drams|
    ensures |cfg.drams| > 0 && |s.requests.outs| == cfg.Layout().Nodes()
    ensures ArrivalsOk(cfg.Layout(), Arrivals(cfg, s, c))
  {
    hide GpuInv, Assembled, Aimed;
    ArrivalsBelong(cfg, s, c, 0);
    ArrivalsBelong(cfg, s, c, 1);
  }

  /** A slice pops nothing that it does not serve. */
  lemma NoStrayArrives(cfg: GpuConfig, s: GpuState, c: nat, k: nat, key: Fetch)
    requires GpuInv(cfg, s) && c < |cfg.drams| && k < SLICES && |cfg.drams| > 0 && !Serves(cfg, c, k, key)
    ensures |s.requests.outs| == cfg.Layout().Nodes()
    ensures Tally(Items(Arrivals(cfg, s, c)[k]), key) == 0
  {
    hide GpuInv, Aimed, Tally, Home;
    ArrivalsBelong(cfg, s, c, k);
    var a := Arrivals(cfg, s, c)[k];
    ItemsTally(a, key);
    if a.Some? { CoreIsHome(cfg.Layout(), a.value); }
  }

  ghost predicate Turned(cfg: GpuConfig, s: GpuState, c: nat, t: Turn)
    requires Assembled(cfg, s) && c < |cfg.drams|
  {
    PartitionCycle(cfg.l2, cfg.drams[c], s.parts[c], Arrivals(cfg, s, c)) == Ok(t)
  }

  /** The books of slice k of the channel whose turn it is. */
  lemma TurnBalances(cfg: GpuConfig, s: GpuState, c: nat, t: Turn, k: nat, key: Fetch)
    requires GpuInv(cfg, s) && c < |cfg.drams| && Turned(cfg, s, c, t) && k < SLICES
    requires s.parts[c].Now() < TagStore.MAX_TIME
    ensures |t.replies| == SLICES == |t.state.l2| == |t.state.chan.slices| && |t.state.l2[k].toSms| == REPLY_QUEUES
    ensures Held(cfg.drams[c], t.state, k, key) + Tally(t.replies[k], key)
            == HeldBy(cfg, s, c, k, key) + Tally(Items(Arrivals(cfg, s, c)[k]), key)
  {
    ArrivalsAimed(cfg, s, c);
    PartOf(cfg, s, c);
    Parts(cfg, s);
    hide GpuInv, Assembled, PartitionCycle, PartitionInv, Tally, Held, ArrivalsOk, SmsOk, PartsOk, NetsOk, NoStrays,
         AllBalanced;
    PartitionBalances(cfg.Layout(), cfg.l2, cfg.drams[c], s.parts[c], Arrivals(cfg, s, c), k, key);
  }

  lemma NothingStrayHeld(cfg: GpuConfig, s: GpuState, c: nat, k: nat, key: Fetch)
    requires GpuInv(cfg, s) && c < |cfg.drams| && k < SLICES
    ensures |cfg.drams| > 0 && Assembled(cfg, s) && (!Serves(cfg, c, k, key) ==> HeldBy(cfg, s, c, k, key) == 0)
  {
    hide SmsOk, PartsOk, NetsOk, AllBalanced, Serves, HeldBy;
  }

  /** A slice neither holds nor replies to anything that it does not serve. */
  lemma NoStrayLeaves(cfg: GpuConfig, s: GpuState, c: nat, t: Turn, k: nat, key: Fetch)
    requires GpuInv(cfg, s) && c < |cfg.drams| && Turned(cfg, s, c, t) && k < SLICES
    requires s.parts[c].Now() < TagStore.MAX_TIME && |cfg.drams| > 0 && !Serves(cfg, c, k, key)
    ensures |t.replies| == SLICES == |t.state.l2| == |t.state.chan.slices| && |t.state.l2[k].toSms| == REPLY_QUEUES
    ensures Held(cfg.drams[c], t.state, k, key) == 0 == Tally(t.replies[k], key)
  {
    hide *;
    NothingStrayHeld(cfg, s, c, k, key);
    NoStrayArrives(cfg, s, c, k, key);
    TurnBalances(cfg, s, c, t, k, key);
  }

  lemma TurnKeeps(cfg: GpuConfig, s: GpuState, c: nat, t: Turn)
    requires GpuInv(cfg, s) && c < |cfg.drams| && Turned(cfg, s, c, t) && s.parts[c].Now() < TagStore.MAX_TIME
    ensures |cfg.drams| > 0 && PartitionInv(cfg.Layout(), cfg.l2, cfg.drams[c], t.state)
    ensures t.state.Now() == s.parts[c].Now() + 1
    ensures |t.replies| == SLICES && NoneSilent(t.replies[0]) && NoneSilent(t.replies[1])
  {
    hide GpuInv, PartitionCycle, PartitionInv, ArrivalsOk, NoneSilent;
    Parts(cfg, s);
    ArrivalsAimed(cfg, s, c);
    PartOf(cfg, s, c);
    PartitionKeeps(cfg.Layout(), cfg.l2, cfg.drams[c], s.parts[c], Arrivals(cfg, s, c));
  }

  lemma ReplyBelongs(cfg: GpuConfig, s: GpuState, c: nat, t: Turn, k: nat, i: nat)
    requires GpuInv(cfg, s) && c < |cfg.drams| && Turned(cfg, s, c, t) && k < SLICES
    requires s.parts[c].Now() < TagStore.MAX_TIME && k < |t.replies| && i < |t.replies[k]| && !Silent(t.replies[k][i])
    ensures |cfg.drams| > 0 && Serves(cfg, c, k, t.replies[k][i])
  {
    var f := t.replies[k][i];
    assert L2Cache.Mine(f, Core(f)) == 1;
    hide GpuInv, Turned, Silent, Core, Tally, L2Cache.Mine, Home, Held;
    NothingStrayHeld(cfg, s, c, k, Core(f));
    CoreIsHome(cfg.Layout(), f);
    if !Serves(cfg, c, k, Core(f)) {
      NoStrayLeaves(cfg, s, c, t, k, Core(f));
      TallyMember(t.replies[k], i, Core(f));
    }
  }

  /** So its replies are for their SMs, and none is a copy. */
  lemma RepliesBelong(cfg: GpuConfig, s: GpuState, c: nat, t: Turn, k: nat)
    requires GpuInv(cfg, s) && c < |cfg.drams| && Turned(cfg, s, c, t) && k < SLICES
    requires s.parts[c].Now() < TagStore.MAX_TIME
    ensures |cfg.drams| > 0 && |t.replies| == SLICES && RepliesOf(cfg.Layout(), Node(cfg, c, k), t.replies[k])
  {
    hide GpuInv, Turned, Silent, Home, PartitionInv;
    TurnKeeps(cfg, s, c, t);
    var q := t.replies[k];
    forall i | 0 <= i < |q| ensures Addressed(cfg.Layout(), Replies, Packet(q[i], Node(cfg, c, k), q[i].sm)) {
      assert !Silent(q[i]);
      ReplyBelongs(cfg, s, c, t, k, i);
    }
  }

  lemma TwoPops(g: Layout, r: Router, m: nat, n: nat)
    requires g.channels > 0 && NetOk(g, Requests, r) && m < g.Nodes() && n < g.Nodes()
    ensures NetOk(g, Requests, PopPacket(PopPacket(r, m), n))
  {
    assert |r.outs| == g.Nodes();
    hide NetOk;
    PopMoves(g, Requests, r, m);
    PopMoves(g, Requests, PopPacket(r, m), n);
  }

  lemma TwoPopsCount(g: Layout, r: Router, m: nat, n: nat, key: Fetch)
    requires g.channels > 0 && NetOk(g, Requests, r) && m < g.Nodes() && n < g.Nodes() && m != n && key.sm < g.sms
    ensures |r.ins| == |r.outs| == g.Nodes()
    ensures OnNet(g, Requests, PopPacket(PopPacket(r, m), n), key)
            + Tally(Items(DataOf(TopPacket(r, m))), key) + Tally(Items(DataOf(TopPacket(r, n))), key)
            == OnNet(g, Requests, r, key)
  {
    assert TopPacket(PopPacket(r, m), n) == TopPacket(r, n);
    PopMoves(g, Requests, r, m);
    hide NetOk, OnNet, Tally;
    PopCounts(g, Requests, r, m, key);
    PopCounts(g, Requests, PopPacket(r, m), n, key);
    ItemsTally(DataOf(TopPacket(r, m)), key);
    ItemsTally(DataOf(TopPacket(r, n)), key);
  }

  lemma TwoPushes(g: Layout, r: Router, m: nat, n: nat, p: seq<Fetch>, q: seq<Fetch>)
    requires g.channels > 0 && NetOk(g, Replies, r) && m < g.Nodes() && n < g.Nodes()
    requires RepliesOf(g, m, p) && RepliesOf(g, n, q)
    ensures |r.ins| == g.Nodes() && NetOk(g, Replies, PushReplies(PushReplies(r, m, p), n, q))
  {
    assert |r.ins| == g.Nodes();
    hide NetOk, RepliesOf;
    RepliesMove(g, r, m, p);
    RepliesMove(g, PushReplies(r, m, p), n, q);
  }

  lemma TwoPushesCount(g: Layout, r: Router, m: nat, n: nat, p: seq<Fetch>, q: seq<Fetch>, key: Fetch)
    requires g.channels > 0 && NetOk(g, Replies, r) && m < g.Nodes() && n < g.Nodes() && key.sm < g.sms
    requires RepliesOf(g, m, p) && RepliesOf(g, n, q)
    ensures NetOk(g, Replies, PushReplies(PushReplies(r, m, p), n, q))
    ensures OnNet(g, Replies, PushReplies(PushReplies(r, m, p), n, q), key)
            == OnNet(g, Replies, r, key) + Tally(p, key) + Tally(q, key)
  {
    RepliesMove(g, r, m, p);
    hide OnNet, Tally, RepliesOf;
    RepliesCount(g, r, m, p, key);
    RepliesCount(g, PushReplies(r, m, p), n, q, key);
  }

  // ---------------------------------------------------------------- the state after it

  lemma FormedAfter(g: Layout, cfg: L2Config, dcfg: DramConfig, p: Partition)
    requires g.channels > 0 && PartitionInv(g, cfg, dcfg, p)
    ensures Formed(cfg, p)
  {
  }

  lemma MemoryAssembled(cfg: GpuConfig, s: GpuState, c: nat, t: Turn)
    requires GpuInv(cfg, s) && c < |cfg.drams| && Turned(cfg, s, c, t) && s.parts[c].Now() < TagStore.MAX_TIME
    ensures Assembled(cfg, s) && |t.replies| == SLICES && Assembled(cfg, AfterMemory(cfg, s, c, t))
  {
    hide GpuInv, Turned, PartitionInv, NoneSilent, Formed, Sm.Shaped, NetOk, SmsOk, PartsOk, NetsOk, NoStrays,
         AllBalanced;
    Parts(cfg, s);
    TurnKeeps(cfg, s, c, t);
    FormedAfter(cfg.Layout(), cfg.l2, cfg.drams[c], t.state);
  }

  lemma MemoryParts(cfg: GpuConfig, s: GpuState, c: nat, t: Turn)
    requires GpuInv(cfg, s) && c < |cfg.drams| && Turned(cfg, s, c, t) && s.parts[c].Now() < TagStore.MAX_TIME
    ensures Assembled(cfg, s) && |t.replies| == SLICES && |cfg.drams| > 0 && PartsOk(cfg, AfterMemory(cfg, s, c, t))
  {
    hide GpuInv, Turned, PartitionInv, NoneSilent, Assembled, NetOk, SmsOk, NetsOk, NoStrays, AllBalanced;
    Parts(cfg, s);
    TurnKeeps(cfg, s, c, t);
    var s' := AfterMemory(cfg, s, c, t);
    forall d | 0 <= d < |s'.parts| ensures PartOk(cfg, s', d) {
      if d != c { assert PartOk(cfg, s, d); }
    }
  }

  lemma MemoryNets(cfg: GpuConfig, s: GpuState, c: nat, t: Turn)
    requires GpuInv(cfg, s) && c < |cfg.drams| && Turned(cfg, s, c, t) && s.parts[c].Now() < TagStore.MAX_TIME
    ensures Assembled(cfg, s) && |t.replies| == SLICES && |cfg.drams| > 0
    ensures NetsOk(cfg, AfterMemory(cfg, s, c, t))
  {
    hide GpuInv, Turned, NetOk, RepliesOf;
    Parts(cfg, s);
    RepliesBelong(cfg, s, c, t, 0);
    RepliesBelong(cfg, s, c, t, 1);
    TwoPops(cfg.Layout(), s.requests, Node(cfg, c, 0), Node(cfg, c, 1));
    TwoPushes(cfg.Layout(), s.replies, Node(cfg, c, 0), Node(cfg, c, 1), t.replies[0], t.replies[1]);
  }

  lemma OtherHeldStays(cfg: GpuConfig, s: GpuState, c: nat, t: Turn, d: nat, k: nat, key: Fetch)
    requires c < |cfg.drams| == |s.parts| && |t.replies| == SLICES && d < |cfg.drams| && k < SLICES && d != c
    requires Assembled(cfg, s) && Assembled(cfg, AfterMemory(cfg, s, c, t))
    ensures HeldBy(cfg, AfterMemory(cfg, s, c, t), d, k, key) == HeldBy(cfg, s, d, k, key)
  {
    hide Held, Assembled;
  }

  lemma OwnHeldIs(cfg: GpuConfig, s: GpuState, c: nat, t: Turn, k: nat, key: Fetch)
    requires c < |cfg.drams| == |s.parts| && |t.replies| == SLICES && k < SLICES
    requires Assembled(cfg, s) && Assembled(cfg, AfterMemory(cfg, s, c, t))
    ensures |t.state.l2| == |t.state.chan.slices| == SLICES && |t.state.l2[k].toSms| == REPLY_QUEUES
    ensures HeldBy(cfg, AfterMemory(cfg, s, c, t), c, k, key) == Held(cfg.drams[c], t.state, k, key)
  {
    hide Held, Sm.Shaped;
    assert Formed(cfg.l2, AfterMemory(cfg, s, c, t).parts[c]);
  }

  lemma MemoryNoStray(cfg: GpuConfig, s: GpuState, c: nat, t: Turn, d: nat, k: nat, key: Fetch)
    requires GpuInv(cfg, s) && c < |cfg.drams| && Turned(cfg, s, c, t) && s.parts[c].Now() < TagStore.MAX_TIME
    requires |t.replies| == SLICES && Assembled(cfg, s) && |cfg.drams| > 0 && Assembled(cfg, AfterMemory(cfg, s, c, t))
    requires d < |cfg.drams| && k < SLICES && !Serves(cfg, d, k, key)
    ensures HeldBy(cfg, AfterMemory(cfg, s, c, t), d, k, key) == 0
  {
    assert |s.parts| == |cfg.drams|;
    hide GpuInv, Turned, Held, Serves, Assembled, HeldBy;
    NothingStrayHeld(cfg, s, d, k, key);
    if d == c {
      NoStrayLeaves(cfg, s, c, t, k, key);
      OwnHeldIs(cfg, s, c, t, k, key);
    } else {
      OtherHeldStays(cfg, s, c, t, d, k, key);
    }
  }

  lemma MemoryNoStrays(cfg: GpuConfig, s: GpuState, c: nat, t: Turn)
    requires GpuInv(cfg, s) && c < |cfg.drams| && Turned(cfg, s, c, t) && s.parts[c].Now() < TagStore.MAX_TIME
    requires |t.replies| == SLICES && Assembled(cfg, s) && |cfg.drams| > 0 && Assembled(cfg, AfterMemory(cfg, s, c, t))
    ensures NoStrays(cfg, AfterMemory(cfg, s, c, t))
  {
    var s' := AfterMemory(cfg, s, c, t);
    hide GpuInv, Turned, Assembled, HeldBy, Serves;
    forall d, k, key | 0 <= d < |cfg.drams| && 0 <= k < SLICES && !Serves(cfg, d, k, key)
      ensures HeldBy(cfg, s', d, k, key) == 0
    {
      MemoryNoStray(cfg, s, c, t, d, k, key);
    }
  }

  /** In a turn of channel c: what its slices pop for `key`, and what they reply. */
  ghost function Taken(cfg: GpuConfig, s: GpuState, c: nat, key: Fetch): nat
    requires c < |cfg.drams| && |s.requests.outs| == cfg.Layout().Nodes()
  {
    Tally(Items(Arrivals(cfg, s, c)[0]), key) + Tally(Items(Arrivals(cfg, s, c)[1]), key)
  }

  ghost function Given(t: Turn, key: Fetch): nat
    requires |t.replies| == SLICES
  {
    Tally(t.replies[0], key) + Tally(t.replies[1], key)
  }

  lemma OnlyOneServes(cfg: GpuConfig, c: nat, k: nat, d: nat, l: nat, key: Fetch)
    requires |cfg.drams| > 0 && c < |cfg.drams| && d < |cfg.drams| && k < SLICES && l < SLICES
    requires Serves(cfg, d, l, key) && (c != d || k != l)
    ensures !Serves(cfg, c, k, key)
  {
  }

  lemma BothSides(cfg: GpuConfig, s: GpuState, c: nat, t: Turn, k: nat, key: Fetch)
    requires c < |cfg.drams| && k < SLICES == |t.replies| && |s.requests.outs| == cfg.Layout().Nodes()
    ensures Given(t, key) == Tally(t.replies[k], key) + Tally(t.replies[1 - k], key)
    ensures Taken(cfg, s, c, key)
            == Tally(Items(Arrivals(cfg, s, c)[k]), key) + Tally(Items(Arrivals(cfg, s, c)[1 - k]), key)
  {
    hide Tally, Arrivals;
  }

  /** The books of `key` in a turn of the channel that serves it, and of another. */
  lemma OwnTurnBalances(cfg: GpuConfig, s: GpuState, c: nat, t: Turn, k: nat, key: Fetch)
    requires GpuInv(cfg, s) && c < |cfg.drams| && Turned(cfg, s, c, t) && s.parts[c].Now() < TagStore.MAX_TIME
    requires |cfg.drams| > 0 && k < SLICES && Serves(cfg, c, k, key)
    ensures |t.replies| == SLICES == |t.state.l2| == |t.state.chan.slices| && |t.state.l2[k].toSms| == REPLY_QUEUES
    ensures Held(cfg.drams[c], t.state, k, key) + Given(t, key) == HeldBy(cfg, s, c, k, key) + Taken(cfg, s, c, key)
  {
    hide GpuInv, Turned, Assembled, Held, HeldBy, Serves, Tally, Arrivals, Given, Taken, SmsOk, PartsOk, NetsOk,
         NoStrays, AllBalanced,
         Items, NetOk, Node;
    Parts(cfg, s);
    OnlyOneServes(cfg, c, 1 - k, c, k, key);
    TurnBalances(cfg, s, c, t, k, key);
    NoStrayArrives(cfg, s, c, 1 - k, key);
    NoStrayLeaves(cfg, s, c, t, 1 - k, key);
    BothSides(cfg, s, c, t, k, key);
  }

  lemma OtherTurnBalances(cfg: GpuConfig, s: GpuState, c: nat, t: Turn, d: nat, k: nat, key: Fetch)
    requires GpuInv(cfg, s) && c < |cfg.drams| && Turned(cfg, s, c, t) && s.parts[c].Now() < TagStore.MAX_TIME
    requires |cfg.drams| > 0 && d < |cfg.drams| && d != c && k < SLICES && Serves(cfg, d, k, key)
    ensures |t.replies| == SLICES && |s.requests.outs| == cfg.Layout().Nodes()
    ensures Given(t, key) == 0 == Taken(cfg, s, c, key)
  {
    hide GpuInv, Turned, Assembled, Held, HeldBy, Serves, Tally, Arrivals;
    Parts(cfg, s);
    OnlyOneServes(cfg, c, 0, d, k, key);
    OnlyOneServes(cfg, c, 1, d, k, key);
    NoStrayArrives(cfg, s, c, 0, key);
    NoStrayArrives(cfg, s, c, 1, key);
    NoStrayLeaves(cfg, s, c, t, 0, key);
    NoStrayLeaves(cfg, s, c, t, 1, key);
  }

  /** The slice that serves `key` keeps the books, whichever channel had its turn. */
  lemma ServingBalances(cfg: GpuConfig, s: GpuState, c: nat, t: Turn, d: nat, k: nat, key: Fetch)
    requires GpuInv(cfg, s) && c < |cfg.drams| && Turned(cfg, s, c, t) && s.parts[c].Now() < TagStore.MAX_TIME
    requires |cfg.drams| > 0 && d < |cfg.drams| && k < SLICES && Serves(cfg, d, k, key)
    requires |t.replies| == SLICES && Assembled(cfg, s) && Assembled(cfg, AfterMemory(cfg, s, c, t))
    ensures HeldBy(cfg, AfterMemory(cfg, s, c, t), d, k, key) + Given(t, key)
            == HeldBy(cfg, s, d, k, key) + Taken(cfg, s, c, key)
  {
    hide GpuInv, Turned, Assembled, Held, Serves, Given, Taken;
    Parts(cfg, s);
    if d == c { OwnTurnBalances(cfg, s, c, t, k, key); } else { OtherTurnBalances(cfg, s, c, t, d, k, key); }
  }

  /** The subnets, as the turn of channel c leaves them. */
  lemma MemoryNetsCount(cfg: GpuConfig, s: GpuState, c: nat, t: Turn, key: Fetch)
    requires GpuInv(cfg, s) && c < |cfg.drams| && Turned(cfg, s, c, t) && s.parts[c].Now() < TagStore.MAX_TIME
    requires |t.replies| == SLICES && Assembled(cfg, s) && |cfg.drams| > 0 && Assembled(cfg, AfterMemory(cfg, s, c, t))
    requires key.sm < |cfg.sms|
    ensures var g, s' := cfg.Layout(), AfterMemory(cfg, s, c, t);
            && OnNet(g, Requests, s'.requests, key) + Taken(cfg, s, c, key) == OnNet(g, Requests, s.requests, key)
            && OnNet(g, Replies, s'.replies, key) == OnNet(g, Replies, s.replies, key) + Given(t, key)
  {
    hide GpuInv, Turned, Assembled, NetOk, RepliesOf, OnNet, Tally;
    Parts(cfg, s);
    RepliesBelong(cfg, s, c, t, 0);
    RepliesBelong(cfg, s, c, t, 1);
    TwoPopsCount(cfg.Layout(), s.requests, Node(cfg, c, 0), Node(cfg, c, 1), key);
    TwoPushesCount(cfg.Layout(), s.replies, Node(cfg, c, 0), Node(cfg, c, 1), t.replies[0], t.replies[1], key);
  }

  lemma WasBalanced(cfg: GpuConfig, s: GpuState, c: nat, k: nat, key: Fetch)
    requires GpuInv(cfg, s) && |cfg.drams| > 0 && c < |cfg.drams| && k < SLICES && Serves(cfg, c, k, key)
    ensures Assembled(cfg, s) && key.sm < |cfg.sms| && InOnePlace(cfg, s, c, k, key)
  {
    hide SmsOk, PartsOk, NetsOk, NoStrays, InOnePlace;
  }

  lemma StaysInOnePlace(cfg: GpuConfig, s: GpuState, c: nat, t: Turn, d: nat, k: nat, key: Fetch)
    requires GpuInv(cfg, s) && c < |cfg.drams| && Turned(cfg, s, c, t) && s.parts[c].Now() < TagStore.MAX_TIME
    requires |t.replies| == SLICES && Assembled(cfg, s) && |cfg.drams| > 0 && Assembled(cfg, AfterMemory(cfg, s, c, t))
    requires d < |cfg.drams| && k < SLICES && Serves(cfg, d, k, key) && key.sm < |cfg.sms|
    ensures InOnePlace(cfg, AfterMemory(cfg, s, c, t), d, k, key)
  {
    assert AfterMemory(cfg, s, c, t).sms == s.sms;
    hide GpuInv, Turned, Assembled, Serves, HeldBy, OnNet, Tally, Taken, Given, AfterMemory;
    WasBalanced(cfg, s, d, k, key);
    ServingBalances(cfg, s, c, t, d, k, key);
    MemoryNetsCount(cfg, s, c, t, key);
  }

  lemma MemoryBalanced(cfg: GpuConfig, s: GpuState, c: nat, t: Turn)
    requires GpuInv(cfg, s) && c < |cfg.drams| && Turned(cfg, s, c, t) && s.parts[c].Now() < TagStore.MAX_TIME
    requires |t.replies| == SLICES && Assembled(cfg, s) && |cfg.drams| > 0 && Assembled(cfg, AfterMemory(cfg, s, c, t))
    ensures AllBalanced(cfg, AfterMemory(cfg, s, c, t))
  {
    hide GpuInv, Turned, AfterMemory, InOnePlace, Home;
    forall d, k, key | 0 <= d < |cfg.drams| && 0 <= k < SLICES && Serves(cfg, d, k, key)
      ensures InOnePlace(cfg, AfterMemory(cfg, s, c, t), d, k, key)
    {
      StaysInOnePlace(cfg, s, c, t, d, k, key);
    }
  }

  lemma SameSms(cfg: GpuConfig, s: GpuState, s': GpuState)
    requires GpuInv(cfg, s) && |s'.sms| == |cfg.sms| && s'.sms == s.sms && s'.ptr == s.ptr
    ensures SmsOk(cfg, s')
  {
    Parts(cfg, s);
    hide PartsOk, NetsOk, NoStrays, AllBalanced, SmInv.Inv, SmTraffic.Own;
    forall i | 0 <= i < |s'.sms| ensures SmOk(cfg, s', i) { assert SmOk(cfg, s, i); }
  }

  lemma FromParts(cfg: GpuConfig, s: GpuState)
    requires cfg.Ok() && |cfg.drams| > 0 && Assembled(cfg, s) && SmsOk(cfg, s) && PartsOk(cfg, s) && NetsOk(cfg, s)
    requires NoStrays(cfg, s) && AllBalanced(cfg, s)
    ensures GpuInv(cfg, s)
  {
  }

  /** The turn of a memory partition keeps the invariant. */
  lemma MemoryKeeps(cfg: GpuConfig, s: GpuState, c: nat, t: Turn)
    requires GpuInv(cfg, s) && c < |cfg.drams| && Turned(cfg, s, c, t) && s.parts[c].Now() < TagStore.MAX_TIME
    ensures Assembled(cfg, s) && |t.replies| == SLICES && GpuInv(cfg, AfterMemory(cfg, s, c, t))
  {
    hide GpuInv, Turned, Assembled, SmsOk, PartsOk, NetsOk, NoStrays, AllBalanced;
    Parts(cfg, s);
    MemoryAssembled(cfg, s, c, t);
    MemoryParts(cfg, s, c, t);
    MemoryNets(cfg, s, c, t);
    MemoryNoStrays(cfg, s, c, t);
    MemoryBalanced(cfg, s, c, t);
    SameSms(cfg, s, AfterMemory(cfg, s, c, t));
    FromParts(cfg, AfterMemory(cfg, s, c, t));
  }
}
