/** Packets of the GPU on the two subnets: every request is on its way from its SM to the slice of its
    address, every reply on its way back, and the requests an SM sees as `key` are conserved. */
module GpuPackets {
  import opened Wrappers
  import opened CacheConfig
  import opened MemFetch
  import opened Crossbar
  import opened CrossbarRuns
  import opened L2Cache
  import AddressDecode

  /** The GPU's devices: first the SMs, then two slices for each channel. */
  datatype Layout = Layout(sms: nat, channels: nat) {
    function Nodes(): nat { sms + AddressDecode.SLICES_PER_CHANNEL * channels }
  }

  function Decode(g: Layout, f: Fetch): AddressDecode.Decoded
    requires g.channels > 0
  {
    AddressDecode.Decode(f.SectorAddr(), g.channels, g.sms)
  }

  /** The device of the slice that serves a request. */
  function Home(g: Layout, f: Fetch): nat
    requires g.channels > 0
  {
    Decode(g, f).node
  }

  lemma HomeIsASlice(g: Layout, f: Fetch)
    requires g.channels > 0
    ensures g.sms <= Home(g, f) < g.Nodes() && Decode(g, f).bk < 16
  {
    AddressDecode.NodeAndBankInRange(f.SectorAddr(), g.channels, g.sms);
  }

  datatype Net = Requests | Replies

  /** Where the requests that look like f come from and go to on each subnet. */
  function Source(g: Layout, net: Net, f: Fetch): nat
    requires g.channels > 0
  {
    if net.Requests? then f.sm else Home(g, f)
  }

  function Goal(g: Layout, net: Net, f: Fetch): nat
    requires g.channels > 0
  {
    if net.Requests? then Home(g, f) else f.sm
  }

  /** What the slices rely on: a sector of its line, and the bank of the address. */
  predicate Aimed(g: Layout, f: Fetch)
    requires g.channels > 0
  {
    f.Aligned() && f.bank == Decode(g, f).bk
  }

  ghost predicate AllAimed(g: Layout, q: seq<Fetch>)
    requires g.channels > 0
  {
    forall i :: 0 <= i < |q| ==> Aimed(g, q[i])
  }

  /** A packet that travels where its request belongs; replies are never write-through copies. */
  predicate Addressed(g: Layout, net: Net, p: Packet)
    requires g.channels > 0
  {
    && p.src == Source(g, net, p.data) && p.out == Goal(g, net, p.data) && p.data.sm < g.sms
    && (if net.Requests? then Aimed(g, p.data) else !Silent(p.data))
  }

  ghost predicate AllAddressed(g: Layout, net: Net, q: Queue)
    requires g.channels > 0
  {
    forall i :: 0 <= i < |q| ==> Addressed(g, net, q[i])
  }

  ghost predicate NetOk(g: Layout, net: Net, r: Router)
    requires g.channels > 0
  {
    && Sorted(r) && |r.ins| == g.Nodes()
    && (forall j :: 0 <= j < |r.ins| ==> AllAddressed(g, net, r.ins[j]))
    && (forall o :: 0 <= o < |r.outs| ==> AllAddressed(g, net, r.outs[o]))
  }

  lemma JoinedAimed(g: Layout, q: seq<Fetch>, arrival: Option<Fetch>)
    requires g.channels > 0 && AllAimed(g, q) && (arrival.Some? ==> Aimed(g, arrival.value))
    ensures AllAimed(g, q + Items(arrival))
  {
  }

  lemma FrontAimed(g: Layout, all: seq<Fetch>, rest: seq<Fetch>, miss: Option<Fetch>)
    requires g.channels > 0 && AllAimed(g, all) && (rest == all || (all != [] && rest == all[1..]))
    requires miss.Some? ==> all != [] && miss.value == all[0].(status := miss.value.status)
    ensures AllAimed(g, rest) && (miss.Some? ==> Aimed(g, miss.value))
  {
    if miss.Some? { assert Aimed(g, all[0]) && miss.value.SectorAddr() == all[0].SectorAddr(); }
  }

  // ---------------------------------------------------------------- counting

  ghost function PacketTally(q: Queue, key: Fetch): nat {
    if q == [] then 0 else Mine(q[0].data, key) + PacketTally(q[1..], key)
  }

  lemma {:induction false} PacketTallyAppend(p: Queue, q: Queue, key: Fetch)
    ensures PacketTally(p + q, key) == PacketTally(p, key) + PacketTally(q, key)
  {
    if p == [] {
      assert p + q == q;
    } else {
      assert (p + q)[1..] == p[1..] + q;
      PacketTallyAppend(p[1..], q, key);
    }
  }

  lemma PacketTallyOne(p: Packet, key: Fetch)
    ensures PacketTally([p], key) == Mine(p.data, key)
  {
    assert [p][1..] == [];
  }

  /** The requests that look like `key` on a subnet: they are all on one flow. */
  ghost function OnNet(g: Layout, net: Net, r: Router, key: Fetch): nat
    requires g.channels > 0 && key.sm < g.sms && |r.ins| == |r.outs| == g.Nodes()
  {
    HomeIsASlice(g, key);
    PacketTally(InFlight(r, Source(g, net, key), Goal(g, net, key)), key)
  }

  /** An addressed packet that looks like `key` is on the flow of `key`. */
  lemma OneFlowTally(g: Layout, net: Net, p: Packet, key: Fetch)
    requires g.channels > 0 && Addressed(g, net, p)
    ensures PacketTally(OneFlow(p, Source(g, net, key), Goal(g, net, key)), key) == Mine(p.data, key)
  {
    PacketTallyOne(p, key);
  }

  // ---------------------------------------------------------------- steps of a subnet

  function PushPacket(r: Router, src: nat, out: nat, f: Fetch): Router
    requires src < |r.ins|
  {
    r.(ins := r.ins[src := r.ins[src] + [Packet(f, src, out)]])
  }

  function PopPacket(r: Router, dev: nat): Router
    requires dev < |r.outs|
  {
    if r.outs[dev] == [] then r else r.(outs := r.outs[dev := r.outs[dev][1..]])
  }

  function TopPacket(r: Router, dev: nat): Option<Packet>
    requires dev < |r.outs|
  {
    if r.outs[dev] == [] then None else Some(r.outs[dev][0])
  }

  /** A push of an addressed packet adds it to the requests under way. */
  lemma PushMoves(g: Layout, net: Net, r: Router, src: nat, out: nat, f: Fetch)
    requires g.channels > 0 && NetOk(g, net, r) && src < g.Nodes() && out < g.Nodes()
    requires Addressed(g, net, Packet(f, src, out))
    ensures NetOk(g, net, PushPacket(r, src, out, f))
  {
    var r' := PushPacket(r, src, out, f);
    StepKeeps(r, CrossbarRuns.Push(src, out, f), r', None);
    forall j | 0 <= j < |r'.ins| ensures AllAddressed(g, net, r'.ins[j]) {
      assert AllAddressed(g, net, r.ins[j]);
    }
  }

  lemma PushCounts(g: Layout, net: Net, r: Router, src: nat, out: nat, f: Fetch, key: Fetch)
    requires g.channels > 0 && NetOk(g, net, r) && src < g.Nodes() && out < g.Nodes() && key.sm < g.sms
    requires Addressed(g, net, Packet(f, src, out))
    ensures OnNet(g, net, PushPacket(r, src, out, f), key) == OnNet(g, net, r, key) + Mine(f, key)
  {
    HomeIsASlice(g, key);
    var i, o, p := Source(g, net, key), Goal(g, net, key), Packet(f, src, out);
    var r' := PushPacket(r, src, out, f);
    StepBalances(r, CrossbarRuns.Push(src, out, f), r', None, i, o);
    assert PushedBy(CrossbarRuns.Push(src, out, f), i, o) == OneFlow(p, i, o);
    PacketTallyAppend(InFlight(r, i, o), OneFlow(p, i, o), key);
    OneFlowTally(g, net, p, key);
    assert [] + InFlight(r', i, o) == InFlight(r', i, o);
  }

  /** A pop takes its packet from them. */
  lemma PopMoves(g: Layout, net: Net, r: Router, dev: nat)
    requires g.channels > 0 && NetOk(g, net, r) && dev < g.Nodes()
    ensures NetOk(g, net, PopPacket(r, dev))
    ensures var p := TopPacket(r, dev); p.Some? ==> Addressed(g, net, p.value) && p.value.out == dev
  {
    var r' := PopPacket(r, dev);
    StepKeeps(r, CrossbarRuns.Pop(dev), r', TopPacket(r, dev));
    assert AllAddressed(g, net, r.outs[dev]);
    forall o | 0 <= o < |r'.outs| ensures AllAddressed(g, net, r'.outs[o]) {
      assert AllAddressed(g, net, r.outs[o]);
    }
  }

  /** How often the popped packet counts. */
  function Popped(p: Option<Packet>, key: Fetch): nat { if p.Some? then Mine(p.value.data, key) else 0 }

  lemma PopCounts(g: Layout, net: Net, r: Router, dev: nat, key: Fetch)
    requires g.channels > 0 && NetOk(g, net, r) && dev < g.Nodes() && key.sm < g.sms
    ensures OnNet(g, net, PopPacket(r, dev), key) + Popped(TopPacket(r, dev), key) == OnNet(g, net, r, key)
  {
    HomeIsASlice(g, key);
    PopMoves(g, net, r, dev);
    var i, o, p := Source(g, net, key), Goal(g, net, key), TopPacket(r, dev);
    StepBalances(r, CrossbarRuns.Pop(dev), PopPacket(r, dev), p, i, o);
    assert InFlight(r, i, o) + [] == InFlight(r, i, o);
    PacketTallyAppend(PoppedBy(p, i, o), InFlight(PopPacket(r, dev), i, o), key);
    if p.Some? { OneFlowTally(g, net, p.value, key); }
  }

  /** An Advance moves packets and counts nothing anew. */
  lemma AdvanceMoves(g: Layout, net: Net, r: Router, r': Router)
    requires g.channels > 0 && NetOk(g, net, r) && Advances(r, r')
    ensures NetOk(g, net, r')
  {
    AdvanceKeeps(r, r');
    forall j | 0 <= j < |r'.ins| ensures AllAddressed(g, net, r'.ins[j]) {
      assert AllAddressed(g, net, r.ins[j]);
      assert r'.ins[j] == InAfter(r, j, r.Nodes());
    }
    forall o | 0 <= o < |r'.outs| ensures AllAddressed(g, net, r'.outs[o]) {
      assert AllAddressed(g, net, r.outs[o]);
      var w := Winner(r, o, r.Nodes());
      if w.Some? { assert AllAddressed(g, net, r.ins[w.value]); }
      assert r'.outs[o] == OutAfter(r, o, r.Nodes());
    }
  }

  lemma AdvanceCounts(g: Layout, net: Net, r: Router, r': Router, key: Fetch)
    requires g.channels > 0 && NetOk(g, net, r) && Advances(r, r') && key.sm < g.sms
    ensures |r'.ins| == |r'.outs| == g.Nodes() && OnNet(g, net, r', key) == OnNet(g, net, r, key)
  {
    HomeIsASlice(g, key);
    AdvanceKeepsFlow(r, r', Source(g, net, key), Goal(g, net, key));
  }

  // ---------------------------------------------------------------- a slice's replies

  /** A slice pushes its replies one by one, each for the SM it came from. */
  function PushReplies(r: Router, src: nat, replies: seq<Fetch>): (r': Router)
    requires src < |r.ins|
    ensures |r'.ins| == |r.ins| && r'.outs == r.outs
    decreases |replies|
  {
    if replies == [] then r else PushReplies(PushPacket(r, src, replies[0].sm, replies[0]), src, replies[1..])
  }

  ghost predicate RepliesOf(g: Layout, src: nat, replies: seq<Fetch>)
    requires g.channels > 0
  {
    forall i :: 0 <= i < |replies| ==> Addressed(g, Replies, Packet(replies[i], src, replies[i].sm))
  }

  lemma {:induction false} RepliesMove(g: Layout, r: Router, src: nat, replies: seq<Fetch>)
    requires g.channels > 0 && NetOk(g, Replies, r) && src < g.Nodes() && RepliesOf(g, src, replies)
    ensures NetOk(g, Replies, PushReplies(r, src, replies))
    decreases |replies|
  {
    if replies != [] {
      PushMoves(g, Replies, r, src, replies[0].sm, replies[0]);
      RepliesMove(g, PushPacket(r, src, replies[0].sm, replies[0]), src, replies[1..]);
    }
  }

  lemma {:induction false} RepliesCount(g: Layout, r: Router, src: nat, replies: seq<Fetch>, key: Fetch)
    requires g.channels > 0 && NetOk(g, Replies, r) && src < g.Nodes() && RepliesOf(g, src, replies) && key.sm < g.sms
    ensures NetOk(g, Replies, PushReplies(r, src, replies))
    ensures OnNet(g, Replies, PushReplies(r, src, replies), key) == OnNet(g, Replies, r, key) + Tally(replies, key)
    decreases |replies|
  {
    if replies != [] {
      PushMoves(g, Replies, r, src, replies[0].sm, replies[0]);
      PushCounts(g, Replies, r, src, replies[0].sm, replies[0], key);
      RepliesCount(g, PushPacket(r, src, replies[0].sm, replies[0]), src, replies[1..], key);
    }
  }
}
