/** What each event of the GPU does to the two subnets and to the other components: the packets that
    leave, the packets that join, and everything else as it was. */
module GpuEvents {
  import opened Wrappers
  import opened MemFetch
  import opened Crossbar
  import opened Dram
  import opened L2Cache
  import opened GpuPackets
  import opened GpuMemory
  import opened Gpu
  import Sm
  import SmTraffic

  /** The packets of a slice's replies, each for the SM that sent the request. */
  function Packets(src: nat, replies: seq<Fetch>): (q: Queue)
    ensures |q| == |replies|
    ensures forall i :: 0 <= i < |q| ==> q[i].data == replies[i] && q[i].src == src && q[i].out == replies[i].sm
  {
    if replies == [] then [] else [Packet(replies[0], src, replies[0].sm)] + Packets(src, replies[1..])
  }

  /** One queue has got some packets behind those it had. */
  ghost predicate Joined(before: seq<Queue>, after: seq<Queue>, n: nat, q: Queue)
    requires n < |before|
  {
    after == before[n := before[n] + q]
  }

  lemma JoinTwice(ins: seq<Queue>, n: nat, p: Queue, q: Queue)
    requires n < |ins|
    ensures ins[n := ins[n] + p][n := ins[n] + p + q] == ins[n := ins[n] + (p + q)]
  {
    assert ins[n] + p + q == ins[n] + (p + q);
  }

  lemma PacketsUnfold(src: nat, replies: seq<Fetch>)
    requires replies != []
    ensures Packets(src, replies) == [Packet(replies[0], src, replies[0].sm)] + Packets(src, replies[1..])
  {
  }

  lemma OneJoins(r: Router, src: nat, replies: seq<Fetch>, ins: seq<Queue>)
    requires src < |r.ins| && replies != []
    requires var r1 := PushPacket(r, src, replies[0].sm, replies[0]);
             Joined(r1.ins, ins, src, Packets(src, replies[1..]))
    ensures Joined(r.ins, ins, src, Packets(src, replies))
  {
    hide Packets;
    PacketsUnfold(src, replies);
    JoinTwice(r.ins, src, [Packet(replies[0], src, replies[0].sm)], Packets(src, replies[1..]));
  }

  lemma {:induction false} RepliesJoin(r: Router, src: nat, replies: seq<Fetch>)
    requires src < |r.ins|
    ensures var r' := PushReplies(r, src, replies);
            r' == r.(ins := r'.ins) && Joined(r.ins, r'.ins, src, Packets(src, replies))
    decreases |replies|
  {
    if replies == [] {
      assert r.ins[src] + [] == r.ins[src];
    } else {
      hide Joined, Packets;
      var r1 := PushPacket(r, src, replies[0].sm, replies[0]);
      RepliesJoin(r1, src, replies[1..]);
      OneJoins(r, src, replies, PushReplies(r1, src, replies[1..]).ins);
    }
  }

  /** What is left of an output queue when its device takes the first packet, if there is one. */
  function Rest(q: Queue): Queue { if |q| > 0 then q[1..] else q }

  function FirstData(q: Queue): Option<Fetch> { if |q| > 0 then Some(q[0].data) else None }

  /** A channel's turn: both its slices take the first packet of their outputs, if there is one, the
      partition goes on with them, and the replies of each slice join its input on the other subnet. */
  ghost predicate MemoryEvent(cfg: GpuConfig, s: GpuState, c: nat, s': GpuState, replies: seq<seq<Fetch>>)
    requires Assembled(cfg, s) && c < |cfg.drams|
  {
    var m, n := |cfg.sms| + 2 * c, |cfg.sms| + 2 * c + 1;
    && |replies| == SLICES && |s'.parts| == |s.parts|
    && s' == s.(parts := s.parts[c := s'.parts[c]], requests := s'.requests, replies := s'.replies)
    && PartitionCycle(cfg.l2, cfg.drams[c], s.parts[c], [FirstData(s.requests.outs[m]), FirstData(s.requests.outs[n])])
       == Ok(Turn(s'.parts[c], replies))
    && s'.requests == s.requests.(outs := s.requests.outs[m := Rest(s.requests.outs[m])][n := Rest(s.requests.outs[n])])
    && s'.replies == s.replies.(ins := s'.replies.ins)
    && s'.replies.ins == s.replies.ins[m := s.replies.ins[m] + Packets(m, replies[0])]
                                      [n := s.replies.ins[n] + Packets(n, replies[1])]
  }

  lemma NodesAre(cfg: GpuConfig, s: GpuState, c: nat)
    requires Assembled(cfg, s) && c < |cfg.drams|
    ensures Node(cfg, c, 0) == |cfg.sms| + 2 * c && Node(cfg, c, 1) == |cfg.sms| + 2 * c + 1
    ensures var n := |cfg.sms| + 2 * c + 1;
            n < |s.requests.outs| == |s.replies.ins| && |s.requests.outs| == cfg.Layout().Nodes()
  {
  }

  lemma PopIsRest(r: Router, n: nat)
    requires n < |r.outs|
    ensures PopPacket(r, n) == r.(outs := r.outs[n := Rest(r.outs[n])])
    ensures DataOf(TopPacket(r, n)) == FirstData(r.outs[n])
  {
    assert r.outs[n := r.outs[n]] == r.outs;
  }

  lemma TwoReplies(cfg: GpuConfig, s: GpuState, c: nat)
    requires Assembled(cfg, s) && c < |cfg.drams|
    ensures var r := PartitionCycle(cfg.l2, cfg.drams[c], s.parts[c], Arrivals(cfg, s, c));
            r.Ok? ==> |r.value.replies| == SLICES
  {
    hide Sm.Shaped, L2Cache.Cycle, ChannelCycle, Step;
  }

  lemma MemoryEventIs(cfg: GpuConfig, s: GpuState, c: nat, s': GpuState) returns (replies: seq<seq<Fetch>>)
    requires cfg.Ok() && Assembled(cfg, s) && c < |cfg.drams| && Steps(cfg, s, MemoryCycle(c), s')
    ensures MemoryEvent(cfg, s, c, s', replies)
  {
    hide Sm.Shaped, Formed, PartitionCycle, PopPacket, PushReplies, TopPacket, Packets, Rest, FirstData;
    var m, n := Node(cfg, c, 0), Node(cfg, c, 1);
    NodesAre(cfg, s, c);
    PopIsRest(s.requests, m);
    PopIsRest(s.requests, n);
    PopIsRest(PopPacket(s.requests, m), n);
    var t := PartitionCycle(cfg.l2, cfg.drams[c], s.parts[c], Arrivals(cfg, s, c)).value;
    replies := t.replies;
    TwoReplies(cfg, s, c);
    RepliesJoin(s.replies, m, t.replies[0]);
    RepliesJoin(PushReplies(s.replies, m, t.replies[0]), n, t.replies[1]);
  }

  /** What an SM sends in its turn: the head of its miss queue, if the crossbar has room. */
  ghost predicate SendsPacket(cfg: GpuConfig, s: GpuState, i: nat, f: Fetch)
    requires i < |s.sms| && i < |s.requests.ins| && i < |cfg.sms|
  {
    && s.sms[i].l1.missQ != [] && |s.requests.ins[i]| + 1 <= s.requests.inLimit
    && f == s.sms[i].l1.missQ[0].(bank := f.bank) && SmTraffic.IsRouted(cfg.sms[i], f)
  }

  /** An SM's turn.  While it has a warp or the kernel a block, it takes the first packet of its output, if
      there is one, and sends at most one packet, to the slice of its address; otherwise the subnets stay. */
  ghost predicate SmEvent(cfg: GpuConfig, s: GpuState, i: nat, s': GpuState, input: Sm.SmInput)
    requires Assembled(cfg, s) && i < |cfg.sms| && |cfg.drams| > 0
  {
    var x := s.sms[i];
    && |s'.sms| == |s.sms| && Sm.Cycle(cfg.sms[i], x, input) == Sm.Outcome.Ok(s'.sms[i])
    && s' == s.(ptr := s'.sms[i].ptr, nextId := s'.sms[i].nextId, sms := s.sms[i := s'.sms[i]],
                requests := s'.requests, replies := s'.replies)
    && input.ptr == s.ptr && input.nextId == s.nextId
    && (input.hasBuffer <==> |s.requests.ins[i]| + 1 <= s.requests.inLimit)
    && (input.reply.Some? ==> |s.replies.outs[i]| > 0 && input.reply.value < |x.below|
                              && Core(x.below[input.reply.value]) == Core(s.replies.outs[i][0].data))
    && if (exists b :: b in x.blocks && |x.blocks[b]| > 0) || s.ptr < |cfg.sms[i].kernel| then
         && (|s.replies.outs[i]| > 0 ==> input.reply.Some?)
         && s'.replies == s.replies.(outs := s.replies.outs[i := Rest(s.replies.outs[i])])
         && if exists f: Fetch :: SendsPacket(cfg, s, i, f) then
              exists f: Fetch :: SendsPacket(cfg, s, i, f) && SentTo(cfg, s, i, f, s'.requests)
            else s'.requests == s.requests
       else s'.requests == s.requests && s'.replies == s.replies
  }

  ghost predicate SentTo(cfg: GpuConfig, s: GpuState, i: nat, f: Fetch, requests: Router)
    requires i < |s.requests.ins| && |cfg.drams| > 0
  {
    requests == s.requests.(ins := s.requests.ins[i := s.requests.ins[i] + [Packet(f, i, Home(cfg.Layout(), f))]])
  }

  lemma SentIs(cfg: GpuConfig, s: GpuState, i: nat)
    requires Assembled(cfg, s) && i < |cfg.sms| && |cfg.drams| > 0
    ensures i < |s.replies.outs| && i < |s.requests.ins| && i < |s.sms|
    ensures var requests := PushSent(cfg, s.requests, i, SentBy(cfg, s, i));
            if exists f: Fetch :: SendsPacket(cfg, s, i, f) then
              exists f: Fetch :: SendsPacket(cfg, s, i, f) && SentTo(cfg, s, i, f, requests)
            else requests == s.requests
  {
    hide Sm.Shaped, Formed, Home, Find;
    var f := SentBy(cfg, s, i);
    if f.Some? {
      SmTraffic.RoutedOnce(cfg.sms[i], s.sms[i].l1.missQ[0]);
      assert SendsPacket(cfg, s, i, f.value) && SentTo(cfg, s, i, f.value, PushSent(cfg, s.requests, i, f));
    }
  }

  lemma SmEventIs(cfg: GpuConfig, s: GpuState, i: nat, s': GpuState) returns (input: Sm.SmInput)
    requires cfg.Ok() && Assembled(cfg, s) && i < |cfg.sms| && Steps(cfg, s, SmCycle(i), s')
    ensures SmEvent(cfg, s, i, s', input)
  {
    hide Formed, Home, Sm.Cycle, PopPacket, PushSent, SendsPacket, SentTo, SentBy, Rest, Find;
    input := InputOf(s, i);
    PopIsRest(s.replies, i);
    SentIs(cfg, s, i);
  }
}
