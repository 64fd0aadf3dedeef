/** LocalInterconnect with its two subnets: requests travel on net 0, replies on net 1. */
module Interconnect {
  import opened Wrappers
  import opened Crossbar
  import opened CrossbarRuns
  import opened XbarRouters
  import MemFetch

  const NETS: nat := 2

  /** Push chooses the net by the sender, Pop by the receiver. */
  function PushNet(nShader: nat, input: nat): (k: nat)
    ensures k < NETS
  {
    if input < nShader then 0 else 1
  }

  function PopNet(nShader: nat, output: nat): (k: nat)
    ensures k < NETS
  {
    if output < nShader then 1 else 0
  }

  datatype NetEvent = AdvanceAll | PushTo(src: nat, out: nat, data: MemFetch.Fetch) | PopAt(dev: nat)

  /** What an event of the interconnect is for net k. */
  function OnNet(nShader: nat, e: NetEvent, k: nat): Event {
    match e
    case AdvanceAll => Advance
    case PushTo(src, out, data) => if PushNet(nShader, src) == k then Push(src, out, data) else Idle
    case PopAt(dev) => if PopNet(nShader, dev) == k then Pop(dev) else Idle
  }

  datatype NetRun = NetRun(nShader: nat, states: seq<seq<Router>>, events: seq<NetEvent>,
      got: seq<seq<Option<Packet>>>) {
    ghost predicate Valid() {
      && |states| == |events| + 1 == |got| + 1
      && (forall t :: 0 <= t < |states| ==> |states[t]| == NETS)
      && (forall t :: 0 <= t < |got| ==> |got[t]| == NETS)
    }

    /** The run as net k sees it. */
    ghost function Net(k: nat): Run
      requires Valid() && k < NETS
    {
      Run(seq(|states|, t requires 0 <= t < |states| => states[t][k]),
          seq(|events|, t requires 0 <= t < |events| => OnNet(nShader, events[t], k)),
          seq(|got|, t requires 0 <= t < |got| => got[t][k]))
    }
  }

  /** A run of the interconnect is a run of each of its nets, from empty buffers. */
  ghost predicate IsNetRun(run: NetRun) {
    && run.Valid() && IsRun(run.Net(0)) && IsRun(run.Net(1))
    && (forall k :: 0 <= k < NETS ==> Empty(run.states[0][k]))
    && |run.states[0][0].ins| == |run.states[0][1].ins|
  }

  ghost predicate Empty(r: Router) {
    (forall j :: 0 <= j < |r.ins| ==> r.ins[j] == []) && (forall o :: 0 <= o < |r.outs| ==> r.outs[o] == [])
  }

  /** Packets pushed from a for b in the first t events, and those that Pop(b) returned. */
  function Sent(run: NetRun, a: nat, b: nat, t: nat): Queue
    requires t <= |run.events|
  {
    if t == 0 then []
    else
      Sent(run, a, b, t - 1) + SentBy(run.events[t - 1], a, b)
  }

  function SentBy(e: NetEvent, a: nat, b: nat): Queue {
    if e.PushTo? && e.src == a && e.out == b then [Packet(e.data, a, b)] else []
  }

  lemma PushedOnNet(nShader: nat, e: NetEvent, a: nat, b: nat, k: nat)
    requires k < NETS
    ensures PushedBy(OnNet(nShader, e, k), a, b) == if PushNet(nShader, a) == k then SentBy(e, a, b) else []
  {
  }

  ghost function Delivered(run: NetRun, a: nat, b: nat, t: nat): Queue
    requires run.Valid() && t <= |run.events|
  {
    AllPopped(run.Net(PopNet(run.nShader, b)), a, b, t)
  }

  lemma {:induction false} SentOnItsNet(run: NetRun, a: nat, b: nat, t: nat, k: nat)
    requires run.Valid() && t <= |run.events| && k < NETS
    ensures AllPushed(run.Net(k), a, b, t) == if PushNet(run.nShader, a) == k then Sent(run, a, b, t) else []
  {
    if t > 0 {
      SentOnItsNet(run, a, b, t - 1, k);
      assert run.Net(k).events[t - 1] == OnNet(run.nShader, run.events[t - 1], k);
      PushedOnNet(run.nShader, run.events[t - 1], a, b, k);
    }
  }

  /** Can a packet from a for b be received at all? */
  predicate Connected(nShader: nat, a: nat, b: nat) { a < nShader <==> !(b < nShader) }

  /** In every run from an empty interconnect, packets between an SM and a memory slice are received
      in the order they were sent, once each, and the rest are in flight; between two SMs or two
      slices nothing is ever received. */
  lemma DeliveredIff(run: NetRun, a: nat, b: nat, t: nat)
    requires IsNetRun(run) && t <= |run.events| && a < |run.states[0][0].ins| && b < |run.states[0][0].ins|
    ensures var k := PopNet(run.nShader, b);
            && a < |run.states[t][k].ins| && b < |run.states[t][k].outs|
            && (if Connected(run.nShader, a, b)
               then Sent(run, a, b, t) == Delivered(run, a, b, t) + InFlight(run.states[t][k], a, b)
                else Delivered(run, a, b, t) == [])
  {
    var k := PopNet(run.nShader, b);
    var net := run.Net(k);
    assert net.states[0] == run.states[0][k] && net.states[t] == run.states[t][k];
    FlowsAreFifo(net, a, b, t);
    SentOnItsNet(run, a, b, t, k);
    assert InFlight(net.states[0], a, b) == [];
  }

  /** Guarded pushes respect the input limit; the SMs ask HasBuffer before they push. */
  lemma {:induction false} GuardedInputsStayBounded(run: Run, i: nat, t: nat)
    requires IsRun(run) && t <= |run.events| && i < |run.states[0].ins|
    requires |run.states[0].ins[i]| <= run.states[0].inLimit
    requires forall k :: 0 <= k < t && run.events[k].Push? && run.events[k].src == i ==>
               i < |run.states[k].ins| && |run.states[k].ins[i]| + 1 <= run.states[k].inLimit
    ensures i < |run.states[t].ins| && |run.states[t].ins[i]| <= run.states[t].inLimit == run.states[0].inLimit
  {
    RunKeeps(run, t);
    if t > 0 {
      GuardedInputsStayBounded(run, i, t - 1);
      assert StepOf(run, t - 1);
      var r, r' := run.states[t - 1], run.states[t];
      if run.events[t - 1].Advance? { assert r'.ins[i] == InAfter(r, i, r.Nodes()); }
    }
  }

  class LocalInterconnect {
    const nShader: nat
    const nMem: nat
    const requests: XbarRouter
    const replies: XbarRouter

    ghost predicate Valid()
      reads requests, requests.inBuffers, requests.outBuffers, replies, replies.inBuffers, replies.outBuffers
    {
      && requests.Valid() && replies.Valid() && requests != replies
      && requests.inBuffers.Length == replies.inBuffers.Length == nShader + nMem
      && requests.inBuffers != replies.inBuffers && requests.outBuffers != replies.outBuffers
      && requests.inBuffers != replies.outBuffers && requests.outBuffers != replies.inBuffers
    }

    ghost function Nets(): (nets: seq<Router>)
      reads requests, requests.inBuffers, requests.outBuffers, replies, replies.inBuffers, replies.outBuffers
      ensures |nets| == NETS
    {
      [requests.View(), replies.View()]
    }

    constructor (nShader: nat, nMem: nat, inLimit: nat, outLimit: nat)
      requires nShader + nMem > 0
      ensures Valid() && this.nShader == nShader && this.nMem == nMem
      ensures Empty(requests.View()) && Empty(replies.View())
    {
      this.nShader, this.nMem := nShader, nMem;
      requests := new XbarRouter(nShader, nMem, inLimit, outLimit);
      replies := new XbarRouter(nShader, nMem, inLimit, outLimit);
    }

    method Push(input: nat, output: nat, data: MemFetch.Fetch)
      requires Valid() && input < nShader + nMem && output < nShader + nMem
      modifies requests.inBuffers, replies.inBuffers
      ensures Valid()
      ensures forall k :: 0 <= k < NETS ==>
                Steps(old(Nets())[k], OnNet(nShader, PushTo(input, output, data), k), Nets()[k], None)
    {
      if input < nShader { requests.Push(input, output, data); } else { replies.Push(input, output, data); }
    }

    method Pop(output: nat) returns (p: Option<Packet>)
      requires Valid() && output < nShader + nMem
      modifies requests.outBuffers, replies.outBuffers
      ensures Valid()
      ensures forall k :: 0 <= k < NETS ==>
                Steps(old(Nets())[k], OnNet(nShader, PopAt(output), k), Nets()[k],
                      if PopNet(nShader, output) == k then p else None)
    {
      if output < nShader { p := replies.Pop(output); } else { p := requests.Pop(output); }
    }

    method Advance()
      requires Valid()
      modifies requests, requests.inBuffers, requests.outBuffers, replies, replies.inBuffers, replies.outBuffers
      ensures Valid()
      ensures forall k :: 0 <= k < NETS ==> Steps(old(Nets())[k], OnNet(nShader, AdvanceAll, k), Nets()[k], None)
    {
      requests.RRAdvance();
      replies.RRAdvance();
    }

    /** Always asks for one place, whatever the packet size. */
    predicate HasBuffer(device: nat)
      requires Valid() && device < nShader + nMem
      reads requests, requests.inBuffers, requests.outBuffers, replies, replies.inBuffers, replies.outBuffers
    {
      if device >= nShader then replies.HasBufferIn(device, 1) else requests.HasBufferIn(device, 1)
    }
  }
}
