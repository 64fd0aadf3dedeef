/** gpu_cycle: the memory partitions, the interconnect and the SMs, put together.  One event is the
    cycle of one channel with its slices, one Advance of both subnets, or the cycle of one SM; the
    loop of the source runs them in this order, and what is proved here holds in any order. */
module Gpu {
  import opened Wrappers
  import opened MemFetch
  import opened Crossbar
  import opened Dram
  import opened L2Cache
  import opened GpuPackets
  import opened GpuMemory
  import Sm
  import SmInv
  import SmTraffic
  import Warps

  datatype GpuConfig = GpuConfig(sms: seq<Sm.SmConfig>, l2: L2Config, drams: seq<DramConfig>) {
    function Layout(): Layout { GpuPackets.Layout(|sms|, |drams|) }

    /** SMs are numbered, share the kernel and know the size of the GPU; there are 16 banks or more. */
    ghost predicate Ok() {
      && |drams| > 0 && ConfigOk(l2)
      && (forall i :: 0 <= i < |sms| ==> SmFits(i))
      && (forall c :: 0 <= c < |drams| ==> drams[c].nbk >= 16)
    }

    predicate SmFits(i: nat)
      requires i < |sms|
    {
      sms[i].smId == i && sms[i].smNum == |sms| && sms[i].channels == |drams| && sms[i].kernel == sms[0].kernel
    }
  }

  /** The counters that all SMs share, the SMs, the two subnets and the memory partitions. */
  datatype GpuState = GpuState(ptr: nat, nextId: nat, sms: seq<Sm.SmState>, requests: Router, replies: Router,
                               parts: seq<Partition>)

  datatype GpuFault = InSm(sm: Warps.Fault) | InMemory(memory: MemoryFault) | UnknownReply

  datatype Event = MemoryCycle(channel: nat) | AdvanceNets | SmCycle(sm: nat)

  ghost predicate Assembled(cfg: GpuConfig, s: GpuState) {
    && |s.sms| == |cfg.sms| && |s.parts| == |cfg.drams|
    && |s.requests.ins| == |s.requests.outs| == |s.replies.ins| == |s.replies.outs| == cfg.Layout().Nodes()
    && (forall i :: 0 <= i < |s.sms| ==> Sm.Shaped(cfg.sms[i], s.sms[i]))
    && (forall c :: 0 <= c < |s.parts| ==> Formed(cfg.l2, s.parts[c]))
  }

  // ---------------------------------------------------------------- a memory partition's turn

  /** The device of slice k of channel c. */
  function Node(cfg: GpuConfig, c: nat, k: nat): (n: nat)
    requires c < |cfg.drams| && k < SLICES
    ensures |cfg.sms| <= n < cfg.Layout().Nodes()
  {
    |cfg.sms| + 2 * c + k
  }

  function DataOf(p: Option<Packet>): Option<Fetch> { if p.Some? then Some(p.value.data) else None }

  /** Each slice pops at most one packet. */
  function Arrivals(cfg: GpuConfig, s: GpuState, c: nat): (a: seq<Option<Fetch>>)
    requires c < |cfg.drams| && |s.requests.outs| == cfg.Layout().Nodes()
    ensures |a| == SLICES
  {
    [DataOf(TopPacket(s.requests, Node(cfg, c, 0))), DataOf(TopPacket(s.requests, Node(cfg, c, 1)))]
  }

  /** The state after channel c and its slices have done `t`. */
  function AfterMemory(cfg: GpuConfig, s: GpuState, c: nat, t: Turn): GpuState
    requires c < |cfg.drams| == |s.parts| && |t.replies| == SLICES
    requires |s.requests.outs| == |s.replies.ins| == cfg.Layout().Nodes()
  {
    s.(parts := s.parts[c := t.state],
       requests := PopPacket(PopPacket(s.requests, Node(cfg, c, 0)), Node(cfg, c, 1)),
       replies := PushReplies(PushReplies(s.replies, Node(cfg, c, 0), t.replies[0]), Node(cfg, c, 1), t.replies[1]))
  }

  ghost function MemoryStep(cfg: GpuConfig, s: GpuState, c: nat): Result<GpuState, GpuFault>
    requires Assembled(cfg, s) && c < |cfg.drams|
  {
    match PartitionCycle(cfg.l2, cfg.drams[c], s.parts[c], Arrivals(cfg, s, c))
    case Err(e) => Err(InMemory(e))
    case Ok(t) => Ok(AfterMemory(cfg, s, c, t))
  }

  // ---------------------------------------------------------------- an SM's turn

  /** The position of the packet that an SM pops among those it has sent. */
  function Find(below: seq<Fetch>, f: Fetch): (r: Option<nat>)
    ensures r.Some? ==> r.value < |below| && Core(below[r.value]) == Core(f)
    decreases |below|
  {
    if below == [] then None
    else if Core(below[|below| - 1]) == Core(f) then Some(|below| - 1)
    else Find(below[..|below| - 1], f)
  }

  /** What the rest of the GPU gives to SM i in its cycle. */
  function InputOf(s: GpuState, i: nat): Sm.SmInput
    requires i < |s.sms| && i < |s.replies.outs| && i < |s.requests.ins|
  {
    var p := TopPacket(s.replies, i);
    Sm.SmInput(if p.Some? then Find(s.sms[i].below, p.value.data) else None,
               |s.requests.ins[i]| + 1 <= s.requests.inLimit, s.ptr, s.nextId)
  }

  predicate Active(cfg: GpuConfig, s: GpuState, i: nat)
    requires i < |cfg.sms| && i < |s.sms| && i < |s.replies.outs| && i < |s.requests.ins|
  {
    Sm.IsActive(cfg.sms[i], Sm.Arrived(s.sms[i], InputOf(s, i)))
  }

  /** The packet that SM i sends. */
  function SentBy(cfg: GpuConfig, s: GpuState, i: nat): Option<Fetch>
    requires i < |cfg.sms| && i < |s.sms| && i < |s.replies.outs| && i < |s.requests.ins|
  {
    SmTraffic.Sent(cfg.sms[i], s.sms[i], InputOf(s, i).hasBuffer)
  }

  function PushSent(cfg: GpuConfig, r: Router, i: nat, sent: Option<Fetch>): Router
    requires i < |r.ins| && |cfg.drams| > 0
  {
    if sent.None? then r else PushPacket(r, i, Home(cfg.Layout(), sent.value), sent.value)
  }

  /** The state after SM i went to state x: an active SM has popped a packet and may have sent one. */
  function AfterSm(cfg: GpuConfig, s: GpuState, i: nat, x: Sm.SmState): GpuState
    requires |cfg.drams| > 0 && i < |cfg.sms| == |s.sms| && i < |s.replies.outs| && i < |s.requests.ins|
  {
    var s' := s.(ptr := x.ptr, nextId := x.nextId, sms := s.sms[i := x]);
    if Active(cfg, s, i) then
      s'.(replies := PopPacket(s.replies, i), requests := PushSent(cfg, s.requests, i, SentBy(cfg, s, i)))
    else s'
  }

  ghost function SmStep(cfg: GpuConfig, s: GpuState, i: nat): Result<GpuState, GpuFault>
    requires Assembled(cfg, s) && |cfg.drams| > 0 && i < |cfg.sms|
  {
    if Active(cfg, s, i) && TopPacket(s.replies, i).Some? && InputOf(s, i).reply.None? then Err(UnknownReply)
    else
      match Sm.Cycle(cfg.sms[i], s.sms[i], InputOf(s, i))
      case Err(e) => Err(InSm(e))
      case Ok(x) => Ok(AfterSm(cfg, s, i, x))
  }

  // ---------------------------------------------------------------- steps

  /** Is e an event of this GPU? */
  predicate Exists(cfg: GpuConfig, e: Event) {
    match e
    case MemoryCycle(c) => c < |cfg.drams|
    case AdvanceNets => true
    case SmCycle(i) => i < |cfg.sms|
  }

  ghost predicate Steps(cfg: GpuConfig, s: GpuState, e: Event, s': GpuState)
    requires cfg.Ok() && Assembled(cfg, s) && Exists(cfg, e)
  {
    match e
    case MemoryCycle(c) => MemoryStep(cfg, s, c) == Ok(s')
    case AdvanceNets =>
      && s.requests.Ok() && s.replies.Ok() && Advances(s.requests, s'.requests) && Advances(s.replies, s'.replies)
      && s' == s.(requests := s'.requests, replies := s'.replies)
    case SmCycle(i) => SmStep(cfg, s, i) == Ok(s')
  }

  /** The clock of the component that an event moves. */
  function Clock(s: GpuState, e: Event): int {
    match e
    case MemoryCycle(c) => if c < |s.parts| then s.parts[c].Now() else 0
    case AdvanceNets => 0
    case SmCycle(i) => if i < |s.sms| then s.sms[i].now else 0
  }

  // ---------------------------------------------------------------- the invariant

  ghost predicate SmOk(cfg: GpuConfig, s: GpuState, i: nat)
    requires i < |cfg.sms| && i < |s.sms|
  {
    && SmInv.Inv(cfg.sms[i], s.sms[i]) && SmTraffic.Own(cfg.sms[i], s.sms[i])
    && s.sms[i].ptr <= s.ptr <= |cfg.sms[i].kernel|
  }

  ghost predicate SmsOk(cfg: GpuConfig, s: GpuState)
    requires |s.sms| == |cfg.sms|
  {
    forall i :: 0 <= i < |s.sms| ==> SmOk(cfg, s, i)
  }

  ghost predicate PartOk(cfg: GpuConfig, s: GpuState, c: nat)
    requires |cfg.drams| > 0 && c < |cfg.drams| && c < |s.parts|
  {
    PartitionInv(cfg.Layout(), cfg.l2, cfg.drams[c], s.parts[c])
  }

  ghost predicate PartsOk(cfg: GpuConfig, s: GpuState)
    requires |cfg.drams| > 0 && |s.parts| == |cfg.drams|
  {
    forall c :: 0 <= c < |s.parts| ==> PartOk(cfg, s, c)
  }

  ghost predicate NetsOk(cfg: GpuConfig, s: GpuState)
    requires |cfg.drams| > 0
  {
    NetOk(cfg.Layout(), Requests, s.requests) && NetOk(cfg.Layout(), Replies, s.replies)
  }

  /** What slice k of channel c and its channel hold. */
  ghost function HeldBy(cfg: GpuConfig, s: GpuState, c: nat, k: nat, key: Fetch): nat
    requires Assembled(cfg, s) && c < |cfg.drams| && k < SLICES
  {
    Held(cfg.drams[c], s.parts[c], k, key)
  }

  /** Is slice k of channel c the one that serves `key`, and does `key` belong to an SM? */
  predicate Serves(cfg: GpuConfig, c: nat, k: nat, key: Fetch)
    requires |cfg.drams| > 0 && c < |cfg.drams| && k < SLICES
  {
    Home(cfg.Layout(), key) == Node(cfg, c, k) && key.sm < |cfg.sms|
  }

  /** A slice and its channel hold only requests that it serves. */
  ghost predicate NoStrays(cfg: GpuConfig, s: GpuState)
    requires |cfg.drams| > 0 && Assembled(cfg, s)
  {
    forall c, k, key :: 0 <= c < |cfg.drams| && 0 <= k < SLICES && !Serves(cfg, c, k, key) ==>
        HeldBy(cfg, s, c, k, key) == 0
  }

  /** What an SM has below is on its way to the slice, held there, or on its way back: each request
      that waits for an answer is in exactly one place. */
  ghost predicate InOnePlace(cfg: GpuConfig, s: GpuState, c: nat, k: nat, key: Fetch)
    requires |cfg.drams| > 0 && Assembled(cfg, s) && c < |cfg.drams| && k < SLICES && key.sm < |cfg.sms|
  {
    Tally(s.sms[key.sm].below, key)
    == OnNet(cfg.Layout(), Requests, s.requests, key) + HeldBy(cfg, s, c, k, key)
        + OnNet(cfg.Layout(), Replies, s.replies, key)
  }

  ghost predicate AllBalanced(cfg: GpuConfig, s: GpuState)
    requires |cfg.drams| > 0 && Assembled(cfg, s)
  {
    forall c, k, key :: 0 <= c < |cfg.drams| && 0 <= k < SLICES && Serves(cfg, c, k, key) ==>
        InOnePlace(cfg, s, c, k, key)
  }

  ghost predicate GpuInv(cfg: GpuConfig, s: GpuState) {
    && cfg.Ok() && Assembled(cfg, s) && SmsOk(cfg, s) && PartsOk(cfg, s) && NetsOk(cfg, s)
    && NoStrays(cfg, s) && AllBalanced(cfg, s)
  }
}
