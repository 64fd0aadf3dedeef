/** One DRAM channel and the return path of its two L2 slices, as functions over values. */
module Dram {
  import opened Wrappers
  import opened MemFetch
  import opened Fifo

  /** CL, the return queue size, the number of banks, l2_miss_latency and the channel's number. */
  datatype DramConfig = DramConfig(cl: nat, returnSize: nat, nbk: nat, latency: nat, id: nat)

  /** What the asserts and the pointer accesses of the source would run into. */
  datatype DramFault = QueueOverflow | BadBank | EmptyCell | WrongSlice

  /** mrq holds the request that each bank works on. */
  datatype DramState = DramState(rwq: Pipe<Fetch>, mrqq: Pipe<Fetch>, returnq: Pipe<Fetch>, mrq: seq<Option<Fetch>>)

  datatype Delayed = Delayed(req: Fetch, ready: nat)

  datatype Slice = Slice(toDram: Pipe<Fetch>, fromDram: Pipe<Fetch>)

  datatype Channel = Channel(dram: DramState, delay: seq<Delayed>, slices: seq<Slice>)

  const SLICES: nat := 2
  const SLICE_QUEUE: nat := 999999

  function ReturnLimit(cfg: DramConfig): nat { if cfg.returnSize == 0 then 1024 else cfg.returnSize }

  function FreshDram(cfg: DramConfig): DramState {
    DramState(Fresh(cfg.cl, cfg.cl + 1), Fresh(0, 2), Fresh(0, ReturnLimit(cfg)), Nulls(cfg.nbk))
  }

  function FreshChannel(cfg: DramConfig): Channel {
    var slice := Slice(Fresh(0, SLICE_QUEUE), Fresh(0, SLICE_QUEUE));
    Channel(FreshDram(cfg), [], [slice, slice])
  }

  // ---------------------------------------------------------------- dram_t::cycle

  /** The head of the read/write queue moves on when the return queue has room. */
  function Return(d: DramState): DramState {
    if d.returnq.Full() then d
    else
      var popped := d.(rwq := d.rwq.Popped());
      if d.rwq.Top().Some? then popped.(returnq := d.returnq.Push(d.rwq.Top())) else popped
  }

  /** scheduler_fifo: the oldest request goes to its bank if that is free. */
  function Schedule(d: DramState): Result<DramState, DramFault> {
    if d.mrqq.cells == [] then Ok(d)
    else if d.mrqq.Top().None? then Err(EmptyCell)
    else
      var b := d.mrqq.Top().value.bank;
      if b >= |d.mrq| then Err(BadBank)
      else if d.mrq[b].Some? then Ok(d)
      else Ok(d.(mrq := d.mrq[b := d.mrqq.Top()], mrqq := d.mrqq.Popped()))
  }

  /** Banks from i on hand their request to the read/write queue. */
  function Burst(d: DramState, i: nat): Result<DramState, DramFault>
    requires i <= |d.mrq|
    decreases |d.mrq| - i
  {
    if i == |d.mrq| then Ok(d)
    else if d.mrq[i].None? then Burst(d, i + 1)
    else if d.rwq.Full() then Err(QueueOverflow)
    else Burst(d.(rwq := d.rwq.Push(d.mrq[i]), mrq := d.mrq[i := None]), i + 1)
  }

  /** The banks' part of a cycle: one request in, and every busy bank hands its request on. */
  function ServeBanks(d: DramState): Result<DramState, DramFault> {
    match Schedule(d)
    case Err(e) => Err(e)
    case Ok(d') => Burst(d', 0)
  }

  function DramCycle(d: DramState): Result<DramState, DramFault> { ServeBanks(Return(d)) }

  // ---------------------------------------------------------------- memory_partition::dram_cycle

  /** The front of the return queue goes to the slice that sent it. */
  function Deliver(cfg: DramConfig, c: Channel): Result<Channel, DramFault>
    requires |c.slices| == SLICES
  {
    var top := c.dram.returnq.Top();
    if top.None? then Ok(c)
    else if !(cfg.id * SLICES <= top.value.l2Id < cfg.id * SLICES + SLICES) then Err(WrongSlice)
    else
      var k := top.value.l2Id - cfg.id * SLICES;
      if c.slices[k].fromDram.Full() then Ok(c)
      else Ok(c.(slices := c.slices[k := c.slices[k].(fromDram := c.slices[k].fromDram.Push(top))],
                 dram := c.dram.(returnq := c.dram.returnq.Popped())))
  }

  /** last_issued_partition stays 0 here, so slice 1 is asked before slice 0. */
  const ISSUE_ORDER: seq<nat> := [1, 0]

  /** The slice that may hand a request to the channel, from position p of the order on. */
  function Chosen(c: Channel, p: nat): (r: Option<nat>)
    requires |c.slices| == SLICES && p <= SLICES
    ensures r.Some? ==> r.value < SLICES && c.slices[r.value].toDram.cells != []
    decreases SLICES - p
  {
    if p == SLICES then None
    else
      var k := ISSUE_ORDER[p];
      if c.slices[k].toDram.cells != [] && !c.slices[k].fromDram.Full() then
        if c.dram.mrqq.Full() then None else Some(k)
      else Chosen(c, p + 1)
  }

  /** The request accepted in this cycle, marked with its slice. */
  function Accepted(cfg: DramConfig, c: Channel): Option<Fetch>
    requires |c.slices| == SLICES
  {
    var k := Chosen(c, 0);
    if k.None? || c.slices[k.value].toDram.Top().None? then None
    else Some(c.slices[k.value].toDram.Top().value.(l2Id := cfg.id * SLICES + k.value))
  }

  function Accept(cfg: DramConfig, c: Channel, now: nat): Result<Channel, DramFault>
    requires |c.slices| == SLICES
  {
    var k := Chosen(c, 0);
    if k.None? then Ok(c)
    else if c.slices[k.value].toDram.Top().None? then Err(EmptyCell)
    else
      var slice := c.slices[k.value];
      Ok(c.(slices := c.slices[k.value := slice.(toDram := slice.toDram.Popped())],
            delay := c.delay + [Delayed(Accepted(cfg, c).value, now + cfg.latency)]))
  }

  /** A request whose delay is over enters the channel's request queue. */
  function Enter(c: Channel, now: nat): Channel {
    if c.delay == [] || now < c.delay[0].ready || c.dram.mrqq.Full() then c
    else c.(delay := c.delay[1..], dram := c.dram.(mrqq := c.dram.mrqq.Push(Some(c.delay[0].req))))
  }

  /** Delivery and dram_t::cycle, the first half of dram_cycle. */
  function Serve(cfg: DramConfig, c: Channel): (r: Result<Channel, DramFault>)
    requires |c.slices| == SLICES
    ensures r.Ok? ==> |r.value.slices| == SLICES
  {
    match Deliver(cfg, c)
    case Err(e) => Err(e)
    case Ok(c1) =>
      match DramCycle(c1.dram)
      case Err(e) => Err(e)
      case Ok(d) => Ok(c1.(dram := d))
  }

  function ChannelCycle(cfg: DramConfig, c: Channel, now: nat): (r: Result<Channel, DramFault>)
    requires |c.slices| == SLICES
    ensures r.Ok? ==> |r.value.slices| == SLICES
  {
    match Serve(cfg, c)
    case Err(e) => Err(e)
    case Ok(c1) =>
      match Accept(cfg, c1, now)
      case Err(e) => Err(e)
      case Ok(c2) => Ok(Enter(c2, now))
  }

  // ---------------------------------------------------------------- the slices' part of l2_cache_cycle

  /** Each slice sends the front of its return queue to its SM, and may queue one new miss. */
  function SliceCycle(s: Slice, miss: Option<Fetch>): Result<Slice, DramFault> {
    var popped := s.(fromDram := s.fromDram.Popped());
    if miss.None? then Ok(popped)
    else if s.toDram.Full() then Err(QueueOverflow)
    else Ok(popped.(toDram := s.toDram.Push(miss)))
  }

  /** memory_partition_cycle for one channel: what each slice sends to its SM, and the new state. */
  function Step(cfg: DramConfig, c: Channel, now: nat, misses: seq<Option<Fetch>>)
    : (r: Result<(Channel, seq<Option<Fetch>>), DramFault>)
    requires |c.slices| == SLICES == |misses|
    ensures r.Ok? ==> |r.value.0.slices| == SLICES == |r.value.1|
  {
    match ChannelCycle(cfg, c, now)
    case Err(e) => Err(e)
    case Ok(c1) =>
      match (SliceCycle(c1.slices[0], misses[0]), SliceCycle(c1.slices[1], misses[1]))
      case (Ok(s0), Ok(s1)) => Ok((c1.(slices := [s0, s1]), [c1.slices[0].fromDram.Top(), c1.slices[1].fromDram.Top()]))
      case (Err(e), _) => Err(e)
      case (_, Err(e)) => Err(e)
  }
}
