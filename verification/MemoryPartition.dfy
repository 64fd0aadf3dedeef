/** One channel of memory_partition: dram_cycle and the DRAM side of its two L2 slices, updating
    fields in place and proved equal to the functions of Dram. */
module MemoryPartitions {
  import opened Wrappers
  import opened MemFetch
  import opened Fifo
  import opened Dram
  import DramInv

  class MemoryChannel {
    const cfg: DramConfig
    var dram: DramState
    var delay: seq<Delayed>
    var slices: seq<Slice>
    var lastIssued: nat

    /** dram_cycle never changes last_issued_partition from its initial 0. */
    ghost predicate Valid()
      reads this
    {
      |slices| == SLICES && lastIssued == 0
    }

    ghost function View(): Channel
      reads this
    {
      Channel(dram, delay, slices)
    }

    ghost predicate Reached(o: Result<Channel, DramFault>, e: Option<DramFault>)
      reads this
    {
      match o
      case Ok(c) => e.None? && View() == c
      case Err(x) => e == Some(x)
    }

    constructor (cfg: DramConfig)
      ensures Valid() && this.cfg == cfg && View() == FreshChannel(cfg)
    {
      var slice := Slice(Fresh(0, SLICE_QUEUE), Fresh(0, SLICE_QUEUE));
      this.cfg, dram, delay, slices, lastIssued := cfg, FreshDram(cfg), [], [slice, slice], 0;
    }

    /** The front of the return queue goes to the slice that sent it. */
    method Deliver() returns (e: Option<DramFault>)
      requires Valid()
      modifies this
      ensures Valid() && Reached(Dram.Deliver(cfg, old(View())), e)
    {
      e := None;
      var top := dram.returnq.Top();
      if top.Some? {
        if !(cfg.id * SLICES <= top.value.l2Id < cfg.id * SLICES + SLICES) { return Some(WrongSlice); }
        var k := top.value.l2Id - cfg.id * SLICES;
        if !slices[k].fromDram.Full() {
          slices := slices[k := slices[k].(fromDram := slices[k].fromDram.Push(top))];
          dram := dram.(returnq := dram.returnq.Popped());
        }
      }
    }

    /** The arbitration loop: the first slice in the order that may issue, unless the channel is full. */
    method Choose() returns (r: Option<nat>)
      requires Valid()
      ensures r == Chosen(View(), 0)
    {
      var p := 0;
      while p < SLICES
        invariant p <= SLICES && Chosen(View(), p) == Chosen(View(), 0)
      {
        var spid := (p + lastIssued + 1) % SLICES;
        if slices[spid].toDram.cells != [] && !slices[spid].fromDram.Full() {
          return if dram.mrqq.Full() then None else Some(spid);
        }
        p := p + 1;
      }
      r := None;
    }

    method Accept(now: nat) returns (e: Option<DramFault>)
      requires Valid()
      modifies this
      ensures Valid() && Reached(Dram.Accept(cfg, old(View()), now), e)
    {
      e := None;
      var k := Choose();
      if k.Some? {
        var mf := slices[k.value].toDram.Top();
        if mf.None? { return Some(EmptyCell); }
        slices := slices[k.value := slices[k.value].(toDram := slices[k.value].toDram.Popped())];
        delay := delay + [Delayed(mf.value.(l2Id := k.value + cfg.id * SLICES), now + cfg.latency)];
      }
    }

    /** The DRAM latency queue. */
    method Enter(now: nat)
      requires Valid()
      modifies this
      ensures Valid() && View() == Dram.Enter(old(View()), now)
    {
      if delay != [] && now >= delay[0].ready && !dram.mrqq.Full() {
        dram := dram.(mrqq := dram.mrqq.Push(Some(delay[0].req)));
        delay := delay[1..];
      }
    }

    /** dram_cycle */
    method DramCycle(now: nat) returns (e: Option<DramFault>)
      requires Valid()
      modifies this
      ensures Valid() && Reached(ChannelCycle(cfg, old(View()), now), e)
    {
      e := Deliver();
      if e.Some? { return e; }
      var d := Dram.DramCycle(dram);
      if d.Err? { return Some(d.error); }
      dram := d.value;
      e := Accept(now);
      if e.Some? { return e; }
      Enter(now);
    }

    /** The DRAM side of l2_cache_cycle for slice k. */
    method SliceStep(k: nat, miss: Option<Fetch>) returns (e: Option<DramFault>, out: Option<Fetch>)
      requires Valid() && k < SLICES
      modifies this
      ensures Valid() && out == old(slices[k]).fromDram.Top()
      ensures match SliceCycle(old(slices[k]), miss)
              case Ok(s) => e.None? && View() == old(View()).(slices := old(slices)[k := s])
              case Err(x) => e == Some(x)
    {
      e, out := None, slices[k].fromDram.Top();
      var s := slices[k].(fromDram := slices[k].fromDram.Popped());
      if miss.Some? {
        if s.toDram.Full() { return Some(QueueOverflow), out; }
        s := s.(toDram := s.toDram.Push(miss));
      }
      slices := slices[k := s];
    }

    /** memory_partition_cycle for this channel and its slices. */
    method Cycle(now: nat, misses: seq<Option<Fetch>>) returns (e: Option<DramFault>, out: seq<Option<Fetch>>)
      requires Valid() && |misses| == SLICES
      modifies this
      ensures Valid()
      ensures match Step(cfg, old(View()), now, misses)
              case Ok(r) => e.None? && View() == r.0 && out == r.1
              case Err(x) => e == Some(x)
    {
      out := [];
      e := DramCycle(now);
      if e.Some? { return; }
      var out0, out1;
      e, out0 := SliceStep(0, misses[0]);
      if e.Some? { return; }
      e, out1 := SliceStep(1, misses[1]);
      if e.Some? { return; }
      out := [out0, out1];
    }

    /** One more cycle of a run in progress: it never fails, each slice sends exactly its share of
        the request accepted Latency cycles before, and the invariant is kept. */
    method CycleOfRun(ghost log: DramInv.Log, misses: seq<Option<Fetch>>, now: nat) returns (out: seq<Option<Fetch>>)
      requires Valid() && now == |log| && DramInv.ChannelInv(cfg, View(), log) && DramInv.MissesOk(cfg, View(), misses)
      modifies this
      ensures Valid() && DramInv.ChannelInv(cfg, View(), log + [DramInv.Next(cfg, old(View()))])
      ensures out == [DramInv.Share(cfg, DramInv.Due(cfg, log), 0), DramInv.Share(cfg, DramInv.Due(cfg, log), 1)]
    {
      DramInv.StepOkIff(cfg, View(), log, misses);
      DramInv.StepKeeps(cfg, View(), log, misses);
      var e;
      e, out := Cycle(now, misses);
    }
  }
}
