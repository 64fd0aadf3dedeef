/** dram_t and one channel of memory_partition as objects over fifo_pipeline objects, proved equal
    to the functions of Dram. */
module DramChannels {
  import opened Wrappers
  import opened MemFetch
  import opened Fifo
  import opened FifoPipelines
  import opened Dram

  lemma AllNone<T>(s: seq<Option<T>>)
    requires forall i :: 0 <= i < |s| ==> s[i] == None
    ensures s == Nulls(|s|)
  {
  }

  method IdleBanks(n: nat) returns (bk: array<Option<Fetch>>)
    ensures fresh(bk) && bk[..] == Nulls(n)
  {
    bk := new Option<Fetch>[n](_ => None);
    AllNone(bk[..]);
  }

  class DramT {
    const cfg: DramConfig
    const rwq: FifoPipeline<Fetch>
    const mrqq: FifoPipeline<Fetch>
    const returnq: FifoPipeline<Fetch>
    const bk: array<Option<Fetch>>

    ghost var Repr: set<object>

    ghost predicate Valid()
      reads this, Repr
    {
      && this in Repr && bk in Repr
      && rwq in Repr && rwq.Repr <= Repr && rwq.Valid() && rwq.minLen <= rwq.maxLen
      && mrqq in Repr && mrqq.Repr <= Repr && mrqq.Valid() && mrqq.minLen <= mrqq.maxLen
      && returnq in Repr && returnq.Repr <= Repr && returnq.Valid() && returnq.minLen <= returnq.maxLen
      && rwq.Repr !! mrqq.Repr && rwq.Repr !! returnq.Repr && mrqq.Repr !! returnq.Repr
      && this !in rwq.Repr + mrqq.Repr + returnq.Repr && bk !in rwq.Repr + mrqq.Repr + returnq.Repr
    }

    ghost function View(): DramState
      requires Valid()
      reads this, Repr
    {
      DramState(rwq.View(), mrqq.View(), returnq.View(), bk[..])
    }

    ghost predicate Reached(o: Result<DramState, DramFault>, e: Option<DramFault>)
      requires Valid()
      reads this, Repr
    {
      match o
      case Ok(d) => e.None? && View() == d
      case Err(x) => e == Some(x)
    }

    constructor (cfg: DramConfig, rwq: FifoPipeline<Fetch>, mrqq: FifoPipeline<Fetch>, returnq: FifoPipeline<Fetch>,
                 bk: array<Option<Fetch>>)
      requires rwq.Valid() && mrqq.Valid() && returnq.Valid()
      requires rwq.View() == Fresh(cfg.cl, cfg.cl + 1) && mrqq.View() == Fresh(0, 2)
      requires returnq.View() == Fresh(0, ReturnLimit(cfg))
      requires rwq.Repr !! mrqq.Repr && rwq.Repr !! returnq.Repr && mrqq.Repr !! returnq.Repr
      requires bk !in rwq.Repr + mrqq.Repr + returnq.Repr && bk[..] == Nulls(cfg.nbk)
      ensures Valid() && Repr == {this, bk} + rwq.Repr + mrqq.Repr + returnq.Repr
      ensures this.cfg == cfg && View() == FreshDram(cfg)
    {
      this.cfg, this.rwq, this.mrqq, this.returnq, this.bk := cfg, rwq, mrqq, returnq, bk;
      Repr := {this, bk} + rwq.Repr + mrqq.Repr + returnq.Repr;
    }

    method PopData() returns (x: Option<Fetch>)
      requires Valid()
      modifies Repr
      ensures Valid() && fresh(Repr - old(Repr))
      ensures x == old(View()).rwq.Top() && View() == old(View()).(rwq := old(View()).rwq.Popped())
    {
      x := rwq.Pop();
      Repr := Repr + rwq.Repr;
    }

    method PushData(x: Option<Fetch>)
      requires Valid() && !rwq.Full()
      modifies Repr
      ensures Valid() && fresh(Repr - old(Repr))
      ensures View() == old(View()).(rwq := old(View()).rwq.Push(x))
    {
      rwq.Push(x);
      Repr := Repr + rwq.Repr;
    }

    method PopRequest() returns (x: Option<Fetch>)
      requires Valid()
      modifies Repr
      ensures Valid() && fresh(Repr - old(Repr))
      ensures x == old(View()).mrqq.Top() && View() == old(View()).(mrqq := old(View()).mrqq.Popped())
    {
      x := mrqq.Pop();
      Repr := Repr + mrqq.Repr;
    }

    /** dram_t::push */
    method PushRequest(x: Option<Fetch>)
      requires Valid() && !mrqq.Full()
      modifies Repr
      ensures Valid() && fresh(Repr - old(Repr))
      ensures View() == old(View()).(mrqq := old(View()).mrqq.Push(x))
    {
      mrqq.Push(x);
      Repr := Repr + mrqq.Repr;
    }

    /** return_queue_pop */
    method PopReturn() returns (x: Option<Fetch>)
      requires Valid()
      modifies Repr
      ensures Valid() && fresh(Repr - old(Repr))
      ensures x == old(View()).returnq.Top() && View() == old(View()).(returnq := old(View()).returnq.Popped())
    {
      x := returnq.Pop();
      Repr := Repr + returnq.Repr;
    }

    method PushReturn(x: Option<Fetch>)
      requires Valid() && !returnq.Full()
      modifies Repr
      ensures Valid() && fresh(Repr - old(Repr))
      ensures View() == old(View()).(returnq := old(View()).returnq.Push(x))
    {
      returnq.Push(x);
      Repr := Repr + returnq.Repr;
    }

    method SetBank(b: nat, x: Option<Fetch>)
      requires Valid() && b < bk.Length
      modifies bk
      ensures Valid() && Repr == old(Repr) && View() == old(View()).(mrq := old(View()).mrq[b := x])
    {
      bk[b] := x;
    }

    /** The head of the read/write queue moves to the return queue. */
    method ReturnData()
      requires Valid()
      modifies Repr
      ensures Valid() && fresh(Repr - old(Repr)) && View() == Return(old(View()))
    {
      if !returnq.Full() {
        var cmd := PopData();
        if cmd.Some? { PushReturn(cmd); }
      }
    }

    /** The front request goes to its bank. */
    method StartBank(b: nat)
      requires Valid() && b < bk.Length
      modifies Repr
      ensures Valid() && fresh(Repr - old(Repr))
      ensures var d := old(View()); View() == d.(mrq := d.mrq[b := d.mrqq.Top()], mrqq := d.mrqq.Popped())
    {
      var next := PopRequest();
      SetBank(b, next);
    }

    /** scheduler_fifo */
    method SchedulerFifo() returns (e: Option<DramFault>)
      requires Valid()
      modifies Repr
      ensures Valid() && fresh(Repr - old(Repr)) && Reached(Schedule(old(View())), e)
    {
      e := None;
      if mrqq.length > 0 {
        var head := mrqq.Top();
        if head.None? { return Some(EmptyCell); }
        var b := head.value.bank;
        if b >= bk.Length { return Some(BadBank); }
        if bk[b].None? { StartBank(b); }
      }
    }

    /** Bank b hands its request, if it has one, to the read/write queue. */
    method BurstBank(b: nat)
      requires Valid() && b < bk.Length && (bk[b].Some? ==> !rwq.Full())
      modifies Repr
      ensures Valid() && fresh(Repr - old(Repr))
      ensures var d := old(View());
              View() == if d.mrq[b].None? then d else d.(rwq := d.rwq.Push(d.mrq[b]), mrq := d.mrq[b := None])
    {
      if bk[b].Some? { PushData(bk[b]); }
      SetBank(b, None);
    }

    method BurstBanks() returns (e: Option<DramFault>)
      requires Valid()
      modifies Repr
      ensures Valid() && fresh(Repr - old(Repr)) && Reached(Burst(old(View()), 0), e)
    {
      var i := 0;
      while i < bk.Length
        invariant i <= bk.Length && Valid() && fresh(Repr - old(Repr))
        invariant Burst(View(), i) == Burst(old(View()), 0)
      {
        if bk[i].Some? && rwq.Full() { return Some(QueueOverflow); }
        BurstBank(i);
        i := i + 1;
      }
      e := None;
    }

    method ServeAllBanks() returns (e: Option<DramFault>)
      requires Valid()
      modifies Repr
      ensures Valid() && fresh(Repr - old(Repr)) && Reached(ServeBanks(old(View())), e)
    {
      e := SchedulerFifo();
      if e.None? { e := BurstBanks(); }
    }

    /** dram_t::cycle */
    method Cycle() returns (e: Option<DramFault>)
      requires Valid()
      modifies Repr
      ensures Valid() && fresh(Repr - old(Repr)) && Reached(DramCycle(old(View())), e)
    {
      ReturnData();
      e := ServeAllBanks();
    }
  }

  method NewQueues(cfg: DramConfig)
    returns (rwq: FifoPipeline<Fetch>, mrqq: FifoPipeline<Fetch>, returnq: FifoPipeline<Fetch>)
    ensures fresh(rwq.Repr) && fresh(mrqq.Repr) && fresh(returnq.Repr)
    ensures rwq.Valid() && mrqq.Valid() && returnq.Valid()
    ensures rwq.View() == Fresh(cfg.cl, cfg.cl + 1) && mrqq.View() == Fresh(0, 2)
    ensures returnq.View() == Fresh(0, ReturnLimit(cfg))
    ensures rwq.Repr !! mrqq.Repr && rwq.Repr !! returnq.Repr && mrqq.Repr !! returnq.Repr
  {
    rwq := new FifoPipeline<Fetch>(cfg.cl, cfg.cl + 1);
    mrqq := new FifoPipeline<Fetch>(0, 2);
    returnq := new FifoPipeline<Fetch>(0, ReturnLimit(cfg));
  }

  method NewParts(cfg: DramConfig)
    returns (rwq: FifoPipeline<Fetch>, mrqq: FifoPipeline<Fetch>, returnq: FifoPipeline<Fetch>,
             bk: array<Option<Fetch>>)
    ensures fresh(rwq.Repr + mrqq.Repr + returnq.Repr + {bk})
    ensures rwq.Valid() && mrqq.Valid() && returnq.Valid()
    ensures rwq.View() == Fresh(cfg.cl, cfg.cl + 1) && mrqq.View() == Fresh(0, 2)
    ensures returnq.View() == Fresh(0, ReturnLimit(cfg))
    ensures rwq.Repr !! mrqq.Repr && rwq.Repr !! returnq.Repr && mrqq.Repr !! returnq.Repr
    ensures bk !in rwq.Repr + mrqq.Repr + returnq.Repr && bk[..] == Nulls(cfg.nbk)
  {
    bk := IdleBanks(cfg.nbk);
    rwq, mrqq, returnq := NewQueues(cfg);
  }

  /** dram_t's constructor: the three queues and the idle banks. */
  method NewDram(cfg: DramConfig) returns (d: DramT)
    ensures fresh(d.Repr) && d.Valid() && d.cfg == cfg && d.View() == FreshDram(cfg)
  {
    var rwq, mrqq, returnq, bk := NewParts(cfg);
    d := new DramT(cfg, rwq, mrqq, returnq, bk);
  }
}
