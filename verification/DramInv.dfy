/** The exact latency of a DRAM channel: the state of every queue is a window of the log of accepted
    requests, so no assert of the channel can fire and every request comes back after a constant time. */
module DramInv {
  import opened Wrappers
  import opened MemFetch
  import opened Fifo
  import opened Dram

  /** What the channel accepted in each cycle. */
  type Log = seq<Option<Fetch>>

  function At(acc: Log, t: int): Option<Fetch> { if 0 <= t < |acc| then acc[t] else None }

  /** The log from cycle `from` on, n entries, with nothing outside the run. */
  function Window(acc: Log, from: int, n: nat): (w: seq<Option<Fetch>>)
    ensures |w| == n && forall i :: 0 <= i < n ==> w[i] == At(acc, from + i)
  {
    seq(n, i => At(acc, from + i))
  }

  function Single(x: Option<Fetch>): seq<Option<Fetch>> { if x.Some? then [x] else [] }

  /** Cycles a request spends in the read/write queue: CL, but at least one. */
  function Depth(cfg: DramConfig): nat { Max(cfg.cl, 1) }

  function RwqCells(cfg: DramConfig, acc: Log, from: int): seq<Option<Fetch>> {
    if cfg.cl == 0 then Single(At(acc, from)) else Window(acc, from, cfg.cl)
  }

  /** Accepted at or after cycle `from`, each with its ready time. */
  function Pending(cfg: DramConfig, acc: Log, from: int): seq<Delayed>
    decreases |acc| - from
  {
    if from >= |acc| then []
    else
      var x := At(acc, from);
      (if x.Some? then [Delayed(x.value, from + cfg.latency)] else []) + Pending(cfg, acc, from + 1)
  }

  ghost predicate RequestOk(cfg: DramConfig, f: Fetch) { f.bank < cfg.nbk }

  ghost predicate LogOk(cfg: DramConfig, acc: Log) {
    forall t :: 0 <= t < |acc| && acc[t].Some? ==>
      RequestOk(cfg, acc[t].value) && cfg.id * SLICES <= acc[t].value.l2Id < cfg.id * SLICES + SLICES
  }

  ghost predicate SliceOk(cfg: DramConfig, s: Slice) {
    && s.fromDram == Pipe(0, SLICE_QUEUE, [])
    && s.toDram.minLen == 0 && s.toDram.maxLen == SLICE_QUEUE && s.toDram.Ok()
    && forall i :: 0 <= i < |s.toDram.cells| ==> s.toDram.cells[i].Some? && RequestOk(cfg, s.toDram.cells[i].value)
  }

  ghost predicate SlicesOk(cfg: DramConfig, c: Channel) {
    |c.slices| == SLICES && SliceOk(cfg, c.slices[0]) && SliceOk(cfg, c.slices[1])
  }

  /** dram_t when requests accepted in cycle `mid` have just entered it and those accepted in
      cycle `from` are at the head of the read/write queue. */
  function DramAt(cfg: DramConfig, acc: Log, from: int, mid: int): DramState {
    Boundary(cfg, RwqCells(cfg, acc, from), At(acc, mid), At(acc, from - 1))
  }

  /** The last cycle whose requests have entered dram_t, before the cycle numbered |acc|. */
  function Mid(cfg: DramConfig, acc: Log): int { |acc| - 1 - cfg.latency }

  /** The cycle whose requests are at the head of the read/write queue. */
  function From(cfg: DramConfig, acc: Log): int { Mid(cfg, acc) - Depth(cfg) }

  ghost predicate QueuesFollow(cfg: DramConfig, c: Channel, acc: Log) {
    && c.dram == DramAt(cfg, acc, From(cfg, acc), Mid(cfg, acc))
    && c.delay == Pending(cfg, acc, Mid(cfg, acc) + 1)
  }

  /** The invariant between cycles. */
  ghost predicate ChannelInv(cfg: DramConfig, c: Channel, acc: Log) {
    SlicesOk(cfg, c) && LogOk(cfg, acc) && QueuesFollow(cfg, c, acc)
  }

  // ---------------------------------------------------------------- dram_t::cycle

  lemma {:induction false} BurstNothing(d: DramState, i: nat)
    requires i <= |d.mrq| && forall j :: i <= j < |d.mrq| ==> d.mrq[j].None?
    ensures Burst(d, i) == Ok(d)
    decreases |d.mrq| - i
  {
    if i < |d.mrq| { BurstNothing(d, i + 1); }
  }

  /** One busy bank hands its request over, whichever bank it is. */
  lemma {:induction false} BurstOne(d: DramState, i: nat, b: nat)
    requires i <= b < |d.mrq| && d.mrq[b].Some? && !d.rwq.Full()
    requires forall j :: i <= j < |d.mrq| && j != b ==> d.mrq[j].None?
    ensures Burst(d, i) == Ok(d.(rwq := d.rwq.Push(d.mrq[b]), mrq := d.mrq[b := None]))
    decreases b - i
  {
    if i < b {
      BurstOne(d, i + 1, b);
    } else {
      BurstNothing(d.(rwq := d.rwq.Push(d.mrq[b]), mrq := d.mrq[b := None]), b + 1);
    }
  }

  lemma NullsUpdate(n: nat, b: nat, x: Option<Fetch>)
    requires b < n
    ensures Nulls<Fetch>(n)[b := x][b := None] == Nulls<Fetch>(n)
  {
  }

  /** The read/write queue moves by one place: its head leaves and x, if any, joins. */
  function Shifted(cl: nat, cells: seq<Option<Fetch>>, x: Option<Fetch>): seq<Option<Fetch>> {
    if cl == 0 then Single(x) else if cells == [] then [] else cells[1..] + [x]
  }

  lemma ShiftIsPopPush(cl: nat, cells: seq<Option<Fetch>>, x: Option<Fetch>)
    requires if cl == 0 then |cells| <= 1 else |cells| == cl
    ensures var popped := Pipe(cl, cl + 1, cells).Popped();
            && !popped.Full()
            && Pipe(cl, cl + 1, Shifted(cl, cells, x)) == if x.Some? then popped.Push(x) else popped
  {
    if cl > 0 {
      var popped := cells[1..] + [None];
      assert popped[..|popped| - 1] == cells[1..];
    }
  }

  function Boundary(cfg: DramConfig, cells: seq<Option<Fetch>>, x: Option<Fetch>, back: Option<Fetch>): DramState {
    DramState(Pipe(cfg.cl, cfg.cl + 1, cells), Pipe(0, 2, Single(x)), Pipe(0, ReturnLimit(cfg), Single(back)),
              Nulls(cfg.nbk))
  }

  function Head(cells: seq<Option<Fetch>>): Option<Fetch> { if cells == [] then None else cells[0] }

  lemma ReturnMoves(cfg: DramConfig, cells: seq<Option<Fetch>>, x: Option<Fetch>)
    ensures var d := Boundary(cfg, cells, x, None);
            Return(d) == Boundary(cfg, cells, x, Head(cells)).(rwq := d.rwq.Popped())
  {
  }

  /** The scheduler and the banks together pass the waiting request straight on. */
  lemma ScheduleAndBurst(cfg: DramConfig, rwq: Pipe<Fetch>, x: Option<Fetch>, back: Option<Fetch>)
    requires x.Some? ==> RequestOk(cfg, x.value) && !rwq.Full()
    ensures var d := Boundary(cfg, [], x, back).(rwq := rwq);
            var r := Schedule(d);
            && r.Ok?
            && Burst(r.value, 0)
               == Ok(Boundary(cfg, [], None, back).(rwq := if x.Some? then rwq.Push(x) else rwq))
  {
    var d := Boundary(cfg, [], x, back).(rwq := rwq);
    if x.Some? {
      NullsUpdate(cfg.nbk, x.value.bank, x);
      assert d.mrqq.Top() == x && d.mrqq.Popped() == Pipe(0, 2, Single(None));
      BurstOne(Schedule(d).value, 0, x.value.bank);
    } else {
      BurstNothing(d, 0);
    }
  }

  /** One cycle of dram_t from a boundary state with an empty return queue. */
  lemma DramCycleShifts(cfg: DramConfig, cells: seq<Option<Fetch>>, x: Option<Fetch>)
    requires if cfg.cl == 0 then |cells| <= 1 else |cells| == cfg.cl
    requires x.Some? ==> RequestOk(cfg, x.value)
    ensures DramCycle(Boundary(cfg, cells, x, None)) == Ok(Boundary(cfg, Shifted(cfg.cl, cells, x), None, Head(cells)))
  {
    ReturnMoves(cfg, cells, x);
    ShiftIsPopPush(cfg.cl, cells, x);
    ScheduleAndBurst(cfg, Pipe(cfg.cl, cfg.cl + 1, cells).Popped(), x, Head(cells));
  }

  // ---------------------------------------------------------------- the log

  lemma PendingStep(cfg: DramConfig, acc: Log, from: int)
    ensures var head, rest := At(acc, from), Pending(cfg, acc, from + 1);
            Pending(cfg, acc, from) == if head.Some? then [Delayed(head.value, from + cfg.latency)] + rest else rest
  {
  }

  function Joined(delay: seq<Delayed>, x: Option<Fetch>, ready: nat): seq<Delayed> {
    if x.Some? then delay + [Delayed(x.value, ready)] else delay
  }

  lemma {:induction false} PendingGrows(cfg: DramConfig, acc: Log, x: Option<Fetch>, from: int)
    requires from <= |acc|
    ensures Pending(cfg, acc + [x], from) == Joined(Pending(cfg, acc, from), x, |acc| + cfg.latency)
    decreases |acc| - from
  {
    PendingStep(cfg, acc + [x], from);
    if from < |acc| {
      PendingStep(cfg, acc, from);
      PendingGrows(cfg, acc, x, from + 1);
      assert At(acc + [x], from) == At(acc, from);
    } else {
      assert At(acc + [x], from) == x;
    }
  }

  /** What waits was accepted late enough not to be ready. */
  lemma {:induction false} PendingReady(cfg: DramConfig, acc: Log, from: int)
    ensures NoneBefore(Pending(cfg, acc, from), from + cfg.latency)
    decreases |acc| - from
  {
    if from < |acc| { PendingReady(cfg, acc, from + 1); }
  }

  predicate NoneBefore(delay: seq<Delayed>, time: int) { forall i :: 0 <= i < |delay| ==> delay[i].ready >= time }

  lemma WindowSlides(cfg: DramConfig, acc: Log, x: Option<Fetch>, from: int)
    requires from + Depth(cfg) <= |acc|
    ensures RwqCells(cfg, acc + [x], from + 1)
            == Shifted(cfg.cl, RwqCells(cfg, acc, from), At(acc + [x], from + Depth(cfg)))
    ensures At(acc, from) == Head(RwqCells(cfg, acc, from))
  {
    if cfg.cl > 0 {
      var l := RwqCells(cfg, acc + [x], from + 1);
      var r := Shifted(cfg.cl, RwqCells(cfg, acc, from), At(acc + [x], from + Depth(cfg)));
      assert |l| == |r|;
      forall i | 0 <= i < |l| ensures l[i] == r[i] { }
    }
  }

  // ---------------------------------------------------------------- one cycle of the channel

  /** The request due back in the cycle numbered |acc|. */
  function Due(cfg: DramConfig, acc: Log): Option<Fetch> { At(acc, From(cfg, acc) - 1) }

  function SliceOf(cfg: DramConfig, f: Fetch): int { f.l2Id - cfg.id * SLICES }

  /** What slice k sends to its SMs when `due` comes back. */
  function Share(cfg: DramConfig, due: Option<Fetch>, k: nat): Option<Fetch> {
    if due.Some? && SliceOf(cfg, due.value) == k then due else None
  }

  /** A slice that received its share. */
  function Holding(s: Slice, x: Option<Fetch>): Slice { s.(fromDram := Pipe(0, SLICE_QUEUE, Single(x))) }

  /** The channel after `due` was delivered and dram_t moved on to state d. */
  function Served(cfg: DramConfig, c: Channel, due: Option<Fetch>, d: DramState): Channel
    requires |c.slices| == SLICES
  {
    c.(slices := [Holding(c.slices[0], Share(cfg, due, 0)), Holding(c.slices[1], Share(cfg, due, 1))], dram := d)
  }

  predicate Mine(cfg: DramConfig, x: Option<Fetch>) { x.Some? ==> 0 <= SliceOf(cfg, x.value) < SLICES }

  lemma DeliverShares(cfg: DramConfig, c: Channel, due: Option<Fetch>)
    requires SlicesOk(cfg, c) && c.dram.returnq == Pipe(0, ReturnLimit(cfg), Single(due)) && Mine(cfg, due)
    ensures Deliver(cfg, c) == Ok(Served(cfg, c, due, c.dram.(returnq := Pipe(0, ReturnLimit(cfg), []))))
  {
    if due.Some? {
      assert c.dram.returnq.Popped().cells == [];
      var k := SliceOf(cfg, due.value);
      assert c.slices[k].fromDram.Push(due).cells == [due];
      assert Deliver(cfg, c).value.slices == Served(cfg, c, due, c.dram).slices;
    } else {
      assert c.slices == Served(cfg, c, due, c.dram).slices;
    }
  }

  lemma ServeShifts(cfg: DramConfig, c: Channel, cells: seq<Option<Fetch>>, x: Option<Fetch>, due: Option<Fetch>)
    requires SlicesOk(cfg, c) && c.dram == Boundary(cfg, cells, x, due) && Mine(cfg, due)
    requires if cfg.cl == 0 then |cells| <= 1 else |cells| == cfg.cl
    requires x.Some? ==> RequestOk(cfg, x.value)
    ensures Serve(cfg, c) == Ok(Served(cfg, c, due, Boundary(cfg, Shifted(cfg.cl, cells, x), None, Head(cells))))
  {
    DeliverShares(cfg, c, due);
    assert Boundary(cfg, cells, x, due).(returnq := Pipe(0, ReturnLimit(cfg), [])) == Boundary(cfg, cells, x, None);
    DramCycleShifts(cfg, cells, x);
  }

  /** The request the channel accepts next: slice 1 goes first. */
  function Next(cfg: DramConfig, c: Channel): (r: Option<Fetch>)
    requires |c.slices| == SLICES
  {
    if c.slices[1].toDram.Top().Some? then Some(c.slices[1].toDram.Top().value.(l2Id := cfg.id * SLICES + 1))
    else if c.slices[0].toDram.Top().Some? then Some(c.slices[0].toDram.Top().value.(l2Id := cfg.id * SLICES))
    else None
  }

  /** The slices after an acceptance. */
  function Handed(cfg: DramConfig, c: Channel): (r: Channel)
    requires |c.slices| == SLICES
    ensures |r.slices| == SLICES && r.dram == c.dram && r.delay == c.delay
  {
    if c.slices[1].toDram.Top().Some? then
      c.(slices := c.slices[1 := c.slices[1].(toDram := c.slices[1].toDram.Popped())])
    else if c.slices[0].toDram.Top().Some? then
      c.(slices := c.slices[0 := c.slices[0].(toDram := c.slices[0].toDram.Popped())])
    else c
  }

  lemma AcceptTakesNext(cfg: DramConfig, c: Channel, due: Option<Fetch>, d: DramState, now: nat)
    requires SlicesOk(cfg, c) && d.mrqq == Pipe(0, 2, [])
    ensures var c1, x := Served(cfg, c, due, d), Next(cfg, c);
            && Accepted(cfg, c1) == x
            && Accept(cfg, c1, now) == Ok(Handed(cfg, c1).(delay := Joined(c.delay, x, now + cfg.latency)))
  {
    var c1 := Served(cfg, c, due, d);
    assert Chosen(c1, 2) == None;
    assert Chosen(c1, 1) == if c.slices[0].toDram.cells != [] then Some(0) else None;
    assert Chosen(c1, 0) == if c.slices[1].toDram.cells != [] then Some(1) else Chosen(c1, 1);
  }

  lemma EnterHead(c: Channel, head: Option<Fetch>, rest: seq<Delayed>, now: nat)
    requires c.delay == (if head.Some? then [Delayed(head.value, now)] + rest else rest)
    requires c.dram.mrqq == Pipe(0, 2, []) && NoneBefore(rest, now + 1)
    ensures Enter(c, now) == c.(delay := rest, dram := c.dram.(mrqq := Pipe(0, 2, Single(head))))
  {
  }

  /** A request enters the request queue exactly `latency` cycles after it was accepted. */
  lemma EnterOnTime(cfg: DramConfig, c: Channel, acc: Log, from: int, now: nat)
    requires now == from + cfg.latency && c.delay == Pending(cfg, acc, from) && c.dram.mrqq == Pipe(0, 2, [])
    ensures Enter(c, now)
            == c.(delay := Pending(cfg, acc, from + 1), dram := c.dram.(mrqq := Pipe(0, 2, Single(At(acc, from)))))
  {
    PendingStep(cfg, acc, from);
    PendingReady(cfg, acc, from + 1);
    EnterHead(c, At(acc, from), Pending(cfg, acc, from + 1), now);
  }

  // ---------------------------------------------------------------- one whole cycle

  lemma NextIsOk(cfg: DramConfig, c: Channel, acc: Log)
    requires SlicesOk(cfg, c) && LogOk(cfg, acc)
    ensures LogOk(cfg, acc + [Next(cfg, c)])
  {
    var x := Next(cfg, c);
    assert x.Some? ==> RequestOk(cfg, x.value);
    var acc' := acc + [x];
    forall t | 0 <= t < |acc'| && acc'[t].Some?
      ensures RequestOk(cfg, acc'[t].value) && cfg.id * SLICES <= acc'[t].value.l2Id < cfg.id * SLICES + SLICES
    {
      if t < |acc| { assert acc'[t] == acc[t]; }
    }
  }

  /** dram_t after its cycle and the entry of the next request is what the longer log says. */
  lemma DramFollowsLog(cfg: DramConfig, acc: Log, x: Option<Fetch>, from: int, mid: int)
    requires mid == from + Depth(cfg) && mid < |acc|
    ensures Boundary(cfg, Shifted(cfg.cl, RwqCells(cfg, acc, from), At(acc, mid)), At(acc + [x], mid + 1),
                     Head(RwqCells(cfg, acc, from)))
            == DramAt(cfg, acc + [x], from + 1, mid + 1)
  {
    WindowSlides(cfg, acc, x, from);
    assert At(acc + [x], mid) == At(acc, mid);
    assert At(acc + [x], from) == At(acc, from);
  }

  /** The channel after it has served and accepted. */
  function Taken(cfg: DramConfig, c: Channel, due: Option<Fetch>, d: DramState, now: nat): Channel
    requires |c.slices| == SLICES
  {
    Handed(cfg, Served(cfg, c, due, d)).(delay := Joined(c.delay, Next(cfg, c), now + cfg.latency))
  }

  lemma ServeAndAccept(cfg: DramConfig, c: Channel, cells: seq<Option<Fetch>>, x: Option<Fetch>, due: Option<Fetch>,
                       now: nat)
    requires SlicesOk(cfg, c) && c.dram == Boundary(cfg, cells, x, due) && Mine(cfg, due)
    requires if cfg.cl == 0 then |cells| <= 1 else |cells| == cfg.cl
    requires x.Some? ==> RequestOk(cfg, x.value)
    ensures ChannelCycle(cfg, c, now)
            == Ok(Enter(Taken(cfg, c, due, Boundary(cfg, Shifted(cfg.cl, cells, x), None, Head(cells)), now), now))
  {
    ServeShifts(cfg, c, cells, x, due);
    AcceptTakesNext(cfg, c, due, Boundary(cfg, Shifted(cfg.cl, cells, x), None, Head(cells)), now);
  }

  lemma EnterTaken(cfg: DramConfig, c: Channel, acc: Log, due: Option<Fetch>, d: DramState, now: nat, mid: int)
    requires |c.slices| == SLICES && now == mid + cfg.latency && d.mrqq == Pipe(0, 2, [])
    requires Joined(c.delay, Next(cfg, c), now + cfg.latency) == Pending(cfg, acc, mid)
    ensures Enter(Taken(cfg, c, due, d, now), now)
            == Handed(cfg, Served(cfg, c, due, d.(mrqq := Pipe(0, 2, Single(At(acc, mid))))))
               .(delay := Pending(cfg, acc, mid + 1))
  {
    EnterOnTime(cfg, Taken(cfg, c, due, d, now), acc, mid, now);
  }

  /** The channel after one cycle, before the slices' part. */
  function MovedTo(cfg: DramConfig, c: Channel, acc: Log, due: Option<Fetch>, from: int, mid: int): (r: Channel)
    requires |c.slices| == SLICES
    ensures r.dram == DramAt(cfg, acc + [Next(cfg, c)], from + 1, mid + 1)
    ensures r.delay == Pending(cfg, acc + [Next(cfg, c)], mid + 2)
  {
    var acc' := acc + [Next(cfg, c)];
    Handed(cfg, Served(cfg, c, due, DramAt(cfg, acc', from + 1, mid + 1))).(delay := Pending(cfg, acc', mid + 2))
  }

  function Moved(cfg: DramConfig, c: Channel, acc: Log): Channel
    requires |c.slices| == SLICES
  {
    MovedTo(cfg, c, acc, Due(cfg, acc), From(cfg, acc), Mid(cfg, acc))
  }

  lemma EnterMoves(cfg: DramConfig, c: Channel, acc: Log, due: Option<Fetch>, from: int, mid: int)
    requires |c.slices| == SLICES && mid == from + Depth(cfg) && mid + 1 + cfg.latency == |acc|
    requires c.delay == Pending(cfg, acc, mid + 1)
    ensures var cells := RwqCells(cfg, acc, from);
            var d := Boundary(cfg, Shifted(cfg.cl, cells, At(acc, mid)), None, Head(cells));
            Enter(Taken(cfg, c, due, d, |acc|), |acc|)
            == MovedTo(cfg, c, acc, due, from, mid)
  {
    var x, cells := Next(cfg, c), RwqCells(cfg, acc, from);
    PendingGrows(cfg, acc, x, mid + 1);
    var d := Boundary(cfg, Shifted(cfg.cl, cells, At(acc, mid)), None, Head(cells));
    EnterTaken(cfg, c, acc + [x], due, d, |acc|, mid + 1);
    DramFollowsLog(cfg, acc, x, from, mid);
  }

  lemma ServeAndMove(cfg: DramConfig, c: Channel, acc: Log, due: Option<Fetch>, from: int, mid: int)
    requires SlicesOk(cfg, c) && LogOk(cfg, acc) && Mine(cfg, due)
    requires mid == from + Depth(cfg) && mid + 1 + cfg.latency == |acc|
    requires c.dram == Boundary(cfg, RwqCells(cfg, acc, from), At(acc, mid), due)
    requires c.delay == Pending(cfg, acc, mid + 1)
    ensures ChannelCycle(cfg, c, |acc|)
            == Ok(MovedTo(cfg, c, acc, due, from, mid))
  {
    ServeAndAccept(cfg, c, RwqCells(cfg, acc, from), At(acc, mid), due, |acc|);
    EnterMoves(cfg, c, acc, due, from, mid);
  }

  lemma ChannelCycleMoves(cfg: DramConfig, c: Channel, acc: Log)
    requires ChannelInv(cfg, c, acc)
    ensures ChannelCycle(cfg, c, |acc|) == Ok(Moved(cfg, c, acc))
  {
    ServeAndMove(cfg, c, acc, Due(cfg, acc), From(cfg, acc), Mid(cfg, acc));
  }

  // ---------------------------------------------------------------- the slices' part

  /** Every miss is for an existing bank. */
  ghost predicate BanksInRange(cfg: DramConfig, misses: seq<Option<Fetch>>) {
    |misses| == SLICES && forall k :: 0 <= k < SLICES && misses[k].Some? ==> RequestOk(cfg, misses[k].value)
  }

  predicate Took(cfg: DramConfig, c: Channel, k: nat)
    requires |c.slices| == SLICES
  {
    Next(cfg, c).Some? && SliceOf(cfg, Next(cfg, c).value) == k
  }

  /** What the channel leaves in a slice's queue when it has, or has not, taken the front request. */
  function Rest(s: Slice, taken: bool): Pipe<Fetch> { if taken then s.toDram.Popped() else s.toDram }

  /** Every slice with a miss has room for it after the channel's part of the cycle. */
  ghost predicate HasRoom(cfg: DramConfig, c: Channel, misses: seq<Option<Fetch>>)
    requires |misses| == SLICES == |c.slices|
  {
    forall k :: 0 <= k < SLICES && misses[k].Some? ==> !Rest(c.slices[k], Took(cfg, c, k)).Full()
  }

  /** Misses that the channel can take: for existing banks, and into queues with room. */
  ghost predicate MissesOk(cfg: DramConfig, c: Channel, misses: seq<Option<Fetch>>) {
    |c.slices| == SLICES && BanksInRange(cfg, misses) && HasRoom(cfg, c, misses)
  }

  /** One slice after a whole cycle: `taken` when the channel accepted its front request. */
  function SliceAfter(s: Slice, taken: bool, miss: Option<Fetch>): Slice {
    Slice(if miss.Some? then Rest(s, taken).Push(miss) else Rest(s, taken), Pipe(0, SLICE_QUEUE, []))
  }

  lemma SliceSteps(cfg: DramConfig, s: Slice, taken: bool, x: Option<Fetch>, miss: Option<Fetch>)
    requires SliceOk(cfg, s) && (miss.Some? ==> RequestOk(cfg, miss.value))
    ensures var got := Holding(s.(toDram := Rest(s, taken)), x);
            && got.fromDram.Top() == x
            && (if miss.Some? && Rest(s, taken).Full() then SliceCycle(got, miss) == Err(QueueOverflow)
                else SliceCycle(got, miss) == Ok(SliceAfter(s, taken, miss))
                     && SliceOk(cfg, SliceAfter(s, taken, miss)))
  {
    var left := Rest(s, taken);
    assert left.cells == [] || left.cells[|left.cells| - 1].Some?;
    assert Pipe(0, SLICE_QUEUE, Single(x)).Popped().cells == [];
  }

  function Stepped(cfg: DramConfig, c: Channel, acc: Log, misses: seq<Option<Fetch>>): Channel
    requires |c.slices| == SLICES == |misses|
  {
    var s0 := SliceAfter(c.slices[0], Took(cfg, c, 0), misses[0]);
    var s1 := SliceAfter(c.slices[1], Took(cfg, c, 1), misses[1]);
    Moved(cfg, c, acc).(slices := [s0, s1])
  }

  lemma MovedSlices(cfg: DramConfig, c: Channel, acc: Log)
    requires SlicesOk(cfg, c)
    ensures forall k :: 0 <= k < SLICES ==>
              Moved(cfg, c, acc).slices[k]
              == Holding(c.slices[k].(toDram := Rest(c.slices[k], Took(cfg, c, k))), Share(cfg, Due(cfg, acc), k))
  {
  }

  /** A cycle succeeds if and only if every slice with a miss has room for it once the channel has
      taken its request; the only thing that can go wrong is the overflow of such a queue. */
  lemma StepOkIff(cfg: DramConfig, c: Channel, acc: Log, misses: seq<Option<Fetch>>)
    requires ChannelInv(cfg, c, acc) && BanksInRange(cfg, misses)
    ensures Step(cfg, c, |acc|, misses)
            == if HasRoom(cfg, c, misses)
               then Ok((Stepped(cfg, c, acc, misses), [Share(cfg, Due(cfg, acc), 0), Share(cfg, Due(cfg, acc), 1)]))
               else Err(QueueOverflow)
  {
    ChannelCycleMoves(cfg, c, acc);
    MovedSlices(cfg, c, acc);
    SliceSteps(cfg, c.slices[0], Took(cfg, c, 0), Share(cfg, Due(cfg, acc), 0), misses[0]);
    SliceSteps(cfg, c.slices[1], Took(cfg, c, 1), Share(cfg, Due(cfg, acc), 1), misses[1]);
  }

  lemma SlicesKeep(cfg: DramConfig, c: Channel, acc: Log, misses: seq<Option<Fetch>>)
    requires SlicesOk(cfg, c) && MissesOk(cfg, c, misses)
    ensures SlicesOk(cfg, Stepped(cfg, c, acc, misses))
  {
    SliceSteps(cfg, c.slices[0], Took(cfg, c, 0), None, misses[0]);
    SliceSteps(cfg, c.slices[1], Took(cfg, c, 1), None, misses[1]);
  }

  lemma QueuesKeep(cfg: DramConfig, c: Channel, acc: Log, misses: seq<Option<Fetch>>)
    requires |c.slices| == SLICES == |misses|
    ensures QueuesFollow(cfg, Stepped(cfg, c, acc, misses), acc + [Next(cfg, c)])
  {
    var acc' := acc + [Next(cfg, c)];
    assert Mid(cfg, acc') == Mid(cfg, acc) + 1 && From(cfg, acc') == From(cfg, acc) + 1;
  }

  lemma StepKeeps(cfg: DramConfig, c: Channel, acc: Log, misses: seq<Option<Fetch>>)
    requires ChannelInv(cfg, c, acc) && MissesOk(cfg, c, misses)
    ensures ChannelInv(cfg, Stepped(cfg, c, acc, misses), acc + [Next(cfg, c)])
  {
    SlicesKeep(cfg, c, acc, misses);
    QueuesKeep(cfg, c, acc, misses);
    NextIsOk(cfg, c, acc);
  }

  /** A channel starts in the invariant. */
  lemma FreshChannelOk(cfg: DramConfig)
    ensures ChannelInv(cfg, FreshChannel(cfg), [])
  {
    if cfg.cl > 0 { assert RwqCells(cfg, [], From(cfg, [])) == Nulls(cfg.cl); }
    NothingPending(cfg, Mid(cfg, []) + 1);
  }

  lemma {:induction false} NothingPending(cfg: DramConfig, from: int)
    ensures Pending(cfg, [], from) == []
    decreases -from
  {
    if from < 0 { NothingPending(cfg, from + 1); }
  }

  // ---------------------------------------------------------------- runs

  /** The constant number of cycles between acceptance and the reply to the SM. */
  function Latency(cfg: DramConfig): nat { cfg.latency + Depth(cfg) + 2 }

  type Inputs = seq<seq<Option<Fetch>>>

  predicate Paired(inputs: Inputs) { forall i :: 0 <= i < |inputs| ==> |inputs[i]| == SLICES }

  /** A run: the misses that the slices queue, the states between cycles, and what the slices send
      to the SMs, cycle by cycle. */
  datatype Run = Run(inputs: Inputs, states: seq<Channel>, outs: Inputs) {
    ghost predicate Valid() {
      && |states| == |inputs| + 1 && |outs| == |inputs| && Paired(inputs) && Paired(outs)
      && forall t :: 0 <= t < |states| ==> |states[t].slices| == SLICES
    }
  }

  ghost predicate IsStep(cfg: DramConfig, r: Run, t: nat)
    requires r.Valid() && t < |r.inputs|
  {
    Step(cfg, r.states[t], t, r.inputs[t]) == Ok((r.states[t + 1], r.outs[t]))
  }

  /** The channel goes from state to state. */
  ghost predicate IsTrace(cfg: DramConfig, r: Run) {
    r.Valid() && r.states[0] == FreshChannel(cfg) && forall t :: 0 <= t < |r.inputs| ==> IsStep(cfg, r, t)
  }

  /** A trace whose misses are for existing banks, as address decoding makes them. */
  ghost predicate IsRun(cfg: DramConfig, r: Run) {
    IsTrace(cfg, r) && forall t :: 0 <= t < |r.inputs| ==> BanksInRange(cfg, r.inputs[t])
  }

  /** The requests accepted in the first n cycles of the run. */
  ghost function LogOf(cfg: DramConfig, r: Run, n: nat): (log: Log)
    requires r.Valid() && n <= |r.inputs|
    ensures |log| == n
  {
    if n == 0 then [] else LogOf(cfg, r, n - 1) + [Next(cfg, r.states[n - 1])]
  }

  /** In the cycle numbered t, each slice sends its share of what was accepted Latency cycles before. */
  ghost predicate OutputIsDue(cfg: DramConfig, out: seq<Option<Fetch>>, log: Log, t: nat) {
    var due := At(log, t - Latency(cfg));
    out == [Share(cfg, due, 0), Share(cfg, due, 1)]
  }

  lemma StepOfRun(cfg: DramConfig, r: Run, t: nat)
    requires IsRun(cfg, r) && t < |r.inputs|
    ensures IsStep(cfg, r, t) && BanksInRange(cfg, r.inputs[t])
  {
  }

  lemma StepInv(cfg: DramConfig, r: Run, t: nat)
    requires IsRun(cfg, r) && t < |r.inputs| && ChannelInv(cfg, r.states[t], LogOf(cfg, r, t))
    ensures ChannelInv(cfg, r.states[t + 1], LogOf(cfg, r, t + 1))
  {
    StepOfRun(cfg, r, t);
    OneStep(cfg, r, t);
  }

  /** Every state of a run satisfies the invariant. */
  lemma {:induction false} RunKeeps(cfg: DramConfig, r: Run, n: nat)
    requires IsRun(cfg, r) && n <= |r.inputs|
    ensures ChannelInv(cfg, r.states[n], LogOf(cfg, r, n))
  {
    if n == 0 {
      FreshChannelOk(cfg);
    } else {
      RunKeeps(cfg, r, n - 1);
      StepInv(cfg, r, n - 1);
    }
  }

  lemma OneStep(cfg: DramConfig, r: Run, t: nat)
    requires r.Valid() && t < |r.inputs| && IsStep(cfg, r, t) && BanksInRange(cfg, r.inputs[t])
    requires ChannelInv(cfg, r.states[t], LogOf(cfg, r, t))
    ensures HasRoom(cfg, r.states[t], r.inputs[t])
    ensures var log := LogOf(cfg, r, t);
            && r.states[t + 1] == Stepped(cfg, r.states[t], log, r.inputs[t])
            && r.outs[t] == [Share(cfg, Due(cfg, log), 0), Share(cfg, Due(cfg, log), 1)]
            && ChannelInv(cfg, r.states[t + 1], LogOf(cfg, r, t + 1))
  {
    var log := LogOf(cfg, r, t);
    StepOkIff(cfg, r.states[t], log, r.inputs[t]);
    StepKeeps(cfg, r.states[t], log, r.inputs[t]);
  }

  lemma {:induction false} LogPrefix(cfg: DramConfig, r: Run, n: nat, t: int)
    requires r.Valid() && n <= |r.inputs| && t < n
    ensures At(LogOf(cfg, r, n), t) == At(LogOf(cfg, r, |r.inputs|), t)
    decreases |r.inputs| - n
  {
    if n < |r.inputs| {
      LogPrefix(cfg, r, n + 1, t);
      assert LogOf(cfg, r, n + 1)[..n] == LogOf(cfg, r, n);
    }
  }

  /** Of the channel's asserts only the unguarded push of a miss can fire, and it does so exactly when
      a slice with a miss has no room left after the channel's part of the cycle. */
  lemma OverflowIff(cfg: DramConfig, r: Run, misses: seq<Option<Fetch>>)
    requires IsRun(cfg, r) && BanksInRange(cfg, misses)
    ensures var n := |r.inputs|;
            var step := Step(cfg, r.states[n], n, misses);
            (step.Ok? <==> HasRoom(cfg, r.states[n], misses)) && (step.Err? ==> step.error == QueueOverflow)
  {
    RunKeeps(cfg, r, |r.inputs|);
    StepOkIff(cfg, r.states[|r.inputs|], LogOf(cfg, r, |r.inputs|), misses);
  }

  /** Exact latency: in each cycle t of every run, slice k sends precisely what the channel accepted
      for it l2_miss_latency + max(CL, 1) + 2 cycles before, and nothing else. */
  lemma ExactLatency(cfg: DramConfig, r: Run, t: nat)
    requires IsRun(cfg, r) && t < |r.inputs|
    ensures OutputIsDue(cfg, r.outs[t], LogOf(cfg, r, |r.inputs|), t)
  {
    SendsDue(cfg, r, t);
    DueIs(cfg, LogOf(cfg, r, t));
    LogPrefix(cfg, r, t, t - Latency(cfg));
  }

  lemma SendsDue(cfg: DramConfig, r: Run, t: nat)
    requires IsRun(cfg, r) && t < |r.inputs|
    ensures var due := Due(cfg, LogOf(cfg, r, t)); r.outs[t] == [Share(cfg, due, 0), Share(cfg, due, 1)]
  {
    RunKeeps(cfg, r, t);
    StepOfRun(cfg, r, t);
    OneStep(cfg, r, t);
  }

  lemma DueIs(cfg: DramConfig, log: Log)
    ensures Due(cfg, log) == At(log, |log| - Latency(cfg))
  {
  }

  // ---------------------------------------------------------------- conservation

  function Marked(cfg: DramConfig, k: nat, f: Fetch): Fetch { f.(l2Id := cfg.id * SLICES + k) }

  function MarkAll(cfg: DramConfig, k: nat, q: seq<Fetch>): seq<Fetch> {
    if q == [] then [] else [Marked(cfg, k, q[0])] + MarkAll(cfg, k, q[1..])
  }

  lemma {:induction false} MarkAppend(cfg: DramConfig, k: nat, p: seq<Fetch>, q: seq<Fetch>)
    ensures MarkAll(cfg, k, p + q) == MarkAll(cfg, k, p) + MarkAll(cfg, k, q)
  {
    if p == [] {
      assert p + q == q;
    } else {
      assert (p + q)[1..] == p[1..] + q;
      MarkAppend(cfg, k, p[1..], q);
    }
  }

  /** What appears in column k of the first n cycles: the misses slice k queued, or what it sent. */
  function Column(rows: Inputs, k: nat, n: nat): seq<Fetch>
    requires Paired(rows) && k < SLICES && n <= |rows|
  {
    if n == 0 then [] else Column(rows, k, n - 1) + Items(rows[n - 1][k])
  }

  /** The requests accepted from slice k in the first n cycles. */
  function SharesOf(cfg: DramConfig, log: Log, k: nat, n: int): seq<Fetch>
    requires n <= |log|
    decreases n
  {
    if n <= 0 then [] else SharesOf(cfg, log, k, n - 1) + Items(Share(cfg, log[n - 1], k))
  }

  /** The requests accepted from slice k in cycles from n on. */
  function SharesFrom(cfg: DramConfig, log: Log, k: nat, n: int): seq<Fetch>
    decreases |log| - n
  {
    if n >= |log| then [] else Items(Share(cfg, At(log, n), k)) + SharesFrom(cfg, log, k, n + 1)
  }

  lemma {:induction false} SharesSplit(cfg: DramConfig, log: Log, k: nat, n: int)
    requires n <= |log|
    ensures SharesOf(cfg, log, k, |log|) == SharesOf(cfg, log, k, n) + SharesFrom(cfg, log, k, n)
    decreases |log| - n
  {
    if n < |log| {
      SharesSplit(cfg, log, k, n + 1);
      if n >= 0 {
        var item := Items(Share(cfg, log[n], k));
        Regrouped(SharesOf(cfg, log, k, n), item, SharesFrom(cfg, log, k, n + 1));
      }
    }
  }

  /** In one cycle a slice's queue loses exactly its accepted front request and gains its miss. */
  lemma QueueBalances(cfg: DramConfig, s: Slice, taken: bool, miss: Option<Fetch>, k: nat)
    requires SliceOk(cfg, s) && (taken ==> s.toDram.cells != [])
    ensures MarkAll(cfg, k, Payload(s.toDram.cells) + Items(miss))
            == Items(if taken then Some(Marked(cfg, k, s.toDram.Top().value)) else None)
               + MarkAll(cfg, k, Payload(SliceAfter(s, taken, miss).toDram.cells))
  {
    var q := s.toDram;
    var left := if taken then q.Popped() else q;
    PopRemoves(q);
    PushAppends(left, miss);
    if miss.None? { assert Payload(left.cells) + [] == Payload(left.cells); }
    if taken {
      assert q.Top().Some?;
      assert Payload(q.cells) + Items(miss) == [q.Top().value] + (Payload(left.cells) + Items(miss));
      MarkAppend(cfg, k, [q.Top().value], Payload(left.cells) + Items(miss));
      assert MarkAll(cfg, k, [q.Top().value]) == [Marked(cfg, k, q.Top().value)];
    }
  }

  lemma BalanceSums(cfg: DramConfig, k: nat, queued: seq<Fetch>, items: seq<Fetch>, shares: seq<Fetch>, x: seq<Fetch>,
                    waits: seq<Fetch>, waits': seq<Fetch>)
    requires MarkAll(cfg, k, queued) == shares + MarkAll(cfg, k, waits)
    requires MarkAll(cfg, k, waits + items) == x + MarkAll(cfg, k, waits')
    ensures MarkAll(cfg, k, queued + items) == shares + x + MarkAll(cfg, k, waits')
  {
    MarkAppend(cfg, k, queued, items);
    MarkAppend(cfg, k, waits, items);
    Reassociate(shares, MarkAll(cfg, k, waits), MarkAll(cfg, k, items), x, MarkAll(cfg, k, waits'));
  }

  lemma Regrouped<T>(a: seq<T>, b: seq<T>, c: seq<T>)
    ensures a + b + c == a + (b + c)
  {
  }

  lemma Reassociate<T>(a: seq<T>, b: seq<T>, c: seq<T>, d: seq<T>, e: seq<T>)
    requires b + c == d + e
    ensures a + b + c == a + d + e
  {
    Regrouped(a, b, c);
    Regrouped(a, d, e);
  }

  /** The request taken from slice k is the front one of its queue. */
  lemma TakenIsFront(cfg: DramConfig, c: Channel, k: nat)
    requires SlicesOk(cfg, c) && k < SLICES
    ensures Took(cfg, c, k) ==> c.slices[k].toDram.cells != []
    ensures Share(cfg, Next(cfg, c), k)
            == if Took(cfg, c, k) then Some(Marked(cfg, k, c.slices[k].toDram.Top().value)) else None
  {
  }

  /** What still waits in the queue of slice k. */
  function Waiting(c: Channel, k: nat): seq<Fetch>
    requires k < SLICES == |c.slices|
  {
    Payload(c.slices[k].toDram.cells)
  }

  lemma {:induction false} QueuesBalance(cfg: DramConfig, r: Run, k: nat, n: nat)
    requires IsRun(cfg, r) && k < SLICES && n <= |r.inputs|
    ensures MarkAll(cfg, k, Column(r.inputs, k, n))
            == SharesOf(cfg, LogOf(cfg, r, n), k, n) + MarkAll(cfg, k, Waiting(r.states[n], k))
  {
    if n > 0 {
      var t := n - 1;
      QueuesBalance(cfg, r, k, t);
      StepBalances(cfg, r, k, t);
      SharesOfPrefix(cfg, LogOf(cfg, r, t), LogOf(cfg, r, n), k, t);
      BalanceSums(cfg, k, Column(r.inputs, k, t), Items(r.inputs[t][k]), SharesOf(cfg, LogOf(cfg, r, t), k, t),
                  Items(Share(cfg, Next(cfg, r.states[t]), k)), Waiting(r.states[t], k), Waiting(r.states[n], k));
    }
  }

  lemma {:induction false} SharesOfPrefix(cfg: DramConfig, a: Log, b: Log, k: nat, n: int)
    requires n <= |a| <= |b| && b[..|a|] == a
    ensures SharesOf(cfg, a, k, n) == SharesOf(cfg, b, k, n)
    decreases n
  {
    if n > 0 {
      SharesOfPrefix(cfg, a, b, k, n - 1);
      assert b[..|a|][n - 1] == b[n - 1];
    }
  }

  lemma StepBalances(cfg: DramConfig, r: Run, k: nat, t: nat)
    requires IsRun(cfg, r) && k < SLICES && t < |r.inputs|
    ensures MarkAll(cfg, k, Waiting(r.states[t], k) + Items(r.inputs[t][k]))
            == Items(Share(cfg, Next(cfg, r.states[t]), k)) + MarkAll(cfg, k, Waiting(r.states[t + 1], k))
  {
    RunKeeps(cfg, r, t);
    OneStep(cfg, r, t);
    TakenIsFront(cfg, r.states[t], k);
    QueueBalances(cfg, r.states[t].slices[k], Took(cfg, r.states[t], k), r.inputs[t][k], k);
  }

  /** What slice k has sent is what was accepted from it at least Latency cycles ago. */
  lemma {:induction false} SentIsReturned(cfg: DramConfig, r: Run, k: nat, n: nat)
    requires IsRun(cfg, r) && k < SLICES && n <= |r.inputs|
    ensures Column(r.outs, k, n) == SharesOf(cfg, LogOf(cfg, r, |r.inputs|), k, n - Latency(cfg))
  {
    if n > 0 {
      SentIsReturned(cfg, r, k, n - 1);
      ExactLatency(cfg, r, n - 1);
      SharesOfStep(cfg, LogOf(cfg, r, |r.inputs|), k, n - 1 - Latency(cfg));
    }
  }

  lemma SharesOfStep(cfg: DramConfig, log: Log, k: nat, n: int)
    requires n < |log|
    ensures SharesOf(cfg, log, k, n + 1) == SharesOf(cfg, log, k, n) + Items(Share(cfg, At(log, n), k))
  {
  }

  /** Conservation and order, for every run: the misses a slice queued are those it has answered,
      then those in the channel, then those still queued; nothing is lost, doubled or reordered. */
  lemma EveryMissReturnsOnceInOrder(cfg: DramConfig, r: Run, k: nat)
    requires IsRun(cfg, r) && k < SLICES
    ensures var n, log := |r.inputs|, LogOf(cfg, r, |r.inputs|);
            MarkAll(cfg, k, Column(r.inputs, k, n))
            == Column(r.outs, k, n) + SharesFrom(cfg, log, k, n - Latency(cfg))
                + MarkAll(cfg, k, Waiting(r.states[n], k))
  {
    var n := |r.inputs|;
    var log := LogOf(cfg, r, n);
    hide *;
    QueuesBalance(cfg, r, k, n);
    SentIsReturned(cfg, r, k, n);
    SharesSplit(cfg, log, k, n - Latency(cfg));
  }

  lemma StepSlice(cfg: DramConfig, r: Run, k: nat, t: nat)
    requires IsRun(cfg, r) && k < SLICES && t < |r.inputs|
    ensures r.states[t + 1].slices[k] == SliceAfter(r.states[t].slices[k], Took(cfg, r.states[t], k), r.inputs[t][k])
  {
    RunKeeps(cfg, r, t);
    StepOfRun(cfg, r, t);
    OneStep(cfg, r, t);
  }

  lemma SliceGrows(s: Slice, taken: bool, miss: Option<Fetch>)
    requires s.toDram.minLen == 0
    ensures |SliceAfter(s, taken, miss).toDram.cells| <= |s.toDram.cells| + 1
  {
  }

  /** A slice queues at most one miss a cycle, so within 999999 cycles its queue always has room. */
  lemma {:induction false} RoomForManyCycles(cfg: DramConfig, r: Run, k: nat, n: nat)
    requires IsRun(cfg, r) && k < SLICES && n <= |r.inputs|
    ensures r.states[n].slices[k].toDram.minLen == 0 && r.states[n].slices[k].toDram.maxLen == SLICE_QUEUE
    ensures |r.states[n].slices[k].toDram.cells| <= n
    ensures n < SLICE_QUEUE ==> !r.states[n].slices[k].toDram.Full()
  {
    if n > 0 {
      RoomForManyCycles(cfg, r, k, n - 1);
      StepSlice(cfg, r, k, n - 1);
      SliceGrows(r.states[n - 1].slices[k], Took(cfg, r.states[n - 1], k), r.inputs[n - 1][k]);
    }
  }

  // ---------------------------------------------------------------- the overflow happens

  /** Both slices miss in every one of the first n cycles. */
  ghost predicate BothMiss(r: Run, n: nat)
    requires r.Valid() && n <= |r.inputs|
  {
    forall t :: 0 <= t < n ==> r.inputs[t][0].Some? && r.inputs[t][1].Some?
  }

  /** While both slices miss in every cycle, the channel only ever serves slice 1: after n cycles n
      requests wait in slice 0. */
  lemma {:induction false} SliceZeroStarves(cfg: DramConfig, r: Run, n: nat)
    requires IsRun(cfg, r) && n <= |r.inputs| && BothMiss(r, n)
    ensures |r.states[n].slices[0].toDram.cells| == n
    ensures n > 0 ==> r.states[n].slices[1].toDram.cells != []
  {
    if n > 0 {
      var t := n - 1;
      SliceZeroStarves(cfg, r, t);
      StepSlice(cfg, r, 0, t);
      StepSlice(cfg, r, 1, t);
      RunKeeps(cfg, r, t);
      NoTurnForSliceZero(cfg, r.states[t]);
      assert r.inputs[t][0].Some? && r.inputs[t][1].Some?;
    }
  }

  /** Slice 0 is served only when slice 1 has nothing. */
  lemma NoTurnForSliceZero(cfg: DramConfig, c: Channel)
    requires SlicesOk(cfg, c)
    ensures Took(cfg, c, 0) <==> c.slices[1].toDram.cells == [] && c.slices[0].toDram.cells != []
    ensures Took(cfg, c, 1) <==> c.slices[1].toDram.cells != []
  {
  }

  /** So in the cycle after the 999999th the push of slice 0 runs into its assert. */
  lemma SteadyMissesOverflow(cfg: DramConfig, r: Run, misses: seq<Option<Fetch>>)
    requires IsRun(cfg, r) && BothMiss(r, |r.inputs|) && |r.inputs| == SLICE_QUEUE
    requires BanksInRange(cfg, misses) && misses[0].Some?
    ensures Step(cfg, r.states[SLICE_QUEUE], SLICE_QUEUE, misses) == Err(QueueOverflow)
  {
    var n := |r.inputs|;
    SliceZeroStarves(cfg, r, n);
    RunKeeps(cfg, r, n);
    NoTurnForSliceZero(cfg, r.states[n]);
    assert Rest(r.states[n].slices[0], Took(cfg, r.states[n], 0)).Full();
    OverflowIff(cfg, r, misses);
  }

  function Both(f: Fetch): seq<Option<Fetch>> { [Some(f), Some(f)] }

  /** Such runs exist, for every length up to the capacity of the queue. */
  lemma {:induction false} SteadyRun(cfg: DramConfig, f: Fetch, n: nat) returns (r: Run)
    requires RequestOk(cfg, f) && n <= SLICE_QUEUE
    ensures IsRun(cfg, r) && |r.inputs| == n && BothMiss(r, n)
  {
    if n == 0 {
      r := Run([], [FreshChannel(cfg)], []);
    } else {
      var before := SteadyRun(cfg, f, n - 1);
      r := OneMoreCycle(cfg, before, Both(f));
    }
  }

  /** A run goes on for a cycle while its queues have room. */
  lemma OneMoreCycle(cfg: DramConfig, r: Run, misses: seq<Option<Fetch>>) returns (r': Run)
    requires IsRun(cfg, r) && BanksInRange(cfg, misses) && |r.inputs| < SLICE_QUEUE
    ensures IsRun(cfg, r') && r'.inputs == r.inputs + [misses]
  {
    var n := |r.inputs|;
    RoomForManyCycles(cfg, r, 0, n);
    RoomForManyCycles(cfg, r, 1, n);
    OverflowIff(cfg, r, misses);
    var (c, out) := Step(cfg, r.states[n], n, misses).value;
    r' := Run(r.inputs + [misses], r.states + [c], r.outs + [out]);
    forall t | 0 <= t < |r'.inputs| ensures IsStep(cfg, r', t) && BanksInRange(cfg, r'.inputs[t]) {
      if t < n { assert IsStep(cfg, r, t) && BanksInRange(cfg, r.inputs[t]); }
    }
  }

  /** The overflow is real: there is a run of 999999 cycles after which the next miss of slice 0 fails. */
  lemma OverflowHappens(cfg: DramConfig, f: Fetch)
    requires RequestOk(cfg, f)
    ensures exists r :: IsRun(cfg, r) && |r.inputs| == SLICE_QUEUE
                        && Step(cfg, r.states[SLICE_QUEUE], SLICE_QUEUE, Both(f)) == Err(QueueOverflow)
  {
    var r := SteadyRun(cfg, f, SLICE_QUEUE);
    SteadyMissesOverflow(cfg, r, Both(f));
  }
}
