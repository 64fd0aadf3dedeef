/** What an L2 slice does for its requests: what DRAM returns is filled and hits from then on, a hit is
    answered after exactly its latency, and only a miss goes to DRAM. */
module L2Service {
  import opened Wrappers
  import opened CacheConfig
  import opened TagStore
  import opened MemFetch
  import opened Mshr
  import opened L2Cache
  import L1Cache
  import TagFills

  /** Does the sector of f hit? */
  predicate Cached(cfg: L2Config, c: L2State, f: Fetch)
    requires Shaped(cfg, c) && f.sector < SECTORS
  {
    Probe(cfg.cache, c.lines, f.addr, f.sector).Hit?
  }

  // ---------------------------------------------------------------- fills

  /** The tag array after the sector at address sa has been filled, if an entry waits for it. */
  ghost function FilledLines(cfg: L2Config, c: L2State, sa: nat, now: nat): (lines: seq<Line>)
    requires L2Inv(cfg, c, now) && now < MAX_TIME
    ensures Shape(cfg.cache, lines)
  {
    TagFills.FilledHits(cfg.cache, c.lines, LineOf(sa), SectorIndex(sa), now);
    if sa in c.mshr then Fill(cfg.cache, c.lines, LineOf(sa), SectorIndex(sa), now).value else c.lines
  }

  lemma EntryIsOfSector(cfg: L2Config, c: L2State, sa: nat, now: nat)
    requires L2Inv(cfg, c, now) && sa in c.mshr
    ensures c.mshr[sa] != []
    ensures var f := c.mshr[sa][0]; f.addr == LineOf(sa) && f.sector == SectorIndex(sa)
  {
    SectorAddrDecodes(c.mshr[sa][0]);
  }

  /** However many requests the entry holds, draining it is one fill of its sector. */
  lemma {:induction false} DrainIsFill(cfg: L2Config, c: L2State, sa: nat, now: nat)
    requires L2Inv(cfg, c, now) && now < MAX_TIME
    ensures DrainFills(cfg, c, sa, now)
            == Ok(c.(lines := FilledLines(cfg, c, sa, now), mshr := c.mshr - {sa}))
    decreases if sa in c.mshr then 1 + |c.mshr[sa]| else 0
  {
    if sa in c.mshr {
      DrainStep(cfg, c, sa, now);
      var c2 := OnceDrained(cfg, c, sa, now);
      DrainIsFill(cfg, c2, sa, now);
      TagFills.FillTwice(cfg.cache, c.lines, LineOf(sa), SectorIndex(sa), now);
      assert AfterNext(c.mshr, sa) - {sa} == c.mshr - {sa};
    } else {
      assert c.mshr - {sa} == c.mshr;
    }
  }

  /** The state after the first round of the drain. */
  ghost function OnceDrained(cfg: L2Config, c: L2State, sa: nat, now: nat): L2State
    requires L2Inv(cfg, c, now) && now < MAX_TIME && sa in c.mshr
  {
    c.(lines := FilledLines(cfg, c, sa, now), mshr := AfterNext(c.mshr, sa))
  }

  lemma DrainStep(cfg: L2Config, c: L2State, sa: nat, now: nat)
    requires L2Inv(cfg, c, now) && now < MAX_TIME && sa in c.mshr
    ensures L2Inv(cfg, OnceDrained(cfg, c, sa, now), now)
    ensures DrainFills(cfg, c, sa, now) == DrainFills(cfg, OnceDrained(cfg, c, sa, now), sa, now)
  {
    EntryIsOfSector(cfg, c, sa, now);
    TagFills.FilledHits(cfg.cache, c.lines, LineOf(sa), SectorIndex(sa), now);
    NextKeepsMshr(cfg, c.mshr, sa);
  }

  /** Is `line` the one that filling the sector at address sa throws out? */
  ghost predicate ThrownOut(cfg: L2Config, c: L2State, sa: nat, now: nat, line: nat)
    requires L2Inv(cfg, c, now)
  {
    sa in c.mshr && TagFills.IsVictim(cfg.cache, c.lines, LineOf(sa), SectorIndex(sa), line)
  }

  /** When DRAM returns a request whose sector has an entry, that sector hits afterwards; every other
      sector hits as before, unless its line is the one that the fill threw out.  Without an entry
      nothing changes.  In either case the entry is gone. */
  lemma ReturnFills(cfg: L2Config, c: L2State, f: Fetch, now: nat, g: Fetch)
    requires L2Inv(cfg, c, now) && now < MAX_TIME && g.Aligned()
    requires !ThrownOut(cfg, c, f.SectorAddr(), now, g.addr)
    ensures var r := ReturnFromDram(cfg, c, Some(f), now);
            && r.Ok? && r.value == c.(lines := r.value.lines, mshr := c.mshr - {f.SectorAddr()})
            && (Cached(cfg, r.value, g)
                <==> (f.SectorAddr() in c.mshr && g.SectorAddr() == f.SectorAddr()) || Cached(cfg, c, g))
  {
    var sa := f.SectorAddr();
    DrainIsFill(cfg, c, sa, now);
    SectorAddrDecodes(g);
    if sa in c.mshr {
      SectorAddrDecodes(c.mshr[sa][0]);
      TagFills.FillKeepsOthers(cfg.cache, c.lines, LineOf(sa), SectorIndex(sa), now, g.addr, g.sector);
    }
  }

  /** A fill does not throw out the line that it fills. */
  lemma OwnLineIsSafe(cfg: L2Config, c: L2State, sa: nat, now: nat)
    requires L2Inv(cfg, c, now)
    ensures !ThrownOut(cfg, c, sa, now, LineOf(sa))
  {
    if sa in c.mshr {
      SectorAddrDecodes(c.mshr[sa][0]);
      EvictsOthers(cfg.cache, c.lines, LineOf(sa), SectorIndex(sa));
    }
  }

  // ---------------------------------------------------------------- answers

  /** Is it the copy of a store that its L1 has answered? */
  predicate IsCopy(f: Fetch) { f.isWrite && f.writeType == WriteThroughL2 }

  /** A load hit and a store whose page was known take the hit latency, other store hits the TLB's. */
  function AnswerLatency(cfg: L2Config, f: Fetch): nat {
    if f.isWrite && !f.tlbHit then cfg.tlbLatency else cfg.hitLatency
  }

  function Answer(cfg: L2Config, f: Fetch, now: nat): Fetch {
    f.(status := L2Hit, l2Ready := now + AnswerLatency(cfg, f))
  }

  /** The reply queues with one more answer, in a queue of its latency. */
  ghost predicate Answered(cfg: L2Config, before: seq<seq<Fetch>>, after: seq<seq<Fetch>>, f: Fetch, now: nat) {
    exists i: nat :: Answers(cfg, before, after, f, now, i)
  }

  ghost predicate Answers(cfg: L2Config, before: seq<seq<Fetch>>, after: seq<seq<Fetch>>, f: Fetch, now: nat, i: nat) {
    && |before| == REPLY_QUEUES && i < REPLY_QUEUES && LatencyOf(cfg, i) == AnswerLatency(cfg, f)
    && after == before[i := before[i] + [Answer(cfg, f, now)]]
  }

  /** Is the request refused: a load that misses with a full MSHR? */
  predicate Refused(cfg: L2Config, c: L2State, f: Fetch)
    requires Shaped(cfg, c) && f.sector < SECTORS
  {
    !f.isWrite && !Cached(cfg, c, f) && MshrFull(cfg, c, f)
  }

  /** What becomes of a request that leaves the slice in `after` and sends `miss` to DRAM.  A hit is
      answered, after exactly its latency; a miss goes to DRAM and is answered from there, a load with
      an entry for its sector; a copy is neither answered nor sent. */
  ghost predicate Served(cfg: L2Config, c: L2State, f: Fetch, now: nat, after: L2State, miss: Option<Fetch>)
    requires Shaped(cfg, c) && f.sector < SECTORS
  {
    && after == c.(lines := after.lines, mshr := after.mshr, toSms := after.toSms)
    && (if Cached(cfg, c, f) && !IsCopy(f) then Answered(cfg, c.toSms, after.toSms, f, now)
        else after.toSms == c.toSms)
    && (miss.Some? <==> !Cached(cfg, c, f) && !IsCopy(f) && !Refused(cfg, c, f))
    && (miss.Some? ==> miss.value == f.(status := miss.value.status))
    && after.mshr == (if f.isWrite || Cached(cfg, c, f) || Refused(cfg, c, f) then c.mshr
                      else Mshr.Add(c.mshr, f.SectorAddr(), f))
  }

  lemma AnswerIsQueued(cfg: L2Config, c: L2State, f: Fetch, now: nat)
    requires |c.toSms| == REPLY_QUEUES
    ensures var c' := SendToSm(cfg, c, f, now, AnswerLatency(cfg, f));
            c' == c.(toSms := c'.toSms) && Answered(cfg, c.toSms, c'.toSms, f, now)
  {
    var latency := AnswerLatency(cfg, f);
    var i := QueueFor(cfg, latency).value;
    assert Answers(cfg, c.toSms, SendToSm(cfg, c, f, now, latency).toSms, f, now, i);
  }

  lemma HitIsServed(cfg: L2Config, c: L2State, f: Fetch, now: nat)
    requires Shaped(cfg, c) && f.sector < SECTORS && Cached(cfg, c, f) && L2Cache.Access(cfg, c, f, now).Ok?
    ensures var r := L2Cache.Access(cfg, c, f, now).value; Served(cfg, c, f, now, r.state, r.miss)
  {
    var touched := TagStore.Access(cfg.cache, c.lines, LineOf(f.addr), f.sector, now);
    AnswerIsQueued(cfg, c.(lines := touched), f, now);
    AnswerIsQueued(cfg, c.(lines := L1Cache.MarkModified(touched, Probe(cfg.cache, c.lines, f.addr, f.sector).idx,
        f.sector)), f, now);
    hide Probe, TagStore.Access, L1Cache.MarkModified, SendToSm, Answered;
  }

  lemma AccessServes(cfg: L2Config, c: L2State, f: Fetch, now: nat)
    requires L2Inv(cfg, c, now) && f.Aligned() && now < MAX_TIME
    ensures var r := L2Cache.Access(cfg, c, f, now);
            && r.Ok? && Served(cfg, c, f, now, r.value.state, r.value.miss)
            && (r.value.status == L2AccessFail <==> Refused(cfg, c, f))
            && (Cached(cfg, c, f) ==> r.value.status == L2AccessHit)
            && (Refused(cfg, c, f) ==> r.value.state == c)
  {
    AccessKeeps(cfg, c, f, now);
    ProbeIsDefinite(cfg.cache, c.lines, f.addr, f.sector);
    if Cached(cfg, c, f) { HitIsServed(cfg, c, f, now); }
  }

  /** A line that was hit: stamped with the present time, and a stored sector is modified. */
  function HitLine(line: Line, f: Fetch, now: nat): Line {
    line.(accessTime := now,
          status := if f.isWrite && f.sector < |line.status| then line.status[f.sector := Modified] else line.status)
  }

  /** The tags after an access: a hit changes only the line that holds the sector; a store that misses
      is written into an idle way of the set, if there is one; a load that misses changes nothing. */
  lemma AccessTags(cfg: L2Config, c: L2State, f: Fetch, now: nat)
    requires L2Inv(cfg, c, now) && f.Aligned() && now < MAX_TIME
    ensures var r, p := L2Cache.Access(cfg, c, f, now), Probe(cfg.cache, c.lines, f.addr, f.sector);
            var j := ProbeIdle(cfg.cache, c.lines, f.addr);
            && r.Ok?
            && (Cached(cfg, c, f) ==>
                  && p.idx < |c.lines| && HasTag(c.lines[p.idx], f.addr)
                  && r.value.state.lines == c.lines[p.idx := HitLine(c.lines[p.idx], f, now)])
            && (!Cached(cfg, c, f) && (!f.isWrite || j.None?) ==> r.value.state.lines == c.lines)
            && (!Cached(cfg, c, f) && f.isWrite && j.Some? ==>
                  && j.value < |c.lines| && c.lines[j.value].IsInvalid()
                  && r.value.state.lines == c.lines[j.value := r.value.state.lines[j.value]]
                  && (Cached(cfg, r.value.state, f) <==> p.Miss? || (p.SectorMiss? && f.addr == 0 && j.value < p.idx)))
  {
    AccessKeeps(cfg, c, f, now);
    ProbeIsDefinite(cfg.cache, c.lines, f.addr, f.sector);
    SectorAddrDecodes(f);
    if Cached(cfg, c, f) {
      HitTags(cfg, c, f, now);
    } else if f.isWrite && ProbeIdle(cfg.cache, c.lines, f.addr).Some? {
      IdleMeans(cfg.cache, c.lines, SetStart(cfg.cache, f.addr), 0);
      TagFills.IdleStoreHitsIff(cfg.cache, c.lines, f.addr, f.sector, now);
    }
  }

  lemma HitTags(cfg: L2Config, c: L2State, f: Fetch, now: nat)
    requires L2Inv(cfg, c, now) && f.Aligned() && LineOf(f.addr) == f.addr && now < MAX_TIME && Cached(cfg, c, f)
    ensures var r, p := L2Cache.Access(cfg, c, f, now), Probe(cfg.cache, c.lines, f.addr, f.sector);
            && r.Ok? && p.idx < |c.lines|
            && r.value.state.lines == c.lines[p.idx := HitLine(c.lines[p.idx], f, now)]
  {
    ProbeIsDefinite(cfg.cache, c.lines, f.addr, f.sector);
    var p := Probe(cfg.cache, c.lines, f.addr, f.sector);
    var touched := TagStore.Access(cfg.cache, c.lines, LineOf(f.addr), f.sector, now);
    assert touched == c.lines[p.idx := c.lines[p.idx].Touched(now)];
    assert SettledLine(c.lines[p.idx]);
    assert f.isWrite ==> L1Cache.MarkModified(touched, p.idx, f.sector)
                         == c.lines[p.idx := HitLine(c.lines[p.idx], f, now)];
  }

  // ---------------------------------------------------------------- one cycle

  /** The slice after its replies have left and the arrival has joined the queue, before the front
      request is looked at. */
  ghost function Midway(cfg: L2Config, c: L2State, now: nat, back: Option<Fetch>, arrival: Option<Fetch>): L2State
    requires L2Inv(cfg, c, now) && now < MAX_TIME
  {
    var q := c.toSms;
    L2State(if back.Some? then FilledLines(cfg, c, back.value.SectorAddr(), now) else c.lines,
            if back.Some? then c.mshr - {back.value.SectorAddr()} else c.mshr,
            [LaterOnes(q[0], now), LaterOnes(q[1], now), LaterOnes(q[2], now)],
            c.l1ToL2 + Items(arrival))
  }

  lemma ReturnsIs(cfg: L2Config, c: L2State, now: nat, back: Option<Fetch>)
    requires L2Inv(cfg, c, now) && now < MAX_TIME
    ensures var r := ReturnFromDram(cfg, c, back, now);
            && r.Ok? && L2Inv(cfg, r.value, now)
            && r.value == (if back.Some?
                           then c.(lines := FilledLines(cfg, c, back.value.SectorAddr(), now),
                                   mshr := c.mshr - {back.value.SectorAddr()})
                           else c)
  {
    if back.Some? {
      DrainKeeps(cfg, c, back.value.SectorAddr(), now);
      DrainIsFill(cfg, c, back.value.SectorAddr(), now);
    }
  }

  lemma RepliesAre(cfg: L2Config, c: L2State, now: nat, back: Option<Fetch>, arrival: Option<Fetch>)
    requires L2Inv(cfg, c, now) && now < MAX_TIME && (arrival.Some? ==> arrival.value.Aligned())
    ensures L2Inv(cfg, Midway(cfg, c, now, back, arrival), now)
    ensures var q, mid := c.toSms, Midway(cfg, c, now, back, arrival);
            Replies(cfg, c, now, back)
            == Ok(Released(mid.(l1ToL2 := c.l1ToL2),
                           Items(back) + ReadyOnes(q[0], now) + ReadyOnes(q[1], now) + ReadyOnes(q[2], now)))
  {
    hide L2Inv, ReleaseAll, ReturnFromDram, Replies, ReadyOnes, LaterOnes, FilledLines, Shaped;
    InvIsShaped(cfg, c, now);
    ReturnsIs(cfg, c, now, back);
    var c1 := ReturnFromDram(cfg, c, back, now).value;
    RepliesUnfold(cfg, c, now, back);
    ReleaseAllIsExact(cfg, c1, now, Items(back));
    assert c.l1ToL2 + [] == c.l1ToL2;
    ArrivalKeeps(cfg, Midway(cfg, c, now, back, None), now, arrival);
  }

  lemma RepliesUnfold(cfg: L2Config, c: L2State, now: nat, back: Option<Fetch>)
    requires Shaped(cfg, c) && ReturnFromDram(cfg, c, back, now).Ok?
    ensures Replies(cfg, c, now, back)
            == ReleaseAll(cfg, ReturnFromDram(cfg, c, back, now).value, 0, now, Items(back))
  {
    hide ReleaseAll, ReturnFromDram;
  }

  lemma ArrivalKeeps(cfg: L2Config, c: L2State, now: nat, arrival: Option<Fetch>)
    requires L2Inv(cfg, c, now) && (arrival.Some? ==> arrival.value.Aligned())
    ensures L2Inv(cfg, c.(l1ToL2 := c.l1ToL2 + Items(arrival)), now)
  {
  }

  /** One cycle, exactly: first the request that DRAM returns and the answers that are ready leave, and
      the sector of the former is filled; then the front request, the arrival included, is served
      unless it is refused. */
  lemma CycleServes(cfg: L2Config, c: L2State, now: nat, back: Option<Fetch>, arrival: Option<Fetch>)
    requires L2Inv(cfg, c, now) && now < MAX_TIME && (arrival.Some? ==> arrival.value.Aligned())
    ensures var r, q, mid := L2Cache.Cycle(cfg, c, now, back, arrival), c.toSms, Midway(cfg, c, now, back, arrival);
            && Shaped(cfg, mid) && L1Cache.AllAligned(mid.l1ToL2)
            && r.Ok?
            && r.value.replies == Items(back) + ReadyOnes(q[0], now) + ReadyOnes(q[1], now) + ReadyOnes(q[2], now)
            && if mid.l1ToL2 == [] then r.value.state == mid && r.value.miss.None?
               else && Served(cfg, mid, mid.l1ToL2[0], now, r.value.state.(l1ToL2 := mid.l1ToL2), r.value.miss)
                    && (if Refused(cfg, mid, mid.l1ToL2[0]) then r.value.state == mid
                        else r.value.state.l1ToL2 == mid.l1ToL2[1..])
  {
    RepliesAre(cfg, c, now, back, arrival);
    var mid := Midway(cfg, c, now, back, arrival);
    if mid.l1ToL2 != [] {
      AccessServes(cfg, mid, mid.l1ToL2[0], now);
      hide Midway, L2Inv, Served, L2Cache.Access, Replies;
    }
  }

  /** After the return of a load, a request for its sector in the same cycle is a hit: nothing goes to
      DRAM again, and the request is answered from the slice. */
  lemma ReturnedThenHits(cfg: L2Config, c: L2State, now: nat, back: Fetch, arrival: Option<Fetch>, g: Fetch)
    requires L2Inv(cfg, c, now) && now < MAX_TIME && (arrival.Some? ==> arrival.value.Aligned())
    requires back.SectorAddr() in c.mshr && g.SectorAddr() == back.SectorAddr()
    requires var all := c.l1ToL2 + Items(arrival); all != [] && all[0] == g
    ensures var r, mid := L2Cache.Cycle(cfg, c, now, Some(back), arrival), Midway(cfg, c, now, Some(back), arrival);
            && r.Ok? && r.value.miss.None? && r.value.state.l1ToL2 == (c.l1ToL2 + Items(arrival))[1..]
            && (!IsCopy(g) ==> Answered(cfg, mid.toSms, r.value.state.toSms, g, now))
  {
    CycleServes(cfg, c, now, Some(back), arrival);
    assert g.Aligned();
    ReturnsIs(cfg, c, now, Some(back));
    OwnLineIsSafe(cfg, c, back.SectorAddr(), now);
    SectorAddrDecodes(g);
    ReturnFills(cfg, c, back, now, g);
    var mid := Midway(cfg, c, now, Some(back), arrival);
    assert Cached(cfg, mid, g) by { assert mid.lines == ReturnFromDram(cfg, c, Some(back), now).value.lines; }
  }

  // ---------------------------------------------------------------- when answers leave

  function AtLeastOne(n: nat): nat { if n == 0 then 1 else n }

  /** The cycle in which an answer leaves the slice: after its latency, and not in the cycle in which
      the request was looked at. */
  function LeavesAt(cfg: L2Config, f: Fetch): int {
    f.l2Ready - AnswerLatency(cfg, f) + AtLeastOne(AnswerLatency(cfg, f))
  }

  /** Before the cycle with time `now` no answer of the queue is late, and all have their queue's latency. */
  ghost predicate InTime(cfg: L2Config, q: seq<Fetch>, latency: nat, now: nat) {
    forall j :: 0 <= j < |q| ==>
      && AnswerLatency(cfg, q[j]) == latency
      && now <= LeavesAt(cfg, q[j]) && q[j].l2Ready <= now - 1 + latency
  }

  ghost predicate Punctual(cfg: L2Config, c: L2State, now: nat) {
    |c.toSms| == REPLY_QUEUES && forall i :: 0 <= i < REPLY_QUEUES ==> InTime(cfg, c.toSms[i], LatencyOf(cfg, i), now)
  }

  ghost predicate AllLeave(cfg: L2Config, q: seq<Fetch>, now: nat) {
    forall j :: 0 <= j < |q| ==> LeavesAt(cfg, q[j]) == now
  }

  /** Every answer in the slice is due after the cycle with time `now`. */
  ghost predicate NoneDue(cfg: L2Config, c: L2State, now: nat) {
    forall i, j :: 0 <= i < |c.toSms| && 0 <= j < |c.toSms[i]| ==> LeavesAt(cfg, c.toSms[i][j]) > now
  }

  lemma PunctualIsNotDue(cfg: L2Config, c: L2State, now: nat)
    requires Punctual(cfg, c, now + 1)
    ensures NoneDue(cfg, c, now)
  {
    forall i | 0 <= i < REPLY_QUEUES ensures InTime(cfg, c.toSms[i], LatencyOf(cfg, i), now + 1) { }
  }

  /** Does the slice hold this answer? */
  ghost predicate HoldsAnswer(c: L2State, f: Fetch) { exists i :: 0 <= i < |c.toSms| && f in c.toSms[i] }

  lemma AnsweredIsHeld(cfg: L2Config, before: seq<seq<Fetch>>, c: L2State, f: Fetch, now: nat)
    requires Answered(cfg, before, c.toSms, f, now)
    ensures HoldsAnswer(c, Answer(cfg, f, now))
  {
    var i: nat :| Answers(cfg, before, c.toSms, f, now, i);
    assert c.toSms[i][|before[i]|] == Answer(cfg, f, now);
  }

  lemma {:induction false} QueueLeaves(cfg: L2Config, q: seq<Fetch>, latency: nat, now: nat)
    requires InTime(cfg, q, latency, now)
    ensures AllLeave(cfg, ReadyOnes(q, now), now) && InTime(cfg, LaterOnes(q, now), latency, now + 1)
    decreases |q|
  {
    if q != [] { QueueLeaves(cfg, q[1..], latency, now); }
  }

  lemma AnswerInTime(cfg: L2Config, before: seq<seq<Fetch>>, after: seq<seq<Fetch>>, f: Fetch, now: nat)
    requires Answered(cfg, before, after, f, now) && |before| == REPLY_QUEUES
    requires forall i :: 0 <= i < REPLY_QUEUES ==> InTime(cfg, before[i], LatencyOf(cfg, i), now + 1)
    ensures |after| == REPLY_QUEUES
    ensures forall i :: 0 <= i < REPLY_QUEUES ==> InTime(cfg, after[i], LatencyOf(cfg, i), now + 1)
  {
    var i: nat :| Answers(cfg, before, after, f, now, i);
    forall k | 0 <= k < REPLY_QUEUES ensures InTime(cfg, after[k], LatencyOf(cfg, k), now + 1) {
      assert InTime(cfg, before[k], LatencyOf(cfg, k), now + 1);
    }
  }

  lemma MidwayInTime(cfg: L2Config, c: L2State, now: nat, back: Option<Fetch>, arrival: Option<Fetch>)
    requires L2Inv(cfg, c, now) && now < MAX_TIME && Punctual(cfg, c, now)
    ensures Punctual(cfg, Midway(cfg, c, now, back, arrival), now + 1)
    ensures forall i :: 0 <= i < REPLY_QUEUES ==> AllLeave(cfg, ReadyOnes(c.toSms[i], now), now)
  {
    forall i | 0 <= i < REPLY_QUEUES
      ensures AllLeave(cfg, ReadyOnes(c.toSms[i], now), now)
      ensures InTime(cfg, LaterOnes(c.toSms[i], now), LatencyOf(cfg, i), now + 1)
    {
      assert InTime(cfg, c.toSms[i], LatencyOf(cfg, i), now);
      QueueLeaves(cfg, c.toSms[i], LatencyOf(cfg, i), now);
    }
  }

  lemma TailLeaves(cfg: L2Config, p: seq<Fetch>, q0: seq<Fetch>, q1: seq<Fetch>, q2: seq<Fetch>, now: nat)
    requires AllLeave(cfg, q0, now) && AllLeave(cfg, q1, now) && AllLeave(cfg, q2, now)
    ensures var all := p + q0 + q1 + q2; all[..|p|] == p && AllLeave(cfg, all[|p|..], now)
  {
    assert (p + q0 + q1 + q2)[|p|..] == q0 + q1 + q2;
  }

  /** Answers leave exactly in their cycle: all that leave in a cycle are due then, all that stay are due
      later, and so is the new one. */
  lemma CycleIsPunctual(cfg: L2Config, c: L2State, now: nat, back: Option<Fetch>, arrival: Option<Fetch>)
    requires L2Inv(cfg, c, now) && now < MAX_TIME && (arrival.Some? ==> arrival.value.Aligned())
    requires Punctual(cfg, c, now)
    ensures var r := L2Cache.Cycle(cfg, c, now, back, arrival);
            && r.Ok? && Punctual(cfg, r.value.state, now + 1)
            && |Items(back)| <= |r.value.replies| && r.value.replies[..|Items(back)|] == Items(back)
            && AllLeave(cfg, r.value.replies[|Items(back)|..], now)
  {
    CycleServes(cfg, c, now, back, arrival);
    MidwayInTime(cfg, c, now, back, arrival);
    var r, mid := L2Cache.Cycle(cfg, c, now, back, arrival).value, Midway(cfg, c, now, back, arrival);
    var q := c.toSms;
    hide L2Inv, L2Cache.Cycle, Midway, ReadyOnes, LaterOnes, AnswerLatency, LeavesAt, InTime, AllLeave, Answered,
         L1Cache.AllAligned, Shaped, Items;
    TailLeaves(cfg, Items(back), ReadyOnes(q[0], now), ReadyOnes(q[1], now), ReadyOnes(q[2], now), now);
    if r.state.toSms != mid.toSms {
      AnswerInTime(cfg, mid.toSms, r.state.toSms, mid.l1ToL2[0], now);
    }
  }

  lemma FreshIsPunctual(cfg: L2Config)
    ensures Punctual(cfg, FreshL2(cfg), 0)
  {
  }
}
