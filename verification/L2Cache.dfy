/** l2_data_cache: one L2 slice, without its two DRAM-side queues (those are in Dram). */
module L2Cache {
  import opened Wrappers
  import opened CacheConfig
  import opened TagStore
  import opened MemFetch
  import opened Mshr
  import L1Cache

  datatype L2Config = L2Config(cache: CacheConfig, hitLatency: nat, missLatency: nat, tlbLatency: nat)

  /** toSms are the three queues of replies, each for one latency. */
  datatype L2State = L2State(lines: seq<Line>, mshr: Mshr.Table, toSms: seq<seq<Fetch>>, l1ToL2: seq<Fetch>)

  datatype L2Fault = ProbeAborted | NoFillIndex | EmptyEntry | BadSector

  datatype L2Status = L2AccessHit | L2AccessMiss | L2AccessFail

  /** What an access does: its status, the new state, and the request it sends to DRAM, if any. */
  datatype Accessed = Accessed(status: L2Status, state: L2State, miss: Option<Fetch>)

  const REPLY_QUEUES: nat := 3

  /** The copy of an L1 store hit: the L2 keeps it to itself. */
  predicate Silent(f: Fetch) { f.isWrite && f.writeType == WriteThroughL2 }

  predicate Shaped(cfg: L2Config, c: L2State) { Shape(cfg.cache, c.lines) && |c.toSms| == REPLY_QUEUES }

  /** send_l2_to_sm picks the queue by the latency; another latency would lose the request. */
  function QueueFor(cfg: L2Config, latency: nat): Option<nat> {
    if latency == cfg.hitLatency then Some(0)
    else if latency == cfg.missLatency then Some(1)
    else if latency == cfg.tlbLatency then Some(2)
    else None
  }

  function SendToSm(cfg: L2Config, c: L2State, f: Fetch, now: nat, latency: nat): L2State
    requires |c.toSms| == REPLY_QUEUES
  {
    var i := QueueFor(cfg, latency);
    if i.None? then c
    else c.(toSms := c.toSms[i.value := c.toSms[i.value] + [f.(l2Ready := now + latency, status := L2Hit)]])
  }

  function StoreHit(cfg: L2Config, c: L2State, f: Fetch, now: nat, idx: nat): Accessed
    requires Shaped(cfg, c) && f.sector < SECTORS
  {
    var touched := TagStore.Access(cfg.cache, c.lines, LineOf(f.addr), f.sector, now);
    var c1 := c.(lines := L1Cache.MarkModified(touched, idx, f.sector));
    Accessed(L2AccessHit,
             if Silent(f) then c1 else SendToSm(cfg, c1, f, now, if f.tlbHit then cfg.hitLatency else cfg.tlbLatency),
             None)
  }

  /** A store that misses is written into an idle way, if there is one, and goes to DRAM. */
  function StoreMiss(cfg: L2Config, c: L2State, f: Fetch, now: nat, lineMiss: bool): Accessed
    requires Shaped(cfg, c) && f.sector < SECTORS
  {
    var j := ProbeIdle(cfg.cache, c.lines, LineOf(f.addr));
    if j.Some? && j.value < |c.lines| then
      var line := StoredLine(c.lines[j.value], lineMiss, LineOf(f.addr), f.sector, now);
      Accessed(L2AccessHit, c.(lines := c.lines[j.value := line]),
               if Silent(f) then None else Some(f.(status := L2Hit)))
    else
      Accessed(L2AccessMiss, c, if Silent(f) then None else Some(f.(status := L2Miss)))
  }

  function LoadHit(cfg: L2Config, c: L2State, f: Fetch, now: nat): Accessed
    requires Shaped(cfg, c) && f.sector < SECTORS
  {
    var c1 := c.(lines := TagStore.Access(cfg.cache, c.lines, LineOf(f.addr), f.sector, now));
    Accessed(L2AccessHit, SendToSm(cfg, c1, f, now, cfg.hitLatency), None)
  }

  function MshrFull(cfg: L2Config, c: L2State, f: Fetch): bool {
    Mshr.IsFull(c.mshr, f.SectorAddr(), cfg.cache.mshrEntries, cfg.cache.mshrMaxMerge)
  }

  /** A load miss goes to DRAM even when it joins an entry that is already waiting. */
  function LoadMiss(c: L2State, f: Fetch): Accessed {
    Accessed(L2AccessMiss, c.(mshr := Mshr.Add(c.mshr, f.SectorAddr(), f)), Some(f.(status := L2Miss)))
  }

  /** l2_data_cache::cache_access.  A reserved sector, which the source would go on with, counts as
      a fault here; L2Inv excludes it. */
  function Access(cfg: L2Config, c: L2State, f: Fetch, now: nat): (r: Result<Accessed, L2Fault>)
    requires Shaped(cfg, c)
    ensures r.Ok? ==> Shaped(cfg, r.value.state)
  {
    if f.sector >= SECTORS then Err(BadSector)
    else
      var p := Probe(cfg.cache, c.lines, f.addr, f.sector);
      if p.Abort? || p.HitReserved? || (p.Hit? && p.idx >= |c.lines|) then Err(ProbeAborted)
      else if p.ReservationFail? then Ok(Accessed(L2AccessFail, c, None))
      else if p.Hit? then Ok(if f.isWrite then StoreHit(cfg, c, f, now, p.idx) else LoadHit(cfg, c, f, now))
      else if f.isWrite then Ok(StoreMiss(cfg, c, f, now, p.Miss?))
      else if MshrFull(cfg, c, f) then Ok(Accessed(L2AccessFail, c, None))
      else Ok(LoadMiss(c, f))
  }

  /** The MSHR drain after a reply: it only fills, it answers nobody. */
  function DrainFills(cfg: L2Config, c: L2State, sa: nat, now: nat): (r: Result<L2State, L2Fault>)
    requires Shaped(cfg, c)
    ensures r.Ok? ==> Shaped(cfg, r.value) && r.value == c.(lines := r.value.lines, mshr := r.value.mshr)
    decreases if sa in c.mshr then 1 + |c.mshr[sa]| else 0
  {
    if sa !in c.mshr then Ok(c)
    else if c.mshr[sa] == [] then Err(EmptyEntry)
    else
      var f := c.mshr[sa][0];
      if f.sector >= SECTORS then Err(BadSector)
      else
        match Fill(cfg.cache, c.lines, f.addr, f.sector, now)
        case None => Err(NoFillIndex)
        case Some(lines) => DrainFills(cfg, c.(lines := lines, mshr := AfterNext(c.mshr, sa)), sa, now)
  }

  /** The request that DRAM returned goes to its SM, and its sector is filled. */
  function ReturnFromDram(cfg: L2Config, c: L2State, back: Option<Fetch>, now: nat): (r: Result<L2State, L2Fault>)
    requires Shaped(cfg, c)
    ensures r.Ok? ==> Shaped(cfg, r.value)
  {
    if back.None? then Ok(c) else DrainFills(cfg, c, back.value.SectorAddr(), now)
  }

  datatype Released = Released(state: L2State, sent: seq<Fetch>)

  /** The front-only loop over reply queue i; `sent` are the replies pushed so far in this cycle. */
  function ReleaseQueue(cfg: L2Config, c: L2State, i: nat, now: nat, sent: seq<Fetch>): (r: Result<Released, L2Fault>)
    requires Shaped(cfg, c) && i < REPLY_QUEUES
    ensures r.Ok? ==> Shaped(cfg, r.value.state)
    decreases |c.toSms[i]|
  {
    if c.toSms[i] == [] || c.toSms[i][0].l2Ready > now then Ok(Released(c, sent))
    else
      var f := c.toSms[i][0];
      var popped := c.(toSms := c.toSms[i := c.toSms[i][1..]]);
      match (if f.status == L2Hit then Ok(popped) else DrainFills(cfg, popped, f.SectorAddr(), now))
      case Err(e) => Err(e)
      case Ok(c') => ReleaseQueue(cfg, c', i, now, sent + [f])
  }

  function ReleaseAll(cfg: L2Config, c: L2State, i: nat, now: nat, sent: seq<Fetch>): (r: Result<Released, L2Fault>)
    requires Shaped(cfg, c) && i <= REPLY_QUEUES
    ensures r.Ok? ==> Shaped(cfg, r.value.state)
    decreases REPLY_QUEUES - i
  {
    if i == REPLY_QUEUES then Ok(Released(c, sent))
    else
      match ReleaseQueue(cfg, c, i, now, sent)
      case Err(e) => Err(e)
      case Ok(r) => ReleaseAll(cfg, r.state, i + 1, now, r.sent)
  }

  /** The front request of the input queue is accepted unless the access is refused. */
  function AcceptFront(cfg: L2Config, c: L2State, now: nat): (r: Result<Accessed, L2Fault>)
    requires Shaped(cfg, c)
    ensures r.Ok? ==> Shaped(cfg, r.value.state)
  {
    if c.l1ToL2 == [] then Ok(Accessed(L2AccessMiss, c, None))
    else
      match Access(cfg, c, c.l1ToL2[0], now)
      case Err(e) => Err(e)
      case Ok(r) =>
        if r.status == L2AccessFail then Ok(r)
        else Ok(r.(state := r.state.(l1ToL2 := c.l1ToL2[1..])))
  }

  /** What one cycle does: the new state, the replies pushed to the SMs, the request for DRAM. */
  datatype Cycled = Cycled(state: L2State, replies: seq<Fetch>, miss: Option<Fetch>)

  /** The replies of a cycle: the request that DRAM returns first, then those that became ready. */
  function Replies(cfg: L2Config, c: L2State, now: nat, back: Option<Fetch>): (r: Result<Released, L2Fault>)
    requires Shaped(cfg, c)
    ensures r.Ok? ==> Shaped(cfg, r.value.state)
  {
    match ReturnFromDram(cfg, c, back, now)
    case Err(e) => Err(e)
    case Ok(c1) => ReleaseAll(cfg, c1, 0, now, Items(back))
  }

  /** l2_cache_cycle, given the request that DRAM returns and the packet that arrives. */
  function Cycle(cfg: L2Config, c: L2State, now: nat, back: Option<Fetch>, arrival: Option<Fetch>)
    : (r: Result<Cycled, L2Fault>)
    requires Shaped(cfg, c)
    ensures r.Ok? ==> Shaped(cfg, r.value.state)
  {
    match Replies(cfg, c, now, back)
    case Err(e) => Err(e)
    case Ok(rel) =>
      match AcceptFront(cfg, rel.state.(l1ToL2 := rel.state.l1ToL2 + Items(arrival)), now)
      case Err(e) => Err(e)
      case Ok(acc) => Ok(Cycled(acc.state, rel.sent, acc.miss))
  }

  // ---------------------------------------------------------------- invariant

  /** The latency of the requests in reply queue i. */
  function LatencyOf(cfg: L2Config, i: nat): nat
    requires i < REPLY_QUEUES
  {
    if i == 0 then cfg.hitLatency else if i == 1 then cfg.missLatency else cfg.tlbLatency
  }

  /** Replies in a queue are hits that somebody waits for, sorted by their ready time. */
  ghost predicate RepliesOk(q: seq<Fetch>, bound: int) {
    && (forall i :: 0 <= i < |q| ==> q[i].status == L2Hit && !Silent(q[i]) && q[i].l2Ready <= bound)
    && (forall i, j :: 0 <= i < j < |q| ==> q[i].l2Ready <= q[j].l2Ready)
  }

  ghost predicate MshrOk(cfg: L2Config, t: Mshr.Table) {
    && cfg.cache.mshrMaxMerge >= 1
    && WithinLimits(t, cfg.cache.mshrEntries, cfg.cache.mshrMaxMerge)
    && L1Cache.EntriesOk(t)
  }

  ghost predicate QueuesOk(cfg: L2Config, c: L2State, now: nat) {
    && |c.toSms| == REPLY_QUEUES
    && forall i :: 0 <= i < REPLY_QUEUES ==> RepliesOk(c.toSms[i], now + LatencyOf(cfg, i))
  }

  /** Holds before the cycle with time `now`. */
  ghost predicate L2Inv(cfg: L2Config, c: L2State, now: nat) {
    Settled(cfg.cache, c.lines) && MshrOk(cfg, c.mshr) && QueuesOk(cfg, c, now) && L1Cache.AllAligned(c.l1ToL2)
  }

  lemma InvIsShaped(cfg: L2Config, c: L2State, now: nat)
    requires L2Inv(cfg, c, now)
    ensures Shaped(cfg, c) && |c.toSms| == REPLY_QUEUES
  {
  }

  /** What the constructor is given: a replacement policy it knows and room for one request an entry. */
  predicate ConfigOk(cfg: L2Config) {
    && GoodSets(cfg.cache) && cfg.cache.assoc >= 1 && !cfg.cache.replacement.OtherReplacement?
    && cfg.cache.mshrMaxMerge >= 1
  }

  function FreshL2(cfg: L2Config): L2State {
    L2State(seq(LineCount(cfg.cache), i => FRESH_LINE), map[], [[], [], []], [])
  }

  /** A slice starts in the invariant, with nothing inside. */
  lemma InitialL2(cfg: L2Config)
    requires ConfigOk(cfg)
    ensures L2Inv(cfg, FreshL2(cfg), 0)
  {
    InitialTags(cfg.cache, FreshL2(cfg).lines);
  }

  lemma LaterStillOk(cfg: L2Config, c: L2State, now: nat, later: nat)
    requires L2Inv(cfg, c, now) && now <= later
    ensures L2Inv(cfg, c, later)
  {
    forall i | 0 <= i < REPLY_QUEUES ensures RepliesOk(c.toSms[i], later + LatencyOf(cfg, i)) {
      assert RepliesOk(c.toSms[i], now + LatencyOf(cfg, i));
    }
  }

  /** A new reply is the latest of its queue. */
  lemma SendKeepsQueues(cfg: L2Config, c: L2State, f: Fetch, now: nat, latency: nat)
    requires QueuesOk(cfg, c, now) && !Silent(f) && (latency == cfg.hitLatency || latency == cfg.tlbLatency)
    ensures QueuesOk(cfg, SendToSm(cfg, c, f, now, latency), now)
  {
    var c' := SendToSm(cfg, c, f, now, latency);
    forall i | 0 <= i < REPLY_QUEUES ensures RepliesOk(c'.toSms[i], now + LatencyOf(cfg, i)) {
      assert RepliesOk(c.toSms[i], now + LatencyOf(cfg, i));
    }
  }

  // ---------------------------------------------------------------- accesses

  lemma StoreHitKeeps(cfg: L2Config, c: L2State, f: Fetch, now: nat, idx: nat)
    requires L2Inv(cfg, c, now) && f.sector < SECTORS && now < MAX_TIME
    ensures L2Inv(cfg, StoreHit(cfg, c, f, now, idx).state, now)
  {
    OperationsSettle(cfg.cache, c.lines, LineOf(f.addr), f.sector, now);
    var touched := TagStore.Access(cfg.cache, c.lines, LineOf(f.addr), f.sector, now);
    if idx < |touched| { StoresSettle(cfg.cache, touched, idx, true, 0, f.sector, now); }
    if !Silent(f) {
      SendKeepsQueues(cfg, c.(lines := L1Cache.MarkModified(touched, idx, f.sector)), f, now,
                      if f.tlbHit then cfg.hitLatency else cfg.tlbLatency);
    }
  }

  lemma StoreMissKeeps(cfg: L2Config, c: L2State, f: Fetch, now: nat, lineMiss: bool)
    requires L2Inv(cfg, c, now) && f.sector < SECTORS && now < MAX_TIME
    ensures L2Inv(cfg, StoreMiss(cfg, c, f, now, lineMiss).state, now)
  {
    var j := ProbeIdle(cfg.cache, c.lines, LineOf(f.addr));
    if j.Some? && j.value < |c.lines| {
      StoresSettle(cfg.cache, c.lines, j.value, lineMiss, LineOf(f.addr), f.sector, now);
    }
  }

  lemma LoadHitKeeps(cfg: L2Config, c: L2State, f: Fetch, now: nat)
    requires L2Inv(cfg, c, now) && f.sector < SECTORS && now < MAX_TIME && !f.isWrite
    ensures L2Inv(cfg, LoadHit(cfg, c, f, now).state, now)
  {
    OperationsSettle(cfg.cache, c.lines, LineOf(f.addr), f.sector, now);
    SendKeepsQueues(cfg, c.(lines := TagStore.Access(cfg.cache, c.lines, LineOf(f.addr), f.sector, now)), f, now,
        cfg.hitLatency);
  }

  lemma LoadMissKeeps(cfg: L2Config, c: L2State, f: Fetch, now: nat)
    requires L2Inv(cfg, c, now) && f.Aligned() && !f.isWrite && !MshrFull(cfg, c, f)
    ensures L2Inv(cfg, LoadMiss(c, f).state, now)
  {
    L1Cache.AddKeepsEntries(c.mshr, f);
    FullIff(c.mshr, f.SectorAddr(), f, cfg.cache.mshrEntries, cfg.cache.mshrMaxMerge);
  }

  /** cache_access never aborts, is refused only for a load that misses with a full MSHR, and keeps
      the invariant. */
  lemma AccessKeeps(cfg: L2Config, c: L2State, f: Fetch, now: nat)
    requires L2Inv(cfg, c, now) && f.Aligned() && now < MAX_TIME
    ensures var r := Access(cfg, c, f, now);
            && r.Ok? && L2Inv(cfg, r.value.state, now)
            && (r.value.status == L2AccessFail <==>
                  !f.isWrite && !Probe(cfg.cache, c.lines, f.addr, f.sector).Hit? && MshrFull(cfg, c, f))
            && (r.value.status == L2AccessFail ==> r.value == Accessed(L2AccessFail, c, None))
  {
    ProbeIsDefinite(cfg.cache, c.lines, f.addr, f.sector);
    var p := Probe(cfg.cache, c.lines, f.addr, f.sector);
    if p.Hit? {
      if f.isWrite { StoreHitKeeps(cfg, c, f, now, p.idx); } else { LoadHitKeeps(cfg, c, f, now); }
    } else if f.isWrite {
      StoreMissKeeps(cfg, c, f, now, p.Miss?);
    } else if !MshrFull(cfg, c, f) {
      LoadMissKeeps(cfg, c, f, now);
    }
  }

  // ---------------------------------------------------------------- the rest of the cycle

  lemma NextKeepsMshr(cfg: L2Config, t: Mshr.Table, sa: nat)
    requires MshrOk(cfg, t) && sa in t
    ensures MshrOk(cfg, AfterNext(t, sa))
  {
    NextKeepsLimits(t, sa, cfg.cache.mshrEntries, cfg.cache.mshrMaxMerge);
  }

  /** A drain always succeeds and removes exactly the drained entry. */
  lemma {:induction false} DrainKeeps(cfg: L2Config, c: L2State, sa: nat, now: nat)
    requires L2Inv(cfg, c, now) && now < MAX_TIME
    ensures var r := DrainFills(cfg, c, sa, now); r.Ok? && L2Inv(cfg, r.value, now) && r.value.mshr == c.mshr - {sa}
    decreases if sa in c.mshr then 1 + |c.mshr[sa]| else 0
  {
    if sa in c.mshr {
      var f := c.mshr[sa][0];
      OperationsSettle(cfg.cache, c.lines, f.addr, f.sector, now);
      NextKeepsMshr(cfg, c.mshr, sa);
      var lines := Fill(cfg.cache, c.lines, f.addr, f.sector, now).value;
      DrainKeeps(cfg, c.(lines := lines, mshr := AfterNext(c.mshr, sa)), sa, now);
      assert AfterNext(c.mshr, sa) - {sa} == c.mshr - {sa};
    } else {
      assert c.mshr - {sa} == c.mshr;
    }
  }

  /** The replies of a queue that are ready, and those that are not. */
  function ReadyOnes(q: seq<Fetch>, now: nat): seq<Fetch> {
    if q == [] then [] else (if q[0].l2Ready <= now then [q[0]] else []) + ReadyOnes(q[1..], now)
  }

  function LaterOnes(q: seq<Fetch>, now: nat): seq<Fetch> {
    if q == [] then [] else (if q[0].l2Ready <= now then [] else [q[0]]) + LaterOnes(q[1..], now)
  }

  lemma {:induction false} NothingReady(q: seq<Fetch>, now: nat)
    requires forall i :: 0 <= i < |q| ==> q[i].l2Ready > now
    ensures ReadyOnes(q, now) == [] && LaterOnes(q, now) == q
    decreases |q|
  {
    if q != [] { NothingReady(q[1..], now); }
  }

  /** Because each queue is sorted, the front-only loop releases exactly the ready replies. */
  lemma {:induction false} ReleaseIsExact(cfg: L2Config, c: L2State, i: nat, now: nat, sent: seq<Fetch>)
    requires L2Inv(cfg, c, now) && i < REPLY_QUEUES
    ensures ReleaseQueue(cfg, c, i, now, sent)
            == Ok(Released(c.(toSms := c.toSms[i := LaterOnes(c.toSms[i], now)]), sent + ReadyOnes(c.toSms[i], now)))
    decreases |c.toSms[i]|
  {
    var q := c.toSms[i];
    assert RepliesOk(q, now + LatencyOf(cfg, i));
    if q == [] || q[0].l2Ready > now {
      NothingReady(q, now);
      assert c.toSms[i := q] == c.toSms;
      assert sent + [] == sent;
    } else {
      var popped := c.(toSms := c.toSms[i := q[1..]]);
      PopKeepsReplies(cfg, c, i, now);
      ReleaseIsExact(cfg, popped, i, now, sent + [q[0]]);
      assert sent + [q[0]] + ReadyOnes(q[1..], now) == sent + ReadyOnes(q, now);
      assert LaterOnes(q, now) == LaterOnes(q[1..], now);
      assert popped.toSms[i := LaterOnes(q[1..], now)] == c.toSms[i := LaterOnes(q, now)];
    }
  }

  lemma PopKeepsReplies(cfg: L2Config, c: L2State, i: nat, now: nat)
    requires L2Inv(cfg, c, now) && i < REPLY_QUEUES && c.toSms[i] != []
    ensures L2Inv(cfg, c.(toSms := c.toSms[i := c.toSms[i][1..]]), now)
  {
    assert RepliesOk(c.toSms[i], now + LatencyOf(cfg, i));
    var toSms := c.toSms[i := c.toSms[i][1..]];
    forall k | 0 <= k < REPLY_QUEUES ensures RepliesOk(toSms[k], now + LatencyOf(cfg, k)) {
      assert RepliesOk(c.toSms[k], now + LatencyOf(cfg, k));
    }
  }

  lemma {:induction false} LaterKeepsReplies(q: seq<Fetch>, now: nat, bound: int)
    requires RepliesOk(q, bound)
    ensures RepliesOk(LaterOnes(q, now), bound)
    ensures forall i :: 0 <= i < |LaterOnes(q, now)| ==> LaterOnes(q, now)[i].l2Ready > now
    decreases |q|
  {
    if q != [] {
      if q[0].l2Ready <= now {
        LaterKeepsReplies(q[1..], now, bound);
        assert LaterOnes(q, now) == LaterOnes(q[1..], now);
      } else {
        NothingReady(q, now);
      }
    }
  }

  lemma QueueReleased(cfg: L2Config, c: L2State, i: nat, now: nat, sent: seq<Fetch>)
    requires L2Inv(cfg, c, now) && i < REPLY_QUEUES
    ensures var c' := c.(toSms := c.toSms[i := LaterOnes(c.toSms[i], now)]);
            && ReleaseQueue(cfg, c, i, now, sent) == Ok(Released(c', sent + ReadyOnes(c.toSms[i], now)))
            && L2Inv(cfg, c', now)
  {
    ReleaseIsExact(cfg, c, i, now, sent);
    var toSms := c.toSms[i := LaterOnes(c.toSms[i], now)];
    forall k | 0 <= k < REPLY_QUEUES ensures RepliesOk(toSms[k], now + LatencyOf(cfg, k)) {
      assert RepliesOk(c.toSms[k], now + LatencyOf(cfg, k));
      LaterKeepsReplies(c.toSms[k], now, now + LatencyOf(cfg, k));
    }
  }

  /** The state after queue i has released its ready replies. */
  function Trimmed(c: L2State, i: nat, now: nat): L2State
    requires i < |c.toSms|
  {
    c.(toSms := c.toSms[i := LaterOnes(c.toSms[i], now)])
  }

  lemma ReleaseStep(cfg: L2Config, c: L2State, i: nat, now: nat, sent: seq<Fetch>)
    requires L2Inv(cfg, c, now) && i < REPLY_QUEUES
    ensures ReleaseAll(cfg, c, i, now, sent)
            == ReleaseAll(cfg, Trimmed(c, i, now), i + 1, now, sent + ReadyOnes(c.toSms[i], now))
    ensures L2Inv(cfg, Trimmed(c, i, now), now)
  {
    QueueReleased(cfg, c, i, now, sent);
  }

  lemma TrimmedThrice(c: L2State, now: nat)
    requires |c.toSms| == REPLY_QUEUES
    ensures var q := c.toSms;
            Trimmed(Trimmed(Trimmed(c, 0, now), 1, now), 2, now)
            == c.(toSms := [LaterOnes(q[0], now), LaterOnes(q[1], now), LaterOnes(q[2], now)])
  {
  }

  /** All three loops: the replies of each queue that are ready, and only those, are pushed. */
  lemma ReleaseAllIsExact(cfg: L2Config, c: L2State, now: nat, sent: seq<Fetch>)
    requires L2Inv(cfg, c, now)
    ensures var q := c.toSms;
            var c' := c.(toSms := [LaterOnes(q[0], now), LaterOnes(q[1], now), LaterOnes(q[2], now)]);
            && ReleaseAll(cfg, c, 0, now, sent)
               == Ok(Released(c', sent + ReadyOnes(q[0], now) + ReadyOnes(q[1], now) + ReadyOnes(q[2], now)))
            && L2Inv(cfg, c', now)
  {
    assert |c.toSms| == REPLY_QUEUES;
    hide L2Inv, ReleaseAll;
    var c0 := Trimmed(c, 0, now);
    var s0 := sent + ReadyOnes(c.toSms[0], now);
    ReleaseStep(cfg, c, 0, now, sent);
    ReleaseStep(cfg, c0, 1, now, s0);
    ReleaseStep(cfg, Trimmed(c0, 1, now), 2, now, s0 + ReadyOnes(c0.toSms[1], now));
    TrimmedThrice(c, now);
  }

  // ---------------------------------------------------------------- conservation

  /** What the SM sees of a request: all but the fields that the L2 and DRAM use for themselves. */
  function Core(f: Fetch): Fetch { f.(status := Init, l2Ready := 0, l2Id := 0) }

  /** Counts the requests that the SM sees as `key` and that wait for an answer. */
  function Mine(f: Fetch, key: Fetch): nat { if Core(f) == key && !Silent(f) then 1 else 0 }

  ghost function Tally(q: seq<Fetch>, key: Fetch): nat {
    if q == [] then 0 else Mine(q[0], key) + Tally(q[1..], key)
  }

  lemma {:induction false} TallyAppend(p: seq<Fetch>, q: seq<Fetch>, key: Fetch)
    ensures Tally(p + q, key) == Tally(p, key) + Tally(q, key)
  {
    if p == [] {
      assert p + q == q;
    } else {
      assert (p + q)[1..] == p[1..] + q;
      TallyAppend(p[1..], q, key);
    }
  }

  lemma TallyOne(f: Fetch, key: Fetch)
    ensures Tally([f], key) == Mine(f, key)
  {
    assert [f][1..] == [];
  }

  lemma {:induction false} SplitTally(q: seq<Fetch>, now: nat, key: Fetch)
    ensures Tally(ReadyOnes(q, now), key) + Tally(LaterOnes(q, now), key) == Tally(q, key)
    decreases |q|
  {
    if q != [] {
      SplitTally(q[1..], now, key);
      TallyAppend([q[0]], ReadyOnes(q[1..], now), key);
      TallyAppend([q[0]], LaterOnes(q[1..], now), key);
      TallyOne(q[0], key);
      assert [] + ReadyOnes(q[1..], now) == ReadyOnes(q[1..], now);
      assert [] + LaterOnes(q[1..], now) == LaterOnes(q[1..], now);
    }
  }

  /** Requests inside the slice: waiting to be accepted, or to be sent to their SM. */
  ghost function Inside(c: L2State, key: Fetch): nat
    requires |c.toSms| == REPLY_QUEUES
  {
    Tally(c.l1ToL2, key) + Tally(c.toSms[0], key) + Tally(c.toSms[1], key) + Tally(c.toSms[2], key)
  }

  lemma SendTally(cfg: L2Config, c: L2State, f: Fetch, now: nat, latency: nat, key: Fetch)
    requires |c.toSms| == REPLY_QUEUES && (latency == cfg.hitLatency || latency == cfg.tlbLatency)
    ensures Inside(SendToSm(cfg, c, f, now, latency), key) == Inside(c, key) + Mine(f, key)
  {
    var i := QueueFor(cfg, latency).value;
    var sent := f.(l2Ready := now + latency, status := L2Hit);
    TallyAppend(c.toSms[i], [sent], key);
    TallyOne(sent, key);
  }

  /** The request, unless refused, is now inside or on its way to DRAM, and nothing else has moved. */
  ghost predicate Balanced(c: L2State, r: Accessed, f: Fetch, key: Fetch)
    requires |c.toSms| == REPLY_QUEUES
  {
    && r.state.l1ToL2 == c.l1ToL2 && |r.state.toSms| == REPLY_QUEUES
    && Inside(r.state, key) + Tally(Items(r.miss), key)
       == Inside(c, key) + (if r.status == L2AccessFail then 0 else Mine(f, key))
  }

  lemma StoreHitBalances(cfg: L2Config, c: L2State, f: Fetch, now: nat, idx: nat, key: Fetch)
    requires Shaped(cfg, c) && f.sector < SECTORS
    ensures Balanced(c, StoreHit(cfg, c, f, now, idx), f, key)
  {
    if !Silent(f) {
      var touched := TagStore.Access(cfg.cache, c.lines, LineOf(f.addr), f.sector, now);
      var c1 := c.(lines := L1Cache.MarkModified(touched, idx, f.sector));
      SendTally(cfg, c1, f, now, if f.tlbHit then cfg.hitLatency else cfg.tlbLatency, key);
    }
  }

  lemma LoadHitBalances(cfg: L2Config, c: L2State, f: Fetch, now: nat, key: Fetch)
    requires Shaped(cfg, c) && f.sector < SECTORS
    ensures Balanced(c, LoadHit(cfg, c, f, now), f, key)
  {
    SendTally(cfg, c.(lines := TagStore.Access(cfg.cache, c.lines, LineOf(f.addr), f.sector, now)), f, now,
        cfg.hitLatency, key);
  }

  lemma MissBalances(cfg: L2Config, c: L2State, f: Fetch, now: nat, lineMiss: bool, key: Fetch)
    requires Shaped(cfg, c) && f.sector < SECTORS
    ensures Balanced(c, StoreMiss(cfg, c, f, now, lineMiss), f, key)
    ensures Balanced(c, LoadMiss(c, f), f, key)
  {
    TallyOne(f.(status := L2Hit), key);
    TallyOne(f.(status := L2Miss), key);
  }

  /** An accepted request is queued for its SM, or sent to DRAM, or is a silent store: exactly one. */
  lemma AccessBalances(cfg: L2Config, c: L2State, f: Fetch, now: nat, key: Fetch)
    requires Shaped(cfg, c) && Access(cfg, c, f, now).Ok?
    ensures Balanced(c, Access(cfg, c, f, now).value, f, key)
  {
    var p := Probe(cfg.cache, c.lines, f.addr, f.sector);
    if p.Hit? {
      if f.isWrite { StoreHitBalances(cfg, c, f, now, p.idx, key); } else { LoadHitBalances(cfg, c, f, now, key); }
    } else {
      MissBalances(cfg, c, f, now, p.Miss?, key);
    }
  }

  lemma AcceptBalances(cfg: L2Config, c: L2State, now: nat, key: Fetch)
    requires Shaped(cfg, c) && AcceptFront(cfg, c, now).Ok?
    ensures var r := AcceptFront(cfg, c, now).value;
            Inside(r.state, key) + Tally(Items(r.miss), key) == Inside(c, key)
  {
    if c.l1ToL2 != [] {
      AccessBalances(cfg, c, c.l1ToL2[0], now, key);
    }
  }

  /** Ready replies leave the slice and nothing else changes hands. */
  lemma ReleaseBalances(c: L2State, now: nat, sent: seq<Fetch>, key: Fetch)
    requires |c.toSms| == REPLY_QUEUES
    ensures var q := c.toSms;
            var c' := c.(toSms := [LaterOnes(q[0], now), LaterOnes(q[1], now), LaterOnes(q[2], now)]);
            var all := sent + ReadyOnes(q[0], now) + ReadyOnes(q[1], now) + ReadyOnes(q[2], now);
            Inside(c', key) + Tally(all, key) == Inside(c, key) + Tally(sent, key)
  {
    var q := c.toSms;
    SplitTally(q[0], now, key);
    SplitTally(q[1], now, key);
    SplitTally(q[2], now, key);
    TallyAppend(sent, ReadyOnes(q[0], now), key);
    TallyAppend(sent + ReadyOnes(q[0], now), ReadyOnes(q[1], now), key);
    TallyAppend(sent + ReadyOnes(q[0], now) + ReadyOnes(q[1], now), ReadyOnes(q[2], now), key);
  }

  // ---------------------------------------------------------------- one cycle

  /** The state between the releases and the acceptance. */
  ghost predicate Halfway(cfg: L2Config, c: L2State, now: nat, back: Option<Fetch>, mid: L2State, sent: seq<Fetch>)
    requires Shaped(cfg, c)
  {
    Replies(cfg, c, now, back) == Ok(Released(mid, sent))
  }

  lemma FirstHalf(cfg: L2Config, c: L2State, now: nat, back: Option<Fetch>) returns (mid: L2State, sent: seq<Fetch>)
    requires L2Inv(cfg, c, now) && now < MAX_TIME
    ensures Halfway(cfg, c, now, back, mid, sent) && L2Inv(cfg, mid, now) && mid.l1ToL2 == c.l1ToL2
    ensures forall key :: Inside(mid, key) + Tally(sent, key) == Inside(c, key) + Tally(Items(back), key)
  {
    if back.Some? { DrainKeeps(cfg, c, back.value.SectorAddr(), now); }
    var c1 := ReturnFromDram(cfg, c, back, now).value;
    ReleaseAllIsExact(cfg, c1, now, Items(back));
    var rel := ReleaseAll(cfg, c1, 0, now, Items(back)).value;
    mid, sent := rel.state, rel.sent;
    forall key ensures Inside(mid, key) + Tally(sent, key) == Inside(c, key) + Tally(Items(back), key) {
      ReleaseBalances(c1, now, Items(back), key);
    }
  }

  lemma SecondHalf(cfg: L2Config, c: L2State, now: nat, arrival: Option<Fetch>)
    requires L2Inv(cfg, c, now) && now < MAX_TIME && (arrival.Some? ==> arrival.value.Aligned())
    ensures var r := AcceptFront(cfg, c.(l1ToL2 := c.l1ToL2 + Items(arrival)), now);
            r.Ok? && L2Inv(cfg, r.value.state, now)
  {
    var c' := c.(l1ToL2 := c.l1ToL2 + Items(arrival));
    if c'.l1ToL2 != [] { AccessKeeps(cfg, c', c'.l1ToL2[0], now); }
  }

  /** One cycle of a slice never fails and keeps the invariant. */
  lemma CycleKeeps(cfg: L2Config, c: L2State, now: nat, back: Option<Fetch>, arrival: Option<Fetch>)
    requires L2Inv(cfg, c, now) && now < MAX_TIME && (arrival.Some? ==> arrival.value.Aligned())
    ensures var r := Cycle(cfg, c, now, back, arrival); r.Ok? && L2Inv(cfg, r.value.state, now)
  {
    var mid, sent := FirstHalf(cfg, c, now, back);
    SecondHalf(cfg, mid, now, arrival);
  }

  /** One cycle conserves the requests that an SM sees as `key`: what arrives or returns from DRAM is
      replied, sent to DRAM, or still inside. */
  lemma CycleBalances(cfg: L2Config, c: L2State, now: nat, back: Option<Fetch>, arrival: Option<Fetch>, key: Fetch)
    requires L2Inv(cfg, c, now) && now < MAX_TIME && (arrival.Some? ==> arrival.value.Aligned())
    ensures var r := Cycle(cfg, c, now, back, arrival);
            && r.Ok? && |r.value.state.toSms| == REPLY_QUEUES
            && Tally(r.value.replies, key) + Tally(Items(r.value.miss), key) + Inside(r.value.state, key)
               == Inside(c, key) + Tally(Items(back), key) + Tally(Items(arrival), key)
  {
    var mid, sent := FirstHalf(cfg, c, now, back);
    SecondHalf(cfg, mid, now, arrival);
    TallyAppend(mid.l1ToL2, Items(arrival), key);
    AcceptBalances(cfg, mid.(l1ToL2 := mid.l1ToL2 + Items(arrival)), now, key);
  }

  ghost predicate NoneSilent(q: seq<Fetch>) { forall i :: 0 <= i < |q| ==> !Silent(q[i]) }

  lemma {:induction false} ReadyIsNotSilent(q: seq<Fetch>, now: nat, bound: int)
    requires RepliesOk(q, bound)
    ensures NoneSilent(ReadyOnes(q, now))
    decreases |q|
  {
    if q != [] { ReadyIsNotSilent(q[1..], now, bound); }
  }

  lemma QueueIsNotSilent(cfg: L2Config, c: L2State, now: nat, i: nat)
    requires L2Inv(cfg, c, now) && i < REPLY_QUEUES
    ensures NoneSilent(ReadyOnes(c.toSms[i], now))
  {
    assert RepliesOk(c.toSms[i], now + LatencyOf(cfg, i));
    ReadyIsNotSilent(c.toSms[i], now, now + LatencyOf(cfg, i));
  }

  lemma SentNotSilent(cfg: L2Config, c: L2State, now: nat, sent: seq<Fetch>)
    requires L2Inv(cfg, c, now) && NoneSilent(sent)
    ensures var r := ReleaseAll(cfg, c, 0, now, sent); r.Ok? && NoneSilent(r.value.sent)
  {
    ReleaseAllIsExact(cfg, c, now, sent);
    QueueIsNotSilent(cfg, c, now, 0);
    QueueIsNotSilent(cfg, c, now, 1);
    QueueIsNotSilent(cfg, c, now, 2);
    hide L2Inv, ReleaseAll, ReadyOnes, LaterOnes, Silent;
  }

  lemma MissNotSilent(cfg: L2Config, c: L2State, now: nat)
    requires Shaped(cfg, c) && AcceptFront(cfg, c, now).Ok?
    ensures NoneSilent(Items(AcceptFront(cfg, c, now).value.miss))
  {
  }

  lemma MissIsNotSilent(cfg: L2Config, c: L2State, now: nat, back: Option<Fetch>, arrival: Option<Fetch>)
    requires L2Inv(cfg, c, now) && now < MAX_TIME && (arrival.Some? ==> arrival.value.Aligned())
    ensures var r := Cycle(cfg, c, now, back, arrival); r.Ok? && NoneSilent(Items(r.value.miss))
  {
    var mid, sent := FirstHalf(cfg, c, now, back);
    SecondHalf(cfg, mid, now, arrival);
    MissNotSilent(cfg, mid.(l1ToL2 := mid.l1ToL2 + Items(arrival)), now);
  }

  /** A write-through copy is never answered and never goes to DRAM. */
  lemma SilentStaysSilent(cfg: L2Config, c: L2State, now: nat, back: Option<Fetch>, arrival: Option<Fetch>)
    requires L2Inv(cfg, c, now) && now < MAX_TIME && (arrival.Some? ==> arrival.value.Aligned())
    requires NoneSilent(Items(back))
    ensures var r := Cycle(cfg, c, now, back, arrival);
            r.Ok? && NoneSilent(r.value.replies) && NoneSilent(Items(r.value.miss))
  {
    MissIsNotSilent(cfg, c, now, back, arrival);
    if back.Some? { DrainKeeps(cfg, c, back.value.SectorAddr(), now); }
    SentNotSilent(cfg, ReturnFromDram(cfg, c, back, now).value, now, Items(back));
  }

  /** What goes to DRAM is the front request of the input queue, so it is for the same bank. */
  lemma MissIsFront(cfg: L2Config, c: L2State, now: nat, back: Option<Fetch>, arrival: Option<Fetch>)
    requires L2Inv(cfg, c, now) && now < MAX_TIME && (arrival.Some? ==> arrival.value.Aligned())
    ensures var r := Cycle(cfg, c, now, back, arrival);
            var all := c.l1ToL2 + Items(arrival);
            && r.Ok? && (r.value.state.l1ToL2 == all || (all != [] && r.value.state.l1ToL2 == all[1..]))
            && (r.value.miss.Some? ==> all != [] && r.value.miss.value == all[0].(status := r.value.miss.value.status))
  {
    var mid, sent := FirstHalf(cfg, c, now, back);
    SecondHalf(cfg, mid, now, arrival);
    FrontGoes(cfg, mid.(l1ToL2 := mid.l1ToL2 + Items(arrival)), now);
  }

  lemma FrontGoes(cfg: L2Config, c: L2State, now: nat)
    requires Shaped(cfg, c) && AcceptFront(cfg, c, now).Ok?
    ensures var r := AcceptFront(cfg, c, now).value;
            && (r.state.l1ToL2 == c.l1ToL2 || (c.l1ToL2 != [] && r.state.l1ToL2 == c.l1ToL2[1..]))
            && (r.miss.Some? ==> c.l1ToL2 != [] && r.miss.value == c.l1ToL2[0].(status := r.miss.value.status))
  {
  }
}
