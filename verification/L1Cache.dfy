/** l1_data_cache: a sectored, write-through-to-L2 cache with an MSHR and a miss queue.
    Functions over L1State specify the L1DataCache class. */
module L1Cache {
  import opened CacheConfig
  import opened TagStore
  import opened MemFetch
  import opened Mshr

  datatype WritePolicy = LocalWbGlobalWt | WriteBackPolicy | OtherPolicy

  datatype L1Config = L1Config(cache: CacheConfig, policy: WritePolicy, hitLatency: int)

  datatype L1State = L1State(lines: seq<Line>, mshr: Mshr.Table, missQ: seq<Fetch>, toSm: seq<Fetch>, tlbHit: bool)

  datatype AccessStatus = AccessHit | AccessMiss | AccessFail | AccessAbort

  /** The copy of a store hit that is sent on to the L2. */
  function WriteThroughCopy(f: Fetch, freshId: nat): Fetch {
    f.(id := freshId, writeType := WriteThroughL2, status := Init, l1Ready := 0, l2Ready := 0)
  }

  function Served(cfg: L1Config, f: Fetch, now: nat): Fetch {
    f.(status := L1Hit, l1Ready := cfg.hitLatency + now)
  }

  /** Does a store hit send a copy to the L2? */
  predicate WritesThrough(cfg: L1Config, f: Fetch) { cfg.policy.LocalWbGlobalWt? && f.space.Global? }

  /** The lines after a store hit on line idx: marked modified, and refreshed unless written through. */
  function StoreHitLines(cfg: L1Config, lines: seq<Line>, f: Fetch, now: nat, idx: nat): (after: seq<Line>)
    requires Shape(cfg.cache, lines) && f.sector < SECTORS && idx < |lines|
    ensures Shape(cfg.cache, after)
  {
    if WritesThrough(cfg, f) then MarkModified(lines, idx, f.sector)
    else if cfg.policy.WriteBackPolicy? || (cfg.policy.LocalWbGlobalWt? && f.space.Local?)
      then MarkModified(TagStore.Access(cfg.cache, lines, LineOf(f.addr), f.sector, now), idx, f.sector)
    else lines
  }

  /** A store that hits line idx. */
  function StoreHit(cfg: L1Config, c: L1State, f: Fetch, now: nat, freshId: nat, idx: nat): L1State
    requires Shape(cfg.cache, c.lines) && f.sector < SECTORS && idx < |c.lines|
  {
    c.(lines := StoreHitLines(cfg, c.lines, f, now, idx),
       missQ := c.missQ + (if WritesThrough(cfg, f) then [WriteThroughCopy(f, freshId)] else []),
       toSm := c.toSm + [Served(cfg, if WritesThrough(cfg, f) then f.(writeType := WriteThrough) else f, now)])
  }

  function MarkModified(lines: seq<Line>, idx: nat, sector: nat): seq<Line> {
    if idx < |lines| && sector < |lines[idx].status| then lines[idx := lines[idx].WithStatus(Modified, sector)]
    else lines
  }

  function StoreMiss(c: L1State, f: Fetch): L1State {
    c.(missQ := c.missQ + [f.(tlbHit := c.tlbHit)], tlbHit := true)
  }

  function LoadHit(cfg: L1Config, c: L1State, f: Fetch, now: nat): L1State
    requires Shape(cfg.cache, c.lines) && f.sector < SECTORS
  {
    c.(lines := TagStore.Access(cfg.cache, c.lines, LineOf(f.addr), f.sector, now),
       toSm := c.toSm + [Served(cfg, f, now)])
  }

  /** A load miss joins the entry of its sector, or opens one and goes to the miss queue. */
  function LoadMiss(cfg: L1Config, c: L1State, f: Fetch): L1State {
    var sa := f.SectorAddr();
    if sa in c.mshr then c.(mshr := Mshr.Add(c.mshr, sa, f))
    else c.(mshr := Mshr.Add(c.mshr, sa, f), missQ := c.missQ + [f.(tlbHit := c.tlbHit)], tlbHit := true)
  }

  function MshrFull(cfg: L1Config, c: L1State, f: Fetch): bool {
    Mshr.IsFull(c.mshr, f.SectorAddr(), cfg.cache.mshrEntries, cfg.cache.mshrMaxMerge)
  }

  /** l1_data_cache::cache_access. */
  function Access(cfg: L1Config, c: L1State, f: Fetch, now: nat, freshId: nat): (r: (AccessStatus, L1State))
    requires Shape(cfg.cache, c.lines) && f.sector < SECTORS
    ensures Shape(cfg.cache, r.1.lines)
  {
    var p := TagStore.Probe(cfg.cache, c.lines, f.addr, f.sector);
    if p.Abort? then (AccessAbort, c)
    else if p.ReservationFail? then (AccessFail, c)
    else if p.Hit? then
      if p.idx >= |c.lines| then (AccessAbort, c)
      else if f.isWrite then (AccessHit, StoreHit(cfg, c, f, now, freshId, p.idx))
      else (AccessHit, LoadHit(cfg, c, f, now))
    else if f.isWrite then (AccessMiss, StoreMiss(c, f))
    else if MshrFull(cfg, c, f) then (AccessFail, c)
    else (AccessMiss, LoadMiss(cfg, c, f))
  }

  // ---------------------------------------------------------------- invariant

  /** Sector addresses of the loads in a queue. */
  ghost function LoadSectors(q: seq<Fetch>): multiset<nat> {
    if q == [] then multiset{}
    else (if q[0].isWrite then multiset{} else multiset{q[0].SectorAddr()}) + LoadSectors(q[1..])
  }

  ghost predicate AllAligned(q: seq<Fetch>) { forall i :: 0 <= i < |q| ==> q[i].Aligned() }

  /** What the L1 sends below: a request of the SM, or the write-through copy of a store. */
  /** Only stores are copied through to the L2. */
  predicate Sendable(f: Fetch) {
    f.Aligned() && (f.writeType == Normal || (f.isWrite && f.writeType == WriteThroughL2))
  }

  ghost predicate AllSendable(q: seq<Fetch>) { forall i :: 0 <= i < |q| ==> Sendable(q[i]) }

  /** Does the sector at address sa hit? */
  ghost predicate Hits(lines: seq<Line>, sa: nat)
    requires UniqueTags(lines)
  {
    sa % SECTOR_SIZE == 0 && SectorHit(View(lines), LineOf(sa), SectorIndex(sa))
  }

  ghost predicate EntriesOk(t: Mshr.Table) {
    forall sa :: sa in t ==>
      forall i :: 0 <= i < |t[sa]| ==> t[sa][i].Aligned() && !t[sa][i].isWrite && t[sa][i].SectorAddr() == sa
  }

  ghost predicate MshrOk(cfg: L1Config, t: Mshr.Table) {
    && cfg.cache.mshrMaxMerge >= 1
    && WithinLimits(t, cfg.cache.mshrEntries, cfg.cache.mshrMaxMerge)
    && EntriesOk(t)
  }

  /** The loads between the miss queue and the reply are exactly one for each MSHR entry. */
  ghost predicate OneInTransit(t: Mshr.Table, missQ: seq<Fetch>, below: seq<Fetch>) {
    LoadSectors(missQ) + LoadSectors(below) == multiset(t.Keys)
  }

  ghost predicate QueuesOk(c: L1State, below: seq<Fetch>) {
    && AllSendable(c.missQ) && AllAligned(c.toSm) && AllSendable(below)
    && OneInTransit(c.mshr, c.missQ, below)
  }

  /** No pending sector is also a hit. */
  ghost predicate NoPendingHit(c: L1State)
    requires UniqueTags(c.lines)
  {
    forall sa :: sa in c.mshr ==> !Hits(c.lines, sa)
  }

  /** The L1 invariant, over the cache and the packets in flight below it. */
  ghost predicate L1Inv(cfg: L1Config, c: L1State, below: seq<Fetch>) {
    && TagInv(cfg.cache, c.lines)
    && MshrOk(cfg, c.mshr)
    && QueuesOk(c, below)
    && NoPendingHit(c)
  }

  lemma {:induction false} LoadSectorsAppend(p: seq<Fetch>, q: seq<Fetch>)
    ensures LoadSectors(p + q) == LoadSectors(p) + LoadSectors(q)
  {
    if p == [] {
      assert p + q == q;
    } else {
      assert (p + q)[1..] == p[1..] + q;
      LoadSectorsAppend(p[1..], q);
    }
  }

  lemma LoadSectorsSnoc(q: seq<Fetch>, f: Fetch)
    ensures LoadSectors(q + [f]) == LoadSectors(q) + (if f.isWrite then multiset{} else multiset{f.SectorAddr()})
  {
    LoadSectorsAppend(q, [f]);
    assert [f][1..] == [];
  }

  lemma {:induction false} LoadSectorsWithout(p: seq<Fetch>, f: Fetch, q: seq<Fetch>)
    ensures LoadSectors(p + [f] + q)
            == LoadSectors(p + q) + (if f.isWrite then multiset{} else multiset{f.SectorAddr()})
  {
    LoadSectorsAppend(p + [f], q);
    LoadSectorsSnoc(p, f);
    LoadSectorsAppend(p, q);
  }

  /** Marking a sector that hits changes no hit. */
  lemma ModifiedKeepsHits(m: AbstractCache, line: nat, sector: nat, other: nat, k: nat)
    requires SectorHit(m, line, sector)
    ensures SectorHit(SetSector(m, line, sector, Modified), other, k) <==> SectorHit(m, other, k)
  {
  }

  ghost predicate SameHits(before: seq<Line>, after: seq<Line>) {
    && UniqueTags(before) && UniqueTags(after)
    && forall sa :: Hits(after, sa) <==> Hits(before, sa)
  }

  lemma StoreHitKeepsHits(cfg: L1Config, lines: seq<Line>, f: Fetch, now: nat)
    requires TagInv(cfg.cache, lines) && f.sector < SECTORS && now < MAX_TIME
    requires TagStore.Probe(cfg.cache, lines, f.addr, f.sector).Hit?
    ensures var idx := TagStore.Probe(cfg.cache, lines, f.addr, f.sector).idx;
            && idx < |lines|
            && var after := StoreHitLines(cfg, lines, f, now, idx);
            && TagInv(cfg.cache, after) && SameHits(lines, after)
  {
    SameLineSameProbe(cfg.cache, lines, f.addr, f.sector, now);
    StoredLinesKeepHits(cfg.cache, lines, f.addr, f.sector, now);
  }

  lemma StoredLinesKeepHits(cfg: CacheConfig, lines: seq<Line>, addr: nat, sector: nat, now: nat)
    requires TagInv(cfg, lines) && sector < SECTORS && now < MAX_TIME
    requires TagStore.Probe(cfg, lines, addr, sector).Hit?
    ensures var idx := TagStore.Probe(cfg, lines, addr, sector).idx;
            && idx < |lines|
            && var plain := MarkModified(lines, idx, sector);
            && var touched := MarkModified(TagStore.Access(cfg, lines, addr, sector, now), idx, sector);
            && TagInv(cfg, plain) && SameHits(lines, plain)
            && TagInv(cfg, touched) && SameHits(lines, touched)
  {
    HitIff(cfg, lines, addr, sector);
    StoreHitRefines(cfg, lines, addr, sector);
    TouchedStoreRefines(cfg, lines, addr, sector, now);
    var idx := TagStore.Probe(cfg, lines, addr, sector).idx;
    ModifiedSameHits(lines, MarkModified(lines, idx, sector), LineOf(addr), sector);
    ModifiedSameHits(lines, MarkModified(TagStore.Access(cfg, lines, addr, sector, now), idx, sector), LineOf(addr),
        sector);
  }

  lemma ModifiedSameHits(before: seq<Line>, after: seq<Line>, line: nat, sector: nat)
    requires UniqueTags(before) && UniqueTags(after) && SectorHit(View(before), line, sector)
    requires View(after) == SetSector(View(before), line, sector, Modified)
    ensures SameHits(before, after)
  {
    forall sa ensures Hits(after, sa) <==> Hits(before, sa) {
      ModifiedKeepsHits(View(before), line, sector, LineOf(sa), SectorIndex(sa));
    }
  }

  /** Probing at the line address is probing at the request's address. */
  lemma SameLineSameProbe(cfg: CacheConfig, lines: seq<Line>, addr: nat, sector: nat, time: nat)
    requires Shape(cfg, lines) && sector < SECTORS
    ensures TagStore.Probe(cfg, lines, LineOf(addr), sector) == TagStore.Probe(cfg, lines, addr, sector)
    ensures TagStore.Access(cfg, lines, LineOf(addr), sector, time) == TagStore.Access(cfg, lines, addr, sector, time)
  {
    SameSet(cfg, addr);
  }

  lemma LoadHitLines(cfg: L1Config, c: L1State, f: Fetch, now: nat)
    requires TagInv(cfg.cache, c.lines) && f.sector < SECTORS && now < MAX_TIME
    ensures var after := LoadHit(cfg, c, f, now).lines;
            TagInv(cfg.cache, after) && SameHits(c.lines, after)
  {
    SameLineSameProbe(cfg.cache, c.lines, f.addr, f.sector, now);
    AccessRefines(cfg.cache, c.lines, f.addr, f.sector, now);
  }

  lemma QueuedKeeps(c: L1State, extra: seq<Fetch>, below: seq<Fetch>)
    requires QueuesOk(c, below) && AllSendable(extra) && LoadSectors(extra) == multiset{}
    ensures AllSendable(c.missQ + extra) && OneInTransit(c.mshr, c.missQ + extra, below)
  {
    LoadSectorsAppend(c.missQ, extra);
  }

  lemma NoLoads(f: Fetch)
    requires f.isWrite
    ensures LoadSectors([f]) == multiset{}
  {
    assert [f][1..] == [];
  }

  lemma AddKeepsEntries(t: Mshr.Table, f: Fetch)
    requires EntriesOk(t) && f.Aligned() && !f.isWrite
    ensures EntriesOk(Mshr.Add(t, f.SectorAddr(), f))
  {
  }

  lemma MultisetOfMore(s: set<nat>, x: nat)
    requires x !in s
    ensures multiset(s + {x}) == multiset(s) + multiset{x}
  {
    forall y ensures multiset(s + {x})[y] == multiset(s)[y] + multiset{x}[y] { }
  }

  lemma AddKeepsTransit(t: Mshr.Table, f: Fetch, missQ: seq<Fetch>, sent: Fetch, below: seq<Fetch>)
    requires OneInTransit(t, missQ, below) && !f.isWrite && sent.SectorAddr() == f.SectorAddr() && !sent.isWrite
    ensures f.SectorAddr() in t ==> OneInTransit(Mshr.Add(t, f.SectorAddr(), f), missQ, below)
    ensures f.SectorAddr() !in t ==> OneInTransit(Mshr.Add(t, f.SectorAddr(), f), missQ + [sent], below)
  {
    var t' := Mshr.Add(t, f.SectorAddr(), f);
    if f.SectorAddr() in t {
      assert t'.Keys == t.Keys;
    } else {
      assert t'.Keys == t.Keys + {f.SectorAddr()};
      MultisetOfMore(t.Keys, f.SectorAddr());
      LoadSectorsSnoc(missQ, sent);
    }
  }

  lemma LoadMissKeeps(cfg: L1Config, c: L1State, f: Fetch, below: seq<Fetch>)
    requires L1Inv(cfg, c, below) && f.Aligned() && f.writeType == Normal && !f.isWrite && !MshrFull(cfg, c, f)
    requires !Hits(c.lines, f.SectorAddr())
    ensures L1Inv(cfg, LoadMiss(cfg, c, f), below)
  {
    FullIff(c.mshr, f.SectorAddr(), f, cfg.cache.mshrEntries, cfg.cache.mshrMaxMerge);
    AddKeepsEntries(c.mshr, f);
    AddKeepsTransit(c.mshr, f, c.missQ, f.(tlbHit := c.tlbHit), below);
  }

  lemma StoreHitKeeps(cfg: L1Config, c: L1State, f: Fetch, now: nat, freshId: nat, below: seq<Fetch>)
    requires L1Inv(cfg, c, below) && f.Aligned() && f.writeType == Normal && f.isWrite && now < MAX_TIME
    requires TagStore.Probe(cfg.cache, c.lines, f.addr, f.sector).Hit?
    ensures var idx := TagStore.Probe(cfg.cache, c.lines, f.addr, f.sector).idx;
            idx < |c.lines| && L1Inv(cfg, StoreHit(cfg, c, f, now, freshId, idx), below)
  {
    StoreHitKeepsHits(cfg, c.lines, f, now);
    StoreHitQueues(cfg, c, f, now, freshId, TagStore.Probe(cfg.cache, c.lines, f.addr, f.sector).idx, below);
  }

  lemma StoreHitQueues(cfg: L1Config, c: L1State, f: Fetch, now: nat, freshId: nat, idx: nat, below: seq<Fetch>)
    requires Shape(cfg.cache, c.lines) && idx < |c.lines| && QueuesOk(c, below) && f.Aligned()
    requires f.writeType == Normal && f.isWrite
    ensures var c' := StoreHit(cfg, c, f, now, freshId, idx); QueuesOk(c', below) && c'.mshr == c.mshr
  {
    var copies := if WritesThrough(cfg, f) then [WriteThroughCopy(f, freshId)] else [];
    NoLoads(WriteThroughCopy(f, freshId));
    QueuedKeeps(c, copies, below);
  }

  lemma LoadHitKeeps(cfg: L1Config, c: L1State, f: Fetch, now: nat, below: seq<Fetch>)
    requires L1Inv(cfg, c, below) && f.Aligned() && f.writeType == Normal && now < MAX_TIME
    ensures L1Inv(cfg, LoadHit(cfg, c, f, now), below)
  {
    LoadHitLines(cfg, c, f, now);
  }

  lemma StoreMissKeeps(cfg: L1Config, c: L1State, f: Fetch, below: seq<Fetch>)
    requires L1Inv(cfg, c, below) && f.Aligned() && f.writeType == Normal && f.isWrite
    ensures L1Inv(cfg, StoreMiss(c, f), below)
  {
    NoLoads(f.(tlbHit := c.tlbHit));
    QueuedKeeps(c, [f.(tlbHit := c.tlbHit)], below);
  }

  /** When an access hits, misses or fails: a full MSHR on a load is the only cause of failure. */
  lemma AccessOutcome(cfg: L1Config, c: L1State, f: Fetch, now: nat, freshId: nat)
    requires TagInv(cfg.cache, c.lines) && f.Aligned()
    ensures var (status, c') := Access(cfg, c, f, now, freshId);
            && !status.AccessAbort?
            && (status.AccessHit? <==> Hits(c.lines, f.SectorAddr()))
            && (status.AccessFail? <==> !f.isWrite && !Hits(c.lines, f.SectorAddr()) && MshrFull(cfg, c, f))
            && (status.AccessFail? ==> c' == c)
  {
    SectorAddrDecodes(f);
    ProbeRefinesLookup(cfg.cache, c.lines, f.addr, f.sector);
  }

  /** cache_access keeps the L1 invariant. */
  lemma AccessKeeps(cfg: L1Config, c: L1State, f: Fetch, now: nat, freshId: nat, below: seq<Fetch>)
    requires L1Inv(cfg, c, below) && f.Aligned() && f.writeType == Normal && now < MAX_TIME
    ensures L1Inv(cfg, Access(cfg, c, f, now, freshId).1, below)
  {
    AccessOutcome(cfg, c, f, now, freshId);
    var p := TagStore.Probe(cfg.cache, c.lines, f.addr, f.sector);
    if p.Hit? {
      if f.isWrite { StoreHitKeeps(cfg, c, f, now, freshId, below); } else { LoadHitKeeps(cfg, c, f, now, below); }
    } else if f.isWrite {
      StoreMissKeeps(cfg, c, f, below);
    } else if !MshrFull(cfg, c, f) && !p.Abort? && !p.ReservationFail? {
      LoadMissKeeps(cfg, c, f, below);
    }
  }

  /** Sending the head of the miss queue below, with its bank, keeps the invariant. */
  lemma SendKeeps(cfg: L1Config, c: L1State, below: seq<Fetch>, bank: nat)
    requires L1Inv(cfg, c, below) && c.missQ != []
    ensures L1Inv(cfg, c.(missQ := c.missQ[1..]), below + [c.missQ[0].(bank := bank)])
  {
    var sent := c.missQ[0].(bank := bank);
    LoadSectorsSnoc(below, sent);
    assert Sendable(c.missQ[0]) && Sendable(sent);
    assert sent.SectorAddr() == c.missQ[0].SectorAddr();
  }

  /** A load that comes back has an entry; a store that comes back changes nothing in the L1. */
  lemma ReturnHasEntry(cfg: L1Config, c: L1State, below: seq<Fetch>, i: nat)
    requires L1Inv(cfg, c, below) && i < |below|
    ensures !below[i].isWrite ==> below[i].SectorAddr() in c.mshr
    ensures below[i].isWrite ==> L1Inv(cfg, c, below[..i] + below[i + 1..])
  {
    hide TagInv, MshrOk, NoPendingHit, Sendable, LoadSectors;
    assert below == below[..i] + [below[i]] + below[i + 1..];
    LoadSectorsWithout(below[..i], below[i], below[i + 1..]);
    if !below[i].isWrite {
      assert LoadSectors(below)[below[i].SectorAddr()] > 0;
      assert multiset(c.mshr.Keys)[below[i].SectorAddr()] > 0;
    }
  }

  lemma DrainKeepsTransit(t: Mshr.Table, missQ: seq<Fetch>, below: seq<Fetch>, i: nat)
    requires OneInTransit(t, missQ, below) && i < |below| && !below[i].isWrite
    ensures OneInTransit(t - {below[i].SectorAddr()}, missQ, below[..i] + below[i + 1..])
  {
    var sa := below[i].SectorAddr();
    assert below == below[..i] + [below[i]] + below[i + 1..];
    LoadSectorsWithout(below[..i], below[i], below[i + 1..]);
    assert LoadSectors(below)[sa] > 0;
    assert multiset(t.Keys)[sa] > 0;
    assert (t - {sa}).Keys == t.Keys - {sa};
    assert t.Keys - {sa} + {sa} == t.Keys;
    MultisetOfMore(t.Keys - {sa}, sa);
    Cancel(LoadSectors(missQ), LoadSectors(below[..i] + below[i + 1..]), multiset(t.Keys - {sa}), sa);
  }

  lemma Cancel(a: multiset<nat>, b: multiset<nat>, c: multiset<nat>, x: nat)
    requires a + (b + multiset{x}) == c + multiset{x}
    ensures a + b == c
  {
    forall y ensures (a + b)[y] == c[y] {
      assert (a + (b + multiset{x}))[y] == (c + multiset{x})[y];
    }
  }

  lemma RemoveKeepsMshr(cfg: L1Config, t: Mshr.Table, sa: nat)
    requires MshrOk(cfg, t)
    ensures MshrOk(cfg, t - {sa})
  {
    var t' := t - {sa};
    assert t'.Keys == t.Keys - {sa};
    assert |t'| == |t'.Keys| && |t| == |t.Keys|;
  }

  /** The state after a load reply has drained its entry and filled its sector. */
  lemma DrainKeeps(cfg: L1Config, c: L1State, below: seq<Fetch>, i: nat, lines': seq<Line>)
    requires L1Inv(cfg, c, below) && i < |below| && !below[i].isWrite
    requires TagInv(cfg.cache, lines')
    requires forall sa :: Hits(lines', sa) ==> sa == below[i].SectorAddr() || Hits(c.lines, sa)
    ensures L1Inv(cfg, c.(lines := lines', mshr := c.mshr - {below[i].SectorAddr()}), below[..i] + below[i + 1..])
  {
    DrainKeepsTransit(c.mshr, c.missQ, below, i);
    RemoveKeepsMshr(cfg, c.mshr, below[i].SectorAddr());
  }

  /** An MSHR entry exists if and only if exactly one load of its sector is in transit below the L1,
      and no pending sector hits. */
  lemma EntryIffOneInTransit(cfg: L1Config, c: L1State, below: seq<Fetch>, sa: nat)
    requires L1Inv(cfg, c, below)
    ensures (LoadSectors(c.missQ) + LoadSectors(below))[sa] == if sa in c.mshr then 1 else 0
    ensures sa in c.mshr ==> c.mshr[sa] != [] && !Hits(c.lines, sa)
  {
    assert multiset(c.mshr.Keys)[sa] == if sa in c.mshr.Keys then 1 else 0;
  }
}
