/** What the L1 does for its requests: where each goes, what an access changes in the tags, when an
    answer leaves, and what a returned load brings in. */
module L1Service {
  import opened CacheConfig
  import opened TagStore
  import opened MemFetch
  import opened L1Cache
  import Mshr

  /** Is a store hit sent on to the L2: a global one under the write-through policy? */
  predicate Forwards(cfg: L1Config, f: Fetch) { f.isWrite && cfg.policy == LocalWbGlobalWt && f.space == Global }

  /** The answer to a hit; a store that is sent on is marked so. */
  function Answer(cfg: L1Config, f: Fetch, now: nat): Fetch {
    f.(status := L1Hit, l1Ready := now + cfg.hitLatency,
       writeType := if Forwards(cfg, f) then WriteThrough else f.writeType)
  }

  /** What an access sends on: the copy of a store hit, a store that misses, or the first load of a
      sector; a load of a sector that is already on its way waits for it. */
  function SentOn(cfg: L1Config, c: L1State, f: Fetch, freshId: nat, hit: bool): seq<Fetch> {
    if hit && Forwards(cfg, f) then
      [f.(id := freshId, writeType := WriteThroughL2, status := Init, l1Ready := 0, l2Ready := 0)]
    else if hit then []
    else if f.isWrite || f.SectorAddr() !in c.mshr then [f.(tlbHit := c.tlbHit)]
    else []
  }

  /** Is the request refused: a load that misses with a full MSHR? */
  ghost predicate Refused(cfg: L1Config, c: L1State, f: Fetch)
    requires UniqueTags(c.lines)
  {
    !f.isWrite && !Hits(c.lines, f.SectorAddr()) && MshrFull(cfg, c, f)
  }

  /** What becomes of a request that is not refused. */
  ghost predicate Served(cfg: L1Config, c: L1State, f: Fetch, now: nat, freshId: nat, c': L1State)
    requires UniqueTags(c.lines)
  {
    var hit := Hits(c.lines, f.SectorAddr());
    && c'.toSm == c.toSm + (if hit then [Answer(cfg, f, now)] else [])
    && c'.missQ == c.missQ + SentOn(cfg, c, f, freshId, hit)
    && c'.mshr == (if hit || f.isWrite then c.mshr else Mshr.Add(c.mshr, f.SectorAddr(), f))
    && c'.tlbHit == (c.tlbHit || (!hit && SentOn(cfg, c, f, freshId, hit) != []))
  }

  lemma AccessServes(cfg: L1Config, c: L1State, f: Fetch, now: nat, freshId: nat)
    requires TagInv(cfg.cache, c.lines) && f.Aligned()
    ensures var (status, c') := L1Cache.Access(cfg, c, f, now, freshId);
            && (status.AccessFail? <==> Refused(cfg, c, f))
            && (status.AccessHit? <==> Hits(c.lines, f.SectorAddr())) && !status.AccessAbort?
            && (if Refused(cfg, c, f) then c' == c else Served(cfg, c, f, now, freshId, c'))
  {
    hide Settled, Placed, Hits, UniqueTags, MshrFull, TagStore.Access, Probe, StoreHitLines;
    AccessOutcome(cfg, c, f, now, freshId);
  }

  /** An access changes no sector that hits into one that misses, nor the other way round. */
  lemma AccessSameHits(cfg: L1Config, c: L1State, f: Fetch, now: nat, freshId: nat)
    requires TagInv(cfg.cache, c.lines) && f.Aligned() && now < MAX_TIME
    ensures var c' := L1Cache.Access(cfg, c, f, now, freshId).1;
            TagInv(cfg.cache, c'.lines) && SameHits(c.lines, c'.lines)
  {
    AccessOutcome(cfg, c, f, now, freshId);
    if Probe(cfg.cache, c.lines, f.addr, f.sector).Hit? {
      if f.isWrite { StoreHitKeepsHits(cfg, c.lines, f, now); } else { LoadHitLines(cfg, c, f, now); }
    }
  }

  /** Does a store hit mark its sector: under either policy of the source, but not for an unknown one? */
  predicate Marks(cfg: L1Config, f: Fetch) {
    f.isWrite && (cfg.policy.WriteBackPolicy? || (cfg.policy.LocalWbGlobalWt? && !f.space.Share?))
  }

  /** Does a hit refresh its line: a load, or a store that stays in the L1? */
  predicate Refreshes(cfg: L1Config, f: Fetch) { !f.isWrite || (Marks(cfg, f) && !Forwards(cfg, f)) }

  function HitLine(cfg: L1Config, line: Line, f: Fetch, now: nat): Line {
    line.(accessTime := if Refreshes(cfg, f) then now else line.accessTime,
          status := if Marks(cfg, f) && f.sector < |line.status| then line.status[f.sector := Modified]
                    else line.status)
  }

  /** The tags after an access: a hit changes only the line that holds the sector, and a miss nothing. */
  ghost predicate Retagged(cfg: L1Config, c: L1State, f: Fetch, now: nat, lines: seq<Line>)
    requires TagInv(cfg.cache, c.lines)
  {
    if Hits(c.lines, f.SectorAddr()) then
      exists i ::
        0 <= i < |c.lines| && HasTag(c.lines[i], f.addr) && lines == c.lines[i := HitLine(cfg, c.lines[i], f, now)]
    else lines == c.lines
  }

  lemma AccessTags(cfg: L1Config, c: L1State, f: Fetch, now: nat, freshId: nat)
    requires TagInv(cfg.cache, c.lines) && f.Aligned()
    ensures Retagged(cfg, c, f, now, L1Cache.Access(cfg, c, f, now, freshId).1.lines)
  {
    hide IsFirstHolder, IsVictimWay, View, Placed, UniqueTags, Mshr.IsFull;
    AccessOutcome(cfg, c, f, now, freshId);
    SectorAddrDecodes(f);
    if Hits(c.lines, f.SectorAddr()) { HitRetags(cfg, c, f, now, freshId); }
  }

  lemma HitRetags(cfg: L1Config, c: L1State, f: Fetch, now: nat, freshId: nat)
    requires TagInv(cfg.cache, c.lines) && f.Aligned() && Hits(c.lines, f.SectorAddr())
    ensures Retagged(cfg, c, f, now, L1Cache.Access(cfg, c, f, now, freshId).1.lines)
  {
    hide IsFirstHolder, IsVictimWay, View, Placed;
    SectorAddrDecodes(f);
    ProbeIsDefinite(cfg.cache, c.lines, f.addr, f.sector);
    ProbeRefinesLookup(cfg.cache, c.lines, f.addr, f.sector);
    var p := Probe(cfg.cache, c.lines, f.addr, f.sector);
    assert SettledLine(c.lines[p.idx]);
    var touched := TagStore.Access(cfg.cache, c.lines, f.addr, f.sector, now);
    assert touched == c.lines[p.idx := c.lines[p.idx].Touched(now)];
    HitLineIs(cfg, c.lines, touched, f, now, p.idx);
  }

  lemma HitLineIs(cfg: L1Config, lines: seq<Line>, touched: seq<Line>, f: Fetch, now: nat, i: nat)
    requires i < |lines| && f.sector < |lines[i].status| && touched == lines[i := lines[i].Touched(now)]
    ensures lines[i := HitLine(cfg, lines[i], f, now)]
            == (if Marks(cfg, f) then MarkModified(if Refreshes(cfg, f) then touched else lines, i, f.sector)
                else if Refreshes(cfg, f) then touched else lines)
  {
    assert lines[i := lines[i]] == lines;
  }

  // ---------------------------------------------------------------- when answers leave

  function AtLeastOne(n: int): int { if n < 1 then 1 else n }

  /** The cycle of its SM in which an answer leaves: after the hit latency, and not in the cycle of the
      access itself. */
  function LeavesAt(cfg: L1Config, f: Fetch): int { f.l1Ready - cfg.hitLatency + AtLeastOne(cfg.hitLatency) }

  /** After the L1's part of cycle `now`: every answer still to come is due later, and in order. */
  ghost predicate Punctual(cfg: L1Config, q: seq<Fetch>, now: int) {
    && (forall i :: 0 <= i < |q| ==> now < LeavesAt(cfg, q[i]) && q[i].l1Ready <= now + cfg.hitLatency)
    && (forall i, j :: 0 <= i < j < |q| ==> q[i].l1Ready <= q[j].l1Ready)
  }

  lemma AccessPunctual(cfg: L1Config, c: L1State, f: Fetch, now: nat, freshId: nat)
    requires TagInv(cfg.cache, c.lines) && f.Aligned() && Punctual(cfg, c.toSm, now)
    ensures Punctual(cfg, L1Cache.Access(cfg, c, f, now, freshId).1.toSm, now)
  {
    hide Settled, Placed, UniqueTags, Hits, L1Cache.Access, Mshr.Add, SentOn, MshrFull;
    AccessServes(cfg, c, f, now, freshId);
  }

  // ---------------------------------------------------------------- fills

  /** The tag array after the reply f to a load, if an entry waits for it. */
  ghost function FilledLines(cfg: L1Config, c: L1State, f: Fetch, now: nat): (lines: seq<Line>)
    requires TagInv(cfg.cache, c.lines) && f.Aligned() && now < MAX_TIME
    ensures TagInv(cfg.cache, lines)
  {
    FillRefines(cfg.cache, c.lines, f.addr, f.sector, now);
    if f.SectorAddr() in c.mshr then Fill(cfg.cache, c.lines, f.addr, f.sector, now).value else c.lines
  }

  /** The lines that the reply f throws out: none, or the one victim. */
  ghost function ThrownOut(cfg: L1Config, c: L1State, f: Fetch): (lines: set<nat>)
    requires TagInv(cfg.cache, c.lines) && f.Aligned()
    ensures |lines| <= 1
  {
    if f.SectorAddr() in c.mshr then Evicted(cfg.cache, c.lines, f.addr, f.sector) else {}
  }

  /** After the reply its sector hits, and every other sector hits as before, unless its line is the
      victim; as a map from lines to sectors, the cache is the abstract fill of what it was. */
  lemma FilledLinesHit(cfg: L1Config, c: L1State, f: Fetch, now: nat, a: nat)
    requires TagInv(cfg.cache, c.lines) && f.Aligned() && now < MAX_TIME
    ensures var after := FilledLines(cfg, c, f, now);
            && (Hits(after, a) <==> (f.SectorAddr() in c.mshr && a == f.SectorAddr())
                                    || (Hits(c.lines, a) && LineOf(a) !in ThrownOut(cfg, c, f)))
            && View(after) == (if f.SectorAddr() in c.mshr
                               then AbstractFill(View(c.lines), f.addr, f.sector, ThrownOut(cfg, c, f))
                               else View(c.lines))
  {
    FillRefines(cfg.cache, c.lines, f.addr, f.sector, now);
    SectorAddrDecodes(f);
    if f.SectorAddr() in c.mshr && a % SECTOR_SIZE == 0 {
      ViewHasFourSectors(c.lines);
      EvictsOthers(cfg.cache, c.lines, f.addr, f.sector);
      SectorAddrEncodes(a);
      AbstractFillHits(View(c.lines), f.addr, f.sector, ThrownOut(cfg, c, f), LineOf(a), SectorIndex(a));
    }
  }
}
