/** What a fill does to later probes, in any settled array, even where stores of the L2 have left one
    line in two ways: the filled sector hits in the very way that was filled, filling it again changes
    nothing, and lines other than the victim's are looked up as before. */
module TagFills {
  import opened Wrappers
  import opened CacheConfig
  import opened TagStore

  /** The first way from `way` on whose tag decides the probe. */
  function FirstMatch(cfg: CacheConfig, lines: seq<Line>, first: nat, way: nat, tag: nat,
                      sector: nat): Option<ProbeResult>
    requires WellSized(lines) && sector < SECTORS
    requires way <= cfg.assoc && first + cfg.assoc <= |lines|
    decreases cfg.assoc - way
  {
    if way == cfg.assoc then None
    else
      var m := TagMatch(lines[first + way], first + way, tag, sector);
      if m.Some? then m else FirstMatch(cfg, lines, first, way + 1, tag, sector)
  }

  lemma {:induction false} ProbeFromMatches(cfg: CacheConfig, lines: seq<Line>, first: nat, way: nat, tag: nat,
                                            sector: nat, sc: Scan)
    requires WellSized(lines) && sector < SECTORS
    requires way <= cfg.assoc && first + cfg.assoc <= |lines|
    ensures var r, m := ProbeFrom(cfg, lines, first, way, tag, sector, sc),
                        FirstMatch(cfg, lines, first, way, tag, sector);
            if m.Some? then r == m.value else !r.Hit? && !r.SectorMiss?
    decreases cfg.assoc - way
  {
    if way < cfg.assoc {
      ProbeFromMatches(cfg, lines, first, way + 1, tag, sector, Consider(cfg, lines[first + way], first + way, sc));
    }
  }

  /** The decisive way of a probe, if there is one. */
  function Match(cfg: CacheConfig, lines: seq<Line>, addr: nat, sector: nat): Option<ProbeResult>
    requires Shape(cfg, lines) && sector < SECTORS
  {
    FirstMatch(cfg, lines, SetStart(cfg, addr), 0, LineOf(addr), sector)
  }

  lemma ProbeIsMatch(cfg: CacheConfig, lines: seq<Line>, addr: nat, sector: nat)
    requires Shape(cfg, lines) && sector < SECTORS
    ensures var r, m := Probe(cfg, lines, addr, sector), Match(cfg, lines, addr, sector);
            if m.Some? then r == m.value else !r.Hit? && !r.SectorMiss?
  {
    ProbeFromMatches(cfg, lines, SetStart(cfg, addr), 0, LineOf(addr), sector, NO_SCAN);
  }

  /** Ways that decide alike are searched alike. */
  lemma {:induction false} SameMatches(cfg: CacheConfig, lines: seq<Line>, after: seq<Line>, first: nat, way: nat,
                                       tag: nat, sector: nat)
    requires WellSized(lines) && WellSized(after) && |after| == |lines| && sector < SECTORS
    requires way <= cfg.assoc && first + cfg.assoc <= |lines|
    requires forall j {:trigger lines[j]} :: first + way <= j < first + cfg.assoc ==>
               TagMatch(after[j], j, tag, sector) == TagMatch(lines[j], j, tag, sector)
    ensures FirstMatch(cfg, after, first, way, tag, sector) == FirstMatch(cfg, lines, first, way, tag, sector)
    decreases cfg.assoc - way
  {
    if way < cfg.assoc {
      assert lines[first + way] == lines[first + way];
      SameMatches(cfg, lines, after, first, way + 1, tag, sector);
    }
  }

  /** When line i is replaced by one that decides, and nothing before it decides, it is the first. */
  lemma {:induction false} MatchesAt(cfg: CacheConfig, lines: seq<Line>, line: Line, first: nat, way: nat, i: nat,
                                     tag: nat, sector: nat)
    requires WellSized(lines) && |line.status| == |line.readable| == SECTORS && sector < SECTORS
    requires way <= cfg.assoc && first + cfg.assoc <= |lines| && first + way <= i < first + cfg.assoc
    requires TagMatch(line, i, tag, sector).Some?
    requires var m := FirstMatch(cfg, lines, first, way, tag, sector); m.Some? ==> AtLeast(m.value, i)
    ensures FirstMatch(cfg, lines[i := line], first, way, tag, sector) == TagMatch(line, i, tag, sector)
    decreases cfg.assoc - way
  {
    if first + way < i { MatchesAt(cfg, lines, line, first, way + 1, i, tag, sector); }
  }

  /** A probe decided at way i or behind it. */
  predicate AtLeast(r: ProbeResult, i: nat) {
    match r
    case Hit(j) => i <= j
    case HitReserved(j) => i <= j
    case SectorMiss(j) => i <= j
    case _ => false
  }

  lemma FilledDecides(line: Line, r: ProbeResult, i: nat, tag: nat, sector: nat, time: nat, k: nat)
    requires SettledLine(line) && sector < SECTORS && time < MAX_TIME && k < SECTORS
    requires r == Miss(i) || ((r == Hit(i) || r == SectorMiss(i)) && HasTag(line, tag))
    ensures var after := FilledLine(line, r, tag, sector, time);
            && |after.status| == |after.readable| == SECTORS
            && TagMatch(after, i, tag, k)
               == (if k == sector then Some(Hit(i))
                   else if r.Miss? then Some(SectorMiss(i)) else TagMatch(line, i, tag, k))
            && (!r.Miss? ==> TagMatch(line, i, tag, k).Some?)
  {
    FilledLineIsSettled(line, r, tag, sector, time);
    assert line.status[k] != Reserved && line.readable[k];
  }

  /** After a fill, the sector hits in the way that the fill's own probe found. */
  lemma FilledHits(cfg: CacheConfig, lines: seq<Line>, addr: nat, sector: nat, time: nat)
    requires Settled(cfg, lines) && sector < SECTORS && time < MAX_TIME
    ensures var r, after := Probe(cfg, lines, addr, sector), Fill(cfg, lines, addr, sector, time);
            && (r.Hit? || r.SectorMiss? || r.Miss?)
            && after.Some? && Settled(cfg, after.value)
            && Probe(cfg, after.value, addr, sector) == Hit(r.idx)
  {
    OperationsSettle(cfg, lines, addr, sector, time);
    ProbeIsDefinite(cfg, lines, addr, sector);
    var r := Probe(cfg, lines, addr, sector);
    var line := FilledLine(lines[r.idx], r, LineOf(addr), sector, time);
    ProbeIsMatch(cfg, lines, addr, sector);
    SectorsDecideAlike(cfg, lines, SetStart(cfg, addr), 0, LineOf(addr), sector, sector);
    FilledDecides(lines[r.idx], r, r.idx, LineOf(addr), sector, time, sector);
    MatchesAt(cfg, lines, line, SetStart(cfg, addr), 0, r.idx, LineOf(addr), sector);
    ProbeIsMatch(cfg, lines[r.idx := line], addr, sector);
  }

  /** Filling a sector that was just filled changes nothing. */
  lemma FillTwice(cfg: CacheConfig, lines: seq<Line>, addr: nat, sector: nat, time: nat)
    requires Settled(cfg, lines) && sector < SECTORS && time < MAX_TIME
    ensures var after := Fill(cfg, lines, addr, sector, time);
            after.Some? && Shape(cfg, after.value) && Fill(cfg, after.value, addr, sector, time) == after
  {
    FilledHits(cfg, lines, addr, sector, time);
    ProbeIsDefinite(cfg, lines, addr, sector);
    var r := Probe(cfg, lines, addr, sector);
    var after := Fill(cfg, lines, addr, sector, time).value;
    FilledLineIsSettled(lines[r.idx], r, LineOf(addr), sector, time);
    assert after[r.idx].status[sector] == Valid;
    assert FilledLine(after[r.idx], Hit(r.idx), LineOf(addr), sector, time) == after[r.idx];
    assert after[r.idx := after[r.idx]] == after;
  }

  /** The line that a fill throws out. */
  ghost predicate IsVictim(cfg: CacheConfig, lines: seq<Line>, addr: nat, sector: nat, line: nat)
    requires Settled(cfg, lines) && sector < SECTORS
  {
    line in Evicted(cfg, lines, addr, sector)
  }

  lemma OtherLineAsBefore(cfg: CacheConfig, lines: seq<Line>, addr: nat, sector: nat, time: nat, other: nat, k: nat)
    requires Settled(cfg, lines) && sector < SECTORS && time < MAX_TIME && k < SECTORS
    requires LineOf(other) != LineOf(addr) && !IsVictim(cfg, lines, addr, sector, LineOf(other))
    ensures var after := Fill(cfg, lines, addr, sector, time);
            after.Some? && Match(cfg, after.value, other, k) == Match(cfg, lines, other, k)
  {
    FilledHits(cfg, lines, addr, sector, time);
    ProbeIsDefinite(cfg, lines, addr, sector);
    var r, after := Probe(cfg, lines, addr, sector), Fill(cfg, lines, addr, sector, time).value;
    FilledLineIsSettled(lines[r.idx], r, LineOf(addr), sector, time);
    var t := LineOf(other);
    forall j {:trigger lines[j]} | 0 <= j < |lines| ensures TagMatch(after[j], j, t, k) == TagMatch(lines[j], j, t, k) {
      if j == r.idx { assert SettledLine(lines[j]) && lines[j].status[k] != Reserved; }
    }
    SameMatches(cfg, lines, after, SetStart(cfg, other), 0, t, k);
  }

  lemma OwnLineAsBefore(cfg: CacheConfig, lines: seq<Line>, addr: nat, sector: nat, time: nat, k: nat)
    requires Settled(cfg, lines) && sector < SECTORS && time < MAX_TIME && k < SECTORS && k != sector
    ensures var after := Fill(cfg, lines, addr, sector, time);
            after.Some? && (Probe(cfg, after.value, addr, k).Hit? <==> Probe(cfg, lines, addr, k).Hit?)
  {
    FilledHits(cfg, lines, addr, sector, time);
    ProbeIsDefinite(cfg, lines, addr, sector);
    ProbeIsDefinite(cfg, lines, addr, k);
    var r, t := Probe(cfg, lines, addr, sector), LineOf(addr);
    var first, line := SetStart(cfg, addr), FilledLine(lines[r.idx], r, t, sector, time);
    ProbeIsMatch(cfg, lines, addr, k);
    ProbeIsMatch(cfg, lines, addr, sector);
    ProbeIsMatch(cfg, lines[r.idx := line], addr, k);
    FilledDecides(lines[r.idx], r, r.idx, t, sector, time, k);
    SectorsDecideAlike(cfg, lines, first, 0, t, sector, k);
    MatchesAt(cfg, lines, line, first, 0, r.idx, t, k);
    if !r.Miss? {
      MatchesAt(cfg, lines, lines[r.idx], first, 0, r.idx, t, k);
      assert lines[r.idx := lines[r.idx]] == lines;
    }
  }

  /** In a settled array the way that decides does not depend on the sector. */
  lemma {:induction false} SectorsDecideAlike(cfg: CacheConfig, lines: seq<Line>, first: nat, way: nat, tag: nat,
                                              sector: nat, k: nat)
    requires Settled(cfg, lines) && sector < SECTORS && k < SECTORS
    requires way <= cfg.assoc && first + cfg.assoc <= |lines|
    ensures var m, n := FirstMatch(cfg, lines, first, way, tag, sector), FirstMatch(cfg, lines, first, way, tag, k);
            && m.Some? == n.Some?
            && (m.Some? ==> (m.value.Hit? || m.value.SectorMiss?) && (n.value.Hit? || n.value.SectorMiss?)
                            && m.value.idx == n.value.idx)
    decreases cfg.assoc - way
  {
    if way < cfg.assoc {
      var line := lines[first + way];
      assert SettledLine(line);
      SectorsDecideAlike(cfg, lines, first, way + 1, tag, sector, k);
    }
  }

  /** After a fill the filled sector hits, and every other sector hits as before, unless its line is
      the one that the fill threw out. */
  lemma FillKeepsOthers(cfg: CacheConfig, lines: seq<Line>, addr: nat, sector: nat, time: nat, other: nat, k: nat)
    requires Settled(cfg, lines) && sector < SECTORS && time < MAX_TIME && k < SECTORS
    requires !IsVictim(cfg, lines, addr, sector, LineOf(other))
    ensures var after := Fill(cfg, lines, addr, sector, time);
            && after.Some?
            && (Probe(cfg, after.value, other, k).Hit?
                <==> (LineOf(other) == LineOf(addr) && k == sector) || Probe(cfg, lines, other, k).Hit?)
  {
    FilledHits(cfg, lines, addr, sector, time);
    var after := Fill(cfg, lines, addr, sector, time).value;
    if LineOf(other) != LineOf(addr) {
      OtherLineAsBefore(cfg, lines, addr, sector, time, other, k);
      ProbeIsMatch(cfg, lines, other, k);
      ProbeIsMatch(cfg, after, other, k);
    } else {
      SameLine(cfg, lines, other, addr, k);
      SameLine(cfg, after, other, addr, k);
      if k != sector { OwnLineAsBefore(cfg, lines, addr, sector, time, k); }
    }
  }

  /** Addresses of one line are probed alike. */
  lemma SameLine(cfg: CacheConfig, lines: seq<Line>, a: nat, b: nat, sector: nat)
    requires Shape(cfg, lines) && sector < SECTORS && LineOf(a) == LineOf(b)
    ensures Probe(cfg, lines, a, sector) == Probe(cfg, lines, b, sector)
  {
    SameSet(cfg, a);
    SameSet(cfg, b);
  }

  // ---------------------------------------------------------------- stores into idle ways

  /** A line that is not the first to decide may be replaced by one that decides nothing. */
  lemma {:induction false} StillMatches(cfg: CacheConfig, lines: seq<Line>, line: Line, first: nat, way: nat, j: nat,
                                        tag: nat, sector: nat)
    requires WellSized(lines) && |line.status| == |line.readable| == SECTORS && sector < SECTORS
    requires way <= cfg.assoc && first + cfg.assoc <= |lines| && j < |lines|
    requires var m := FirstMatch(cfg, lines, first, way, tag, sector);
             m.Some? && m.value.SectorMiss? && m.value.idx != j && (line.tag == tag ==> m.value.idx < j)
    ensures FirstMatch(cfg, lines[j := line], first, way, tag, sector)
            == FirstMatch(cfg, lines, first, way, tag, sector)
    decreases cfg.assoc - way
  {
    if way < cfg.assoc {
      if TagMatch(lines[first + way], first + way, tag, sector).None? {
        MatchIsBehind(cfg, lines, first, way + 1, tag, sector);
        StillMatches(cfg, lines, line, first, way + 1, j, tag, sector);
      }
    }
  }

  lemma {:induction false} MatchIsBehind(cfg: CacheConfig, lines: seq<Line>, first: nat, way: nat, tag: nat,
                                         sector: nat)
    requires WellSized(lines) && sector < SECTORS
    requires way <= cfg.assoc && first + cfg.assoc <= |lines|
    ensures var m := FirstMatch(cfg, lines, first, way, tag, sector);
            m.Some? && m.value.SectorMiss? ==> first + way <= m.value.idx < first + cfg.assoc
    decreases cfg.assoc - way
  {
    if way < cfg.assoc { MatchIsBehind(cfg, lines, first, way + 1, tag, sector); }
  }

  lemma StoredDecides(line: Line, lineMiss: bool, j: nat, tag: nat, sector: nat, time: nat)
    requires SettledLine(line) && sector < SECTORS && time < MAX_TIME
    ensures var after := StoredLine(line, lineMiss, tag, sector, time);
            && |after.status| == |after.readable| == SECTORS
            && (after.tag == tag ==> TagMatch(after, j, tag, sector) == Some(Hit(j)))
  {
    StoredLineIsSettled(line, lineMiss, tag, sector, time);
    assert StoredLine(line, lineMiss, tag, sector, time).status[sector] == Modified;
  }

  /** A store written into an idle way can be found afterwards if and only if its line was not cached,
      or is line 0 and the idle way comes before the one that holds it: on a sector miss the idle
      way keeps its tag, which is 0. */
  lemma IdleStoreHitsIff(cfg: CacheConfig, lines: seq<Line>, addr: nat, sector: nat, time: nat)
    requires Settled(cfg, lines) && sector < SECTORS && time < MAX_TIME
    requires !Probe(cfg, lines, addr, sector).Hit? && ProbeIdle(cfg, lines, addr).Some?
    ensures var r, j := Probe(cfg, lines, addr, sector), ProbeIdle(cfg, lines, addr).value;
            && (r.Miss? || r.SectorMiss?) && j < |lines|
            && var after := lines[j := StoredLine(lines[j], r.Miss?, LineOf(addr), sector, time)];
            && Shape(cfg, after)
            && (Probe(cfg, after, addr, sector).Hit? <==> r.Miss? || (LineOf(addr) == 0 && j < r.idx))
  {
    var r, j, t := Probe(cfg, lines, addr, sector), ProbeIdle(cfg, lines, addr).value, LineOf(addr);
    var first := SetStart(cfg, addr);
    ProbeIsDefinite(cfg, lines, addr, sector);
    IdleMeans(cfg, lines, first, 0);
    ProbeIsMatch(cfg, lines, addr, sector);
    SectorsDecideAlike(cfg, lines, first, 0, t, sector, sector);
    StoresSettle(cfg, lines, j, r.Miss?, t, sector, time);
    StoredDecides(lines[j], r.Miss?, j, t, sector, time);
    assert SettledLine(lines[j]);
    var line := StoredLine(lines[j], r.Miss?, t, sector, time);
    ProbeIsMatch(cfg, lines[j := line], addr, sector);
    if r.Miss? || (t == 0 && j < r.idx) {
      MatchesAt(cfg, lines, line, first, 0, j, t, sector);
    } else {
      StillMatches(cfg, lines, line, first, 0, j, t, sector);
    }
  }
}
