/** tag_array and sector_cache_block: sets, ways and sectors with LRU or FIFO replacement.
    The functions here are the specification of the TagArray class; the lemmas show that over
    L1 operations the whole structure is a map from line addresses to sector states. */
module TagStore {
  import opened Wrappers
  import opened CacheConfig
  import opened Words

  /** (unsigned)-1, the initial value of the replacement search. */
  const MAX_TIME: nat := 0xFFFF_FFFF

  datatype Status = Invalid | Reserved | Valid | Modified

  /** A sector_cache_block; write-only time stamps are not kept. */
  datatype Line = Line(tag: nat, status: seq<Status>, readable: seq<bool>, allocTime: nat, accessTime: nat) {
    predicate IsInvalid() { forall k :: 0 <= k < |status| ==> status[k] == Invalid }

    predicate IsReserved() { exists k :: 0 <= k < |status| && status[k] == Reserved }

    /** allocate: re-initialise the line for a new tag with one reserved sector. */
    function Allocate(newTag: nat, time: nat, sector: nat): Line
      requires sector < SECTORS
    {
      Line(newTag, [Invalid, Invalid, Invalid, Invalid][sector := Reserved], [true, true, true, true], time, time)
    }

    function AllocateSector(time: nat, sector: nat): Line
      requires sector < |status| == |readable|
    {
      this.(status := status[sector := Reserved], readable := readable[sector := true], accessTime := time)
    }

    /** fill and set_status write one sector; the fill times are not kept. */
    function WithStatus(s: Status, sector: nat): Line
      requires sector < |status|
    {
      this.(status := status[sector := s])
    }

    function Touched(time: nat): Line { this.(accessTime := time) }
  }

  const FRESH_LINE: Line := Line(0, [Invalid, Invalid, Invalid, Invalid], [true, true, true, true], 0, 0)

  datatype ProbeResult =
    | Hit(idx: nat)
    | HitReserved(idx: nat)
    | SectorMiss(idx: nat)
    | Miss(idx: nat)
    | ReservationFail
    | Abort

  /** Position of a way in the flat line array: set * assoc + way. */
  function Idx(cfg: CacheConfig, set_: nat, way: nat): nat {
    if set_ == 0 then way else cfg.assoc + Idx(cfg, set_ - 1, way)
  }

  lemma {:induction false} IdxIsProduct(cfg: CacheConfig, s: nat, way: nat)
    ensures Idx(cfg, s, way) == s * cfg.assoc + way
    decreases s
  {
    if s > 0 {
      IdxIsProduct(cfg, s - 1, way);
      assert s * cfg.assoc == (s - 1) * cfg.assoc + cfg.assoc;
    }
  }

  /** Number of lines: sets times ways. */
  function LineCount(cfg: CacheConfig): nat { Idx(cfg, cfg.nSets, 0) }

  /** What a way decides on its own when its tag matches. */
  function TagMatch(line: Line, index: nat, tag: nat, sector: nat): Option<ProbeResult>
    requires sector < |line.status| == |line.readable|
  {
    if line.tag != tag then None
    else match line.status[sector]
      case Reserved => Some(HitReserved(index))
      case Valid => Some(Hit(index))
      case Modified => if line.readable[sector] then Some(Hit(index)) else Some(SectorMiss(index))
      case Invalid => if !line.IsInvalid() then Some(SectorMiss(index)) else None
  }

  /** Replacement candidates seen so far in the way loop. */
  datatype Scan = Scan(invalidLine: Option<nat>, validLine: Option<nat>, stamp: nat, allReserved: bool)

  const NO_SCAN: Scan := Scan(None, None, MAX_TIME, true)

  function Stamp(cfg: CacheConfig, line: Line): nat {
    if cfg.replacement.LRU? then line.accessTime else line.allocTime
  }

  /** One iteration of the candidate search. */
  function Consider(cfg: CacheConfig, line: Line, index: nat, sc: Scan): Scan {
    if line.IsReserved() then sc
    else if line.IsInvalid() then sc.(invalidLine := Some(index), allReserved := false)
    else if !cfg.replacement.OtherReplacement? && Stamp(cfg, line) < sc.stamp
      then sc.(validLine := Some(index), stamp := Stamp(cfg, line), allReserved := false)
    else sc.(allReserved := false)
  }

  /** What the search concludes when no way matched. */
  function Conclude(sc: Scan): ProbeResult {
    if sc.allReserved then ReservationFail
    else if sc.invalidLine.Some? then Miss(sc.invalidLine.value)
    else if sc.validLine.Some? then Miss(sc.validLine.value)
    else Abort
  }

  predicate WellSized(lines: seq<Line>) {
    forall i {:trigger lines[i]} :: 0 <= i < |lines| ==> |lines[i].status| == SECTORS && |lines[i].readable| == SECTORS
  }

  /** The part of tag_array_probe from `way` on. */
  function ProbeFrom(cfg: CacheConfig, lines: seq<Line>, first: nat, way: nat, tag: nat, sector: nat,
                     sc: Scan): ProbeResult
    requires WellSized(lines) && sector < SECTORS
    requires way <= cfg.assoc && first + cfg.assoc <= |lines|
    decreases cfg.assoc - way
  {
    if way == cfg.assoc then Conclude(sc)
    else
      var index := first + way;
      var m := TagMatch(lines[index], index, tag, sector);
      if m.Some? then m.value
      else ProbeFrom(cfg, lines, first, way + 1, tag, sector, Consider(cfg, lines[index], index, sc))
  }

  predicate Shape(cfg: CacheConfig, lines: seq<Line>) {
    && GoodSets(cfg)
    && |lines| == LineCount(cfg)
    && WellSized(lines)
  }

  lemma {:induction false} IdxInRange(cfg: CacheConfig, s: nat, sets: nat)
    requires s < sets
    ensures Idx(cfg, s, 0) + cfg.assoc <= Idx(cfg, sets, 0)
    decreases sets
  {
    if s < sets - 1 {
      IdxInRange(cfg, s, sets - 1);
    } else {
      IdxStep(cfg, s, 0);
    }
  }

  lemma {:induction false} IdxStep(cfg: CacheConfig, s: nat, way: nat)
    ensures Idx(cfg, s + 1, way) == cfg.assoc + Idx(cfg, s, way)
  {
  }

  /** First line of the set that addr maps to. */
  function SetStart(cfg: CacheConfig, addr: nat): (first: nat)
    requires GoodSets(cfg)
    ensures first + cfg.assoc <= LineCount(cfg)
  {
    SetIndexInRange(cfg, addr);
    IdxInRange(cfg, SetIndex(cfg, addr), cfg.nSets);
    Idx(cfg, SetIndex(cfg, addr), 0)
  }

  /** tag_array_probe. */
  function Probe(cfg: CacheConfig, lines: seq<Line>, addr: nat, sector: nat): ProbeResult
    requires Shape(cfg, lines) && sector < SECTORS
  {
    ProbeFrom(cfg, lines, SetStart(cfg, addr), 0, LineOf(addr), sector, NO_SCAN)
  }

  /** tag_array_probe_idle from `way` on: the first way without a valid sector. */
  function IdleFrom(cfg: CacheConfig, lines: seq<Line>, first: nat, way: nat): Option<nat>
    requires way <= cfg.assoc && first + cfg.assoc <= |lines|
    decreases cfg.assoc - way
  {
    if way == cfg.assoc then None
    else if lines[first + way].IsInvalid() then Some(first + way)
    else IdleFrom(cfg, lines, first, way + 1)
  }

  function ProbeIdle(cfg: CacheConfig, lines: seq<Line>, addr: nat): Option<nat>
    requires Shape(cfg, lines)
  {
    IdleFrom(cfg, lines, SetStart(cfg, addr), 0)
  }

  /** tag_array_access: a hit refreshes the line's access time. */
  function Access(cfg: CacheConfig, lines: seq<Line>, addr: nat, sector: nat, time: nat): (after: seq<Line>)
    requires Shape(cfg, lines) && sector < SECTORS
    ensures Shape(cfg, after)
  {
    var r := Probe(cfg, lines, addr, sector);
    if (r.Hit? || r.HitReserved?) && r.idx < |lines| then lines[r.idx := lines[r.idx].Touched(time)] else lines
  }

  /** The line that a fill leaves at the probed index. */
  function FilledLine(line: Line, r: ProbeResult, tag: nat, sector: nat, time: nat): Line
    requires |line.status| == |line.readable| == SECTORS && sector < SECTORS
  {
    var target := if r.Miss? then line.Allocate(tag, time, sector)
                  else if r.SectorMiss? then line.AllocateSector(time, sector)
                  else line;
    target.WithStatus(Valid, sector)
  }

  /** tag_array_fill; None when the probe leaves the index unset or aborts. */
  function Fill(cfg: CacheConfig, lines: seq<Line>, addr: nat, sector: nat, time: nat): (after: Option<seq<Line>>)
    requires Shape(cfg, lines) && sector < SECTORS
    ensures after.Some? ==> Shape(cfg, after.value)
  {
    var r := Probe(cfg, lines, addr, sector);
    if r.ReservationFail? || r.Abort? || r.idx >= |lines| then None
    else Some(lines[r.idx := FilledLine(lines[r.idx], r, LineOf(addr), sector, time)])
  }

  // ---------------------------------------------------------------- invariants

  /** Holds between operations of any L1 or L2 run: in particular no sector is RESERVED, and a way
      without a valid sector was never written, so that it still has tag 0. */
  ghost predicate Settled(cfg: CacheConfig, lines: seq<Line>) {
    && Shape(cfg, lines)
    && cfg.assoc >= 1
    && !cfg.replacement.OtherReplacement?
    && forall i :: 0 <= i < |lines| ==> SettledLine(lines[i])
  }

  ghost predicate SettledLine(line: Line) {
    && |line.status| == SECTORS && |line.readable| == SECTORS
    && (forall k :: 0 <= k < SECTORS ==> line.status[k] != Reserved && line.readable[k])
    && line.allocTime < MAX_TIME && line.accessTime < MAX_TIME
    && (line.IsInvalid() ==> line.tag == 0)
  }

  predicate HasTag(line: Line, tag: nat) { !line.IsInvalid() && line.tag == tag }

  /** No two valid lines carry the same tag. */
  ghost predicate UniqueTags(lines: seq<Line>) {
    forall i, j :: 0 <= i < j < |lines| && !lines[i].IsInvalid() && !lines[j].IsInvalid()
                   ==> lines[i].tag != lines[j].tag
  }

  /** Every valid line lies in the set of its own tag, and tags are line addresses. */
  ghost predicate Placed(cfg: CacheConfig, lines: seq<Line>)
    requires GoodSets(cfg)
  {
    forall i :: 0 <= i < |lines| && !lines[i].IsInvalid() ==> AtHome(cfg, lines[i].tag, i)
  }

  /** The L1 invariant. */
  ghost predicate TagInv(cfg: CacheConfig, lines: seq<Line>) {
    Settled(cfg, lines) && UniqueTags(lines) && Placed(cfg, lines)
  }

  // ---------------------------------------------------------------- what a probe means

  /** A line of the set whose stamp no other line of the set undercuts. */
  ghost predicate OldestOfSet(cfg: CacheConfig, lines: seq<Line>, first: nat, idx: nat)
    requires first + cfg.assoc <= |lines|
  {
    && first <= idx < first + cfg.assoc
    && forall i {:trigger lines[i]} :: first <= i < first + cfg.assoc ==> Stamp(cfg, lines[idx]) <= Stamp(cfg, lines[i])
  }

  /** No way of the set before idx holds the tag. */
  ghost predicate IsFirstHolder(lines: seq<Line>, first: nat, idx: nat, tag: nat) {
    forall j {:trigger lines[j]} :: first <= j < idx && j < |lines| ==> !HasTag(lines[j], tag)
  }

  /** The victim: the last way without a valid sector, or the first of the oldest lines. */
  ghost predicate IsVictimWay(cfg: CacheConfig, lines: seq<Line>, first: nat, idx: nat)
    requires first <= idx < first + cfg.assoc <= |lines|
  {
    if lines[idx].IsInvalid() then
      forall j {:trigger lines[j]} :: idx < j < first + cfg.assoc ==> !lines[j].IsInvalid()
    else
      && (forall j {:trigger lines[j]} :: first <= j < first + cfg.assoc ==> !lines[j].IsInvalid())
      && OldestOfSet(cfg, lines, first, idx)
      && (forall j {:trigger lines[j]} :: first <= j < idx ==> Stamp(cfg, lines[idx]) < Stamp(cfg, lines[j]))
  }

  ghost predicate ProbeMeans(cfg: CacheConfig, lines: seq<Line>, first: nat, tag: nat, sector: nat, r: ProbeResult)
    requires WellSized(lines) && sector < SECTORS && first + cfg.assoc <= |lines|
  {
    match r
    case Hit(i) =>
      && first <= i < first + cfg.assoc && HasTag(lines[i], tag) && lines[i].status[sector] in {Valid, Modified}
      && IsFirstHolder(lines, first, i, tag)
    case SectorMiss(i) =>
      && first <= i < first + cfg.assoc && HasTag(lines[i], tag) && lines[i].status[sector] == Invalid
      && IsFirstHolder(lines, first, i, tag)
    case Miss(i) =>
      && first <= i < first + cfg.assoc
      && (forall j {:trigger lines[j]} :: first <= j < first + cfg.assoc ==> !HasTag(lines[j], tag))
      && IsVictimWay(cfg, lines, first, i)
    case _ => false
  }

  /** What the candidate search knows after some ways. */
  ghost predicate ScanMeans(cfg: CacheConfig, lines: seq<Line>, first: nat, way: nat, sc: Scan)
    requires first + way <= |lines|
  {
    && (sc.allReserved <==> way == 0)
    && (sc.invalidLine.Some? ==>
          && first <= sc.invalidLine.value < first + way && lines[sc.invalidLine.value].IsInvalid()
          && (forall j {:trigger lines[j]} :: sc.invalidLine.value < j < first + way ==> !lines[j].IsInvalid()))
    && (sc.invalidLine.None? ==>
          && (forall j {:trigger lines[j]} :: first <= j < first + way ==>
                !lines[j].IsInvalid() && sc.stamp <= Stamp(cfg, lines[j]))
          && (way > 0 ==> sc.validLine.Some? && first <= sc.validLine.value < first + way
                          && Stamp(cfg, lines[sc.validLine.value]) == sc.stamp
                          && (forall j {:trigger lines[j]} :: first <= j < sc.validLine.value ==>
                                sc.stamp < Stamp(cfg, lines[j])))
          && (way == 0 ==> sc.stamp == MAX_TIME))
  }

  /** One more way considered. */
  lemma ConsiderMeans(cfg: CacheConfig, lines: seq<Line>, first: nat, way: nat, sc: Scan)
    requires Settled(cfg, lines) && way < cfg.assoc && first + cfg.assoc <= |lines|
    requires ScanMeans(cfg, lines, first, way, sc)
    ensures ScanMeans(cfg, lines, first, way + 1, Consider(cfg, lines[first + way], first + way, sc))
  {
    var line := lines[first + way];
    assert SettledLine(line) && !line.IsReserved();
  }

  lemma ConcludeMeans(cfg: CacheConfig, lines: seq<Line>, first: nat, tag: nat, sector: nat, sc: Scan)
    requires Settled(cfg, lines) && sector < SECTORS && first + cfg.assoc <= |lines|
    requires ScanMeans(cfg, lines, first, cfg.assoc, sc)
    requires forall j {:trigger lines[j]} :: first <= j < first + cfg.assoc ==> !HasTag(lines[j], tag)
    ensures ProbeMeans(cfg, lines, first, tag, sector, Conclude(sc))
  {
  }

  /** A way whose tag decides, when no way before it holds the tag. */
  lemma MatchMeans(cfg: CacheConfig, lines: seq<Line>, first: nat, way: nat, tag: nat, sector: nat)
    requires Settled(cfg, lines) && sector < SECTORS && way < cfg.assoc && first + cfg.assoc <= |lines|
    requires forall j {:trigger lines[j]} :: first <= j < first + way ==> !HasTag(lines[j], tag)
    ensures var m := TagMatch(lines[first + way], first + way, tag, sector);
            if m.Some? then ProbeMeans(cfg, lines, first, tag, sector, m.value) else !HasTag(lines[first + way], tag)
  {
    assert SettledLine(lines[first + way]);
  }

  lemma {:induction false} ProbeFromMeans(cfg: CacheConfig, lines: seq<Line>, first: nat, way: nat, tag: nat,
                                          sector: nat, sc: Scan)
    requires Settled(cfg, lines) && sector < SECTORS
    requires way <= cfg.assoc && first + cfg.assoc <= |lines|
    requires ScanMeans(cfg, lines, first, way, sc)
    requires forall j {:trigger lines[j]} :: first <= j < first + way ==> !HasTag(lines[j], tag)
    ensures ProbeMeans(cfg, lines, first, tag, sector, ProbeFrom(cfg, lines, first, way, tag, sector, sc))
    decreases cfg.assoc - way
  {
    hide ScanMeans, ProbeMeans, Consider, Conclude, HasTag;
    if way < cfg.assoc {
      MatchMeans(cfg, lines, first, way, tag, sector);
      if TagMatch(lines[first + way], first + way, tag, sector).None? {
        ConsiderMeans(cfg, lines, first, way, sc);
        ProbeFromMeans(cfg, lines, first, way + 1, tag, sector, Consider(cfg, lines[first + way], first + way, sc));
      }
    } else {
      ConcludeMeans(cfg, lines, first, tag, sector, sc);
    }
  }

  /** In a settled array a probe hits, misses a sector, or names a victim of the set: it never
      meets a reserved sector, never fails and never aborts. */
  lemma ProbeIsDefinite(cfg: CacheConfig, lines: seq<Line>, addr: nat, sector: nat)
    requires Settled(cfg, lines) && sector < SECTORS
    ensures ProbeMeans(cfg, lines, SetStart(cfg, addr), LineOf(addr), sector, Probe(cfg, lines, addr, sector))
  {
    ProbeFromMeans(cfg, lines, SetStart(cfg, addr), 0, LineOf(addr), sector, NO_SCAN);
  }

  // ---------------------------------------------------------------- the abstract cache

  /** A cache as a map from line addresses to the states of their four sectors. */
  type AbstractCache = map<nat, seq<Status>>

  ghost function View(lines: seq<Line>): AbstractCache
    requires UniqueTags(lines)
  {
    map i | 0 <= i < |lines| && !lines[i].IsInvalid() :: lines[i].tag := lines[i].status
  }

  const NO_SECTORS: seq<Status> := [Invalid, Invalid, Invalid, Invalid]

  ghost predicate SectorHit(m: AbstractCache, line: nat, sector: nat) {
    line in m && sector < |m[line]| && m[line][sector] in {Valid, Modified}
  }

  /** Setting one sector of a line, which is brought in empty if it is absent. */
  ghost function SetSector(m: AbstractCache, line: nat, sector: nat, s: Status): AbstractCache {
    var before := if line in m then m[line] else NO_SECTORS;
    if sector < |before| then m[line := before[sector := s]] else m
  }

  /** Filling a sector: some lines are evicted, then the sector becomes valid. */
  ghost function AbstractFill(m: AbstractCache, line: nat, sector: nat, evicted: set<nat>): AbstractCache {
    SetSector(m - evicted, line, sector, Valid)
  }

  lemma SameSet(cfg: CacheConfig, addr: nat)
    requires GoodSets(cfg)
    ensures SetStart(cfg, LineOf(addr)) == SetStart(cfg, addr)
  {
    SetIndexOfLine(cfg, addr);
  }

  /** On L1 states the probe is the lookup of the abstract cache. */
  lemma ProbeRefinesLookup(cfg: CacheConfig, lines: seq<Line>, addr: nat, sector: nat)
    requires TagInv(cfg, lines) && sector < SECTORS
    ensures var r, m, t := Probe(cfg, lines, addr, sector), View(lines), LineOf(addr);
            && ProbeMeans(cfg, lines, SetStart(cfg, addr), t, sector, r)
            && (r.Hit? <==> SectorHit(m, t, sector))
            && (r.SectorMiss? <==> t in m && m[t][sector] == Invalid)
            && (r.Miss? <==> t !in m)
            && (r.Hit? || r.SectorMiss? || r.Miss?)
  {
    ProbeIsDefinite(cfg, lines, addr, sector);
    SameSet(cfg, addr);
    var r, m, t := Probe(cfg, lines, addr, sector), View(lines), LineOf(addr);
    if r.Miss? {
      forall i | 0 <= i < |lines| ensures !HasTag(lines[i], t) { }
    } else {
      assert HasTag(lines[r.idx], t) && m[t] == lines[r.idx].status;
    }
  }

  /** Removing a line's tag, if it has one. */
  ghost function TagsOf(line: Line): set<nat> { if line.IsInvalid() then {} else {line.tag} }

  lemma ReplacedUnique(lines: seq<Line>, idx: nat, line: Line)
    requires UniqueTags(lines) && idx < |lines| && !line.IsInvalid()
    requires forall j :: 0 <= j < |lines| && j != idx ==> !HasTag(lines[j], line.tag)
    ensures UniqueTags(lines[idx := line])
  {
    var after := lines[idx := line];
    forall i, j | 0 <= i < j < |after| && !after[i].IsInvalid() && !after[j].IsInvalid()
      ensures after[i].tag != after[j].tag
    {
      if i == idx { assert !HasTag(lines[j], line.tag); }
      if j == idx { assert !HasTag(lines[i], line.tag); }
    }
  }

  lemma ViewEntry(lines: seq<Line>, t: nat) returns (i: nat)
    requires UniqueTags(lines) && t in View(lines)
    ensures i < |lines| && HasTag(lines[i], t) && View(lines)[t] == lines[i].status
  {
    i :| 0 <= i < |lines| && !lines[i].IsInvalid() && lines[i].tag == t;
  }

  lemma LineInView(lines: seq<Line>, i: nat)
    requires UniqueTags(lines) && i < |lines| && !lines[i].IsInvalid()
    ensures lines[i].tag in View(lines) && View(lines)[lines[i].tag] == lines[i].status
  {
  }

  ghost predicate SoleHolder(lines: seq<Line>, idx: nat, tag: nat) {
    forall j :: 0 <= j < |lines| && j != idx ==> !HasTag(lines[j], tag)
  }

  ghost function ReplacedMap(lines: seq<Line>, idx: nat, line: Line): AbstractCache
    requires UniqueTags(lines) && idx < |lines|
  {
    (View(lines) - TagsOf(lines[idx]))[line.tag := line.status]
  }

  lemma ReplacedEntryIsNew(lines: seq<Line>, idx: nat, line: Line, t: nat)
    requires UniqueTags(lines) && idx < |lines| && !line.IsInvalid() && SoleHolder(lines, idx, line.tag)
    requires UniqueTags(lines[idx := line]) && t in View(lines[idx := line])
    ensures t in ReplacedMap(lines, idx, line) && ReplacedMap(lines, idx, line)[t] == View(lines[idx := line])[t]
  {
    var after := lines[idx := line];
    var i := ViewEntry(after, t);
    if i != idx {
      LineInView(lines, i);
      assert t !in TagsOf(lines[idx]);
    }
  }

  lemma ReplacedEntryIsKept(lines: seq<Line>, idx: nat, line: Line, t: nat)
    requires UniqueTags(lines) && idx < |lines| && !line.IsInvalid() && SoleHolder(lines, idx, line.tag)
    requires UniqueTags(lines[idx := line]) && t in ReplacedMap(lines, idx, line)
    ensures t in View(lines[idx := line])
  {
    var after := lines[idx := line];
    if t == line.tag {
      LineInView(after, idx);
    } else {
      var i := ViewEntry(lines, t);
      assert i != idx;
      LineInView(after, i);
    }
  }

  lemma ReplacedView(lines: seq<Line>, idx: nat, line: Line)
    requires UniqueTags(lines) && idx < |lines| && !line.IsInvalid() && SoleHolder(lines, idx, line.tag)
    ensures UniqueTags(lines[idx := line])
    ensures View(lines[idx := line]) == ReplacedMap(lines, idx, line)
  {
    ReplacedUnique(lines, idx, line);
    var m, m' := ReplacedMap(lines, idx, line), View(lines[idx := line]);
    forall t | t in m' ensures t in m && m[t] == m'[t] { ReplacedEntryIsNew(lines, idx, line, t); }
    forall t | t in m ensures t in m' { ReplacedEntryIsKept(lines, idx, line, t); }
    assert m == m';
  }

  ghost predicate AtHome(cfg: CacheConfig, tag: nat, i: int)
    requires GoodSets(cfg)
  {
    tag == LineOf(tag) && SetStart(cfg, tag) <= i < SetStart(cfg, tag) + cfg.assoc
  }

  /** Replacing line idx by a valid line whose tag no other line holds. */
  lemma ReplaceLine(cfg: CacheConfig, lines: seq<Line>, idx: nat, line: Line)
    requires TagInv(cfg, lines) && idx < |lines| && SettledLine(line)
    requires !line.IsInvalid() && AtHome(cfg, line.tag, idx)
    requires SoleHolder(lines, idx, line.tag)
    ensures TagInv(cfg, lines[idx := line])
    ensures View(lines[idx := line]) == ReplacedMap(lines, idx, line)
  {
    ReplacedView(lines, idx, line);
  }

  /** The tags that a fill of addr evicts: none while the set has a free way or already holds the
      line, and otherwise the tag of the single victim. */
  ghost function Evicted(cfg: CacheConfig, lines: seq<Line>, addr: nat, sector: nat): (evicted: set<nat>)
    requires Settled(cfg, lines) && sector < SECTORS
    ensures |evicted| <= 1
  {
    ProbeIsDefinite(cfg, lines, addr, sector);
    var r := Probe(cfg, lines, addr, sector);
    if r.Miss? && !lines[r.idx].IsInvalid() then {lines[r.idx].tag} else {}
  }

  lemma FilledLineIsSettled(line: Line, r: ProbeResult, tag: nat, sector: nat, time: nat)
    requires SettledLine(line) && sector < SECTORS && time < MAX_TIME
    ensures var after := FilledLine(line, r, tag, sector, time);
            && SettledLine(after) && !after.IsInvalid()
            && after.tag == (if r.Miss? then tag else line.tag)
            && after.status == (if r.Miss? then NO_SECTORS else line.status)[sector := Valid]
  {
    assert FilledLine(line, r, tag, sector, time).status[sector] == Valid;
  }

  lemma ProbedLineIsSoleHolder(cfg: CacheConfig, lines: seq<Line>, addr: nat, sector: nat)
    requires TagInv(cfg, lines) && sector < SECTORS
    ensures var r := Probe(cfg, lines, addr, sector);
            && (r.Hit? || r.SectorMiss? || r.Miss?)
            && r.idx < |lines| && AtHome(cfg, LineOf(addr), r.idx)
            && (if r.Miss? then LineOf(addr) !in View(lines) else HasTag(lines[r.idx], LineOf(addr)))
            && Evicted(cfg, lines, addr, sector) == (if r.Miss? then TagsOf(lines[r.idx]) else {})
            && SoleHolder(lines, r.idx, LineOf(addr))
  {
    ProbeRefinesLookup(cfg, lines, addr, sector);
    SameSet(cfg, addr);
    var r := Probe(cfg, lines, addr, sector);
    if r.Miss? {
      forall j | 0 <= j < |lines| && j != r.idx ensures !HasTag(lines[j], LineOf(addr)) {
        if HasTag(lines[j], LineOf(addr)) { LineInView(lines, j); }
      }
    } else {
      OnlyHolder(cfg, lines, r.idx);
    }
  }

  /** tag_array_fill refines the abstract fill, keeps the invariant, and always has an index. */
  lemma FillRefines(cfg: CacheConfig, lines: seq<Line>, addr: nat, sector: nat, time: nat)
    requires TagInv(cfg, lines) && sector < SECTORS && time < MAX_TIME
    ensures var after := Fill(cfg, lines, addr, sector, time);
            && after.Some? && TagInv(cfg, after.value)
            && View(after.value) == AbstractFill(View(lines), LineOf(addr), sector, Evicted(cfg, lines, addr, sector))
  {
    ProbedLineIsSoleHolder(cfg, lines, addr, sector);
    FillAtProbed(cfg, lines, Probe(cfg, lines, addr, sector), LineOf(addr), sector, time);
  }

  lemma FillAtProbed(cfg: CacheConfig, lines: seq<Line>, r: ProbeResult, t: nat, sector: nat, time: nat)
    requires TagInv(cfg, lines) && sector < SECTORS && time < MAX_TIME
    requires (r.Hit? || r.SectorMiss? || r.Miss?) && r.idx < |lines|
    requires AtHome(cfg, t, r.idx) && SoleHolder(lines, r.idx, t)
    requires if r.Miss? then t !in View(lines) else HasTag(lines[r.idx], t)
    ensures var after := lines[r.idx := FilledLine(lines[r.idx], r, t, sector, time)];
            && TagInv(cfg, after)
            && View(after) == AbstractFill(View(lines), t, sector, if r.Miss? then TagsOf(lines[r.idx]) else {})
  {
    FilledLineIsSettled(lines[r.idx], r, t, sector, time);
    ReplaceLine(cfg, lines, r.idx, FilledLine(lines[r.idx], r, t, sector, time));
    FilledMap(lines, r, t, sector, time);
  }

  lemma FilledMap(lines: seq<Line>, r: ProbeResult, t: nat, sector: nat, time: nat)
    requires UniqueTags(lines) && sector < SECTORS && time < MAX_TIME
    requires (r.Hit? || r.SectorMiss? || r.Miss?) && r.idx < |lines| && SettledLine(lines[r.idx])
    requires if r.Miss? then t !in View(lines) else HasTag(lines[r.idx], t)
    ensures ReplacedMap(lines, r.idx, FilledLine(lines[r.idx], r, t, sector, time))
            == AbstractFill(View(lines), t, sector, if r.Miss? then TagsOf(lines[r.idx]) else {})
  {
    FilledLineIsSettled(lines[r.idx], r, t, sector, time);
    if !r.Miss? { LineInView(lines, r.idx); }
  }

  lemma HitIff(cfg: CacheConfig, lines: seq<Line>, addr: nat, sector: nat)
    requires TagInv(cfg, lines) && sector < SECTORS
    ensures Probe(cfg, lines, addr, sector).Hit? <==> SectorHit(View(lines), LineOf(addr), sector)
  {
    ProbeRefinesLookup(cfg, lines, addr, sector);
  }

  ghost predicate FourSectors(m: AbstractCache) { forall t :: t in m ==> |m[t]| == SECTORS }

  lemma ViewHasFourSectors(lines: seq<Line>)
    requires UniqueTags(lines) && WellSized(lines)
    ensures FourSectors(View(lines))
  {
  }

  /** The hits of the abstract cache after a fill. */
  lemma AbstractFillHits(m: AbstractCache, line: nat, sector: nat, evicted: set<nat>, other: nat, k: nat)
    requires FourSectors(m) && sector < SECTORS && k < SECTORS && line !in evicted
    ensures SectorHit(AbstractFill(m, line, sector, evicted), other, k)
            <==> (other == line && k == sector) || (SectorHit(m, other, k) && other !in evicted)
  {
  }

  lemma EvictsOthers(cfg: CacheConfig, lines: seq<Line>, addr: nat, sector: nat)
    requires Settled(cfg, lines) && sector < SECTORS
    ensures LineOf(addr) !in Evicted(cfg, lines, addr, sector)
  {
    ProbeIsDefinite(cfg, lines, addr, sector);
  }

  /** After a fill its sector hits, and every other hit survives unless its line was the victim. */
  lemma FillHits(cfg: CacheConfig, lines: seq<Line>, addr: nat, sector: nat, time: nat, other: nat, k: nat)
    requires TagInv(cfg, lines) && sector < SECTORS && time < MAX_TIME && k < SECTORS
    ensures var after := Fill(cfg, lines, addr, sector, time);
            && after.Some? && TagInv(cfg, after.value)
            && (Probe(cfg, after.value, other, k).Hit?
                <==> (LineOf(other) == LineOf(addr) && k == sector)
                     || (Probe(cfg, lines, other, k).Hit? && LineOf(other) !in Evicted(cfg, lines, addr, sector)))
  {
    FillRefines(cfg, lines, addr, sector, time);
    ViewHasFourSectors(lines);
    EvictsOthers(cfg, lines, addr, sector);
    AbstractFillHits(View(lines), LineOf(addr), sector, Evicted(cfg, lines, addr, sector), LineOf(other), k);
    HitIff(cfg, lines, other, k);
    HitIff(cfg, Fill(cfg, lines, addr, sector, time).value, other, k);
  }

  /** A victim is evicted only from a full set, and no line of that set is older. */
  lemma VictimIsOldest(cfg: CacheConfig, lines: seq<Line>, addr: nat, sector: nat)
    requires Settled(cfg, lines) && sector < SECTORS
    requires Evicted(cfg, lines, addr, sector) != {}
    ensures var first, r := SetStart(cfg, addr), Probe(cfg, lines, addr, sector);
            && r.Miss? && OldestOfSet(cfg, lines, first, r.idx)
            && forall j {:trigger lines[j]} :: first <= j < first + cfg.assoc
                                               ==> !lines[j].IsInvalid() && !HasTag(lines[j], LineOf(addr))
  {
    ProbeIsDefinite(cfg, lines, addr, sector);
  }

  lemma {:induction false} InitialTags(cfg: CacheConfig, lines: seq<Line>)
    requires Shape(cfg, lines) && cfg.assoc >= 1 && !cfg.replacement.OtherReplacement?
    requires forall i :: 0 <= i < |lines| ==> lines[i] == FRESH_LINE
    ensures TagInv(cfg, lines) && View(lines) == map[]
  {
    assert forall i :: 0 <= i < |lines| ==> lines[i].IsInvalid();
  }

  /** A hit that refreshes its line leaves the abstract cache alone. */
  lemma AccessRefines(cfg: CacheConfig, lines: seq<Line>, addr: nat, sector: nat, time: nat)
    requires TagInv(cfg, lines) && sector < SECTORS && time < MAX_TIME
    ensures var after := Access(cfg, lines, addr, sector, time);
            TagInv(cfg, after) && View(after) == View(lines)
  {
    ProbedLineIsSoleHolder(cfg, lines, addr, sector);
    var r := Probe(cfg, lines, addr, sector);
    if r.Hit? {
      TouchedLine(lines[r.idx], time);
      ReplaceLine(cfg, lines, r.idx, lines[r.idx].Touched(time));
      SameStatusSameMap(lines, r.idx, lines[r.idx].Touched(time));
    }
  }

  lemma SameStatusSameMap(lines: seq<Line>, idx: nat, line: Line)
    requires UniqueTags(lines) && idx < |lines| && !lines[idx].IsInvalid()
    requires line.tag == lines[idx].tag && line.status == lines[idx].status
    ensures ReplacedMap(lines, idx, line) == View(lines)
  {
    LineInView(lines, idx);
  }

  lemma TouchedLine(line: Line, time: nat)
    requires SettledLine(line) && !line.IsInvalid() && time < MAX_TIME
    ensures SettledLine(line.Touched(time)) && !line.Touched(time).IsInvalid()
  {
  }

  lemma OnlyHolder(cfg: CacheConfig, lines: seq<Line>, idx: nat)
    requires TagInv(cfg, lines) && idx < |lines| && !lines[idx].IsInvalid()
    ensures SoleHolder(lines, idx, lines[idx].tag)
    ensures lines[idx].tag in View(lines) && View(lines)[lines[idx].tag] == lines[idx].status
  {
  }

  /** Replacing a valid line by one with the same tag and one more modified sector. */
  lemma ModifiedLine(cfg: CacheConfig, lines: seq<Line>, idx: nat, line: Line, sector: nat)
    requires TagInv(cfg, lines) && idx < |lines| && !lines[idx].IsInvalid() && sector < SECTORS
    requires SettledLine(line) && line.tag == lines[idx].tag && line.status == lines[idx].status[sector := Modified]
    ensures TagInv(cfg, lines[idx := line])
    ensures View(lines[idx := line]) == SetSector(View(lines), line.tag, sector, Modified)
  {
    assert line.status[sector] == Modified;
    OnlyHolder(cfg, lines, idx);
    ReplaceLine(cfg, lines, idx, line);
    hide TagInv;
  }

  /** A store hit marks its sector modified and changes nothing else. */
  lemma StoreHitRefines(cfg: CacheConfig, lines: seq<Line>, addr: nat, sector: nat)
    requires TagInv(cfg, lines) && sector < SECTORS
    requires Probe(cfg, lines, addr, sector).Hit?
    ensures var idx := Probe(cfg, lines, addr, sector).idx;
            && idx < |lines|
            && var after := lines[idx := lines[idx].WithStatus(Modified, sector)];
            && TagInv(cfg, after)
            && View(after) == SetSector(View(lines), LineOf(addr), sector, Modified)
  {
    ProbeRefinesLookup(cfg, lines, addr, sector);
    var idx := Probe(cfg, lines, addr, sector).idx;
    ModifiedLine(cfg, lines, idx, lines[idx].WithStatus(Modified, sector), sector);
  }

  /** So does a store hit that also refreshes the line. */
  lemma TouchedStoreRefines(cfg: CacheConfig, lines: seq<Line>, addr: nat, sector: nat, time: nat)
    requires TagInv(cfg, lines) && sector < SECTORS && time < MAX_TIME
    requires Probe(cfg, lines, addr, sector).Hit?
    ensures var idx, touched := Probe(cfg, lines, addr, sector).idx, Access(cfg, lines, addr, sector, time);
            && idx < |touched| == |lines|
            && var after := touched[idx := touched[idx].WithStatus(Modified, sector)];
            && TagInv(cfg, after)
            && View(after) == SetSector(View(lines), LineOf(addr), sector, Modified)
  {
    ProbeRefinesLookup(cfg, lines, addr, sector);
    var idx := Probe(cfg, lines, addr, sector).idx;
    var line := lines[idx].Touched(time).WithStatus(Modified, sector);
    ModifiedLine(cfg, lines, idx, line, sector);
    var touched := Access(cfg, lines, addr, sector, time);
    assert touched[idx := touched[idx].WithStatus(Modified, sector)] == lines[idx := line];
  }

  // ---------------------------------------------------------------- operations of the L2

  /** The L2 write-allocate on an idle line: a line miss re-initialises it, but a sector miss
      only reserves the sector and so keeps whatever tag the idle line had. */
  function StoredLine(line: Line, lineMiss: bool, tag: nat, sector: nat, time: nat): Line
    requires |line.status| == |line.readable| == SECTORS && sector < SECTORS
  {
    var target := if lineMiss then line.Allocate(tag, time, sector) else line.AllocateSector(time, sector);
    target.WithStatus(Modified, sector).Touched(time)
  }

  lemma WriteSettles(cfg: CacheConfig, lines: seq<Line>, i: nat, line: Line)
    requires Settled(cfg, lines) && i < |lines| && SettledLine(line)
    ensures Settled(cfg, lines[i := line])
  {
  }

  /** Fills and hits leave no sector reserved, whatever the tags are, and a fill always has an index. */
  lemma OperationsSettle(cfg: CacheConfig, lines: seq<Line>, addr: nat, sector: nat, time: nat)
    requires Settled(cfg, lines) && sector < SECTORS && time < MAX_TIME
    ensures var after := Fill(cfg, lines, addr, sector, time); after.Some? && Settled(cfg, after.value)
    ensures Settled(cfg, Access(cfg, lines, addr, sector, time))
  {
    ProbeIsDefinite(cfg, lines, addr, sector);
    var r := Probe(cfg, lines, addr, sector);
    FilledLineIsSettled(lines[r.idx], r, LineOf(addr), sector, time);
    WriteSettles(cfg, lines, r.idx, FilledLine(lines[r.idx], r, LineOf(addr), sector, time));
    WriteSettles(cfg, lines, r.idx, lines[r.idx].Touched(time));
  }

  /** So do store hits and the L2's stores on idle lines. */
  lemma StoresSettle(cfg: CacheConfig, lines: seq<Line>, i: nat, lineMiss: bool, tag: nat, sector: nat, time: nat)
    requires Settled(cfg, lines) && i < |lines| && sector < SECTORS && time < MAX_TIME
    ensures Settled(cfg, lines[i := lines[i].WithStatus(Modified, sector)])
    ensures Settled(cfg, lines[i := StoredLine(lines[i], lineMiss, tag, sector, time)])
  {
    StoredLineIsSettled(lines[i], lineMiss, tag, sector, time);
    WriteSettles(cfg, lines, i, StoredLine(lines[i], lineMiss, tag, sector, time));
  }

  lemma StoredLineIsSettled(line: Line, lineMiss: bool, tag: nat, sector: nat, time: nat)
    requires SettledLine(line) && sector < SECTORS && time < MAX_TIME
    ensures var after := StoredLine(line, lineMiss, tag, sector, time);
            && SettledLine(after) && !after.IsInvalid()
            && after.tag == (if lineMiss then tag else line.tag)
  {
    assert StoredLine(line, lineMiss, tag, sector, time).status[sector] == Modified;
  }

  /** The idle search returns the first way of the set without a valid sector, if there is one. */
  lemma {:induction false} IdleMeans(cfg: CacheConfig, lines: seq<Line>, first: nat, way: nat)
    requires way <= cfg.assoc && first + cfg.assoc <= |lines|
    ensures var r := IdleFrom(cfg, lines, first, way);
            var end := if r.Some? then r.value else first + cfg.assoc;
            && (r.Some? ==> first + way <= r.value < first + cfg.assoc && lines[r.value].IsInvalid())
            && forall j {:trigger lines[j]} :: first + way <= j < end ==> !lines[j].IsInvalid()
    decreases cfg.assoc - way
  {
    if way < cfg.assoc && !lines[first + way].IsInvalid() { IdleMeans(cfg, lines, first, way + 1); }
  }

  /** A line-miss store on an idle way keeps the tags in order. */
  lemma LineMissStoreKeepsTags(cfg: CacheConfig, lines: seq<Line>, addr: nat, sector: nat, time: nat)
    requires TagInv(cfg, lines) && sector < SECTORS && time < MAX_TIME
    requires Probe(cfg, lines, addr, sector).Miss? && ProbeIdle(cfg, lines, addr).Some?
    ensures var j := ProbeIdle(cfg, lines, addr).value;
            && j < |lines|
            && TagInv(cfg, lines[j := StoredLine(lines[j], true, LineOf(addr), sector, time)])
  {
    var j, t := ProbeIdle(cfg, lines, addr).value, LineOf(addr);
    IdleMeans(cfg, lines, SetStart(cfg, addr), 0);
    SameSet(cfg, addr);
    ProbeRefinesLookup(cfg, lines, addr, sector);
    StoredLineIsSettled(lines[j], true, t, sector, time);
    forall i | 0 <= i < |lines| && i != j ensures !HasTag(lines[i], t) {
      if HasTag(lines[i], t) { LineInView(lines, i); }
    }
    ReplaceLine(cfg, lines, j, StoredLine(lines[j], true, t, sector, time));
  }

  /** Lines of different sets are apart. */
  lemma SetsAreApart(cfg: CacheConfig, a: nat, b: nat, i: int)
    requires GoodSets(cfg) && SetStart(cfg, a) <= i < SetStart(cfg, a) + cfg.assoc
    requires SetStart(cfg, b) <= i < SetStart(cfg, b) + cfg.assoc
    ensures SetIndex(cfg, a) == SetIndex(cfg, b)
  {
    var x, y := SetIndex(cfg, a), SetIndex(cfg, b);
    if x < y { IdxInRange(cfg, x, y); }
    if y < x { IdxInRange(cfg, y, x); }
  }

  /** The stale tag of the idle way is 0, so it is at home exactly in the set of address 0. */
  lemma StaleTagIsHome(cfg: CacheConfig, lines: seq<Line>, addr: nat, j: nat)
    requires Settled(cfg, lines) && j < |lines| && lines[j].IsInvalid()
    requires SetStart(cfg, addr) <= j < SetStart(cfg, addr) + cfg.assoc
    ensures lines[j].tag == 0
    ensures AtHome(cfg, lines[j].tag, j) <==> SetIndex(cfg, addr) == SetIndex(cfg, 0)
  {
    assert SettledLine(lines[j]);
    assert LineOf(0) == 0;
    if AtHome(cfg, 0, j) { SetsAreApart(cfg, addr, 0, j); }
  }

  lemma AbsentIsHeldByNobody(lines: seq<Line>, j: nat, tag: nat)
    requires UniqueTags(lines) && j < |lines| && lines[j].IsInvalid()
    ensures SoleHolder(lines, j, tag) <==> tag !in View(lines)
  {
    if tag in View(lines) {
      var i := ViewEntry(lines, tag);
      assert i != j && HasTag(lines[i], tag);
    }
    if !SoleHolder(lines, j, tag) {
      var i :| 0 <= i < |lines| && i != j && HasTag(lines[i], tag);
      LineInView(lines, i);
    }
  }

  /** A sector-miss store on an idle way keeps the tags in order exactly when the address maps to the
      set of address 0 and line 0 is not in the cache: idle ways still have tag 0. */
  lemma SectorMissStoreIff(cfg: CacheConfig, lines: seq<Line>, addr: nat, sector: nat, time: nat)
    requires TagInv(cfg, lines) && sector < SECTORS && time < MAX_TIME
    requires Probe(cfg, lines, addr, sector).SectorMiss? && ProbeIdle(cfg, lines, addr).Some?
    ensures var j := ProbeIdle(cfg, lines, addr).value;
            && j < |lines|
            && (TagInv(cfg, lines[j := StoredLine(lines[j], false, LineOf(addr), sector, time)])
                <==> SetIndex(cfg, addr) == SetIndex(cfg, 0) && 0 !in View(lines))
  {
    var j := ProbeIdle(cfg, lines, addr).value;
    IdleMeans(cfg, lines, SetStart(cfg, addr), 0);
    StaleTagIsHome(cfg, lines, addr, j);
    AbsentIsHeldByNobody(lines, j, 0);
    StaleTagDecides(cfg, lines, j, sector, time);
  }

  lemma StaleTagDecides(cfg: CacheConfig, lines: seq<Line>, j: nat, sector: nat, time: nat)
    requires TagInv(cfg, lines) && sector < SECTORS && time < MAX_TIME && j < |lines|
    ensures var tag := lines[j].tag;
            TagInv(cfg, lines[j := StoredLine(lines[j], false, tag, sector, time)])
            <==> AtHome(cfg, tag, j) && SoleHolder(lines, j, tag)
  {
    var line := StoredLine(lines[j], false, lines[j].tag, sector, time);
    StoredLineIsSettled(lines[j], false, lines[j].tag, sector, time);
    if AtHome(cfg, line.tag, j) && SoleHolder(lines, j, line.tag) {
      ReplaceLine(cfg, lines, j, line);
    } else {
      StaleTagBreaks(cfg, lines, j, line);
    }
  }

  lemma StaleTagBreaks(cfg: CacheConfig, lines: seq<Line>, j: nat, line: Line)
    requires Shape(cfg, lines) && j < |lines| && !line.IsInvalid()
    requires !AtHome(cfg, line.tag, j) || !SoleHolder(lines, j, line.tag)
    ensures !TagInv(cfg, lines[j := line])
  {
    var after := lines[j := line];
    assert after[j].tag == line.tag;
    if !SoleHolder(lines, j, line.tag) {
      var i :| 0 <= i < |lines| && i != j && HasTag(lines[i], line.tag);
      assert after[i] == lines[i];
    }
  }

  /** The tags do go wrong: in a fresh one-set, two-way cache, storing to sector 0 and then to
      sector 1 of line 0 leaves line 0 in both ways. */
  lemma SectorMissStoreDuplicatesATag(cfg: CacheConfig, lines: seq<Line>)
    requires cfg.nSets == 1 && cfg.assoc == 2 && cfg.hash.Linear? && cfg.replacement.LRU?
    requires lines == [FRESH_LINE, FRESH_LINE]
    ensures Shape(cfg, lines) && TagInv(cfg, lines)
    ensures Probe(cfg, lines, 0, 0).Miss? && ProbeIdle(cfg, lines, 0) == Some(0)
    ensures var once := lines[0 := StoredLine(lines[0], true, 0, 0, 1)];
            && TagInv(cfg, once)
            && Probe(cfg, once, 0, 1).SectorMiss? && ProbeIdle(cfg, once, 0) == Some(1)
            && !UniqueTags(once[1 := StoredLine(once[1], false, 0, 1, 2)])
  {
    assert FloorLog2(1) == 0 && Pow2(0) == 1;
    IdxStep(cfg, 0, 0);
    assert LineCount(cfg) == 2;
    assert LineOf(0) == 0;
    InitialTags(cfg, lines);
    assert SetIndex(cfg, 0) == 0;
    var a, b := FRESH_LINE, StoredLine(FRESH_LINE, true, 0, 0, 1);
    assert b.status[0] == Modified && b.status[1] == Invalid;
    var once := lines[0 := b];
    assert IdleFrom(cfg, lines, 0, 0) == Some(0);
    IdleMeans(cfg, lines, 0, 0);
    ProbeRefinesLookup(cfg, lines, 0, 0);
    LineMissStoreKeepsTags(cfg, lines, 0, 0, 1);
    LineInView(once, 0);
    ProbeRefinesLookup(cfg, once, 0, 1);
    assert IdleFrom(cfg, once, 0, 1) == Some(1);
    assert IdleFrom(cfg, once, 0, 0) == IdleFrom(cfg, once, 0, 1);
    var c := StoredLine(once[1], false, 0, 1, 2);
    assert c.status[1] == Modified;
    var twice := once[1 := c];
    assert !twice[0].IsInvalid() && !twice[1].IsInvalid() && twice[0].tag == twice[1].tag;
  }
}
