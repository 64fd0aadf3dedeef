/** What LRU and FIFO mean over whole runs of an L1 tag array: the stamps in the lines are the times
    of the last use and of the arrival of each line, and the victim is the earliest of its set. */
module TagHistory {
  import opened CacheConfig
  import opened TagStore

  /** The operations of an L1 on its tags: an access, a fill, and a store that hits. */
  datatype TagOp =
    | AccessOp(addr: nat, sector: nat, time: nat)
    | FillOp(addr: nat, sector: nat, time: nat)
    | StoreOp(addr: nat, sector: nat)

  /** For every line address, when it was last used and when it last arrived. */
  datatype History = History(used: map<nat, nat>, arrived: map<nat, nat>)

  predicate OpOk(op: TagOp) {
    op.sector < SECTORS && (op.StoreOp? || op.time < MAX_TIME)
  }

  function Apply(cfg: CacheConfig, lines: seq<Line>, op: TagOp): (after: seq<Line>)
    requires Shape(cfg, lines) && OpOk(op)
    ensures Shape(cfg, after)
  {
    match op
    case AccessOp(addr, sector, time) => Access(cfg, lines, addr, sector, time)
    case FillOp(addr, sector, time) =>
      var filled := Fill(cfg, lines, addr, sector, time);
      if filled.Some? then filled.value else lines
    case StoreOp(addr, sector) =>
      var r := Probe(cfg, lines, addr, sector);
      if r.Hit? && r.idx < |lines| then lines[r.idx := lines[r.idx].WithStatus(Modified, sector)] else lines
  }

  /** A line is used when an access hits it or a fill brings in one of its sectors; it arrives when a
      fill finds no line for it. */
  function Recorded(cfg: CacheConfig, lines: seq<Line>, h: History, op: TagOp): History
    requires Shape(cfg, lines) && OpOk(op)
  {
    var t, r := LineOf(op.addr), Probe(cfg, lines, op.addr, op.sector);
    match op
    case AccessOp(_, _, time) => if r.Hit? then h.(used := h.used[t := time]) else h
    case FillOp(_, _, time) =>
      if r.Miss? then History(h.used[t := time], h.arrived[t := time])
      else if r.SectorMiss? then h.(used := h.used[t := time])
      else h
    case StoreOp(_, _) => h
  }

  /** The stamps of the valid lines are what the history says. */
  ghost predicate Stamped(lines: seq<Line>, h: History) {
    forall i :: 0 <= i < |lines| && !lines[i].IsInvalid() ==>
      && lines[i].tag in h.used && h.used[lines[i].tag] == lines[i].accessTime
      && lines[i].tag in h.arrived && h.arrived[lines[i].tag] == lines[i].allocTime
  }

  /** One line changes and only its own history with it. */
  lemma ReplacedStamps(lines: seq<Line>, h: History, idx: nat, line: Line, h': History)
    requires Stamped(lines, h) && idx < |lines| && !line.IsInvalid() && SoleHolder(lines, idx, line.tag)
    requires h' == History(h.used[line.tag := line.accessTime], h.arrived[line.tag := line.allocTime])
    ensures Stamped(lines[idx := line], h')
  {
    var after := lines[idx := line];
    forall i | 0 <= i < |after| && !after[i].IsInvalid()
      ensures after[i].tag in h'.used && h'.used[after[i].tag] == after[i].accessTime
      ensures after[i].tag in h'.arrived && h'.arrived[after[i].tag] == after[i].allocTime
    {
      if i != idx { assert !HasTag(lines[i], line.tag); }
    }
  }

  lemma AccessStamps(cfg: CacheConfig, lines: seq<Line>, h: History, addr: nat, sector: nat, time: nat)
    requires TagInv(cfg, lines) && Stamped(lines, h) && sector < SECTORS && time < MAX_TIME
    ensures var op := AccessOp(addr, sector, time);
            TagInv(cfg, Apply(cfg, lines, op)) && Stamped(Apply(cfg, lines, op), Recorded(cfg, lines, h, op))
  {
    AccessRefines(cfg, lines, addr, sector, time);
    ProbedLineIsSoleHolder(cfg, lines, addr, sector);
    var r := Probe(cfg, lines, addr, sector);
    if r.Hit? {
      var line := lines[r.idx].Touched(time);
      TouchedLine(lines[r.idx], time);
      assert h.arrived[line.tag := line.allocTime] == h.arrived;
      ReplacedStamps(lines, h, r.idx, line, Recorded(cfg, lines, h, AccessOp(addr, sector, time)));
    }
  }

  /** What a fill writes into its line is what the history records. */
  lemma FillIsRecorded(lines: seq<Line>, h: History, r: ProbeResult, t: nat, sector: nat, time: nat)
    requires Stamped(lines, h) && sector < SECTORS && time < MAX_TIME
    requires (r.Hit? || r.SectorMiss? || r.Miss?) && r.idx < |lines| && SettledLine(lines[r.idx])
    requires !r.Miss? ==> HasTag(lines[r.idx], t)
    ensures var line := FilledLine(lines[r.idx], r, t, sector, time);
            && line.tag == t
            && h.used[t := line.accessTime] == (if r.Hit? then h.used else h.used[t := time])
            && h.arrived[t := line.allocTime] == (if r.Miss? then h.arrived[t := time] else h.arrived)
  {
  }

  lemma FillStamps(cfg: CacheConfig, lines: seq<Line>, h: History, addr: nat, sector: nat, time: nat)
    requires TagInv(cfg, lines) && Stamped(lines, h) && sector < SECTORS && time < MAX_TIME
    ensures var op := FillOp(addr, sector, time);
            TagInv(cfg, Apply(cfg, lines, op)) && Stamped(Apply(cfg, lines, op), Recorded(cfg, lines, h, op))
  {
    FillRefines(cfg, lines, addr, sector, time);
    ProbedLineIsSoleHolder(cfg, lines, addr, sector);
    var r, t := Probe(cfg, lines, addr, sector), LineOf(addr);
    FillIsRecorded(lines, h, r, t, sector, time);
    FilledLineIsSettled(lines[r.idx], r, t, sector, time);
    ReplacedStamps(lines, h, r.idx, FilledLine(lines[r.idx], r, t, sector, time),
        Recorded(cfg, lines, h, FillOp(addr, sector, time)));
  }

  lemma StoreStamps(cfg: CacheConfig, lines: seq<Line>, h: History, addr: nat, sector: nat)
    requires TagInv(cfg, lines) && Stamped(lines, h) && sector < SECTORS
    ensures var op := StoreOp(addr, sector);
            TagInv(cfg, Apply(cfg, lines, op)) && Stamped(Apply(cfg, lines, op), Recorded(cfg, lines, h, op))
  {
    ProbedLineIsSoleHolder(cfg, lines, addr, sector);
    var r := Probe(cfg, lines, addr, sector);
    if r.Hit? {
      HitIff(cfg, lines, addr, sector);
      StoreHitRefines(cfg, lines, addr, sector);
      var line := lines[r.idx].WithStatus(Modified, sector);
      assert line.status[sector] == Modified;
      assert h.used[line.tag := line.accessTime] == h.used && h.arrived[line.tag := line.allocTime] == h.arrived;
      ReplacedStamps(lines, h, r.idx, line, h);
    }
  }

  lemma OpStamps(cfg: CacheConfig, lines: seq<Line>, h: History, op: TagOp)
    requires TagInv(cfg, lines) && Stamped(lines, h) && OpOk(op)
    ensures TagInv(cfg, Apply(cfg, lines, op)) && Stamped(Apply(cfg, lines, op), Recorded(cfg, lines, h, op))
  {
    match op {
      case AccessOp(addr, sector, time) => AccessStamps(cfg, lines, h, addr, sector, time);
      case FillOp(addr, sector, time) => FillStamps(cfg, lines, h, addr, sector, time);
      case StoreOp(addr, sector) => StoreStamps(cfg, lines, h, addr, sector);
    }
  }

  function ApplyAll(cfg: CacheConfig, lines: seq<Line>, ops: seq<TagOp>): (after: seq<Line>)
    requires Shape(cfg, lines) && forall k :: 0 <= k < |ops| ==> OpOk(ops[k])
    ensures Shape(cfg, after)
  {
    if ops == [] then lines else Apply(cfg, ApplyAll(cfg, lines, ops[..|ops| - 1]), ops[|ops| - 1])
  }

  function RecordAll(cfg: CacheConfig, lines: seq<Line>, ops: seq<TagOp>): History
    requires Shape(cfg, lines) && forall k :: 0 <= k < |ops| ==> OpOk(ops[k])
  {
    if ops == [] then History(map[], map[])
    else Recorded(cfg, ApplyAll(cfg, lines, ops[..|ops| - 1]), RecordAll(cfg, lines, ops[..|ops| - 1]), ops[|ops| - 1])
  }

  /** Over every run from a fresh array, tags stay distinct and at home and the stamps are right. */
  lemma {:induction false} RunIsStamped(cfg: CacheConfig, lines: seq<Line>, ops: seq<TagOp>)
    requires Shape(cfg, lines) && cfg.assoc >= 1 && !cfg.replacement.OtherReplacement?
    requires forall i :: 0 <= i < |lines| ==> lines[i] == FRESH_LINE
    requires forall k :: 0 <= k < |ops| ==> OpOk(ops[k])
    ensures TagInv(cfg, ApplyAll(cfg, lines, ops)) && Stamped(ApplyAll(cfg, lines, ops), RecordAll(cfg, lines, ops))
    decreases |ops|
  {
    if ops == [] {
      InitialTags(cfg, lines);
    } else {
      RunIsStamped(cfg, lines, ops[..|ops| - 1]);
      OpStamps(cfg, ApplyAll(cfg, lines, ops[..|ops| - 1]), RecordAll(cfg, lines, ops[..|ops| - 1]), ops[|ops| - 1]);
    }
  }

  /** When the next fill would replace line t. */
  ghost predicate Replaces(cfg: CacheConfig, lines: seq<Line>, addr: nat, sector: nat, t: nat)
    requires Settled(cfg, lines) && sector < SECTORS
  {
    t in Evicted(cfg, lines, addr, sector)
  }

  /** LRU replaces the least recently used line of the set, FIFO the one that arrived first, and
      either only when the set is full. */
  lemma VictimIsLeastRecent(cfg: CacheConfig, lines: seq<Line>, h: History, addr: nat, sector: nat, t: nat)
    requires TagInv(cfg, lines) && Stamped(lines, h) && sector < SECTORS && Replaces(cfg, lines, addr, sector, t)
    ensures var first := SetStart(cfg, addr);
            && t in h.used && t in h.arrived
            && forall j {:trigger lines[j]} :: first <= j < first + cfg.assoc ==>
                 && !lines[j].IsInvalid() && lines[j].tag in h.used && lines[j].tag in h.arrived
                 && (cfg.replacement.LRU? ==> h.used[t] <= h.used[lines[j].tag])
                 && (cfg.replacement.FIFO? ==> h.arrived[t] <= h.arrived[lines[j].tag])
  {
    VictimIsOldest(cfg, lines, addr, sector);
  }
}
