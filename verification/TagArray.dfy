/** The tag_array class: a flat array of lines, probed by a loop over the ways of one set. */
module TagArrays {
  import opened Wrappers
  import opened CacheConfig
  import opened TagStore

  class TagArray {
    const cfg: CacheConfig
    const lines: array<Line>

    ghost predicate Valid()
      reads lines
    {
      Shape(cfg, lines[..])
    }

    constructor (cfg: CacheConfig)
      requires GoodSets(cfg)
      ensures Valid() && fresh(lines) && this.cfg == cfg
      ensures forall i :: 0 <= i < lines.Length ==> lines[i] == FRESH_LINE
    {
      this.cfg := cfg;
      lines := new Line[LineCount(cfg)](_ => FRESH_LINE);
    }

    /** tag_array_probe: the first way that matches decides; otherwise the last free way or the
        oldest line of the set is the replacement candidate. */
    method Probe(addr: nat, sector: nat) returns (r: ProbeResult)
      requires Valid() && sector < SECTORS
      ensures r == TagStore.Probe(cfg, lines[..], addr, sector)
    {
      var first, tag := SetStart(cfg, addr), LineOf(addr);
      var invalidLine: Option<nat>, validLine: Option<nat>, stamp, allReserved := None, None, MAX_TIME, true;
      var way := 0;
      while way < cfg.assoc
        invariant way <= cfg.assoc
        invariant ProbeFrom(cfg, lines[..], first, way, tag, sector, Scan(invalidLine, validLine, stamp, allReserved))
                  == TagStore.Probe(cfg, lines[..], addr, sector)
      {
        var index := first + way;
        var line := lines[index];
        assert line == lines[..][index];
        if line.tag == tag {
          if line.status[sector] == Reserved {
            return HitReserved(index);
          } else if line.status[sector] == TagStore.Status.Valid {
            return Hit(index);
          } else if line.status[sector] == Modified {
            return if line.readable[sector] then Hit(index) else SectorMiss(index);
          } else if !line.IsInvalid() {
            return SectorMiss(index);
          }
        }
        if !line.IsReserved() {
          allReserved := false;
          if line.IsInvalid() {
            invalidLine := Some(index);
          } else if cfg.replacement.LRU? {
            if line.accessTime < stamp { stamp, validLine := line.accessTime, Some(index); }
          } else if cfg.replacement.FIFO? {
            if line.allocTime < stamp { stamp, validLine := line.allocTime, Some(index); }
          }
        }
        way := way + 1;
      }
      r := Conclude(Scan(invalidLine, validLine, stamp, allReserved));
    }

    /** tag_array_probe_idle. */
    method ProbeIdle(addr: nat) returns (r: Option<nat>)
      requires Valid()
      ensures r == TagStore.ProbeIdle(cfg, lines[..], addr)
    {
      var first := SetStart(cfg, addr);
      var way := 0;
      while way < cfg.assoc
        invariant way <= cfg.assoc
        invariant IdleFrom(cfg, lines[..], first, way) == TagStore.ProbeIdle(cfg, lines[..], addr)
      {
        if lines[first + way].IsInvalid() { return Some(first + way); }
        way := way + 1;
      }
      r := None;
    }

    /** tag_array_access. */
    method Access(addr: nat, sector: nat, time: nat) returns (r: ProbeResult)
      requires Valid() && sector < SECTORS
      modifies lines
      ensures Valid() && r == old(TagStore.Probe(cfg, lines[..], addr, sector))
      ensures lines[..] == TagStore.Access(cfg, old(lines[..]), addr, sector, time)
    {
      r := Probe(addr, sector);
      if (r.Hit? || r.HitReserved?) && r.idx < lines.Length {
        lines[r.idx] := lines[r.idx].Touched(time);
      }
    }

    /** tag_array_fill; false when the probe left no index to fill. */
    method Fill(addr: nat, sector: nat, time: nat) returns (ok: bool)
      requires Valid() && sector < SECTORS
      modifies lines
      ensures Valid()
      ensures var after := TagStore.Fill(cfg, old(lines[..]), addr, sector, time);
              ok == after.Some? && lines[..] == (if ok then after.value else old(lines[..]))
    {
      var r := Probe(addr, sector);
      ok := !r.ReservationFail? && !r.Abort? && r.idx < lines.Length;
      if ok {
        if r.Miss? {
          lines[r.idx] := lines[r.idx].Allocate(LineOf(addr), time, sector);
        } else if r.SectorMiss? {
          lines[r.idx] := lines[r.idx].AllocateSector(time, sector);
        }
        lines[r.idx] := lines[r.idx].WithStatus(TagStore.Status.Valid, sector);
      }
    }

    /** block->set_status(MODIFIED, sector). */
    method SetModified(idx: nat, sector: nat)
      requires Valid() && idx < lines.Length && sector < SECTORS
      modifies lines
      ensures Valid() && lines[..] == old(lines[..])[idx := old(lines[idx]).WithStatus(Modified, sector)]
    {
      lines[idx] := lines[idx].WithStatus(Modified, sector);
    }
  }
}
