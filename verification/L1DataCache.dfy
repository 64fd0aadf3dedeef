/** The l1_data_cache class: cache_access and the miss queue, updating the tag array and the MSHR
    in place. */
module L1DataCaches {
  import opened CacheConfig
  import opened MemFetch
  import opened L1Cache
  import opened TagArrays
  import opened Mshr
  import TagStore

  class L1DataCache {
    const cfg: L1Config
    const tags: TagArray
    const mshrs: MshrTable
    var missQ: seq<Fetch>
    var toSm: seq<Fetch>
    var tlbHit: bool

    ghost predicate Valid()
      reads tags.lines
    {
      && tags.Valid() && tags.cfg == cfg.cache
      && mshrs.entries == cfg.cache.mshrEntries && mshrs.maxMerge == cfg.cache.mshrMaxMerge
    }

    ghost function State(): L1State
      reads this, mshrs, tags.lines
    {
      L1State(tags.lines[..], mshrs.table, missQ, toSm, tlbHit)
    }

    constructor (cfg: L1Config)
      requires GoodSets(cfg.cache)
      ensures Valid() && fresh(tags) && fresh(tags.lines) && fresh(mshrs) && this.cfg == cfg
      ensures State() == L1State(State().lines, map[], [], [], false)
      ensures forall i :: 0 <= i < |State().lines| ==> State().lines[i] == TagStore.FRESH_LINE
    {
      this.cfg := cfg;
      tags := new TagArray(cfg.cache);
      mshrs := new MshrTable(cfg.cache.mshrEntries, cfg.cache.mshrMaxMerge);
      missQ, toSm, tlbHit := [], [], false;
    }

    method Serve(f: Fetch, now: nat)
      modifies this
      ensures missQ == old(missQ) && tlbHit == old(tlbHit) && toSm == old(toSm) + [Served(cfg, f, now)]
    {
      toSm := toSm + [f.(status := L1Hit, l1Ready := cfg.hitLatency + now)];
    }

    method SendOn(f: Fetch)
      modifies this
      ensures toSm == old(toSm) && tlbHit && missQ == old(missQ) + [f.(tlbHit := old(tlbHit))]
    {
      missQ := missQ + [f.(tlbHit := tlbHit)];
      if !tlbHit { tlbHit := true; }
    }

    method StoreHit(f: Fetch, now: nat, freshId: nat, idx: nat)
      requires Valid() && f.sector < SECTORS && idx < tags.lines.Length
      modifies this, tags.lines
      ensures Valid() && State() == L1Cache.StoreHit(cfg, old(State()), f, now, freshId, idx)
    {
      var served := f;
      if cfg.policy.LocalWbGlobalWt? {
        if f.space.Global? {
          served := f.(writeType := WriteThrough);
          missQ := missQ + [WriteThroughCopy(f, freshId)];
          tags.SetModified(idx, f.sector);
        } else if f.space.Local? {
          var _ := tags.Access(LineOf(f.addr), f.sector, now);
          tags.SetModified(idx, f.sector);
        }
      } else if cfg.policy.WriteBackPolicy? {
        var _ := tags.Access(LineOf(f.addr), f.sector, now);
        tags.SetModified(idx, f.sector);
      }
      Serve(served, now);
    }

    /** cache_access. */
    method CacheAccess(f: Fetch, now: nat, freshId: nat) returns (status: AccessStatus)
      requires Valid() && f.sector < SECTORS
      modifies this, mshrs, tags.lines
      ensures Valid() && (status, State()) == L1Cache.Access(cfg, old(State()), f, now, freshId)
    {
      var p := tags.Probe(f.addr, f.sector);
      if p.Abort? {
        return AccessAbort;
      } else if p.ReservationFail? {
        return AccessFail;
      } else if p.Hit? {
        if p.idx >= tags.lines.Length { return AccessAbort; }
        if f.isWrite {
          StoreHit(f, now, freshId, p.idx);
        } else {
          var _ := tags.Access(LineOf(f.addr), f.sector, now);
          Serve(f, now);
        }
        return AccessHit;
      } else if f.isWrite {
        SendOn(f);
        return AccessMiss;
      } else {
        var sa := f.SectorAddr();
        var merged := mshrs.Probe(sa);
        if mshrs.Full(sa) { return AccessFail; }
        mshrs.AddRequest(sa, f);
        if !merged { SendOn(f); }
        return AccessMiss;
      }
    }
  }
}
