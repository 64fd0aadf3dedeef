/** The l2_data_cache class: cache_access, the drains and the reply loops, updating the tag array,
    the MSHR and the queues in place. */
module L2DataCaches {
  import opened Wrappers
  import opened CacheConfig
  import opened MemFetch
  import opened L2Cache
  import opened TagArrays
  import opened Mshr
  import TagStore

  class L2DataCache {
    const cfg: L2Config
    const tags: TagArray
    const mshrs: MshrTable
    var toSms: seq<seq<Fetch>>
    var l1ToL2: seq<Fetch>

    ghost predicate Valid()
      reads this, tags.lines
    {
      && tags.Valid() && tags.cfg == cfg.cache && |toSms| == REPLY_QUEUES
      && mshrs.entries == cfg.cache.mshrEntries && mshrs.maxMerge == cfg.cache.mshrMaxMerge
    }

    ghost function State(): L2State
      reads this, mshrs, tags.lines
    {
      L2State(tags.lines[..], mshrs.table, toSms, l1ToL2)
    }

    constructor (cfg: L2Config)
      requires GoodSets(cfg.cache)
      ensures Valid() && fresh(tags) && fresh(tags.lines) && fresh(mshrs) && this.cfg == cfg
      ensures State() == L2State(State().lines, map[], [[], [], []], [])
      ensures forall i :: 0 <= i < |State().lines| ==> State().lines[i] == TagStore.FRESH_LINE
    {
      this.cfg := cfg;
      tags := new TagArray(cfg.cache);
      mshrs := new MshrTable(cfg.cache.mshrEntries, cfg.cache.mshrMaxMerge);
      toSms, l1ToL2 := [[], [], []], [];
    }

    /** send_l2_to_sm */
    method SendL2ToSm(f: Fetch, now: nat, latency: nat)
      requires Valid()
      modifies this
      ensures Valid() && State() == SendToSm(cfg, old(State()), f, now, latency)
    {
      var ready := f.(l2Ready := now + latency, status := L2Hit);
      if latency == cfg.hitLatency {
        toSms := toSms[0 := toSms[0] + [ready]];
      } else if latency == cfg.missLatency {
        toSms := toSms[1 := toSms[1] + [ready]];
      } else if latency == cfg.tlbLatency {
        toSms := toSms[2 := toSms[2] + [ready]];
      }
    }

    method StoreHit(f: Fetch, now: nat, idx: nat)
      requires Valid() && f.sector < SECTORS && idx < tags.lines.Length
      modifies this, tags.lines
      ensures Valid() && L2Cache.StoreHit(cfg, old(State()), f, now, idx) == Accessed(L2AccessHit, State(), None)
    {
      var _ := tags.Access(LineOf(f.addr), f.sector, now);
      tags.SetModified(idx, f.sector);
      if !Silent(f) { SendL2ToSm(f, now, if f.tlbHit then cfg.hitLatency else cfg.tlbLatency); }
    }

    method StoreMiss(f: Fetch, now: nat, lineMiss: bool) returns (status: L2Status, miss: Option<Fetch>)
      requires Valid() && f.sector < SECTORS
      modifies this, tags.lines
      ensures Valid() && L2Cache.StoreMiss(cfg, old(State()), f, now, lineMiss) == Accessed(status, State(), miss)
    {
      var j := tags.ProbeIdle(LineOf(f.addr));
      miss := None;
      if j.Some? && j.value < tags.lines.Length {
        var line := tags.lines[j.value];
        line := if lineMiss then line.Allocate(LineOf(f.addr), now, f.sector) else line.AllocateSector(now, f.sector);
        tags.lines[j.value] := line.WithStatus(TagStore.Status.Modified, f.sector).Touched(now);
        if !Silent(f) { miss := Some(f.(status := L2Hit)); }
        status := L2AccessHit;
      } else {
        if !Silent(f) { miss := Some(f.(status := L2Miss)); }
        status := L2AccessMiss;
      }
    }

    ghost predicate Reached(o: Result<L2State, L2Fault>, e: Option<L2Fault>)
      reads this, mshrs, tags.lines
    {
      match o
      case Ok(s) => e.None? && State() == s
      case Err(x) => e == Some(x)
    }

    /** cache_access */
    method CacheAccess(f: Fetch, now: nat) returns (e: Option<L2Fault>, status: L2Status, miss: Option<Fetch>)
      requires Valid()
      modifies this, mshrs, tags.lines
      ensures Valid()
      ensures match L2Cache.Access(cfg, old(State()), f, now)
              case Ok(r) => e.None? && r == Accessed(status, State(), miss)
              case Err(x) => e == Some(x)
    {
      e, status, miss := None, L2AccessFail, None;
      if f.sector >= SECTORS { return Some(BadSector), status, miss; }
      var p := tags.Probe(f.addr, f.sector);
      if p.Abort? || p.HitReserved? || (p.Hit? && p.idx >= tags.lines.Length) {
        return Some(ProbeAborted), status, miss;
      }
      if p.ReservationFail? { return; }
      if p.Hit? {
        status := L2AccessHit;
        if f.isWrite {
          StoreHit(f, now, p.idx);
        } else {
          var _ := tags.Access(LineOf(f.addr), f.sector, now);
          SendL2ToSm(f, now, cfg.hitLatency);
        }
      } else if f.isWrite {
        status, miss := StoreMiss(f, now, p.Miss?);
      } else {
        if mshrs.Full(f.SectorAddr()) { return; }
        mshrs.AddRequest(f.SectorAddr(), f);
        status, miss := L2AccessMiss, Some(f.(status := L2Miss));
      }
    }

    /** The loop that empties an MSHR entry into the tag array. */
    method Drain(sa: nat, now: nat) returns (e: Option<L2Fault>)
      requires Valid()
      modifies mshrs, tags.lines
      ensures Valid() && Reached(DrainFills(cfg, old(State()), sa, now), e)
    {
      while mshrs.Probe(sa)
        invariant Valid() && DrainFills(cfg, State(), sa, now) == DrainFills(cfg, old(State()), sa, now)
        decreases if sa in mshrs.table then 1 + |mshrs.table[sa]| else 0
      {
        if mshrs.table[sa] == [] { return Some(EmptyEntry); }
        var f := mshrs.table[sa][0];
        if f.sector >= SECTORS { return Some(BadSector); }
        var ok := tags.Fill(f.addr, f.sector, now);
        if !ok { return Some(NoFillIndex); }
        var _ := mshrs.NextAccess(sa);
      }
      e := None;
    }

    /** The front-only loop over reply queue i. */
    method Release(i: nat, now: nat, before: seq<Fetch>) returns (e: Option<L2Fault>, sent: seq<Fetch>)
      requires Valid() && i < REPLY_QUEUES
      modifies this, mshrs, tags.lines
      ensures Valid()
      ensures match ReleaseQueue(cfg, old(State()), i, now, before)
              case Ok(r) => e.None? && r == Released(State(), sent)
              case Err(x) => e == Some(x)
    {
      sent := before;
      while toSms[i] != [] && toSms[i][0].l2Ready <= now
        invariant Valid() && ReleaseQueue(cfg, State(), i, now, sent) == ReleaseQueue(cfg, old(State()), i, now, before)
        decreases |toSms[i]|
      {
        var f := toSms[i][0];
        toSms := toSms[i := toSms[i][1..]];
        if f.status != L2Hit {
          e := Drain(f.SectorAddr(), now);
          if e.Some? { return; }
        }
        sent := sent + [f];
      }
      e := None;
    }

    method ReleaseQueues(now: nat, before: seq<Fetch>) returns (e: Option<L2Fault>, sent: seq<Fetch>)
      requires Valid()
      modifies this, mshrs, tags.lines
      ensures Valid()
      ensures match ReleaseAll(cfg, old(State()), 0, now, before)
              case Ok(r) => e.None? && r == Released(State(), sent)
              case Err(x) => e == Some(x)
    {
      sent := before;
      var i := 0;
      while i < REPLY_QUEUES
        invariant i <= REPLY_QUEUES && Valid()
        invariant ReleaseAll(cfg, State(), i, now, sent) == ReleaseAll(cfg, old(State()), 0, now, before)
      {
        e, sent := Release(i, now, sent);
        if e.Some? { return; }
        i := i + 1;
      }
      e := None;
    }

    method Accept(now: nat) returns (e: Option<L2Fault>, miss: Option<Fetch>)
      requires Valid()
      modifies this, mshrs, tags.lines
      ensures Valid()
      ensures match AcceptFront(cfg, old(State()), now)
              case Ok(r) => e.None? && r.state == State() && r.miss == miss
              case Err(x) => e == Some(x)
    {
      e, miss := None, None;
      if l1ToL2 != [] {
        var status;
        e, status, miss := CacheAccess(l1ToL2[0], now);
        if e.Some? { return; }
        if status != L2AccessFail { l1ToL2 := l1ToL2[1..]; }
      }
    }

    /** The request that DRAM returned: reply and fill. */
    method ReturnMf(back: Option<Fetch>, now: nat) returns (e: Option<L2Fault>, replies: seq<Fetch>)
      requires Valid()
      modifies mshrs, tags.lines
      ensures Valid() && replies == Items(back) && Reached(ReturnFromDram(cfg, old(State()), back, now), e)
    {
      e, replies := None, [];
      if back.Some? {
        replies := [back.value];
        e := Drain(back.value.SectorAddr(), now);
      }
    }

    method Receive(arrival: Option<Fetch>)
      requires Valid()
      modifies this
      ensures Valid() && State() == old(State()).(l1ToL2 := old(State()).l1ToL2 + Items(arrival))
    {
      if arrival.Some? { l1ToL2 := l1ToL2 + [arrival.value]; }
    }

    /** The replies of a cycle: the returned request first, then those that became ready. */
    method ReplyPhase(now: nat, back: Option<Fetch>) returns (e: Option<L2Fault>, replies: seq<Fetch>)
      requires Valid()
      modifies this, mshrs, tags.lines
      ensures Valid()
      ensures match Replies(cfg, old(State()), now, back)
              case Ok(r) => e.None? && r == Released(State(), replies)
              case Err(x) => e == Some(x)
    {
      e, replies := ReturnMf(back, now);
      if e.Some? { return; }
      e, replies := ReleaseQueues(now, replies);
    }

    /** l2_cache_cycle */
    method L2CacheCycle(now: nat, back: Option<Fetch>, arrival: Option<Fetch>)
      returns (e: Option<L2Fault>, replies: seq<Fetch>, miss: Option<Fetch>)
      requires Valid()
      modifies this, mshrs, tags.lines
      ensures Valid()
      ensures match L2Cache.Cycle(cfg, old(State()), now, back, arrival)
              case Ok(r) => e.None? && r == Cycled(State(), replies, miss)
              case Err(x) => e == Some(x)
    {
      miss := None;
      e, replies := ReplyPhase(now, back);
      if e.Some? { return; }
      Receive(arrival);
      e, miss := Accept(now);
    }
  }
}
