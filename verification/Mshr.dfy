/** mshr_table: the outstanding sector misses of a cache, each with the requests merged into it. */
module Mshr {
  import opened MemFetch

  type Table = map<nat, seq<Fetch>>

  function IsFull(t: Table, sa: nat, entries: nat, maxMerge: nat): bool {
    if sa in t then |t[sa]| >= maxMerge else |t| >= entries
  }

  function Add(t: Table, sa: nat, f: Fetch): Table {
    t[sa := (if sa in t then t[sa] else []) + [f]]
  }

  /** next_access: the oldest request of an entry; the entry goes with its last request. */
  function AfterNext(t: Table, sa: nat): Table
    requires sa in t && t[sa] != []
  {
    if |t[sa]| == 1 then t - {sa} else t[sa := t[sa][1..]]
  }

  /** No entry is empty, and neither limit is exceeded. */
  ghost predicate WithinLimits(t: Table, entries: nat, maxMerge: nat) {
    && |t| <= entries
    && forall sa :: sa in t ==> 0 < |t[sa]| <= maxMerge
  }

  /** A request is refused exactly when the table could not take it within its limits. */
  lemma FullIff(t: Table, sa: nat, f: Fetch, entries: nat, maxMerge: nat)
    requires WithinLimits(t, entries, maxMerge) && maxMerge >= 1
    ensures IsFull(t, sa, entries, maxMerge) <==> !WithinLimits(Add(t, sa, f), entries, maxMerge)
  {
    var t' := Add(t, sa, f);
    assert t'.Keys == t.Keys + {sa};
    assert |t'| == |t'.Keys| && |t| == |t.Keys|;
    assert sa in t';
  }

  /** A new request comes last in its entry, next_access takes the first, and other entries stay. */
  lemma EntriesAreQueues(t: Table, sa: nat, f: Fetch)
    ensures var before, t' := (if sa in t then t[sa] else []), Add(t, sa, f);
            && t'.Keys == t.Keys + {sa} && t'[sa] == before + [f] && t' - {sa} == t - {sa}
            && (before != [] ==> AfterNext(t', sa) == t[sa := before[1..] + [f]])
            && (before == [] ==> AfterNext(t', sa) == t - {sa})
  {
    var before := if sa in t then t[sa] else [];
    if before != [] { assert (before + [f])[1..] == before[1..] + [f]; }
  }

  lemma NextKeepsLimits(t: Table, sa: nat, entries: nat, maxMerge: nat)
    requires WithinLimits(t, entries, maxMerge) && sa in t
    ensures WithinLimits(AfterNext(t, sa), entries, maxMerge)
  {
    var t' := AfterNext(t, sa);
    assert t'.Keys <= t.Keys;
    if |t[sa]| == 1 { assert t'.Keys == t.Keys - {sa}; } else { assert t'.Keys == t.Keys; }
    assert |t'| == |t'.Keys| && |t| == |t.Keys|;
  }

  class MshrTable {
    const entries: nat
    const maxMerge: nat
    var table: Table

    constructor (entries: nat, maxMerge: nat)
      ensures this.entries == entries && this.maxMerge == maxMerge && table == map[]
    {
      this.entries := entries;
      this.maxMerge := maxMerge;
      table := map[];
    }

    predicate Probe(sa: nat)
      reads this
    {
      sa in table
    }

    predicate Full(sa: nat)
      reads this
    {
      IsFull(table, sa, entries, maxMerge)
    }

    method AddRequest(sa: nat, f: Fetch)
      modifies this
      ensures table == Add(old(table), sa, f)
    {
      if sa !in table { table := table[sa := []]; }
      table := table[sa := table[sa] + [f]];
    }

    method NextAccess(sa: nat) returns (f: Fetch)
      requires sa in table && table[sa] != []
      modifies this
      ensures f == old(table[sa][0]) && table == AfterNext(old(table), sa)
    {
      f := table[sa][0];
      table := table[sa := table[sa][1..]];
      if table[sa] == [] { table := table - {sa}; }
    }

    /** The drain loop of a reply: the merged requests come out in arrival order, the entry
        disappears and every other entry is untouched. */
    method Drain(sa: nat) returns (merged: seq<Fetch>)
      requires sa in table ==> table[sa] != []
      modifies this
      ensures merged == (if sa in old(table) then old(table[sa]) else [])
      ensures table == old(table) - {sa}
    {
      merged := [];
      ghost var all := if sa in table then table[sa] else [];
      while Probe(sa)
        invariant sa in table ==> table[sa] != [] && all == merged + table[sa]
        invariant sa !in table ==> all == merged
        invariant table - {sa} == old(table) - {sa}
        decreases if sa in table then 1 + |table[sa]| else 0
      {
        var f := NextAccess(sa);
        merged := merged + [f];
      }
    }
  }
}
