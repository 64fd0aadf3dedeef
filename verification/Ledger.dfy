/** Who is owed what: the requests in an SM's containers counted by block, warp and completion slot. */
module Ledger {
  import opened MemFetch
  import Mshr
  import Sm

  datatype Ticket = Ticket(block: nat, warp: nat, ci: nat)

  /** 1 when the request belongs to the ticket. */
  function One(f: Fetch, t: Ticket): nat {
    if f.block == t.block && f.warp == t.warp && f.ci == t.ci then 1 else 0
  }

  /** 1 when the request is a forwarded store of the ticket. */
  function OneForwarded(f: Fetch, t: Ticket): nat { if f.ForwardedWrite() then One(f, t) else 0 }

  ghost function Count(q: seq<Fetch>, t: Ticket): nat {
    if q == [] then 0 else One(q[0], t) + Count(q[1..], t)
  }

  ghost function CountForwarded(q: seq<Fetch>, t: Ticket): nat {
    if q == [] then 0 else OneForwarded(q[0], t) + CountForwarded(q[1..], t)
  }

  ghost function CountBanks(banks: seq<seq<Fetch>>, t: Ticket): nat {
    if banks == [] then 0 else Count(banks[0], t) + CountBanks(banks[1..], t)
  }

  ghost function SomeKey(m: Mshr.Table): (sa: nat)
    requires |m| > 0
    ensures sa in m
  {
    var sa :| sa in m;
    sa
  }

  ghost function CountMshr(m: Mshr.Table, t: Ticket): nat
    decreases |m|
  {
    if |m| == 0 then 0
    else
      var sa := SomeKey(m);
      Smaller(m, sa);
      Count(m[sa], t) + CountMshr(m - {sa}, t)
  }

  /** 1 when the unit works for warp w of block b. */
  function HoldsOne(u: Sm.PipelineUnit, b: nat, w: nat): nat {
    if u.held.Some? && u.held.value.block == b && u.held.value.warp == w then 1 else 0
  }

  ghost function Holding(units: seq<Sm.PipelineUnit>, b: nat, w: nat): nat {
    if units == [] then 0 else HoldsOne(units[0], b, w) + Holding(units[1..], b, w)
  }

  // ---------------------------------------------------------------- laws

  lemma Smaller<K, V>(m: map<K, V>, k: K)
    requires k in m
    ensures |m - {k}| == |m| - 1
  {
    assert (m - {k}).Keys == m.Keys - {k};
    assert |m - {k}| == |(m - {k}).Keys| && |m| == |m.Keys|;
  }

  lemma {:induction false} CountAppend(p: seq<Fetch>, q: seq<Fetch>, t: Ticket)
    ensures Count(p + q, t) == Count(p, t) + Count(q, t)
  {
    if p == [] {
      assert p + q == q;
    } else {
      assert (p + q)[1..] == p[1..] + q;
      CountAppend(p[1..], q, t);
    }
  }

  lemma CountSnoc(q: seq<Fetch>, f: Fetch, t: Ticket)
    ensures Count(q + [f], t) == Count(q, t) + One(f, t)
  {
    CountAppend(q, [f], t);
    assert [f][1..] == [];
  }

  lemma {:induction false} ForwardedAppend(p: seq<Fetch>, q: seq<Fetch>, t: Ticket)
    ensures CountForwarded(p + q, t) == CountForwarded(p, t) + CountForwarded(q, t)
  {
    if p == [] {
      assert p + q == q;
    } else {
      assert (p + q)[1..] == p[1..] + q;
      ForwardedAppend(p[1..], q, t);
    }
  }

  lemma ForwardedSnoc(q: seq<Fetch>, f: Fetch, t: Ticket)
    ensures CountForwarded(q + [f], t) == CountForwarded(q, t) + OneForwarded(f, t)
  {
    ForwardedAppend(q, [f], t);
    assert [f][1..] == [];
  }

  lemma ForwardedWithout(q: seq<Fetch>, i: nat, t: Ticket)
    requires i < |q|
    ensures CountForwarded(q, t) == CountForwarded(q[..i] + q[i + 1..], t) + OneForwarded(q[i], t)
  {
    assert q == q[..i] + [q[i]] + q[i + 1..];
    ForwardedAppend(q[..i] + [q[i]], q[i + 1..], t);
    ForwardedSnoc(q[..i], q[i], t);
    ForwardedAppend(q[..i], q[i + 1..], t);
  }

  lemma {:induction false} BankUpdate(banks: seq<seq<Fetch>>, i: nat, q: seq<Fetch>, t: Ticket)
    requires i < |banks|
    ensures CountBanks(banks[i := q], t) == CountBanks(banks, t) - Count(banks[i], t) + Count(q, t)
    decreases |banks|
  {
    if i > 0 {
      assert banks[i := q][1..] == banks[1..][i - 1 := q];
      BankUpdate(banks[1..], i - 1, q, t);
    } else {
      assert banks[i := q][1..] == banks[1..];
    }
  }

  lemma {:induction false} UnitUpdate(units: seq<Sm.PipelineUnit>, i: nat, u: Sm.PipelineUnit, b: nat, w: nat)
    requires i < |units|
    ensures Holding(units[i := u], b, w) == Holding(units, b, w) - HoldsOne(units[i], b, w) + HoldsOne(u, b, w)
    decreases |units|
  {
    if i > 0 {
      assert units[i := u][1..] == units[1..][i - 1 := u];
      UnitUpdate(units[1..], i - 1, u, b, w);
    } else {
      assert units[i := u][1..] == units[1..];
    }
  }

  lemma {:induction false} HeldCounts(units: seq<Sm.PipelineUnit>, i: nat)
    requires i < |units| && units[i].held.Some?
    ensures Holding(units, units[i].held.value.block, units[i].held.value.warp) >= 1
    decreases |units|
  {
    if i > 0 { HeldCounts(units[1..], i - 1); }
  }

  lemma {:induction false} MshrWithout(m: Mshr.Table, sa: nat, t: Ticket)
    requires sa in m
    ensures CountMshr(m, t) == Count(m[sa], t) + CountMshr(m - {sa}, t)
    decreases |m|
  {
    assert |m| > 0 by { Smaller(m, sa); }
    var j := SomeKey(m);
    if j != sa {
      Smaller(m, j);
      Smaller(m, sa);
      MshrWithout(m - {j}, sa, t);
      MshrWithout(m - {sa}, j, t);
      assert m - {j} - {sa} == m - {sa} - {j};
    }
  }

  lemma MshrAdd(m: Mshr.Table, sa: nat, f: Fetch, t: Ticket)
    ensures CountMshr(Mshr.Add(m, sa, f), t) == CountMshr(m, t) + One(f, t)
  {
    var m' := Mshr.Add(m, sa, f);
    MshrWithout(m', sa, t);
    assert m' - {sa} == m - {sa};
    CountSnoc(if sa in m then m[sa] else [], f, t);
    if sa in m { MshrWithout(m, sa, t); } else { assert m - {sa} == m; }
  }

  lemma MshrNext(m: Mshr.Table, sa: nat, t: Ticket)
    requires sa in m && m[sa] != []
    ensures CountMshr(m, t) == CountMshr(Mshr.AfterNext(m, sa), t) + One(m[sa][0], t)
  {
    var m' := Mshr.AfterNext(m, sa);
    MshrWithout(m, sa, t);
    if |m[sa]| == 1 {
      assert m[sa][1..] == [];
    } else {
      MshrWithout(m', sa, t);
      assert m' - {sa} == m - {sa};
    }
  }

  lemma {:induction false} MemberCounts(q: seq<Fetch>, i: nat)
    requires i < |q|
    ensures Count(q, Ticket(q[i].block, q[i].warp, q[i].ci)) >= 1
    decreases |q|
  {
    if i > 0 { MemberCounts(q[1..], i - 1); }
  }
}
