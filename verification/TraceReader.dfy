/** Reading the traces: numbering the occurrences of each pc, joining memory records to
    instructions, and coalescing the addresses of a warp. */
module TraceReader {
  import opened Wrappers
  import opened CacheConfig
  import opened Warps
  import Scoreboard
  import Sm
  import SmInv

  // ---------------------------------------------------------------- pc_index

  /** Earlier occurrences of a key. */
  function Occurrences<K(==)>(keys: seq<K>, k: K, n: nat): nat
    requires n <= |keys|
  {
    if n == 0 then 0 else Occurrences(keys, k, n - 1) + (if keys[n - 1] == k then 1 else 0)
  }

  /** The counting map after n lines: absent, or the index of the last occurrence. */
  ghost predicate Counts<K(!new)>(keys: seq<K>, n: nat, m: map<K, nat>)
    requires n <= |keys|
  {
    forall k :: if k in m then Occurrences(keys, k, n) == m[k] + 1 else Occurrences(keys, k, n) == 0
  }

  /** The loop of read_sass, with (block, warp, pc) keys, and of read_mem, with (warp, pc) keys: a
      line's index is the number of earlier lines with its key. */
  method NumberOccurrences<K(==,!new)>(keys: seq<K>) returns (index: seq<nat>)
    ensures |index| == |keys|
    ensures forall i :: 0 <= i < |keys| ==> index[i] == Occurrences(keys, keys[i], i)
  {
    index := [];
    var last: map<K, nat> := map[];
    var i := 0;
    while i < |keys|
      invariant i == |index| <= |keys| && Counts(keys, i, last)
      invariant forall j :: 0 <= j < i ==> index[j] == Occurrences(keys, keys[j], j)
    {
      var key := keys[i];
      var pcIndex := 0;
      if key in last { pcIndex := last[key] + 1; }
      last := last[key := pcIndex];
      index := index + [pcIndex];
      i := i + 1;
    }
  }

  lemma {:induction false} OccurrencesGrow<K>(keys: seq<K>, k: K, i: nat, j: nat)
    requires i < j <= |keys| && keys[i] == k
    ensures Occurrences(keys, k, i) < Occurrences(keys, k, j)
    decreases j
  {
    if i + 1 < j { OccurrencesGrow(keys, k, i, j - 1); }
  }

  /** A key and its index name one line. */
  lemma KeyAndIndexAreUnique<K>(keys: seq<K>, i: nat, j: nat)
    requires i < |keys| && j < |keys| && keys[i] == keys[j]
    requires Occurrences(keys, keys[i], i) == Occurrences(keys, keys[j], j)
    ensures i == j
  {
    var k := keys[i];
    if i < j {
      OccurrencesGrow(keys, k, i, j);
    } else if j < i {
      OccurrencesGrow(keys, k, j, i);
    }
  }

  // ---------------------------------------------------------------- restricting a trace

  /** The lines whose key satisfies p, in order. */
  function Filter<K>(keys: seq<K>, p: K -> bool): seq<K> {
    if keys == [] then []
    else
      var init, last := keys[..|keys| - 1], keys[|keys| - 1];
      if p(last) then Filter(init, p) + [last] else Filter(init, p)
  }

  /** Where line i ends up in the filtered trace. */
  function Position<K>(keys: seq<K>, p: K -> bool, i: nat): nat
    requires i <= |keys|
  {
    |Filter(keys[..i], p)|
  }

  lemma {:induction false} FilterPrefix<K>(keys: seq<K>, p: K -> bool, n: nat)
    requires n <= |keys|
    ensures Position(keys, p, n) <= |Filter(keys, p)| && Filter(keys, p)[..Position(keys, p, n)] == Filter(keys[..n], p)
    decreases |keys|
  {
    if n < |keys| {
      var init := keys[..|keys| - 1];
      assert init[..n] == keys[..n];
      FilterPrefix(init, p, n);
    } else {
      assert keys[..n] == keys;
    }
  }

  lemma FilterAt<K>(keys: seq<K>, p: K -> bool, i: nat)
    requires i < |keys| && p(keys[i])
    ensures Position(keys, p, i) < |Filter(keys, p)| && Filter(keys, p)[Position(keys, p, i)] == keys[i]
  {
    assert keys[..i + 1][..i] == keys[..i];
    FilterPrefix(keys, p, i + 1);
    assert Filter(keys[..i + 1], p) == Filter(keys[..i], p) + [keys[i]];
  }

  lemma {:induction false} OccurrencesInPrefix<K>(keys: seq<K>, k: K, n: nat, m: nat)
    requires n <= m <= |keys|
    ensures Occurrences(keys, k, n) == Occurrences(keys[..m], k, n)
  {
    if n > 0 { OccurrencesInPrefix(keys, k, n - 1, m); }
  }

  /** Filtering keeps the numbering: a key that is kept has the same index in the filtered trace. */
  lemma {:induction false} FilterKeepsNumbering<K>(keys: seq<K>, p: K -> bool, k: K, i: nat)
    requires i <= |keys| && p(k)
    ensures Position(keys, p, i) <= |Filter(keys, p)|
    ensures Occurrences(Filter(keys, p), k, Position(keys, p, i)) == Occurrences(keys, k, i)
    decreases i
  {
    FilterPrefix(keys, p, i);
    if i > 0 {
      FilterKeepsNumbering(keys, p, k, i - 1);
      FilterPrefix(keys, p, i - 1);
      assert keys[..i][..i - 1] == keys[..i - 1];
      if p(keys[i - 1]) { FilterAt(keys, p, i - 1); }
    }
  }

  // ---------------------------------------------------------------- joining the two traces

  /** The memory records of a warp, numbered by read_mem, are the warp's instructions with memory pcs. */
  ghost predicate RecordsOf(pcs: seq<int>, isMem: int -> bool, ms: seq<MemInst>) {
    var mem := Filter(pcs, isMem);
    && |ms| == |mem|
    && forall r :: 0 <= r < |ms| ==> ms[r].pc == mem[r] && ms[r].pcIndex == Occurrences(mem, mem[r], r)
  }

  /** get_mem_inst returns an instruction's own record, and nothing for an instruction without one. */
  lemma JoinIsExact(pcs: seq<int>, isMem: int -> bool, ms: seq<MemInst>, i: nat)
    requires RecordsOf(pcs, isMem, ms) && i < |pcs|
    ensures Position(pcs, isMem, i) <= |ms|
    ensures FindMemInst(ms, pcs[i], Occurrences(pcs, pcs[i], i), 0)
            == if isMem(pcs[i]) && Position(pcs, isMem, i) < |ms| then Some(ms[Position(pcs, isMem, i)]) else None
    ensures isMem(pcs[i]) ==> Position(pcs, isMem, i) < |ms|
  {
    var mem, r, n := Filter(pcs, isMem), Position(pcs, isMem, i), Occurrences(pcs, pcs[i], i);
    FilterPrefix(pcs, isMem, i);
    if isMem(pcs[i]) {
      FilterAt(pcs, isMem, i);
      FilterKeepsNumbering(pcs, isMem, pcs[i], i);
      forall j | 0 <= j < |ms| && ms[j].pc == pcs[i] && ms[j].pcIndex == n ensures j == r {
        KeyAndIndexAreUnique(mem, j, r);
      }
      FindsTheOnlyOne(ms, pcs[i], n, 0, r);
    } else {
      forall j | 0 <= j < |ms| ensures ms[j].pc != pcs[i] { FilterMember(pcs, isMem, j); }
      FindMemInstFinds(ms, pcs[i], n, 0);
    }
  }

  lemma {:induction false} FilterMember<K>(keys: seq<K>, p: K -> bool, j: nat)
    requires j < |Filter(keys, p)|
    ensures p(Filter(keys, p)[j])
    decreases |keys|
  {
    var init := keys[..|keys| - 1];
    if j < |Filter(init, p)| { FilterMember(init, p, j); }
  }

  lemma {:induction false} FindsTheOnlyOne(ms: seq<MemInst>, pc: int, pcIndex: int, i: nat, r: nat)
    requires i <= r < |ms| && ms[r].pc == pc && ms[r].pcIndex == pcIndex
    requires forall j :: 0 <= j < |ms| && ms[j].pc == pc && ms[j].pcIndex == pcIndex ==> j == r
    ensures FindMemInst(ms, pc, pcIndex, i) == Some(ms[r])
    decreases r - i
  {
    if i < r { FindsTheOnlyOne(ms, pc, pcIndex, i + 1, r); }
  }

  // ---------------------------------------------------------------- coalescing

  /** The line address and sector of one thread's address. */
  function Target(addr: nat): (nat, nat) { (LineOf(addr), addr % LINE_SIZE / SECTOR_SIZE) }

  function Targets(addrs: seq<nat>): seq<(nat, nat)> {
    if addrs == [] then [] else [Target(addrs[0])] + Targets(addrs[1..])
  }

  /** Position of the first occurrence, |s| when there is none. */
  function FirstIndex<T(==)>(s: seq<T>, x: T): (k: nat)
    ensures k <= |s| && (k < |s| ==> s[k] == x)
  {
    if s == [] then 0 else if s[0] == x then 0 else 1 + FirstIndex(s[1..], x)
  }

  /** out lists exactly the elements of s, each once, in the order of their first occurrences. */
  ghost predicate FirstOccurrences<T>(s: seq<T>, out: seq<T>) {
    && (forall i :: 0 <= i < |out| ==> out[i] in s)
    && (forall x :: x in s ==> x in out)
    && (forall i, j :: 0 <= i < j < |out| ==> FirstIndex(s, out[i]) < FirstIndex(s, out[j]))
  }

  lemma {:induction false} FirstIndexOfMember<T>(s: seq<T>, x: T)
    ensures FirstIndex(s, x) < |s| <==> x in s
  {
    if s != [] && s[0] != x { FirstIndexOfMember(s[1..], x); }
  }

  lemma {:induction false} FirstIndexSnoc<T>(s: seq<T>, y: T, x: T)
    ensures FirstIndex(s + [y], x) == if x in s then FirstIndex(s, x) else if x == y then |s| else |s| + 1
  {
    if s != [] && s[0] != x {
      assert (s + [y])[1..] == s[1..] + [y];
      FirstIndexSnoc(s[1..], y, x);
    }
  }

  lemma AddFirst<T>(s: seq<T>, out: seq<T>, x: T)
    requires FirstOccurrences(s, out)
    ensures FirstOccurrences(s + [x], if x in out then out else out + [x])
  {
    var out' := if x in out then out else out + [x];
    forall i, j | 0 <= i < j < |out'| ensures FirstIndex(s + [x], out'[i]) < FirstIndex(s + [x], out'[j]) {
      FirstIndexSnoc(s, x, out'[i]);
      FirstIndexSnoc(s, x, out'[j]);
      FirstIndexOfMember(s, out'[i]);
    }
  }

  lemma {:induction false} TargetsSnoc(addrs: seq<nat>, a: nat)
    ensures Targets(addrs + [a]) == Targets(addrs) + [Target(a)]
  {
    if addrs != [] {
      assert (addrs + [a])[1..] == addrs[1..] + [a];
      TargetsSnoc(addrs[1..], a);
    }
  }

  predicate OnSector(t: (nat, nat)) { t.0 % LINE_SIZE == 0 && t.1 < SECTORS }

  predicate AllOnSectors(out: seq<(nat, nat)>) { forall i :: 0 <= i < |out| ==> OnSector(out[i]) }

  lemma TargetIsOnSector(addr: nat)
    ensures OnSector(Target(addr))
  {
  }

  /** The list after n addresses: each target joins it unless it is there. */
  function Coalesced(addrs: seq<nat>, n: nat): seq<(nat, nat)>
    requires n <= |addrs|
  {
    if n == 0 then []
    else
      var before, t := Coalesced(addrs, n - 1), Target(addrs[n - 1]);
      if t in before then before else before + [t]
  }

  /** The coalesced list has exactly the touched sectors, each once, by first occurrence. */
  lemma {:induction false} CoalescedMeans(addrs: seq<nat>, n: nat)
    requires n <= |addrs|
    ensures FirstOccurrences(Targets(addrs[..n]), Coalesced(addrs, n)) && AllOnSectors(Coalesced(addrs, n))
  {
    if n > 0 {
      CoalescedMeans(addrs, n - 1);
      assert addrs[..n] == addrs[..n - 1] + [addrs[n - 1]];
      TargetsSnoc(addrs[..n - 1], addrs[n - 1]);
      AddFirst(Targets(addrs[..n - 1]), Coalesced(addrs, n - 1), Target(addrs[n - 1]));
      TargetIsOnSector(addrs[n - 1]);
    }
  }

  /** The coalescing loop of read_mem. */
  method Coalesce(addrs: seq<nat>) returns (out: seq<(nat, nat)>)
    ensures FirstOccurrences(Targets(addrs), out) && AllOnSectors(out)
  {
    out := [];
    var i := 0;
    while i < |addrs|
      invariant i <= |addrs| && out == Coalesced(addrs, i)
    {
      var target := Target(addrs[i]);
      if target !in out { out := out + [target]; }
      i := i + 1;
    }
    CoalescedMeans(addrs, |addrs|);
    assert addrs[..|addrs|] == addrs;
  }

  // ---------------------------------------------------------------- what the SM relies on

  function Pcs(insts: seq<Inst>): seq<int> {
    if insts == [] then [] else Pcs(insts[..|insts| - 1]) + [insts[|insts| - 1].pc]
  }

  lemma {:induction false} PcsAt(insts: seq<Inst>)
    ensures |Pcs(insts)| == |insts| && forall i :: 0 <= i < |insts| ==> Pcs(insts)[i] == insts[i].pc
    decreases |insts|
  {
    if insts != [] { PcsAt(insts[..|insts| - 1]); }
  }

  /** A warp as the readers build it: numbered pcs, joined records, dependencies from the scoreboard
      pass, and no EXIT or BAR with a destination. */
  ghost predicate ReadFromTrace(insts: seq<Inst>, ms: seq<MemInst>, code: seq<Scoreboard.Operands>,
                                isMem: int -> bool) {
    var pcs := Pcs(insts);
    && |code| == |insts| == |pcs| && RecordsOf(pcs, isMem, ms)
    && (forall i :: 0 <= i < |insts| ==> insts[i].pcIndex == Occurrences(pcs, pcs[i], i))
    && (forall i :: 0 <= i < |insts| ==> Scoreboard.Names(code, i, insts[i].deps))
    && (forall i :: 0 <= i < |insts| ==> !(code[i].waitsForAll && code[i].dests != []))
    && (forall i :: 0 <= i < |insts| && insts[i].isLds && insts[i].kind.AtomicAccess? ==> isMem(pcs[i]))
  }

  /** Traces read this way satisfy what SmInv demands of a kernel, so no run over them fails. */
  lemma TraceMakesProgramOk(cfg: Sm.SmConfig, insts: seq<Inst>, ms: seq<MemInst>, code: seq<Scoreboard.Operands>,
                            isMem: int -> bool)
    requires ReadFromTrace(insts, ms, code, isMem)
    requires forall i, sub :: 0 <= i < |insts| && 0 <= sub < |cfg.unitOf| ==> insts[i].unitClass < |cfg.unitOf[sub]|
    requires forall r :: 0 <= r < |ms| ==> SmInv.TargetsOk(ms[r].coalesced)
    ensures SmInv.ProgramOk(cfg, insts, ms)
  {
    PcsAt(insts);
    forall i | 0 <= i < |insts| ensures SmInv.InstOk(cfg, insts[i], i, ms) {
      Scoreboard.DepsBelow(code, i, insts[i].deps);
      JoinIsExact(Pcs(insts), isMem, ms, i);
    }
  }
}
