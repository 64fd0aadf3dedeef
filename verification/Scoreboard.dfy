/** warp::get_inst_dependency: one pass over a warp's instructions finds, for each of them, the
    instructions it has to wait for. */
module Scoreboard {
  import opened Wrappers
  import Sm
  import Warps
  import SmInv

  type Reg = string

  /** What the pass looks at: destination and source registers, and whether it is EXIT or BAR. */
  datatype Operands = Operands(dests: seq<Reg>, srcs: seq<Reg>, waitsForAll: bool)

  /** The last instruction before n that writes r. */
  function LastWriter(code: seq<Operands>, r: Reg, n: nat): (w: Option<nat>)
    requires n <= |code|
    ensures w.Some? ==> w.value < n && r in code[w.value].dests
  {
    if n == 0 then None else if r in code[n - 1].dests then Some(n - 1) else LastWriter(code, r, n - 1)
  }

  /** Is d the last writer, before n, of some register in regs? */
  ghost predicate WritesOneOf(code: seq<Operands>, regs: seq<Reg>, n: nat, d: nat)
    requires n <= |code|
  {
    exists r :: r in regs && LastWriter(code, r, n) == Some(d)
  }

  ghost predicate WritesAny(code: seq<Operands>, n: nat, d: nat)
    requires n <= |code|
  {
    exists r :: LastWriter(code, r, n) == Some(d)
  }

  /** Does instruction i have to wait for d?  Its own registers are looked up before its own writes
      are recorded; EXIT and BAR wait for the last writer of every register, recorded after them. */
  ghost predicate DependsOn(code: seq<Operands>, i: nat, d: nat)
    requires i < |code|
  {
    || WritesOneOf(code, code[i].dests, i, d)
    || WritesOneOf(code, code[i].srcs, i, d)
    || (code[i].waitsForAll && WritesAny(code, i + 1, d))
  }

  /** Do the numbers in deps name exactly what instruction i waits for? */
  ghost predicate Names(code: seq<Operands>, i: nat, deps: seq<int>)
    requires i < |code|
  {
    forall d: int :: d in deps <==> 0 <= d && DependsOn(code, i, d)
  }

  // ---------------------------------------------------------------- the lists of the source

  /** The order of std::map<string, int>: characters from the left, a prefix first. */
  predicate Before(a: Reg, b: Reg) {
    b != [] && (a == [] || a[0] < b[0] || (a[0] == b[0] && Before(a[1..], b[1..])))
  }

  lemma {:induction false} BeforeIsTransitive(a: Reg, b: Reg, c: Reg)
    requires Before(a, b) && Before(b, c)
    ensures Before(a, c)
  {
    if a != [] && a[0] == b[0] && b[0] == c[0] { BeforeIsTransitive(a[1..], b[1..], c[1..]); }
  }

  lemma {:induction false} BeforeIsTotal(a: Reg, b: Reg)
    ensures a != b ==> Before(a, b) || Before(b, a)
    ensures !Before(a, a)
  {
    if a != [] { BeforeIsTotal(a[1..], a[1..]); }
    if a != [] && b != [] && a[0] == b[0] {
      BeforeIsTotal(a[1..], b[1..]);
      if a[1..] == b[1..] { assert a == [a[0]] + a[1..] && b == [b[0]] + b[1..]; }
    }
  }

  ghost predicate Increasing(keys: seq<Reg>) { forall j, k :: 0 <= j < k < |keys| ==> Before(keys[j], keys[k]) }

  /** A new key finds its place in the map; an old one stays where it is. */
  function Insert(keys: seq<Reg>, r: Reg): seq<Reg> {
    if keys == [] || Before(r, keys[0]) then [r] + keys
    else if r == keys[0] then keys
    else [keys[0]] + Insert(keys[1..], r)
  }

  function InsertAll(keys: seq<Reg>, regs: seq<Reg>): seq<Reg>
    decreases |regs|
  {
    if regs == [] then keys else InsertAll(Insert(keys, regs[0]), regs[1..])
  }

  /** The keys of the dependency map before instruction n, in the order of the map. */
  function Keys(code: seq<Operands>, n: nat): seq<Reg>
    requires n <= |code|
  {
    if n == 0 then [] else InsertAll(Keys(code, n - 1), code[n - 1].dests)
  }

  lemma {:induction false} InsertKeeps(keys: seq<Reg>, r: Reg)
    requires Increasing(keys)
    ensures Increasing(Insert(keys, r))
    ensures forall x :: x in Insert(keys, r) <==> x in keys || x == r
  {
    if keys == [] {
    } else if Before(r, keys[0]) {
      forall k | 0 < k < |keys| ensures Before(r, keys[k]) { BeforeIsTransitive(r, keys[0], keys[k]); }
    } else if r != keys[0] {
      InsertKeeps(keys[1..], r);
      BeforeIsTotal(r, keys[0]);
      var rest := Insert(keys[1..], r);
      forall k | 0 <= k < |rest| ensures Before(keys[0], rest[k]) {
        assert rest[k] in rest;
        if rest[k] != r { InTail(keys, rest[k]); }
      }
    }
  }

  lemma InTail(keys: seq<Reg>, x: Reg)
    requires Increasing(keys) && keys != [] && x in keys[1..]
    ensures Before(keys[0], x)
  {
  }

  lemma {:induction false} InsertAllKeeps(keys: seq<Reg>, regs: seq<Reg>)
    requires Increasing(keys)
    ensures Increasing(InsertAll(keys, regs))
    ensures forall x :: x in InsertAll(keys, regs) <==> x in keys || x in regs
    decreases |regs|
  {
    if regs != [] {
      InsertKeeps(keys, regs[0]);
      InsertAllKeeps(Insert(keys, regs[0]), regs[1..]);
    }
  }

  /** The keys are the registers written so far, each once, in increasing order. */
  lemma {:induction false} KeysAreTheWritten(code: seq<Operands>, n: nat)
    requires n <= |code|
    ensures Increasing(Keys(code, n))
    ensures forall r :: r in Keys(code, n) <==> LastWriter(code, r, n).Some?
  {
    if n > 0 {
      KeysAreTheWritten(code, n - 1);
      InsertAllKeeps(Keys(code, n - 1), code[n - 1].dests);
    }
  }

  /** The last writers of the listed registers, in order and with repetition. */
  function Writers(code: seq<Operands>, regs: seq<Reg>, n: nat): seq<nat>
    requires n <= |code|
  {
    if regs == [] then []
    else
      var w := LastWriter(code, regs[|regs| - 1], n);
      Writers(code, regs[..|regs| - 1], n) + (if w.Some? then [w.value] else [])
  }

  /** The entries for the registers of instruction i itself: destinations, then sources. */
  function OwnWriters(code: seq<Operands>, i: nat): seq<nat>
    requires i < |code|
  {
    Writers(code, code[i].dests, i) + Writers(code, code[i].srcs, i)
  }

  /** The dependency list of instruction i: its own registers, and for EXIT and BAR then every
      register of the map. */
  function DependencyList(code: seq<Operands>, i: nat): seq<nat>
    requires i < |code|
  {
    if code[i].waitsForAll then OwnWriters(code, i) + Writers(code, Keys(code, i + 1), i + 1) else OwnWriters(code, i)
  }

  lemma {:induction false} WritersAre(code: seq<Operands>, regs: seq<Reg>, n: nat, d: nat)
    requires n <= |code|
    ensures d in Writers(code, regs, n) <==> WritesOneOf(code, regs, n, d)
  {
    if regs != [] {
      var init, last := regs[..|regs| - 1], regs[|regs| - 1];
      WritersAre(code, init, n, d);
      assert regs == init + [last];
      if WritesOneOf(code, regs, n, d) && LastWriter(code, last, n) != Some(d) {
        var r :| r in regs && LastWriter(code, r, n) == Some(d);
        assert r in init;
      }
    }
  }

  lemma ListHas(code: seq<Operands>, i: nat, d: nat)
    requires i < |code|
    ensures d in DependencyList(code, i) <==> DependsOn(code, i, d)
  {
    WritersAre(code, code[i].dests, i, d);
    WritersAre(code, code[i].srcs, i, d);
    WritersAre(code, Keys(code, i + 1), i + 1, d);
    KeysAreTheWritten(code, i + 1);
    if WritesAny(code, i + 1, d) {
      var r :| LastWriter(code, r, i + 1) == Some(d);
      assert r in Keys(code, i + 1);
    }
  }

  /** The list contains exactly the instructions that instruction i has to wait for. */
  lemma ListIsExact(code: seq<Operands>, i: nat)
    requires i < |code|
    ensures Names(code, i, DependencyList(code, i))
  {
    forall d: int | 0 <= d ensures d in DependencyList(code, i) <==> DependsOn(code, i, d) { ListHas(code, i, d); }
  }

  // ---------------------------------------------------------------- the pass

  /** The map from registers to their last writers, and its keys in order. */
  ghost predicate IsWriterMap(code: seq<Operands>, n: nat, m: map<Reg, nat>)
    requires n <= |code|
  {
    forall r :: LastWriter(code, r, n) == if r in m then Some(m[r]) else None
  }

  /** Append the entry of every register of regs that the map has. */
  method LookUp(code: seq<Operands>, n: nat, m: map<Reg, nat>, regs: seq<Reg>, before: seq<nat>)
    returns (deps: seq<nat>)
    requires n <= |code| && IsWriterMap(code, n, m)
    ensures deps == before + Writers(code, regs, n)
  {
    deps := before;
    var k := 0;
    while k < |regs|
      invariant k <= |regs|
      invariant deps == before + Writers(code, regs[..k], n)
    {
      if regs[k] in m { deps := deps + [m[regs[k]]]; }
      assert regs[..k + 1][..k] == regs[..k];
      k := k + 1;
    }
    assert regs[..k] == regs;
  }

  /** Record instruction i as the last writer of its destinations. */
  method Record(code: seq<Operands>, i: nat, m: map<Reg, nat>, keys: seq<Reg>)
    returns (m': map<Reg, nat>, keys': seq<Reg>)
    requires i < |code| && IsWriterMap(code, i, m)
    ensures IsWriterMap(code, i + 1, m') && keys' == InsertAll(keys, code[i].dests)
  {
    m', keys' := m, keys;
    var dests := code[i].dests;
    var k := 0;
    while k < |dests|
      invariant k <= |dests|
      invariant forall r :: r in m' <==> r in m || r in dests[..k]
      invariant forall r :: r in m' ==> m'[r] == if r in dests[..k] then i else m[r]
      invariant InsertAll(keys', dests[k..]) == InsertAll(keys, dests)
    {
      m', keys' := m'[dests[k] := i], Insert(keys', dests[k]);
      assert dests[k..][1..] == dests[k + 1..];
      k := k + 1;
    }
    assert dests[..k] == dests;
  }

  method LookUpOwn(code: seq<Operands>, i: nat, m: map<Reg, nat>) returns (deps: seq<nat>)
    requires i < |code| && IsWriterMap(code, i, m)
    ensures deps == OwnWriters(code, i)
  {
    deps := LookUp(code, i, m, code[i].dests, []);
    assert [] + Writers(code, code[i].dests, i) == Writers(code, code[i].dests, i);
    deps := LookUp(code, i, m, code[i].srcs, deps);
  }

  /** One instruction: its dependencies, and the map after it. */
  method Visit(code: seq<Operands>, i: nat, m: map<Reg, nat>, keys: seq<Reg>)
    returns (deps: seq<nat>, m': map<Reg, nat>, keys': seq<Reg>)
    requires i < |code| && IsWriterMap(code, i, m) && keys == Keys(code, i)
    ensures IsWriterMap(code, i + 1, m') && keys' == Keys(code, i + 1)
    ensures deps == DependencyList(code, i)
  {
    deps := LookUpOwn(code, i, m);
    m', keys' := Record(code, i, m, keys);
    if code[i].waitsForAll { deps := LookUp(code, i + 1, m', keys', deps); }
  }

  /** The dependency pass: one walk with a map from registers to their last writers. */
  method GetInstDependency(code: seq<Operands>) returns (deps: seq<seq<nat>>)
    ensures |deps| == |code|
    ensures forall i :: 0 <= i < |code| ==> deps[i] == DependencyList(code, i)
  {
    deps := [];
    var m: map<Reg, nat>, keys: seq<Reg> := map[], [];
    var i := 0;
    while i < |code|
      invariant i == |deps| <= |code|
      invariant IsWriterMap(code, i, m) && keys == Keys(code, i)
      invariant forall k :: 0 <= k < i ==> deps[k] == DependencyList(code, k)
    {
      var found: seq<nat>;
      found, m, keys := Visit(code, i, m, keys);
      deps := deps + [found];
      i := i + 1;
    }
  }

  // ---------------------------------------------------------------- what the dependencies mean

  lemma {:induction false} LastWriterIsLast(code: seq<Operands>, r: Reg, n: nat, j: nat)
    requires j < n <= |code| && r in code[j].dests
    ensures LastWriter(code, r, n).Some? && j <= LastWriter(code, r, n).value
  {
    if r !in code[n - 1].dests { LastWriterIsLast(code, r, n - 1, j); }
  }

  /** An instruction waits for itself exactly when it is EXIT or BAR and writes a register; such an
      instruction makes check_dependency read past the completion times.  All other dependencies are
      on earlier instructions. */
  lemma SelfDependencyIff(code: seq<Operands>, i: nat)
    requires i < |code|
    ensures DependsOn(code, i, i) <==> code[i].waitsForAll && code[i].dests != []
    ensures forall d: nat :: DependsOn(code, i, d) ==> d <= i
  {
    if code[i].waitsForAll && code[i].dests != [] {
      assert LastWriter(code, code[i].dests[0], i + 1) == Some(i);
      assert WritesAny(code, i + 1, i);
    }
  }

  /** The dependency check of an instruction that waits for itself is never passed: once the other
      dependencies it looks at are complete, it reads past the completion times. */
  lemma {:induction false} SelfDependencyFaults(completions: seq<int>, deps: seq<int>, n: nat, now: int)
    requires n <= |deps| && exists k :: 0 <= k < n && deps[k] == |completions|
    ensures Sm.DepsReady(completions, deps, n, now) != Ok(true)
    ensures (forall k :: 0 <= k < n ==>
            0 <= deps[k] <= |completions| && (deps[k] < |completions| ==> completions[deps[k]] <= now))
            ==> Sm.DepsReady(completions, deps, n, now) == Err(Warps.BadDependency)
  {
    if deps[n - 1] != |completions| { SelfDependencyFaults(completions, deps, n - 1, now); }
  }

  /** What the first n instructions of a warp have done: they issued in order, each when everything
      it waits for was done, as far as the time `done[d]` is `known` to be final. */
  ghost predicate Honours(code: seq<Operands>, n: nat, issue: seq<int>, done: seq<int>, known: set<nat>)
    requires n <= |code|
  {
    && |issue| == |done| == n
    && (forall i, k :: 0 <= i < k < n ==> issue[i] <= issue[k])
    && (forall i :: 0 <= i < n ==> IssuedAfter(code, i, issue[i], done, known))
  }

  /** Instruction i, issued at this time, waited for everything that is known to be done. */
  ghost predicate IssuedAfter(code: seq<Operands>, i: nat, time: int, done: seq<int>, known: set<nat>)
    requires i < |code| && i <= |done|
  {
    forall d: nat :: d < i && d in known && DependsOn(code, i, d) ==> done[d] <= time
  }

  /** A write is done before the next write of the same register issues, and so before the last one. */
  lemma {:induction false} WriteIsDone(code: seq<Operands>, n: nat, issue: seq<int>, done: seq<int>, known: set<nat>,
                                       r: Reg, j: nat, i: nat)
    requires n <= |code| && Honours(code, n, issue, done, known) && j in known
    requires j < i <= n && r in code[j].dests
    ensures LastWriter(code, r, i).Some?
    ensures var w := LastWriter(code, r, i).value; w == j || (j < w && done[j] <= issue[w])
    decreases i
  {
    LastWriterIsLast(code, r, i, j);
    var w := LastWriter(code, r, i).value;
    if j < w {
      WriteIsDone(code, n, issue, done, known, r, j, w);
      var v := LastWriter(code, r, w).value;
      assert IssuedAfter(code, w, issue[w], done, known) && DependsOn(code, w, v);
    }
  }

  /** No hazard survives: an instruction issues only after every earlier write, not just the last,
      of each register it reads or writes is done. */
  lemma OperandsAreSettled(code: seq<Operands>, n: nat, issue: seq<int>, done: seq<int>, known: set<nat>,
                           i: nat, j: nat, r: Reg)
    requires n <= |code| && Honours(code, n, issue, done, known) && j in known
    requires j < i < n && r in code[j].dests && (r in code[i].srcs || r in code[i].dests)
    ensures done[j] <= issue[i]
  {
    WriteIsDone(code, n, issue, done, known, r, j, i);
    var w := LastWriter(code, r, i).value;
    assert WritesOneOf(code, code[i].srcs, i, w) || WritesOneOf(code, code[i].dests, i, w);
    assert IssuedAfter(code, i, issue[i], done, known) && DependsOn(code, i, w);
  }

  /** EXIT and BAR without destinations issue only after every earlier register write is done. */
  lemma ExitWaitsForAllWrites(code: seq<Operands>, n: nat, issue: seq<int>, done: seq<int>, known: set<nat>,
                              e: nat, j: nat)
    requires n <= |code| && Honours(code, n, issue, done, known) && j in known
    requires j < e < n && code[e].waitsForAll && code[e].dests == [] && code[j].dests != []
    ensures done[j] <= issue[e]
  {
    var r := code[j].dests[0];
    WriteIsDone(code, n, issue, done, known, r, j, e);
    var w := LastWriter(code, r, e).value;
    assert LastWriter(code, r, e + 1) == Some(w);
    assert IssuedAfter(code, e, issue[e], done, known) && DependsOn(code, e, w);
  }

  // ---------------------------------------------------------------- the issue rule

  /** check_dependency keeps the schedule honest: with completions.size() == warp_point, a warp that
      passes it at time `now` and issues extends an honoured schedule by exactly that time. */
  lemma IssueExtends(code: seq<Operands>, issue: seq<int>, done: seq<int>, known: set<nat>, deps: seq<int>,
                     now: int, time: int)
    requires |done| < |code| && Honours(code, |done|, issue, done, known)
    requires forall i :: 0 <= i < |issue| ==> issue[i] <= now
    requires Names(code, |done|, deps)
    requires !(code[|done|].waitsForAll && code[|done|].dests != [])
    requires Sm.DepsReady(done, deps, |deps|, now) == Ok(true)
    ensures Honours(code, |done| + 1, issue + [now], done + [time], known)
  {
    CheckedDepsAreDone(code, done, deps, now);
    AllWaited(code, issue, done, known, now, time);
  }

  lemma AllWaited(code: seq<Operands>, issue: seq<int>, done: seq<int>, known: set<nat>, now: int, time: int)
    requires |issue| == |done| < |code| && IssuedAfter(code, |done|, now, done, known)
    requires forall i :: 0 <= i < |done| ==> IssuedAfter(code, i, issue[i], done, known)
    ensures forall i :: 0 <= i <= |done| ==> IssuedAfter(code, i, (issue + [now])[i], done + [time], known)
  {
    forall i | 0 <= i < |done| ensures IssuedAfter(code, i, issue[i], done + [time], known) {
      LaterTimesDoNotMatter(code, i, issue[i], done, time, known);
    }
    LaterTimesDoNotMatter(code, |done|, now, done, time, known);
  }

  /** What an instruction waited for is earlier than itself, so later completions leave it alone. */
  lemma LaterTimesDoNotMatter(code: seq<Operands>, i: nat, at: int, done: seq<int>, time: int, known: set<nat>)
    requires i < |code| && i <= |done| && IssuedAfter(code, i, at, done, known)
    ensures IssuedAfter(code, i, at, done + [time], known)
  {
  }

  lemma CheckedDepsAreDone(code: seq<Operands>, done: seq<int>, deps: seq<int>, now: int)
    requires |done| < |code| && !(code[|done|].waitsForAll && code[|done|].dests != [])
    requires Names(code, |done|, deps)
    requires Sm.DepsReady(done, deps, |deps|, now) == Ok(true)
    ensures forall known :: IssuedAfter(code, |done|, now, done, known)
  {
    DepsBelow(code, |done|, deps);
    SmInv.DepsInBounds(done, deps, |deps|, now);
    forall d: nat | d < |done| && DependsOn(code, |done|, d) ensures done[d] <= now {
      var k :| 0 <= k < |deps| && deps[k] == d;
      assert done[deps[k]] <= now;
    }
  }

  lemma DepsBelow(code: seq<Operands>, n: nat, deps: seq<int>)
    requires n < |code| && !(code[n].waitsForAll && code[n].dests != [])
    requires Names(code, n, deps)
    ensures forall i :: 0 <= i < |deps| ==> 0 <= deps[i] < n
  {
    SelfDependencyIff(code, n);
    forall i | 0 <= i < |deps| ensures 0 <= deps[i] < n { assert deps[i] in deps; }
  }
}
