/** Warps: instructions, completion times and the bookkeeping of outstanding memory requests. */
module Warps {
  import opened Wrappers

  /** A memory record of the trace: (line address, sector) pairs, already coalesced. */
  datatype MemInst = MemInst(isLoad: bool, coalesced: seq<(nat, nat)>, pc: int, pcIndex: int)

  /** The branches of LdStInst::process. */
  datatype LdStKind = GlobalAccess | SharedAccess | AtomicAccess | OtherAccess

  /** An instruction; unitClass selects the pipeline, latency is its table entry. */
  datatype Inst = Inst(pc: int, pcIndex: int, activeThreads: int, unitClass: nat, isLds: bool, kind: LdStKind,
                       latency: int, deps: seq<int>)

  datatype Fault =
    | NoBlock
    | NullWarp
    | CannotDecrease
    | BadCompletionIndex
    | EmptyMshrEntry
    | NoFillIndex
    | ProbeAborted
    | NullMemInst
    | BadDependency
    | BadBank

  datatype Warp = Warp(insts: seq<Inst>, memInsts: seq<MemInst>, point: nat, completions: seq<int>,
                       pending: map<nat, int>, pendingNum: int, pendingInst: int)
  {
    function Pending(ci: nat): int { if ci in pending then pending[ci] else 0 }

    /** increase_pending_request together with m_pending_mem_request_num++. */
    function Increase(ci: nat): Warp {
      this.(pending := pending[ci := Pending(ci) + 1], pendingNum := pendingNum + 1)
    }

    /** pending_request_can_decrease, decrease_pending_request, the completion time of the last
        request, and m_pending_mem_request_num--. */
    function Decrease(ci: nat, now: int): Result<Warp, Fault> {
      if Pending(ci) <= 0 then Err(CannotDecrease)
      else
        var left := Pending(ci) - 1;
        if left != 0 then Ok(this.(pending := pending[ci := left], pendingNum := pendingNum - 1))
        else if ci < |completions| then
          Ok(this.(pending := pending[ci := left], pendingNum := pendingNum - 1, completions := completions[ci := now]))
        else Err(BadCompletionIndex)
    }

    /** Every instruction issued and nothing outstanding: the retire test. */
    predicate Retires() { point >= |insts| && pendingNum == 0 && pendingInst == 0 }
  }

  /** get_mem_inst: the first record with the given key, from position i on. */
  function FindMemInst(ms: seq<MemInst>, pc: int, pcIndex: int, i: nat): Option<MemInst>
    requires i <= |ms|
    decreases |ms| - i
  {
    if i == |ms| then None
    else if ms[i].pc == pc && ms[i].pcIndex == pcIndex then Some(ms[i])
    else FindMemInst(ms, pc, pcIndex, i + 1)
  }

  method GetMemInst(ms: seq<MemInst>, pc: int, pcIndex: int) returns (r: Option<MemInst>)
    ensures r == FindMemInst(ms, pc, pcIndex, 0)
  {
    var i := 0;
    while i < |ms|
      invariant i <= |ms|
      invariant FindMemInst(ms, pc, pcIndex, 0) == FindMemInst(ms, pc, pcIndex, i)
    {
      if ms[i].pc == pc && ms[i].pcIndex == pcIndex { return Some(ms[i]); }
      i := i + 1;
    }
    r := None;
  }

  lemma {:induction false} FindMemInstFinds(ms: seq<MemInst>, pc: int, pcIndex: int, i: nat)
    requires i <= |ms|
    ensures var r := FindMemInst(ms, pc, pcIndex, i);
            && (r.Some? ==> r.value in ms && r.value.pc == pc && r.value.pcIndex == pcIndex)
            && (r.None? ==> forall j :: i <= j < |ms| ==> ms[j].pc != pc || ms[j].pcIndex != pcIndex)
    decreases |ms| - i
  {
    if i < |ms| && !(ms[i].pc == pc && ms[i].pcIndex == pcIndex) { FindMemInstFinds(ms, pc, pcIndex, i + 1); }
  }

  // ---------------------------------------------------------------- the pending counters

  /** Sum of the counters of the completion indices below n. */
  ghost function SumTo(w: Warp, n: nat): int {
    if n == 0 then 0 else SumTo(w, n - 1) + w.Pending(n - 1)
  }

  lemma {:induction false} SumChange(w: Warp, w': Warp, ci: nat, n: nat)
    requires forall j: nat :: j != ci ==> w'.Pending(j) == w.Pending(j)
    ensures SumTo(w', n) == SumTo(w, n) + (if ci < n then w'.Pending(ci) - w.Pending(ci) else 0)
    decreases n
  {
    if n > 0 { SumChange(w, w', ci, n - 1); }
  }

  lemma {:induction false} SumBounds(w: Warp, ci: nat, n: nat)
    requires forall j: nat :: w.Pending(j) >= 0
    ensures 0 <= SumTo(w, n) && (ci < n ==> w.Pending(ci) <= SumTo(w, n))
    decreases n
  {
    if n > 0 { SumBounds(w, ci, n - 1); }
  }

  /** pendingNum is the sum of the counters, and a positive counter has a completion slot. */
  ghost predicate CountersOk(w: Warp) {
    && w.pendingNum == SumTo(w, |w.completions|)
    && forall ci: nat :: w.Pending(ci) >= 0 && (w.Pending(ci) > 0 ==> ci < |w.completions|)
  }

  lemma IncreaseKeepsCounters(w: Warp, ci: nat)
    requires CountersOk(w) && ci < |w.completions|
    ensures CountersOk(w.Increase(ci))
  {
    SumChange(w, w.Increase(ci), ci, |w.completions|);
  }

  /** One request less for slot ci, and nothing else but this: when it was the last one, the slot, and
      no other, is complete from now on. */
  ghost predicate OneLess(w: Warp, w': Warp, ci: nat, now: int) {
    && w' == w.(pending := w'.pending, pendingNum := w.pendingNum - 1, completions := w'.completions)
    && (forall j: nat :: w'.Pending(j) == w.Pending(j) - (if j == ci then 1 else 0))
    && |w'.completions| == |w.completions|
    && (forall j :: 0 <= j < |w.completions| ==>
         w'.completions[j] == if j == ci && w'.Pending(ci) == 0 then now else w.completions[j])
  }

  lemma DecreaseKeepsCounters(w: Warp, ci: nat, now: int)
    requires CountersOk(w) && w.Pending(ci) > 0
    ensures var r := w.Decrease(ci, now); r.Ok? && CountersOk(r.value) && OneLess(w, r.value, ci, now)
  {
    SumChange(w, w.Decrease(ci, now).value, ci, |w.completions|);
  }

  /** A new completion slot starts without requests. */
  lemma CompletionKeepsCounters(w: Warp, w': Warp, time: int)
    requires CountersOk(w) && w'.completions == w.completions + [time]
    requires w'.pending == w.pending && w'.pendingNum == w.pendingNum
    ensures CountersOk(w')
  {
    SumChange(w, w', |w.completions|, |w.completions|);
    assert w.Pending(|w.completions|) == 0;
  }

  /** The retire test means that no request of the warp is outstanding. */
  lemma RetiredOwesNothing(w: Warp, ci: nat)
    requires CountersOk(w) && w.pendingNum == 0
    ensures w.Pending(ci) == 0
  {
    SumBounds(w, ci, |w.completions|);
  }
}
