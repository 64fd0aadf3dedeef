/** The tracer's address compression: base and constant stride, or base and deltas, over the lanes
    of a warp that are active in a mask. */
module AddressCompression {

  const WORD: int := 0x1_0000_0000_0000_0000
  const HALF_WORD: int := 0x8000_0000_0000_0000
  const INT32: int := 0x1_0000_0000
  const HALF_INT32: int := 0x8000_0000

  /** A value as a 64-bit word. */
  function Wrap(x: int): (w: nat)
    ensures w < WORD
  {
    x % WORD
  }

  /** The conversion of a 64-bit word to int. */
  function ToInt32(w: nat): (v: int)
    ensures -HALF_INT32 <= v < HALF_INT32
  {
    var low := w % INT32;
    if low < HALF_INT32 then low else low - INT32
  }

  /** The conversion of a 64-bit word to long long. */
  function ToInt64(w: nat): (v: int)
    requires w < WORD
    ensures -HALF_WORD <= v < HALF_WORD && Wrap(v) == w
  {
    if w < HALF_WORD then w else w - WORD
  }

  predicate IsInt32(v: int) { -HALF_INT32 <= v < HALF_INT32 }

  /** An int survives the way through a 64-bit word. */
  lemma Int32RoundTrip(v: int)
    requires IsInt32(v)
    ensures ToInt32(Wrap(v)) == v
  {
    if v < 0 {
      assert Wrap(v) == v + WORD;
      assert (v + WORD) % INT32 == v + INT32;
    }
  }

  /** addrs[s] - addrs[s - 1] in unsigned arithmetic. */
  function Step(addrs: seq<nat>, s: nat): nat
    requires 0 < s < |addrs|
  {
    var difference: int := addrs[s] as int - addrs[s - 1] as int;
    Wrap(difference)
  }

  /** The active lanes are exactly those from lo to hi. */
  predicate IsRun(mask: seq<bool>, lo: nat, hi: nat) {
    lo < hi <= |mask| && forall s :: 0 <= s < |mask| ==> (mask[s] <==> lo <= s < hi)
  }

  predicate Empty(mask: seq<bool>) { forall s :: 0 <= s < |mask| ==> !mask[s] }

  /** One contiguous run of at least two lanes whose addresses grow by an int stride. */
  predicate Strided(addrs: seq<nat>, mask: seq<bool>, lo: nat, hi: nat, stride: int)
    requires |addrs| == |mask|
  {
    && IsRun(mask, lo, hi) && hi - lo >= 2 && IsInt32(stride)
    && forall s :: lo < s < hi ==> Step(addrs, s) == Wrap(stride)
  }

  /** What the loop knows in the middle of the run that starts at lo. */
  predicate InRun(addrs: seq<nat>, mask: seq<bool>, lo: nat, s: nat, stride: int)
    requires |addrs| == |mask|
  {
    && lo < s <= |mask| && lo + 1 < |mask| && mask[lo + 1]
    && (forall k :: 0 <= k < s ==> (mask[k] <==> lo <= k))
    && stride == ToInt32(Step(addrs, lo + 1))
    && forall k :: lo < k < s ==> Step(addrs, k) == Wrap(stride)
  }

  lemma RunStartsAt(mask: seq<bool>, lo: nat, lo': nat, hi': nat)
    requires lo < |mask| && mask[lo] && forall k :: 0 <= k < lo ==> !mask[k]
    ensures IsRun(mask, lo', hi') ==> lo' == lo
  {
    if IsRun(mask, lo', hi') { assert mask[lo']; }
  }

  /** Any stride that fits all lanes is the one of the first two, so it fits lane s as well. */
  lemma FirstStepDecides(addrs: seq<nat>, mask: seq<bool>, lo: nat, s: nat, stride: int, lo': nat, hi': nat,
                         stride': int)
    requires |addrs| == |mask| && s < |mask| && InRun(addrs, mask, lo, s, stride) && mask[s]
    ensures Strided(addrs, mask, lo', hi', stride') ==> Step(addrs, s) == Wrap(stride)
  {
    RunStartsAt(mask, lo, lo', hi');
    if Strided(addrs, mask, lo', hi', stride') {
      Int32RoundTrip(stride');
      assert Step(addrs, lo + 1) == Wrap(stride');
    }
  }

  /** base_stride_compress: it succeeds if and only if no lane is active, or the active lanes are one
      run of at least two with a constant int stride; base and stride are then those of the run. */
  method BaseStrideCompress(addrs: seq<nat>, mask: seq<bool>) returns (ok: bool, base: nat, stride: int)
    requires |addrs| == |mask|
    ensures ok <==> Empty(mask) || exists lo: nat, hi: nat, st :: Strided(addrs, mask, lo, hi, st)
    ensures ok && !Empty(mask) ==> exists lo: nat, hi: nat :: Strided(addrs, mask, lo, hi, stride) && base == addrs[lo]
  {
    var firstFound, lastFound := false, false;
    ghost var lo, hi := 0, 0;
    base, stride := 0, 0;
    var s := 0;
    while s < |mask|
      invariant s <= |mask|
      invariant !firstFound ==> !lastFound && forall k :: 0 <= k < s ==> !mask[k]
      invariant firstFound ==> lo < |mask| && base == addrs[lo]
      invariant firstFound && !lastFound ==> InRun(addrs, mask, lo, s, stride)
      invariant lastFound ==>
                  && hi < s && lo + 1 < hi && InRun(addrs, mask, lo, hi, stride)
                  && forall k :: hi <= k < s ==> !mask[k]
    {
      if mask[s] && !firstFound {
        firstFound, base := true, addrs[s];
        lo := s;
        if s + 1 < |mask| && mask[s + 1] {
          stride := ToInt32(Step(addrs, s + 1));
        } else {
          forall lo': nat, hi': nat ensures IsRun(mask, lo', hi') ==> lo' == s {
            RunStartsAt(mask, s, lo', hi');
          }
          return false, base, stride;
        }
      } else if firstFound && !lastFound {
        if mask[s] {
          if Wrap(stride) != Step(addrs, s) {
            forall lo': nat, hi': nat, st
              ensures Strided(addrs, mask, lo', hi', st) ==> Step(addrs, s) == Wrap(stride)
            {
              FirstStepDecides(addrs, mask, lo, s, stride, lo', hi', st);
            }
            return false, base, stride;
          }
        } else {
          lastFound := true;
          hi := s;
        }
      } else if lastFound {
        if mask[s] {
          assert mask[lo] && !mask[hi] && mask[s];
          return false, base, stride;
        }
      }
      s := s + 1;
    }
    ok := true;
    if firstFound {
      if !lastFound { hi := s; }
      assert Strided(addrs, mask, lo, hi, stride);
    }
  }

  // ---------------------------------------------------------------- restoring

  lemma StepAdds(addrs: seq<nat>, s: nat)
    requires 0 < s < |addrs| && addrs[s] < WORD
    ensures Wrap(addrs[s - 1] + Step(addrs, s)) == addrs[s]
  {
  }

  /** base + k * stride is the address of the k-th active lane. */
  lemma {:induction false} StrideRestores(addrs: seq<nat>, mask: seq<bool>, lo: nat, hi: nat, stride: int, k: nat)
    requires |addrs| == |mask| && Strided(addrs, mask, lo, hi, stride) && k < hi - lo
    requires forall s :: 0 <= s < |addrs| ==> addrs[s] < WORD
    ensures addrs[lo + k] == Wrap(addrs[lo] + k * stride)
    decreases k
  {
    if k > 0 {
      StrideRestores(addrs, mask, lo, hi, stride, k - 1);
      var before := addrs[lo] + (k - 1) * stride;
      assert addrs[lo] + k * stride == before + stride;
      StepAdds(addrs, lo + k);
      WrapSum(before, stride);
    }
  }

  lemma WrapSum(a: int, b: int)
    ensures Wrap(Wrap(a) + Wrap(b)) == Wrap(a + b)
  {
  }

  /** The addresses of the active lanes, in lane order. */
  function Active(addrs: seq<nat>, mask: seq<bool>, n: nat): seq<nat>
    requires n <= |addrs| == |mask|
  {
    if n == 0 then [] else Active(addrs, mask, n - 1) + (if mask[n - 1] then [addrs[n - 1]] else [])
  }

  /** Decompression: running sums modulo 2^64. */
  function Restore(base: nat, deltas: seq<int>): (r: seq<nat>)
    ensures |r| == |deltas| + 1
  {
    if deltas == [] then [base]
    else
      var before := Restore(base, deltas[..|deltas| - 1]);
      before + [Wrap(before[|before| - 1] + deltas[|deltas| - 1])]
  }

  lemma DeltaAdds(last: nat, next: nat)
    requires last < WORD && next < WORD
    ensures Wrap(last + ToInt64(Wrap(next - last))) == next
  {
  }

  lemma RestoreSnoc(base: nat, deltas: seq<int>, d: int)
    ensures Restore(base, deltas + [d])
            == Restore(base, deltas) + [Wrap(Restore(base, deltas)[|deltas|] + d)]
  {
    assert (deltas + [d])[..|deltas|] == deltas;
  }

  /** base_delta_compress: base and deltas restore exactly the addresses of the active lanes. */
  method BaseDeltaCompress(addrs: seq<nat>, mask: seq<bool>) returns (base: nat, deltas: seq<int>)
    requires |addrs| == |mask| && forall s :: 0 <= s < |addrs| ==> addrs[s] < WORD
    ensures Empty(mask) ==> deltas == []
    ensures !Empty(mask) ==> Restore(base, deltas) == Active(addrs, mask, |mask|)
    ensures forall i :: 0 <= i < |deltas| ==> -HALF_WORD <= deltas[i] < HALF_WORD
  {
    var firstFound, last := false, 0;
    base, deltas := 0, [];
    var s := 0;
    while s < |mask|
      invariant s <= |mask|
      invariant firstFound <==> exists k :: 0 <= k < s && mask[k]
      invariant !firstFound ==> deltas == [] && Active(addrs, mask, s) == []
      invariant firstFound ==>
                  && last < WORD && Restore(base, deltas) == Active(addrs, mask, s)
                  && Restore(base, deltas)[|deltas|] == last
      invariant forall i :: 0 <= i < |deltas| ==> -HALF_WORD <= deltas[i] < HALF_WORD
    {
      if mask[s] && !firstFound {
        base, firstFound, last := addrs[s], true, addrs[s];
      } else if mask[s] && firstFound {
        var delta := ToInt64(Wrap(addrs[s] - last));
        DeltaAdds(last, addrs[s]);
        RestoreSnoc(base, deltas, delta);
        deltas := deltas + [delta];
        last := addrs[s];
      }
      s := s + 1;
    }
  }
}
