/** fifo_pipeline as a value: a bounded queue of optional payloads whose empty cells model delay. */
module Fifo {
  import opened Wrappers

  datatype Pipe<T> = Pipe(minLen: nat, maxLen: nat, cells: seq<Option<T>>) {
    predicate Ok() { 0 < maxLen && minLen <= |cells| <= maxLen }

    predicate Full() { |cells| >= maxLen }

    function Top(): Option<T> { if cells == [] then None else cells[0] }

    /** An empty tail cell is reused once the minimum length is reached. */
    function Push(x: Option<T>): Pipe<T> {
      if cells == [] || cells[|cells| - 1].Some? || |cells| < minLen then this.(cells := cells + [x])
      else this.(cells := cells[..|cells| - 1] + [x])
    }

    /** What is left after a pop, refilled with an empty cell when it became too short. */
    function Popped(): Pipe<T> {
      if cells == [] then this
      else if |cells| - 1 < minLen then this.(cells := cells[1..] + [None])
      else this.(cells := cells[1..])
    }
  }

  function Nulls<T>(n: nat): (s: seq<Option<T>>)
    ensures |s| == n && forall i :: 0 <= i < n ==> s[i] == None
  {
    if n == 0 then [] else Nulls(n - 1) + [None]
  }

  function Fresh<T>(minLen: nat, maxLen: nat): Pipe<T> { Pipe(minLen, maxLen, Nulls(minLen)) }

  /** Drop trailing empty cells while more than n cells are left. */
  function Trim<T>(cells: seq<Option<T>>, n: nat): seq<Option<T>> {
    if |cells| > n && cells[|cells| - 1].None? then Trim(cells[..|cells| - 1], n) else cells
  }

  function SetMinLength<T>(p: Pipe<T>, n: nat): Pipe<T> {
    if n == p.minLen then p
    else if n > p.minLen then Pipe(n, p.maxLen, p.cells + Nulls(if |p.cells| < n then n - |p.cells| else 0))
    else Pipe(n, p.maxLen, Trim(p.cells, n))
  }

  /** The payloads, oldest first. */
  function Payload<T>(cells: seq<Option<T>>): seq<T> {
    if cells == [] then []
    else (if cells[0].Some? then [cells[0].value] else []) + Payload(cells[1..])
  }

  lemma {:induction false} PayloadAppend<T>(a: seq<Option<T>>, b: seq<Option<T>>)
    ensures Payload(a + b) == Payload(a) + Payload(b)
  {
    if a == [] {
      assert a + b == b;
    } else {
      assert (a + b)[1..] == a[1..] + b && (a + b)[0] == a[0];
      PayloadAppend(a[1..], b);
      var head := if a[0].Some? then [a[0].value] else [];
      assert head + Payload(a[1..]) + Payload(b) == head + (Payload(a[1..]) + Payload(b));
    }
  }

  lemma PayloadSnoc<T>(a: seq<Option<T>>, x: Option<T>)
    ensures Payload(a + [x]) == Payload(a) + (if x.Some? then [x.value] else [])
  {
    PayloadAppend(a, [x]);
    assert [x][1..] == [];
  }

  /** A push appends its payload, whether it takes a new cell or reuses an empty one, and keeps the
      length bounds when there was room. */
  lemma PushAppends<T>(p: Pipe<T>, x: Option<T>)
    ensures Payload(p.Push(x).cells) == Payload(p.cells) + (if x.Some? then [x.value] else [])
    ensures p.Ok() && !p.Full() ==> p.Push(x).Ok()
    ensures |p.cells| <= |p.Push(x).cells| <= |p.cells| + 1
  {
    PayloadSnoc(p.cells, x);
    if p.cells != [] {
      var init := p.cells[..|p.cells| - 1];
      assert p.cells == init + [p.cells[|p.cells| - 1]];
      PayloadSnoc(init, p.cells[|p.cells| - 1]);
      PayloadSnoc(init, x);
    }
  }

  /** A pop removes exactly the head cell: its payload if it has one, nothing otherwise. */
  lemma PopRemoves<T>(p: Pipe<T>)
    ensures Payload(p.cells) == (if p.Top().Some? then [p.Top().value] else []) + Payload(p.Popped().cells)
    ensures p.Ok() ==> p.Popped().Ok()
  {
    if p.cells != [] { PayloadSnoc(p.cells[1..], None); }
  }

  lemma {:induction false} NullsCarryNothing<T>(n: nat)
    ensures Payload(Nulls<T>(n)) == []
  {
    if n > 0 {
      NullsCarryNothing<T>(n - 1);
      PayloadSnoc(Nulls<T>(n - 1), None);
    }
  }

  /** One past the last payload, 0 when there is none. */
  function Used<T>(cells: seq<Option<T>>): nat {
    if cells == [] then 0
    else if cells[|cells| - 1].Some? then |cells|
    else Used(cells[..|cells| - 1])
  }

  lemma {:induction false} UsedMeans<T>(cells: seq<Option<T>>)
    ensures Used(cells) <= |cells|
    ensures forall i :: Used(cells) <= i < |cells| ==> cells[i].None?
    ensures Used(cells) > 0 ==> cells[Used(cells) - 1].Some?
    decreases |cells|
  {
    if cells != [] && cells[|cells| - 1].None? {
      UsedMeans(cells[..|cells| - 1]);
      var init := cells[..|cells| - 1];
      forall i | Used(cells) <= i < |cells| ensures cells[i].None? {
        if i < |cells| - 1 { assert init[i] == cells[i]; }
      }
    }
  }

  function Max(a: nat, b: nat): nat { if a < b then b else a }

  /** Trimming removes empty cells only, down to max(n, one past the last payload). */
  lemma {:induction false} TrimMeans<T>(cells: seq<Option<T>>, n: nat)
    requires n <= |cells|
    ensures |Trim(cells, n)| == Max(n, Used(cells)) <= |cells|
    ensures Trim(cells, n) == cells[..|Trim(cells, n)|]
    ensures Payload(Trim(cells, n)) == Payload(cells)
    decreases |cells|
  {
    UsedMeans(cells);
    if |cells| > n && cells[|cells| - 1].None? {
      var init := cells[..|cells| - 1];
      TrimMeans(init, n);
      PayloadSnoc(init, None);
      assert cells == init + [None];
    }
  }

  /** set_min_length keeps the payloads and their order, changes the length only by empty cells at
      the end, and ends at max(new minimum, last payload + 1) when it shrinks. */
  lemma SetMinLengthMeans<T>(p: Pipe<T>, n: nat)
    requires p.Ok() && n <= p.maxLen
    ensures var q := SetMinLength(p, n);
            && q.Ok() && q.minLen == n && q.maxLen == p.maxLen
            && Payload(q.cells) == Payload(p.cells)
            && (n > p.minLen ==> |q.cells| == Max(n, |p.cells|) && q.cells[..|p.cells|] == p.cells)
            && (n < p.minLen ==> |q.cells| == Max(n, Used(p.cells)) <= |p.cells| && q.cells == p.cells[..|q.cells|])
  {
    if n > p.minLen {
      var k := if |p.cells| < n then n - |p.cells| else 0;
      PayloadAppend(p.cells, Nulls(k));
      NullsCarryNothing<T>(k);
    } else if n < p.minLen {
      TrimMeans(p.cells, n);
    }
  }

  // ---------------------------------------------------------------- histories

  datatype Op<T> = PushOp(x: Option<T>) | PopOp | ResizeOp(n: nat)

  function Apply<T>(p: Pipe<T>, op: Op<T>): Pipe<T> {
    match op
    case PushOp(x) => p.Push(x)
    case PopOp => p.Popped()
    case ResizeOp(n) => SetMinLength(p, n)
  }

  /** A caller pushes only into a pipe that is not full, and asks for no minimum above the maximum. */
  predicate Allowed<T>(p: Pipe<T>, op: Op<T>) {
    match op
    case PushOp(_) => !p.Full()
    case PopOp => true
    case ResizeOp(n) => n <= p.maxLen
  }

  predicate AllAllowed<T>(p: Pipe<T>, ops: seq<Op<T>>)
    decreases |ops|
  {
    ops != [] ==> Allowed(p, ops[0]) && AllAllowed(Apply(p, ops[0]), ops[1..])
  }

  function RunOps<T>(p: Pipe<T>, ops: seq<Op<T>>): Pipe<T>
    decreases |ops|
  {
    if ops == [] then p else RunOps(Apply(p, ops[0]), ops[1..])
  }

  function PushedBy<T>(op: Op<T>): seq<T> { if op.PushOp? && op.x.Some? then [op.x.value] else [] }

  function TakenBy<T>(p: Pipe<T>, op: Op<T>): seq<T> { if op.PopOp? && p.Top().Some? then [p.Top().value] else [] }

  /** Payloads that went in during a history. */
  function Pushed<T>(ops: seq<Op<T>>): seq<T> {
    if ops == [] then [] else PushedBy(ops[0]) + Pushed(ops[1..])
  }

  /** Payloads that came out. */
  function Taken<T>(p: Pipe<T>, ops: seq<Op<T>>): seq<T>
    decreases |ops|
  {
    if ops == [] then [] else TakenBy(p, ops[0]) + Taken(Apply(p, ops[0]), ops[1..])
  }

  lemma OneOp<T>(p: Pipe<T>, op: Op<T>)
    requires p.Ok() && Allowed(p, op)
    ensures Apply(p, op).Ok()
    ensures Payload(p.cells) + PushedBy(op) == TakenBy(p, op) + Payload(Apply(p, op).cells)
  {
    match op {
      case PushOp(x) => PushAppends(p, x);
      case PopOp => PopRemoves(p);
      case ResizeOp(n) => SetMinLengthMeans(p, n);
    }
  }

  lemma Regroup<T>(a: seq<T>, b: seq<T>, c: seq<T>, d: seq<T>, e: seq<T>, f: seq<T>, g: seq<T>)
    requires a + b == c + d && d + e == f + g
    ensures a + (b + e) == c + f + g
  {
    assert a + (b + e) == (a + b) + e;
    assert (c + d) + e == c + (d + e);
    assert c + (f + g) == c + f + g;
  }

  /** Over any history of pushes, pops and resizes the payloads form an exact FIFO, and between
      operations minLen <= length <= maxLen. */
  lemma {:induction false} ExactFifo<T>(p: Pipe<T>, ops: seq<Op<T>>)
    requires p.Ok() && AllAllowed(p, ops)
    ensures Payload(p.cells) + Pushed(ops) == Taken(p, ops) + Payload(RunOps(p, ops).cells)
    ensures RunOps(p, ops).Ok()
    decreases |ops|
  {
    if ops != [] {
      var q, rest := Apply(p, ops[0]), ops[1..];
      OneOp(p, ops[0]);
      ExactFifo(q, rest);
      Regroup(Payload(p.cells), PushedBy(ops[0]), TakenBy(p, ops[0]), Payload(q.cells), Pushed(rest), Taken(q, rest),
              Payload(RunOps(q, rest).cells));
    }
  }
}
