/** The fifo_pipeline class: a singly linked list of cells with head, tail and length fields. */
module FifoPipelines {
  import opened Wrappers
  import opened Fifo

  class Node<T> {
    var data: Option<T>
    var next: Node?<T>

    constructor (data: Option<T>)
      ensures this.data == data && next == null
    {
      this.data := data;
      next := null;
    }
  }

  class FifoPipeline<T> {
    var minLen: nat
    var maxLen: nat
    var length: nat
    var head: Node?<T>
    var tail: Node?<T>
    ghost var spine: seq<Node<T>>
    ghost var cells: seq<Option<T>>
    ghost var Repr: set<object>

    /** The list from head to tail is the spine, without repetition, and holds the cells. */
    ghost predicate Valid()
      reads this, Repr
    {
      && this in Repr && (forall i :: 0 <= i < |spine| ==> spine[i] in Repr)
      && (forall i, j :: 0 <= i < j < |spine| ==> spine[i] != spine[j])
      && (forall i, j {:trigger spine[i], spine[j]} :: 0 <= i && i + 1 == j < |spine| ==> spine[i].next == spine[j])
      && |cells| == |spine| && (forall i :: 0 <= i < |spine| ==> spine[i].data == cells[i])
      && length == |spine|
      && head == (if spine == [] then null else spine[0])
      && tail == (if spine == [] then null else spine[|spine| - 1])
      && (tail != null ==> tail.next == null)
    }

    ghost function View(): Pipe<T>
      reads this
    {
      Pipe(minLen, maxLen, cells)
    }

    constructor (minLen: nat, maxLen: nat)
      requires 0 < maxLen && minLen <= maxLen
      ensures Valid() && fresh(Repr) && View() == Fresh(minLen, maxLen)
    {
      this.minLen, this.maxLen, length, head, tail := minLen, maxLen, 0, null, null;
      spine, cells := [], [];
      Repr := {this};
      new;
      var i := 0;
      while i < minLen
        invariant i <= minLen && Valid() && fresh(Repr)
        invariant View() == Pipe(minLen, maxLen, Nulls(i))
      {
        Push(None);
        i := i + 1;
      }
    }

    /** A new cell behind the tail, or as the only one. */
    method AddCell(x: Option<T>)
      requires Valid()
      modifies Repr
      ensures Valid() && fresh(Repr - old(Repr)) && View() == old(View()).(cells := old(cells) + [x])
    {
      var node := new Node(x);
      if head != null { tail.next := node; } else { head := node; }
      tail := node;
      length := length + 1;
      spine, cells := spine + [node], cells + [x];
      Repr := Repr + {node};
    }

    /** push; the source asserts that there is room. */
    method Push(x: Option<T>)
      requires Valid() && length < maxLen
      modifies Repr
      ensures Valid() && fresh(Repr - old(Repr)) && View() == old(View()).Push(x)
    {
      if head == null || tail.data.Some? || length < minLen {
        AddCell(x);
      } else {
        tail.data := x;
        cells := cells[..|cells| - 1] + [x];
      }
    }

    /** pop */
    method Pop() returns (data: Option<T>)
      requires Valid() && minLen <= maxLen
      modifies Repr
      ensures Valid() && fresh(Repr - old(Repr))
      ensures data == old(View()).Top() && View() == old(View()).Popped()
    {
      if head == null { return None; }
      data := head.data;
      if head == tail { tail := null; }
      head := head.next;
      length := length - 1;
      spine, cells := spine[1..], cells[1..];
      if minLen > 0 && length < minLen { Push(None); }
    }

    method Top() returns (data: Option<T>)
      requires Valid()
      ensures data == View().Top()
    {
      if head != null { data := head.data; } else { data := None; }
    }

    predicate Full()
      reads this
    {
      length >= maxLen
    }

    /** The node before the tail, or null when the list has only one. */
    method BeforeTail() returns (node: Node?<T>)
      requires Valid() && length > 0
      ensures node == if length == 1 then null else spine[length - 2]
    {
      node := head;
      ghost var i := 0;
      while node != null && node.next != tail
        invariant 0 <= i <= length
        invariant node == if i < length then spine[i] else null
        invariant i > length - 2 ==> length == 1
        decreases length - i
      {
        assert i + 1 < length ==> node.next == spine[i + 1];
        node := node.next;
        i := i + 1;
      }
      assert node != null && i + 1 < length ==> node.next == spine[i + 1];
    }

    /** Remove the cell at the tail. */
    method DropTail(before: Node<T>)
      requires Valid() && length > 1 && before == spine[length - 2]
      modifies Repr
      ensures Valid() && Repr == old(Repr) && View() == old(View()).(cells := old(cells)[..old(length) - 1])
    {
      tail := before;
      tail.next := null;
      length := length - 1;
      spine, cells := spine[..length], cells[..length];
    }

    method Shrink()
      requires Valid() && minLen <= length
      modifies Repr
      ensures Valid() && fresh(Repr - old(Repr)) && View() == old(View()).(cells := Trim(old(cells), minLen))
    {
      while length > minLen && tail.data.None?
        invariant Valid() && fresh(Repr - old(Repr)) && minLen <= length
        invariant View() == old(View()).(cells := cells) && Trim(cells, minLen) == Trim(old(cells), minLen)
        decreases length
      {
        var before := BeforeTail();
        if before == null {
          var _ := Pop();
        } else {
          DropTail(before);
        }
      }
    }

    method Grow()
      requires Valid() && minLen <= maxLen
      modifies Repr
      ensures Valid() && fresh(Repr - old(Repr))
      ensures View()
              == old(View()).(cells := old(cells) + Nulls(if old(length) < minLen then minLen - old(length) else 0))
    {
      ghost var k := 0;
      while length < minLen
        invariant Valid() && fresh(Repr - old(Repr))
        invariant View() == old(View()).(cells := old(cells) + Nulls(k)) && (k > 0 ==> length <= minLen)
        decreases minLen - length
      {
        Push(None);
        k := k + 1;
      }
    }

    method ChangeMinimum(n: nat)
      requires Valid()
      modifies this
      ensures Valid() && Repr == old(Repr) && View() == old(View()).(minLen := n)
    {
      minLen := n;
    }

    /** set_min_length. */
    method SetMinLength(n: nat)
      requires Valid() && View().Ok() && n <= maxLen
      modifies Repr
      ensures Valid() && fresh(Repr - old(Repr)) && View() == Fifo.SetMinLength(old(View()), n)
    {
      if n == minLen { return; }
      var grow := n > minLen;
      ChangeMinimum(n);
      if grow { Grow(); } else { Shrink(); }
    }
  }
}
