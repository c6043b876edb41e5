/** The queue of waiting tasks: a linked list with pointers to its first and last cell. */
module Queues {
  class Item<T> {
    var head: T
    var tail: Item?<T>

    constructor (e: T)
      ensures head == e && tail == null
    {
      head, tail := e, null;
    }
  }

  datatype Taken<T> = Empty | Took(value: T)

  class Queue<T> {
    var head: Item?<T>
    /** The last cell; stale while the queue is empty. */
    var tail: Item?<T>
    ghost var cells: seq<Item<T>>

    ghost predicate Valid()
      reads this, cells
    {
      && (forall k, l {:trigger cells[k], cells[l]} :: 0 <= k < |cells| && 0 <= l < |cells| && cells[k] == cells[l] ==> k == l)
      && (forall k {:trigger cells[k]} :: 0 <= k < |cells| ==> cells[k].tail == if k + 1 < |cells| then cells[k + 1] else null)
      && head == (if |cells| > 0 then cells[0] else null)
      && (|cells| > 0 ==> tail == cells[|cells| - 1])
    }

    /** The elements, in the order in which they leave. */
    ghost function Contents(): (r: seq<T>)
      reads this, cells
      ensures |r| == |cells|
    {
      seq(|cells|, k requires 0 <= k < |cells| reads this, cells => cells[k].head)
    }

    constructor ()
      ensures Valid() && cells == [] && Contents() == []
    {
      head, tail, cells := null, null, [];
    }

    /** enqueue */
    method Enqueue(e: T)
      requires Valid()
      modifies this, cells
      ensures Valid() && Contents() == old(Contents()) + [e]
      ensures |cells| > 0 && cells[..|cells| - 1] == old(cells) && fresh(cells[|cells| - 1])
    {
      var item := new Item(e);
      if head != null {
        tail.tail := item;
      } else {
        head := item;
      }
      tail := item;
      cells := cells + [item];
    }

    /** dequeue: the oldest element, or nothing. */
    method Dequeue() returns (r: Taken<T>)
      requires Valid()
      modifies this
      ensures Valid()
      ensures if old(Contents()) == [] then r == Empty && Contents() == [] && cells == old(cells)
              else r == Took(old(Contents())[0]) && Contents() == old(Contents())[1..] && cells == old(cells)[1..]
    {
      var cell := head;
      if cell == null {
        return Empty;
      }
      r := Took(cell.head);
      head := head.tail;
      cells := cells[1..];
    }
  }

  /** A use of a queue. */
  datatype Use<T> = Put(value: T) | Take

  /** What comes out of a queue: all that was in it and all that was put in, in that order. */
  function Puts<T>(uses: seq<Use<T>>): seq<T> {
    if uses == [] then [] else (if uses[0].Put? then [uses[0].value] else []) + Puts(uses[1..])
  }

  lemma {:induction false} PutsMore<T>(uses: seq<Use<T>>, u: Use<T>)
    ensures Puts(uses + [u]) == Puts(uses) + if u.Put? then [u.value] else []
  {
    if uses != [] {
      assert (uses + [u])[1..] == uses[1..] + [u];
      PutsMore(uses[1..], u);
    }
  }

  /** One use; what it takes out is the first of what was in the queue. */
  method Apply<T>(q: Queue<T>, u: Use<T>) returns (out: seq<T>)
    requires q.Valid()
    modifies q, q.cells
    ensures q.Valid() && out + q.Contents() == old(q.Contents()) + (if u.Put? then [u.value] else [])
    ensures forall k {:trigger q.cells[k]} :: 0 <= k < |q.cells| ==> q.cells[k] in old(q.cells) || fresh(q.cells[k])
  {
    out := [];
    match u
    case Put(e) =>
      q.Enqueue(e);
      assert q.cells == q.cells[..|q.cells| - 1] + [q.cells[|q.cells| - 1]];
    case Take =>
      var r := q.Dequeue();
      if r.Took? {
        out := [r.value];
      }
  }

  lemma Regroup<T>(taken: seq<T>, before: seq<T>, first: seq<T>, puts: seq<T>, out: seq<T>, after: seq<T>, put: seq<T>)
    requires taken + before == first + puts && out + after == before + put
    ensures (taken + out) + after == first + (puts + put)
  {
    assert (taken + out) + after == taken + (out + after);
    assert taken + (before + put) == (taken + before) + put;
    assert (first + puts) + put == first + (puts + put);
  }

  /** First in, first out: the values taken and those left are the values put, in their order. */
  method Drive<T>(q: Queue<T>, uses: seq<Use<T>>) returns (taken: seq<T>)
    requires q.Valid()
    modifies q, q.cells
    ensures q.Valid() && taken + q.Contents() == old(q.Contents()) + Puts(uses)
  {
    hide *;
    taken := [];
    NoPuts<T>();
    for i := 0 to |uses|
      invariant q.Valid() && taken + q.Contents() == old(q.Contents()) + Puts(uses[..i])
      invariant forall k {:trigger q.cells[k]} :: 0 <= k < |q.cells| ==> q.cells[k] in old(q.cells) || fresh(q.cells[k])
    {
      assert uses[..i + 1] == uses[..i] + [uses[i]];
      PutsMore(uses[..i], uses[i]);
      ghost var before := q.Contents();
      var out := Apply(q, uses[i]);
      Regroup(taken, before, old(q.Contents()), Puts(uses[..i]), out, q.Contents(), if uses[i].Put? then [uses[i].value] else []);
      taken := taken + out;
    }
    assert uses[..|uses|] == uses;
  }

  lemma NoPuts<T>()
    ensures Puts<T>([]) == []
  {
  }
}
