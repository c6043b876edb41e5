/**
  The binary heap of the kernel. Its root, element 0, has the single child 1; from there on
  element i has the children 2i and 2i + 1.
 */
module MinHeaps {
  /** What the comparator must be on the elements of a heap: a total preorder, given by its sign. */
  ghost predicate PreorderOn<T(!new)>(cmp: (T, T) -> int, s: multiset<T>) {
    && (forall a, b {:trigger cmp(a, b), cmp(b, a)} :: a in s && b in s && cmp(a, b) < 0 ==> cmp(b, a) >= 0)
    && (forall a, b, c {:trigger cmp(b, a), cmp(c, b)} :: a in s && b in s && c in s && cmp(b, a) >= 0 && cmp(c, b) >= 0 ==> cmp(c, a) >= 0)
  }

  /** a is not after b. */
  predicate Le<T>(cmp: (T, T) -> int, a: T, b: T) { cmp(b, a) >= 0 }

  /** Every element but those at i is not before its parent. */
  ghost predicate HeapBut<T>(cmp: (T, T) -> int, s: seq<T>, i: int) {
    forall j {:trigger s[j]} :: 0 < j < |s| && j != i ==> Le(cmp, s[j / 2], s[j])
  }

  ghost predicate IsHeap<T>(cmp: (T, T) -> int, s: seq<T>) { HeapBut(cmp, s, -1) }

  /** The children of i are not before the parent of i. */
  ghost predicate Bridged<T>(cmp: (T, T) -> int, s: seq<T>, i: int) {
    0 <= i < |s| && (i > 0 ==> forall j {:trigger s[j]} :: 0 < j < |s| && j / 2 == i ==> Le(cmp, s[i / 2], s[j]))
  }

  function Swap<T>(s: seq<T>, i: nat, j: nat): (r: seq<T>)
    requires i < |s| && j < |s|
    ensures |r| == |s|
  {
    s[i := s[j]][j := s[i]]
  }

  lemma SwapKeeps<T>(s: seq<T>, i: nat, j: nat)
    requires i < |s| && j < |s|
    ensures multiset(Swap(s, i, j)) == multiset(s)
  {
  }

  /** The preorder between elements of a sequence. */
  lemma OrderAt<T(!new)>(cmp: (T, T) -> int, s: seq<T>, i: nat, j: nat)
    requires PreorderOn(cmp, multiset(s)) && i < |s| && j < |s|
    ensures cmp(s[i], s[j]) < 0 ==> Le(cmp, s[i], s[j])
    ensures cmp(s[i], s[j]) >= 0 ==> Le(cmp, s[j], s[i])
    ensures Le(cmp, s[i], s[i])
  {
    assert s[i] in multiset(s) && s[j] in multiset(s);
    NotBelowItself(cmp, s, i);
  }

  lemma Linked<T(!new)>(cmp: (T, T) -> int, s: seq<T>, i: nat, j: nat, k: nat)
    requires PreorderOn(cmp, multiset(s)) && i < |s| && j < |s| && k < |s|
    requires Le(cmp, s[i], s[j]) && Le(cmp, s[j], s[k])
    ensures Le(cmp, s[i], s[k])
  {
    assert s[i] in multiset(s) && s[j] in multiset(s) && s[k] in multiset(s);
  }

  /** One step of sift_up. */
  lemma UpStep<T(!new)>(cmp: (T, T) -> int, s: seq<T>, i: nat)
    requires PreorderOn(cmp, multiset(s)) && HeapBut(cmp, s, i) && Bridged(cmp, s, i) && cmp(s[i], s[i / 2]) < 0
    ensures i > 0 && HeapBut(cmp, Swap(s, i, i / 2), i / 2) && Bridged(cmp, Swap(s, i, i / 2), i / 2)
  {
    hide PreorderOn, Le;
    var r, p := Swap(s, i, i / 2), i / 2;
    OrderAt(cmp, s, i, p);
    NotBelowItself(cmp, s, i);
    forall j {:trigger r[j]} | 0 < j < |r| && j != p ensures Le(cmp, r[j / 2], r[j]) {
      if j != i && j / 2 == p {
        assert Le(cmp, s[p], s[j]);
        Linked(cmp, s, i, p, j);
      } else if j != i {
        assert s[j] == r[j];
      }
    }
    forall j {:trigger r[j]} | p > 0 && 0 < j < |r| && j / 2 == p ensures Le(cmp, r[p / 2], r[j]) {
      assert Le(cmp, s[p / 2], s[p]);
      if j != i {
        assert Le(cmp, s[p], s[j]);
        Linked(cmp, s, p / 2, p, j);
      }
    }
  }

  lemma NotBelowItself<T(!new)>(cmp: (T, T) -> int, s: seq<T>, i: nat)
    requires PreorderOn(cmp, multiset(s)) && i < |s|
    ensures cmp(s[i], s[i]) >= 0
  {
    assert s[i] in multiset(s);
  }

  /** Where sift_up stops there is a heap. */
  lemma UpEnds<T(!new)>(cmp: (T, T) -> int, s: seq<T>, i: nat)
    requires HeapBut(cmp, s, i) && i < |s| && cmp(s[i], s[i / 2]) >= 0
    ensures IsHeap(cmp, s)
  {
  }

  /** Everything is in order but the children of i. */
  ghost predicate HeapAbove<T>(cmp: (T, T) -> int, s: seq<T>, i: int) {
    forall j {:trigger s[j]} :: 0 < j < |s| && (j / 2 != i || j == i) ==> Le(cmp, s[j / 2], s[j])
  }

  /** c is not after any child of i. */
  ghost predicate Smallest<T>(cmp: (T, T) -> int, s: seq<T>, i: nat, c: nat)
    requires c < |s|
  {
    forall j {:trigger s[j]} :: 0 < j < |s| && j / 2 == i && j != i ==> Le(cmp, s[c], s[j])
  }

  /** The smaller child of i moves up. */
  lemma DownStep<T(!new)>(cmp: (T, T) -> int, s: seq<T>, i: nat, c: nat)
    requires PreorderOn(cmp, multiset(s)) && HeapAbove(cmp, s, i) && Bridged(cmp, s, i)
    requires i < c < |s| && c / 2 == i && cmp(s[c], s[i]) < 0 && Smallest(cmp, s, i, c)
    ensures HeapAbove(cmp, Swap(s, i, c), c) && Bridged(cmp, Swap(s, i, c), c)
  {
    hide PreorderOn, Le;
    var r := Swap(s, i, c);
    OrderAt(cmp, s, c, i);
    forall j {:trigger r[j]} | 0 < j < |r| && (j / 2 != c || j == c) ensures Le(cmp, r[j / 2], r[j]) {
      assert s[j] == s[j];
    }
    forall j {:trigger r[j]} | 0 < j < |r| && j / 2 == c ensures Le(cmp, r[c / 2], r[j]) {
      assert s[j] == r[j];
    }
  }

  lemma DownEnds<T(!new)>(cmp: (T, T) -> int, s: seq<T>, i: nat)
    requires i < |s| && HeapAbove(cmp, s, i) && Smallest(cmp, s, i, i)
    ensures IsHeap(cmp, s)
  {
  }

  /** The root is not after any element. */
  lemma {:induction false} RootIsLeast<T(!new)>(cmp: (T, T) -> int, s: seq<T>, i: nat)
    requires PreorderOn(cmp, multiset(s)) && IsHeap(cmp, s) && i < |s|
    ensures Le(cmp, s[0], s[i])
    decreases i
  {
    hide PreorderOn, Le;
    OrderAt(cmp, s, 0, 0);
    if i > 0 {
      assert Le(cmp, s[i / 2], s[i]);
      RootIsLeast(cmp, s, i / 2);
      Linked(cmp, s, 0, i / 2, i);
    }
  }

  /** Nothing changes for the heap while the keys of its elements stay the same. */
  lemma SameKeys<T(!new)>(cmp: (T, T) -> int, cmp': (T, T) -> int, s: seq<T>)
    requires IsHeap(cmp, s)
    requires forall a, b {:trigger cmp'(a, b)} :: a in multiset(s) && b in multiset(s) ==> cmp'(a, b) == cmp(a, b)
    ensures IsHeap(cmp', s)
  {
    forall j {:trigger s[j]} | 0 < j < |s| ensures Le(cmp', s[j / 2], s[j]) {
      assert s[j] in multiset(s) && s[j / 2] in multiset(s);
    }
  }

  /** A heap orders all elements of a part of its multiset. */
  lemma PreorderLess<T(!new)>(cmp: (T, T) -> int, s: multiset<T>, s': multiset<T>)
    requires PreorderOn(cmp, s) && s' <= s
    ensures PreorderOn(cmp, s')
  {
    forall a | a in s' ensures a in s {
      assert s'[a] <= s[a];
    }
  }

  // ---------- What the sifts compute ----------

  /** sift_up: the element at i moves up while it is before its parent. */
  function Up<T>(cmp: (T, T) -> int, s: seq<T>, i: nat): (r: seq<T>)
    requires i < |s|
    ensures |r| == |s|
    decreases i
  {
    if i > 0 && cmp(s[i], s[i / 2]) < 0 then Up(cmp, Swap(s, i, i / 2), i / 2) else s
  }

  /** The child of i that sift_down compares with it; 0 is its own first child. */
  function ChildOf<T>(cmp: (T, T) -> int, s: seq<T>, i: nat): nat
    requires 2 * i < |s|
  {
    if 2 * i + 1 < |s| && cmp(s[2 * i + 1], s[2 * i]) < 0 then 2 * i + 1 else 2 * i
  }

  /** sift_down: the element at i moves down while its child is before it. */
  function Down<T>(cmp: (T, T) -> int, s: seq<T>, i: nat): (r: seq<T>)
    requires i < |s|
    ensures |r| == |s|
    decreases |s| - i
  {
    if 2 * i < |s| && ChildOf(cmp, s, i) > i && cmp(s[ChildOf(cmp, s, i)], s[i]) < 0 then
      Down(cmp, Swap(s, i, ChildOf(cmp, s, i)), ChildOf(cmp, s, i))
    else s
  }

  /** The array after heap_push, and after heap_pop. */
  function Pushed<T>(cmp: (T, T) -> int, s: seq<T>, x: T): (r: seq<T>)
    ensures |r| == |s| + 1
  {
    Up(cmp, s + [x], |s|)
  }

  function LastFirst<T>(s: seq<T>): (r: seq<T>)
    requires s != []
    ensures |r| == |s| - 1
  {
    if |s| == 1 then [] else s[..|s| - 1][0 := s[|s| - 1]]
  }

  function Popped<T>(cmp: (T, T) -> int, s: seq<T>): (r: seq<T>)
    requires s != []
    ensures |r| == |s| - 1
  {
    if |s| == 1 then [] else Down(cmp, LastFirst(s), 0)
  }

  /** No element is before itself; the root, which is its own parent and child, depends on it. */
  ghost predicate Reflexive<T(!new)>(cmp: (T, T) -> int, s: multiset<T>) {
    forall a {:trigger cmp(a, a)} :: a in s ==> cmp(a, a) >= 0
  }

  lemma PreorderReflexive<T(!new)>(cmp: (T, T) -> int, s: multiset<T>)
    requires PreorderOn(cmp, s)
    ensures Reflexive(cmp, s)
  {
  }

  lemma NotItself<T(!new)>(cmp: (T, T) -> int, s: seq<T>, i: nat)
    requires Reflexive(cmp, multiset(s)) && i < |s|
    ensures cmp(s[i], s[i]) >= 0
  {
    assert s[i] in multiset(s);
  }

  lemma DownMoves<T>(cmp: (T, T) -> int, s: seq<T>, i: nat)
    requires 2 * i < |s| && cmp(s[i], s[i]) >= 0 && cmp(s[ChildOf(cmp, s, i)], s[i]) < 0
    ensures var c := ChildOf(cmp, s, i); c > i && Down(cmp, s, i) == Down(cmp, Swap(s, i, c), c)
  {
    hide Swap;
  }

  lemma DownStops<T>(cmp: (T, T) -> int, s: seq<T>, i: nat)
    requires i < |s| && (2 * i < |s| ==> cmp(s[ChildOf(cmp, s, i)], s[i]) >= 0)
    ensures Down(cmp, s, i) == s
  {
  }

  lemma {:induction false} UpItems<T>(cmp: (T, T) -> int, s: seq<T>, i: nat)
    requires i < |s|
    ensures multiset(Up(cmp, s, i)) == multiset(s)
    decreases i
  {
    if i > 0 && cmp(s[i], s[i / 2]) < 0 {
      SwapKeeps(s, i, i / 2);
      UpItems(cmp, Swap(s, i, i / 2), i / 2);
    }
  }

  lemma {:induction false} DownItems<T>(cmp: (T, T) -> int, s: seq<T>, i: nat)
    requires i < |s|
    ensures multiset(Down(cmp, s, i)) == multiset(s)
    decreases |s| - i
  {
    if 2 * i < |s| && ChildOf(cmp, s, i) > i && cmp(s[ChildOf(cmp, s, i)], s[i]) < 0 {
      SwapKeeps(s, i, ChildOf(cmp, s, i));
      DownItems(cmp, Swap(s, i, ChildOf(cmp, s, i)), ChildOf(cmp, s, i));
    }
  }

  /** sift_up mends the one violation there may be. */
  lemma {:induction false} UpHeap<T(!new)>(cmp: (T, T) -> int, s: seq<T>, i: nat)
    requires i < |s| && PreorderOn(cmp, multiset(s)) && HeapBut(cmp, s, i) && Bridged(cmp, s, i)
    ensures IsHeap(cmp, Up(cmp, s, i))
    decreases i
  {
    hide PreorderOn, HeapBut, Bridged, Le, IsHeap;
    if cmp(s[i], s[i / 2]) < 0 {
      UpStep(cmp, s, i);
      SwapKeeps(s, i, i / 2);
      UpHeap(cmp, Swap(s, i, i / 2), i / 2);
    } else {
      UpEnds(cmp, s, i);
    }
  }

  lemma {:induction false} DownHeap<T(!new)>(cmp: (T, T) -> int, s: seq<T>, i: nat)
    requires i < |s| && PreorderOn(cmp, multiset(s)) && HeapAbove(cmp, s, i) && Bridged(cmp, s, i)
    ensures IsHeap(cmp, Down(cmp, s, i))
    decreases |s| - i
  {
    hide HeapAbove, Bridged, IsHeap, PreorderOn;
    if 2 * i < |s| {
      var c := ChildOf(cmp, s, i);
      NotBelowItself(cmp, s, i);
      if cmp(s[c], s[i]) < 0 {
        SmallerChild(cmp, s, i, c);
        SwapKeeps(s, i, c);
        DownStep(cmp, s, i, c);
        DownHeap(cmp, Swap(s, i, c), c);
      } else {
        Settles(cmp, s, i);
      }
    } else {
      Settles(cmp, s, i);
    }
  }

  /** heap_push keeps the order and adds one element. */
  lemma PushedHeap<T(!new)>(cmp: (T, T) -> int, s: seq<T>, x: T)
    ensures multiset(Pushed(cmp, s, x)) == multiset(s) + multiset{x}
    ensures PreorderOn(cmp, multiset(s) + multiset{x}) && IsHeap(cmp, s) ==> IsHeap(cmp, Pushed(cmp, s, x))
  {
    hide PreorderOn, IsHeap, HeapBut, Bridged, Le;
    UpItems(cmp, s + [x], |s|);
    if PreorderOn(cmp, multiset(s) + multiset{x}) && IsHeap(cmp, s) {
      Appended(cmp, s, x);
      UpHeap(cmp, s + [x], |s|);
    }
  }

  /** heap_pop takes the root away, and keeps the order. */
  lemma PoppedHeap<T(!new)>(cmp: (T, T) -> int, s: seq<T>)
    requires s != []
    ensures multiset(s) == multiset(Popped(cmp, s)) + multiset{s[0]}
    ensures PreorderOn(cmp, multiset(s)) && IsHeap(cmp, s) ==>
      IsHeap(cmp, Popped(cmp, s)) && forall x {:trigger Le(cmp, s[0], x)} :: x in multiset(s) ==> Le(cmp, s[0], x)
  {
    hide PreorderOn, IsHeap, HeapAbove, Bridged, Le;
    var r := LastFirst(s);
    ReplacedItems(s, r);
    assert s[0] in multiset(s);
    if |s| > 1 {
      DownItems(cmp, r, 0);
    }
    if PreorderOn(cmp, multiset(s)) && IsHeap(cmp, s) {
      LeastOfAll(cmp, s);
      Replaced(cmp, s, r);
      if |s| > 1 {
        DownHeap(cmp, r, 0);
      }
    }
  }

  class MinHeap<T(!new, ==, 0)> {
    var data: array<T>
    var size: nat

    ghost predicate Valid()
      reads this
    {
      size <= data.Length && data.Length > 0
    }

    function Items(): seq<T>
      reads this, data
      requires Valid()
    {
      data[..size]
    }

    /** make_heap; the comparator is passed to each operation. */
    constructor ()
      ensures Valid() && fresh(data) && Items() == []
    {
      data := new T[1];
      size := 0;
    }

    method SwapItems(i: nat, j: nat)
      requires Valid() && i < size && j < size
      modifies data
      ensures Items() == Swap(old(Items()), i, j)
    {
      var t := data[i];
      data[i] := data[j];
      data[j] := t;
    }

    method SiftUp(cmp: (T, T) -> int, start: nat)
      requires Valid() && start < size && Reflexive(cmp, multiset(Items()))
      modifies data
      ensures Items() == Up(cmp, old(Items()), start)
    {
      hide Reflexive;
      var item: nat := start;
      while cmp(data[item], data[item / 2]) < 0
        invariant item < size <= data.Length && multiset(Items()) == old(multiset(Items()))
        invariant Up(cmp, Items(), item) == Up(cmp, old(Items()), start)
        decreases item
      {
        NotItself(cmp, Items(), item);
        SwapKeeps(Items(), item, item / 2);
        SwapItems(item, item / 2);
        item := item / 2;
      }
    }

    method SiftDown(cmp: (T, T) -> int, start: nat)
      requires Valid() && start < size && Reflexive(cmp, multiset(Items()))
      modifies data
      ensures Items() == Down(cmp, old(Items()), start)
    {
      hide Reflexive, Down, Swap;
      var item: nat := start;
      while item * 2 < size
        invariant item < size && multiset(Items()) == old(multiset(Items()))
        invariant Down(cmp, Items(), item) == Down(cmp, old(Items()), start)
        decreases size - item
      {
        ghost var s := Items();
        var c := item * 2;
        if c + 1 < size && cmp(data[c + 1], data[c]) < 0 {
          c := c + 1;
        }
        assert c == ChildOf(cmp, s, item);
        NotItself(cmp, s, item);
        if cmp(data[c], data[item]) >= 0 {
          break;
        }
        DownMoves(cmp, s, item);
        SwapKeeps(s, item, c);
        SwapItems(item, c);
        item := c;
      }
      DownStops(cmp, Items(), item);
    }

    /** heap_pop; from a heap, it takes a least element out. */
    method Pop(cmp: (T, T) -> int) returns (top: T)
      requires Valid() && size > 0 && Reflexive(cmp, multiset(Items()))
      modifies this`size, data
      ensures Valid() && top == old(Items())[0] && Items() == Popped(cmp, old(Items()))
    {
      hide Reflexive;
      ghost var s := Items();
      top := data[0];
      size := size - 1;
      data[0] := data[size];
      assert Items() == LastFirst(s);
      ReplacedItems(s, Items());
      ReflexiveLess(cmp, multiset(s), multiset(Items()));
      if size > 0 {
        SiftDown(cmp, 0);
      }
    }

    /** The first part of heap_push: the element at the end, in a larger array if needed. */
    method Append(item: T)
      requires Valid()
      modifies this`size, this`data, data
      ensures Valid() && size == old(size) + 1 && Items() == old(Items()) + [item] && (data == old(data) || fresh(data))
    {
      if size + 1 > data.Length {
        var bigger := new T[data.Length * 2];
        forall i | 0 <= i < size {
          bigger[i] := data[i];
        }
        data := bigger;
      }
      data[size] := item;
      size := size + 1;
    }

    /** heap_push, doubling the array if it is full; from a heap, it makes a heap. */
    method Push(cmp: (T, T) -> int, item: T)
      requires Valid() && Reflexive(cmp, multiset(Items()) + multiset{item})
      modifies this`size, this`data, data
      ensures Valid() && Items() == Pushed(cmp, old(Items()), item)
      ensures data == old(data) || fresh(data)
    {
      hide Reflexive;
      ghost var s := Items();
      Append(item);
      assert multiset(s + [item]) == multiset(s) + multiset{item};
      SiftUp(cmp, size - 1);
    }
  }

  lemma ReflexiveLess<T(!new)>(cmp: (T, T) -> int, s: multiset<T>, s': multiset<T>)
    requires Reflexive(cmp, s) && s' <= s
    ensures Reflexive(cmp, s')
  {
    forall a | a in s' ensures a in s {
      assert s'[a] <= s[a];
    }
  }

  /** Of the children of i, c is not after the other. */
  lemma SmallerChild<T(!new)>(cmp: (T, T) -> int, s: seq<T>, i: nat, c: nat)
    requires PreorderOn(cmp, multiset(s)) && i < |s| && c < |s| && cmp(s[c], s[i]) < 0
    requires (c == 2 * i && (2 * i + 1 < |s| ==> cmp(s[2 * i + 1], s[2 * i]) >= 0)) || (c == 2 * i + 1 && cmp(s[2 * i + 1], s[2 * i]) < 0)
    ensures i < c && c / 2 == i && Smallest(cmp, s, i, c)
  {
    hide PreorderOn, Le;
    NotBelowItself(cmp, s, i);
    OtherChild(cmp, s, i, c);
  }

  lemma OtherChild<T(!new)>(cmp: (T, T) -> int, s: seq<T>, i: nat, c: nat)
    requires PreorderOn(cmp, multiset(s)) && i < |s| && c < |s|
    requires (c == 2 * i && (2 * i + 1 < |s| ==> cmp(s[2 * i + 1], s[2 * i]) >= 0)) || (c == 2 * i + 1 && cmp(s[2 * i + 1], s[2 * i]) < 0)
    ensures Smallest(cmp, s, i, c)
  {
    hide PreorderOn, Le;
    forall j {:trigger s[j]} | 0 < j < |s| && j / 2 == i && j != i ensures Le(cmp, s[c], s[j]) {
      TwoChildren(i, j);
      OrderAt(cmp, s, j, c);
      OrderAt(cmp, s, c, j);
    }
  }

  lemma TwoChildren(i: nat, j: nat)
    requires j / 2 == i
    ensures j == 2 * i || j == 2 * i + 1
  {
  }

  /** Where sift_down stops. */
  lemma Settles<T(!new)>(cmp: (T, T) -> int, s: seq<T>, i: nat)
    requires PreorderOn(cmp, multiset(s)) && i < |s| && HeapAbove(cmp, s, i)
    requires || 2 * i >= |s|
             || (2 * i + 1 < |s| && cmp(s[2 * i + 1], s[2 * i]) < 0 && cmp(s[2 * i + 1], s[i]) >= 0)
             || ((2 * i + 1 < |s| ==> cmp(s[2 * i + 1], s[2 * i]) >= 0) && cmp(s[2 * i], s[i]) >= 0)
    ensures IsHeap(cmp, s)
  {
    hide PreorderOn, Le, IsHeap, HeapAbove;
    forall j {:trigger s[j]} | 0 < j < |s| && j / 2 == i && j != i ensures Le(cmp, s[i], s[j]) {
      TwoChildren(i, j);
      var c := if 2 * i + 1 < |s| && cmp(s[2 * i + 1], s[2 * i]) < 0 then 2 * i + 1 else 2 * i;
      OtherChild(cmp, s, i, c);
      OrderAt(cmp, s, c, i);
      assert Le(cmp, s[c], s[j]);
      Linked(cmp, s, i, c, j);
    }
    DownEnds(cmp, s, i);
  }

  lemma LeastOfAll<T(!new)>(cmp: (T, T) -> int, s: seq<T>)
    requires |s| > 0 && PreorderOn(cmp, multiset(s)) && IsHeap(cmp, s)
    ensures s[0] in multiset(s) && forall x {:trigger Le(cmp, s[0], x)} :: x in multiset(s) ==> Le(cmp, s[0], x)
  {
    hide PreorderOn, IsHeap, Le;
    forall x {:trigger Le(cmp, s[0], x)} | x in multiset(s) ensures Le(cmp, s[0], x) {
      var i :| 0 <= i < |s| && s[i] == x;
      RootIsLeast(cmp, s, i);
    }
  }

  /** The last element in the place of the root. */
  lemma Replaced<T(!new)>(cmp: (T, T) -> int, s: seq<T>, r: seq<T>)
    requires |s| > 0 && PreorderOn(cmp, multiset(s)) && IsHeap(cmp, s)
    requires r == if |s| == 1 then [] else s[..|s| - 1][0 := s[|s| - 1]]
    ensures multiset(r) == multiset(s) - multiset{s[0]} && PreorderOn(cmp, multiset(r))
    ensures if r == [] then IsHeap(cmp, r) else HeapAbove(cmp, r, 0) && Bridged(cmp, r, 0)
  {
    hide PreorderOn, Le;
    ReplacedItems(s, r);
    PreorderLess(cmp, multiset(s), multiset(r));
    if |s| > 1 {
      forall j {:trigger r[j]} | 0 < j < |r| && j / 2 != 0 ensures Le(cmp, r[j / 2], r[j]) {
        assert s[j] == r[j];
      }
    }
  }

  lemma ReplacedItems<T>(s: seq<T>, r: seq<T>)
    requires |s| > 0
    requires r == if |s| == 1 then [] else s[..|s| - 1][0 := s[|s| - 1]]
    ensures multiset(r) == multiset(s) - multiset{s[0]}
  {
    if |s| == 1 {
      assert s == [s[0]];
    } else {
      var mid, last := s[1..|s| - 1], s[|s| - 1];
      assert s == [s[0]] + mid + [last];
      assert r == [last] + mid;
    }
  }

  /** A new last element. */
  lemma Appended<T(!new)>(cmp: (T, T) -> int, s: seq<T>, x: T)
    requires IsHeap(cmp, s)
    ensures HeapBut(cmp, s + [x], |s|) && Bridged(cmp, s + [x], |s|) && multiset(s + [x]) == multiset(s) + multiset{x}
  {
    var r := s + [x];
    forall j {:trigger r[j]} | 0 < j < |r| && j != |s| ensures Le(cmp, r[j / 2], r[j]) {
      assert r[j] == s[j];
    }
  }

  ghost predicate SortedBy<T>(cmp: (T, T) -> int, r: seq<T>) {
    forall i, j {:trigger r[i], r[j]} :: 0 <= i < j < |r| ==> Le(cmp, r[i], r[j])
  }

  ghost predicate AllBefore<T(!new)>(cmp: (T, T) -> int, r: seq<T>, s: multiset<T>) {
    forall i, x {:trigger Le(cmp, r[i], x)} :: 0 <= i < |r| && x in s ==> Le(cmp, r[i], x)
  }

  method PushAll<T(!new, ==, 0)>(h: MinHeap<T>, cmp: (T, T) -> int, s: seq<T>)
    requires h.Valid() && h.Items() == [] && PreorderOn(cmp, multiset(s))
    modifies h, h.data
    ensures h.Valid() && IsHeap(cmp, h.Items()) && multiset(h.Items()) == multiset(s) && (h.data == old(h.data) || fresh(h.data))
  {
    hide PreorderOn, IsHeap, Le;
    EmptyHeap(cmp, h.Items());
    for k := 0 to |s|
      invariant h.Valid() && IsHeap(cmp, h.Items()) && multiset(h.Items()) == multiset(s[..k])
      invariant h.data == old(h.data) || fresh(h.data)
    {
      OneMore(s, k);
      PreorderLess(cmp, multiset(s), multiset(s[..k + 1]));
      PreorderReflexive(cmp, multiset(s[..k + 1]));
      PushedHeap(cmp, h.Items(), s[k]);
      h.Push(cmp, s[k]);
    }
    assert s[..|s|] == s;
  }

  lemma OneMore<T>(s: seq<T>, k: nat)
    requires k < |s|
    ensures multiset(s[..k + 1]) == multiset(s[..k]) + multiset{s[k]} && multiset(s[..k + 1]) <= multiset(s)
  {
    assert s[..k + 1] == s[..k] + [s[k]];
    assert s == s[..k + 1] + s[k + 1..];
  }

  method PopAll<T(!new, ==, 0)>(h: MinHeap<T>, cmp: (T, T) -> int) returns (r: seq<T>)
    requires h.Valid() && IsHeap(cmp, h.Items()) && PreorderOn(cmp, multiset(h.Items()))
    modifies h, h.data
    ensures multiset(r) == old(multiset(h.Items())) && SortedBy(cmp, r)
  {
    hide PreorderOn, IsHeap, Le, SortedBy, AllBefore;
    ghost var all := multiset(h.Items());
    r := [];
    NoneYet(cmp, all);
    while h.size > 0
      invariant h.Valid() && h.data == old(h.data) && IsHeap(cmp, h.Items()) && PreorderOn(cmp, multiset(h.Items()))
      invariant multiset(r) + multiset(h.Items()) == all
      invariant SortedBy(cmp, r) && AllBefore(cmp, r, multiset(h.Items()))
      decreases h.size
    {
      ghost var items, r0 := multiset(h.Items()), r;
      PreorderReflexive(cmp, items);
      PoppedHeap(cmp, h.Items());
      var x := h.Pop(cmp);
      r := r + [x];
      ghost var rest := multiset(h.Items());
      assert rest == items - multiset{x};
      PreorderLess(cmp, items, rest);
      NextSorted(cmp, r0, items, x);
      assert multiset(r) == multiset(r0) + multiset{x};
      assert items == rest + multiset{x};
    }
    assert h.Items() == [];
  }

  lemma NoneYet<T(!new)>(cmp: (T, T) -> int, s: multiset<T>)
    ensures SortedBy<T>(cmp, []) && AllBefore(cmp, [], s)
  {
  }

  lemma NextSorted<T(!new)>(cmp: (T, T) -> int, r: seq<T>, s: multiset<T>, x: T)
    requires SortedBy(cmp, r) && AllBefore(cmp, r, s) && x in s
    requires forall y {:trigger Le(cmp, x, y)} :: y in s ==> Le(cmp, x, y)
    ensures SortedBy(cmp, r + [x]) && AllBefore(cmp, r + [x], s - multiset{x})
  {
    hide Le;
    var q := r + [x];
    forall i, j {:trigger q[i], q[j]} | 0 <= i < j < |q| ensures Le(cmp, q[i], q[j]) {
      assert q[i] == r[i];
      if j < |r| { assert q[j] == r[j]; } else { assert Le(cmp, r[i], x); }
    }
    forall i, y {:trigger Le(cmp, q[i], y)} | 0 <= i < |q| && y in s - multiset{x} ensures Le(cmp, q[i], y) {
      assert y in s;
      if i < |r| { assert q[i] == r[i] && Le(cmp, r[i], y); } else { assert Le(cmp, x, y); }
    }
  }

  /** Pushing any sequence into a new heap and popping it empty sorts it. */
  method Sort<T(!new, ==, 0)>(cmp: (T, T) -> int, s: seq<T>) returns (r: seq<T>)
    requires PreorderOn(cmp, multiset(s))
    ensures multiset(r) == multiset(s) && SortedBy(cmp, r)
  {
    var h := new MinHeap<T>();
    PushAll(h, cmp, s);
    r := PopAll(h, cmp);
  }

  lemma EmptyHeap<T(!new)>(cmp: (T, T) -> int, s: seq<T>)
    requires s == []
    ensures IsHeap(cmp, s) && multiset(s) == multiset{}
  {
  }
}
