/** The slice heaps of the top-n statistics, driven by Go's container/heap:
    `Swap`, `Push` and `Pop` are the type's own methods, `Up`, `Down`, `HeapPush`
    and `HeapPop` are the library loops over them. */
module GoHeap {

  /** A heap entry: an immutable row and the slot it currently occupies. */
  class Item<T> {
    const value: T
    var index: int

    constructor (value: T)
      ensures this.value == value
    {
      this.value := value;
      index := 0;
    }
  }

  function Values<T>(items: seq<Item<T>>): (r: seq<T>)
    ensures |r| == |items|
    ensures forall i | 0 <= i < |items| :: r[i] == items[i].value
  {
    seq(|items|, i requires 0 <= i < |items| => items[i].value)
  }

  function Parent(i: nat): (p: nat)
    ensures i > 0 ==> p < i
  {
    if i == 0 then 0 else (i - 1) / 2
  }

  /** Slot i is no smaller than its parent. */
  ghost predicate Ordered<T>(key: T -> nat, s: seq<T>, i: nat)
    requires i < |s|
  {
    key(s[Parent(i)]) <= key(s[i])
  }

  ghost predicate IsMinHeap<T>(key: T -> nat, s: seq<T>) {
    forall i | 0 <= i < |s| :: Ordered(key, s, i)
  }

  ghost predicate Descending<T>(key: T -> nat, s: seq<T>) {
    forall i, j | 0 <= i < j < |s| :: key(s[j]) <= key(s[i])
  }

  lemma {:induction false} RootIsMinimum<T>(key: T -> nat, s: seq<T>, i: nat)
    requires IsMinHeap(key, s)
    requires i < |s|
    ensures key(s[0]) <= key(s[i])
  {
    if i > 0 {
      RootIsMinimum(key, s, Parent(i));
      assert Ordered(key, s, i);
    }
  }

  /** The raw descending refill of a snapshot is a min-heap only in the flat case. */
  lemma DescendingHeapIsFlat<T>(key: T -> nat, s: seq<T>)
    requires Descending(key, s)
    ensures IsMinHeap(key, s) <==> forall i, j | 0 <= i < j < |s| :: key(s[i]) == key(s[j])
  {
    if IsMinHeap(key, s) {
      forall i, j | 0 <= i < j < |s| ensures key(s[i]) == key(s[j]) {
        RootIsMinimum(key, s, j);
        assert i > 0 ==> key(s[i]) <= key(s[0]);
      }
    } else {
      var i :| 0 <= i < |s| && !Ordered(key, s, i);
      assert Parent(i) < i;
    }
  }

  ghost function Pointers<T>(items: seq<Item<T>>): set<Item<T>> {
    set x | x in items
  }

  /** `b` holds the same entries as `a`, in some order. */
  ghost predicate SamePointers<T>(a: seq<Item<T>>, b: seq<Item<T>>) {
    && |a| == |b|
    && multiset(a) == multiset(b)
    && multiset(Values(a)) == multiset(Values(b))
    && Pointers(a) == Pointers(b)
  }

  function Swapped<T>(s: seq<T>, i: nat, j: nat): seq<T>
    requires i < |s| && j < |s|
  {
    s[i := s[j]][j := s[i]]
  }

  /** Sifting up: only slot j may be smaller than its parent, and j's children
      are no smaller than j's parent. */
  ghost predicate HeapButUp<T>(key: T -> nat, s: seq<T>, j: nat)
    requires j < |s|
  {
    && (forall i | 0 <= i < |s| && i != j :: Ordered(key, s, i))
    && (forall i | 0 < i < |s| && Parent(i) == j :: key(s[Parent(j)]) <= key(s[i]))
  }

  lemma UpStep<T>(key: T -> nat, s: seq<T>, j: nat)
    requires 0 < j < |s|
    requires HeapButUp(key, s, j)
    requires key(s[j]) < key(s[Parent(j)])
    ensures HeapButUp(key, Swapped(s, Parent(j), j), Parent(j))
  {
    var i := Parent(j);
    var t := Swapped(s, i, j);
    forall k | 0 <= k < |t| && k != i ensures Ordered(key, t, k) {
      assert k != j ==> Ordered(key, s, k);
    }
    assert Ordered(key, s, i);
    forall k | 0 < k < |t| && Parent(k) == i ensures key(t[Parent(i)]) <= key(t[k]) {
      assert k != j ==> Ordered(key, s, k);
    }
  }

  /** Sifting down within the first n slots: only the children of slot i may be
      smaller than their parent, and they are no smaller than i's parent. */
  ghost predicate HeapButDown<T>(key: T -> nat, s: seq<T>, n: nat, i: nat)
    requires i <= n <= |s|
  {
    && (forall k | 0 < k < n && Parent(k) != i :: Ordered(key, s, k))
    && (forall k | 0 < k < n && Parent(k) == i && i > 0 :: key(s[Parent(i)]) <= key(s[k]))
  }

  lemma DownStep<T>(key: T -> nat, s: seq<T>, n: nat, i: nat, j: nat)
    requires 0 < j < n <= |s| && Parent(j) == i
    requires HeapButDown(key, s, n, i)
    requires forall k | 0 < k < n && Parent(k) == i :: key(s[j]) <= key(s[k])
    requires key(s[j]) < key(s[i])
    ensures HeapButDown(key, Swapped(s, i, j), n, j)
  {
  }

  lemma PopStart<T>(key: T -> nat, s: seq<T>)
    requires IsMinHeap(key, s) && s != []
    ensures HeapButDown(key, Swapped(s, 0, |s| - 1), |s| - 1, 0)
    ensures forall i | 0 <= i < |s| :: key(s[0]) <= key(s[i])
  {
    forall i | 0 <= i < |s| ensures key(s[0]) <= key(s[i]) {
      RootIsMinimum(key, s, i);
    }
    forall i | 0 < i < |s| - 1 && Parent(i) != 0 ensures Ordered(key, Swapped(s, 0, |s| - 1), i) {
      assert Ordered(key, s, i);
    }
  }

  lemma DroppedLast<T>(key: T -> nat, items: seq<Item<T>>, x: Item<T>)
    requires forall i | 0 <= i < |items| :: Ordered(key, Values(items + [x]), i)
    ensures IsMinHeap(key, Values(items))
    ensures Pointers(items) <= Pointers(items + [x])
    ensures multiset(items + [x]) == multiset(items) + multiset{x}
    ensures multiset(Values(items + [x])) == multiset(Values(items)) + multiset{x.value}
  {
    assert Values(items + [x]) == Values(items) + [x.value];
    forall i | 0 <= i < |items| ensures Ordered(key, Values(items), i) {
      assert Ordered(key, Values(items + [x]), i);
    }
  }

  lemma DownDone<T>(key: T -> nat, s: seq<T>, n: nat, i: nat)
    requires i <= n <= |s|
    requires HeapButDown(key, s, n, i)
    requires forall k | 0 < k < n && Parent(k) == i :: key(s[i]) <= key(s[k])
    ensures forall k | 0 <= k < n :: Ordered(key, s, k)
  {
  }

  lemma SwapKeepsPointers<T>(a: seq<Item<T>>, i: nat, j: nat)
    requires i < |a| && j < |a|
    ensures Values(Swapped(a, i, j)) == Swapped(Values(a), i, j)
    ensures SamePointers(Swapped(a, i, j), a)
  {
    var b := Swapped(a, i, j);
    assert Values(b) == Swapped(Values(a), i, j);
    assert multiset(a) == multiset(b);
    assert forall x :: x in a <==> x in multiset(a);
    assert forall x :: x in b <==> x in multiset(b);
    assert Pointers(a) == Pointers(b);
  }

  class Heap<T> {
    const key: T -> nat
    var items: seq<Item<T>>

    constructor (key: T -> nat)
      ensures this.key == key && items == []
    {
      this.key := key;
      items := [];
    }

    /** Every entry knows its slot; in particular the entries are distinct objects. */
    ghost predicate Indexed()
      reads this, items
    {
      forall i | 0 <= i < |items| :: items[i].index == i
    }

    ghost predicate Valid()
      reads this, items
    {
      Indexed() && IsMinHeap(key, Values(items))
    }

    predicate Less(i: nat, j: nat)
      requires i < |items| && j < |items|
      reads this
    {
      key(items[i].value) < key(items[j].value)
    }

    method Swap(i: nat, j: nat)
      requires i < |items| && j < |items|
      requires Indexed()
      modifies this`items, Pointers(items)`index
      ensures Indexed()
      ensures items == Swapped(old(items), i, j)
      ensures Values(items) == Swapped(Values(old(items)), i, j)
      ensures SamePointers(items, old(items))
    {
      SwapKeepsPointers(items, i, j);
      items := items[i := items[j]][j := items[i]];
      items[i].index := i;
      items[j].index := j;
    }

    /** Appends without restoring the heap order. */
    method Push(x: Item<T>)
      requires Indexed()
      requires x !in items
      modifies this`items, x`index
      ensures items == old(items) + [x]
      ensures Pointers(items) == Pointers(old(items)) + {x}
      ensures Indexed()
    {
      x.index := |items|;
      items := items + [x];
    }

    /** Removes the last slot. */
    method Pop() returns (x: Item<T>)
      requires Indexed()
      requires items != []
      modifies this`items, Pointers(items)`index
      ensures old(items) == items + [x] && x.index == -1
      ensures Indexed()
    {
      var n := |items|;
      x := items[n - 1];
      x.index := -1;
      items := items[..n - 1];
    }

    method Up(j0: nat)
      requires j0 < |items|
      requires Indexed()
      requires HeapButUp(key, Values(items), j0)
      modifies this`items, Pointers(items)`index
      ensures Valid()
      ensures SamePointers(items, old(items))
    {
      var j := j0;
      while true
        invariant 0 <= j < |items|
        invariant Indexed()
        invariant SamePointers(items, old(items))
        invariant HeapButUp(key, Values(items), j)
        decreases j
      {
        var i := Parent(j);
        if i == j || !Less(j, i) {
          break;
        }
        UpStep(key, Values(items), j);
        Swap(i, j);
        j := i;
      }
      assert Ordered(key, Values(items), j);
    }

    /** The child slot i must be swapped with, or n when i may stay. */
    method SmallerChild(i: nat, n: nat) returns (j: nat)
      requires i < n <= |items|
      ensures j < n ==> 0 < j && Parent(j) == i && Less(j, i)
      ensures j < n ==> forall k | 0 < k < n && Parent(k) == i :: !Less(k, j)
      ensures j >= n ==> forall k | 0 < k < n && Parent(k) == i :: !Less(k, i)
    {
      var j1 := 2 * i + 1;
      if j1 >= n {
        return n;
      }
      j := j1;
      var j2 := j1 + 1;
      if j2 < n && Less(j2, j1) {
        j := j2;
      }
      assert forall k | 0 < k < n && Parent(k) == i :: k == j1 || k == j2;
      if !Less(j, i) {
        return n;
      }
    }

    /** Sifts the root down within the first n slots. */
    method Down(n: nat)
      requires n <= |items|
      requires Indexed()
      requires HeapButDown(key, Values(items), n, 0)
      modifies this`items, Pointers(items)`index
      ensures Indexed()
      ensures SamePointers(items, old(items))
      ensures forall i | 0 <= i < n :: Ordered(key, Values(items), i)
      ensures forall k | n <= k < |items| :: items[k] == old(items)[k]
    {
      var i := 0;
      while i < n
        invariant 0 <= i <= n <= |items|
        invariant Indexed()
        invariant SamePointers(items, old(items))
        invariant HeapButDown(key, Values(items), n, i)
        invariant forall k | n <= k < |items| :: items[k] == old(items)[k]
      {
        var j := SmallerChild(i, n);
        if j >= n {
          break;
        }
        DownStep(key, Values(items), n, i, j);
        Swap(i, j);
        i := j;
      }
      DownDone(key, Values(items), n, i);
    }

    method HeapPush(x: Item<T>)
      requires Valid()
      requires x !in items
      modifies this`items, Pointers(items)`index, x`index
      ensures Valid()
      ensures Pointers(items) == Pointers(old(items)) + {x}
      ensures multiset(items) == multiset(old(items)) + multiset{x}
      ensures multiset(Values(items)) == multiset(Values(old(items))) + multiset{x.value}
    {
      ghost var s := Values(items);
      Push(x);
      assert Values(items) == s + [x.value];
      forall i | 0 <= i < |items| && i != |items| - 1 ensures Ordered(key, Values(items), i) {
        assert Ordered(key, s, i);
      }
      Up(|items| - 1);
    }

    method HeapPop() returns (x: Item<T>)
      requires Valid()
      requires items != []
      modifies this`items, Pointers(items)`index
      ensures Valid()
      ensures x.index == -1 && |items| == |old(items)| - 1
      ensures multiset(items) + multiset{x} == multiset(old(items))
      ensures multiset(Values(items)) + multiset{x.value} == multiset(Values(old(items)))
      ensures Pointers(items) <= Pointers(old(items))
      ensures x == old(items)[0]
      ensures forall i | 0 <= i < |old(items)| :: key(x.value) <= key(old(items)[i].value)
    {
      PopStart(key, Values(items));
      var n := |items| - 1;
      Swap(0, n);
      Down(n);
      ghost var last := items[n];
      x := Pop();
      assert last == x;
      DroppedLast(key, items, x);
    }
  }
}
