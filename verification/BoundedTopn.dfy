/** The bounded heap of a ranking: rebuilt from "old heap plus updated rows", stored as
    a descending list, reloaded on start. Rows are generic; `id` and `key` read them. */
module BoundedTopn {
  import opened GoHeap
  import opened TopnSpec
  import opened Ledger

  function Ranked<T>(id: T -> nat, key: T -> nat, rows: seq<T>): (r: seq<Entry>)
    ensures |r| == |rows|
    ensures forall i | 0 <= i < |rows| :: r[i] == Entry(id(rows[i]), key(rows[i]))
  {
    seq(|rows|, i requires 0 <= i < |rows| => Entry(id(rows[i]), key(rows[i])))
  }

  ghost predicate KeyedById<T>(id: T -> nat, table: map<nat, T>) {
    forall k | k in table :: id(table[k]) == k
  }

  /** Rows by id; of several rows with one id the last one counts. */
  function ById<T>(id: T -> nat, rows: seq<T>): (m: map<nat, T>)
    ensures forall k | k in m :: id(m[k]) == k && m[k] in rows
    ensures forall r | r in rows :: id(r) in m
  {
    if rows == [] then map[]
    else
      var last := rows[|rows| - 1];
      assert rows == rows[..|rows| - 1] + [last];
      ById(id, rows[..|rows| - 1])[id(last) := last]
  }

  lemma {:induction false} ByIdAppend<T>(id: T -> nat, rows: seq<T>, row: T)
    ensures ById(id, rows + [row]) == ById(id, rows)[id(row) := row]
  {
  }

  lemma {:induction false} RankedPermuted<T>(id: T -> nat, key: T -> nat, a: seq<T>, b: seq<T>)
    requires multiset(a) == multiset(b)
    ensures multiset(Ranked(id, key, a)) == multiset(Ranked(id, key, b))
    decreases |a|
  {
    hide Ranked, Without;
    if a == [] {
      assert |multiset(b)| == 0;
    } else {
      assert a[0] in multiset(b);
      var k :| 0 <= k < |b| && b[k] == a[0];
      RankedWithout(id, key, a, 0);
      RankedWithout(id, key, b, k);
      RankedPermuted(id, key, Without(a, 0), Without(b, k));
    }
  }

  function Without<T>(s: seq<T>, k: nat): (r: seq<T>)
    requires k < |s|
    ensures |r| == |s| - 1
  {
    s[..k] + s[k + 1..]
  }

  lemma RankedWithout<T>(id: T -> nat, key: T -> nat, s: seq<T>, k: nat)
    requires k < |s|
    ensures multiset(Without(s, k)) == multiset(s) - multiset{s[k]}
    ensures multiset(Ranked(id, key, s)) ==
            multiset(Ranked(id, key, Without(s, k))) + multiset{Entry(id(s[k]), key(s[k]))}
  {
    assert s == s[..k] + [s[k]] + s[k + 1..];
    var r := Ranked(id, key, s);
    assert r == r[..k] + [r[k]] + r[k + 1..];
    assert Ranked(id, key, Without(s, k)) == r[..k] + r[k + 1..];
  }

  function KeysOf<T>(key: T -> nat, rows: map<nat, T>): (m: map<nat, nat>) {
    map k | k in rows :: key(rows[k])
  }

  lemma {:induction false} RankedById<T>(id: T -> nat, key: T -> nat, rows: seq<T>)
    ensures EntriesOf(Ranked(id, key, rows)) == KeysOf(key, ById(id, rows))
  {
    if rows != [] {
      var init, last := rows[..|rows| - 1], rows[|rows| - 1];
      var s := Ranked(id, key, rows);
      RankedById(id, key, init);
      assert s[..|s| - 1] == Ranked(id, key, init);
      assert EntriesOf(s) == EntriesOf(Ranked(id, key, init))[id(last) := key(last)];
      KeysOfUpdate(key, ById(id, init), id(last), last);
    }
  }

  lemma KeysOfUpdate<T>(key: T -> nat, rows: map<nat, T>, k: nat, row: T)
    ensures KeysOf(key, rows[k := row]) == KeysOf(key, rows)[k := key(row)]
  {
  }

  lemma KeysOfMerge<T>(key: T -> nat, a: map<nat, T>, b: map<nat, T>)
    ensures KeysOf(key, a + b) == KeysOf(key, a) + KeysOf(key, b)
  {
  }

  /** The rows a rebuild chooses from. */
  function CandidateRows<T>(id: T -> nat, kept: seq<T>, updated: seq<T>): map<nat, T> {
    ById(id, kept) + ById(id, updated)
  }

  lemma CandidateKeys<T>(id: T -> nat, key: T -> nat, kept: seq<T>, updated: seq<T>)
    ensures Candidates(Ranked(id, key, kept), EntriesOf(Ranked(id, key, updated))) ==
            KeysOf(key, CandidateRows(id, kept, updated))
  {
    RankedById(id, key, kept);
    RankedById(id, key, updated);
    KeysOfMerge(key, ById(id, kept), ById(id, updated));
  }

  /** `items` holds exactly the candidates named by `kept`. */
  ghost predicate Holds<T>(id: T -> nat, candidates: map<nat, Item<T>>, kept: set<nat>, items: seq<Item<T>>) {
    && kept <= candidates.Keys
    && |items| == |kept|
    && (forall x | x in items :: id(x.value) in kept && candidates[id(x.value)] == x)
    && (forall k | k in kept :: candidates[k] in items && id(candidates[k].value) == k)
  }

  /** What the selection loop keeps after looking at the candidates in `seen`. */
  ghost predicate KeepsLargest<T>(n: nat, key: T -> nat, candidates: map<nat, Item<T>>, seen: set<nat>,
                                  kept: set<nat>) {
    && kept <= seen <= candidates.Keys
    && |kept| == (if |seen| <= n then |seen| else n)
    && (forall k, j | k in seen - kept && j in kept :: key(candidates[k].value) <= key(candidates[j].value))
  }

  ghost predicate WellKeyed<T>(id: T -> nat, candidates: map<nat, Item<T>>) {
    forall k | k in candidates :: id(candidates[k].value) == k
  }

  /** The state of the selection loop. */
  ghost predicate Selecting<T>(n: nat, id: T -> nat, key: T -> nat, candidates: map<nat, Item<T>>,
                               seen: set<nat>, kept: set<nat>, items: seq<Item<T>>) {
    Holds(id, candidates, kept, items) && KeepsLargest(n, key, candidates, seen, kept)
  }

  lemma HoldsPushed<T>(id: T -> nat, candidates: map<nat, Item<T>>, kept: set<nat>, items: seq<Item<T>>,
                       k: nat, items': seq<Item<T>>)
    requires Holds(id, candidates, kept, items)
    requires k in candidates && k !in kept && id(candidates[k].value) == k
    requires multiset(items') == multiset(items) + multiset{candidates[k]}
    ensures Holds(id, candidates, kept + {k}, items')
  {
    assert |items'| == |multiset(items')| == |multiset(items)| + 1;
    forall x | x in items' ensures x in items || x == candidates[k] {
      assert x in multiset(items');
    }
    forall x | x in items || x == candidates[k] ensures x in items' {
      assert x in multiset(items');
    }
  }

  lemma HoldsPopped<T>(id: T -> nat, candidates: map<nat, Item<T>>, kept: set<nat>, items: seq<Item<T>>,
                       x: Item<T>, items': seq<Item<T>>)
    requires Holds(id, candidates, kept, items)
    requires forall k | k in candidates :: id(candidates[k].value) == k
    requires forall i, j | 0 <= i < j < |items| :: items[i] != items[j]
    requires multiset(items') + multiset{x} == multiset(items)
    ensures id(x.value) in kept && candidates[id(x.value)] == x
    ensures Holds(id, candidates, kept - {id(x.value)}, items')
  {
    assert x in multiset(items);
    assert x in items;
    assert |items'| + 1 == |multiset(items') + multiset{x}| == |items|;
    OnceInDistinct(items, x);
    forall y | y in items' ensures y in items && y != x {
      assert y in multiset(items');
      assert y in multiset(items);
    }
    forall y | y in items && y != x ensures y in items' {
      assert y in multiset(items);
      assert y in multiset(items');
    }
  }

  lemma {:induction false} OnceInDistinct<T>(items: seq<Item<T>>, x: Item<T>)
    requires forall i, j | 0 <= i < j < |items| :: items[i] != items[j]
    ensures multiset(items)[x] <= 1
  {
    if items != [] {
      var k := |items| - 1;
      assert items == items[..k] + [items[k]];
      OnceInDistinct(items[..k], x);
      if x == items[k] {
        assert x !in items[..k];
      }
    }
  }

  lemma KeepsPushed<T>(n: nat, key: T -> nat, candidates: map<nat, Item<T>>, seen: set<nat>, kept: set<nat>, k: nat)
    requires KeepsLargest(n, key, candidates, seen, kept)
    requires k in candidates && k !in seen
    requires |kept| < n
    ensures KeepsLargest(n, key, candidates, seen + {k}, kept + {k})
  {
    SubsetSize(kept, seen);
  }

  lemma KeepsSkipped<T>(n: nat, key: T -> nat, candidates: map<nat, Item<T>>, seen: set<nat>, kept: set<nat>, k: nat)
    requires KeepsLargest(n, key, candidates, seen, kept)
    requires k in candidates && k !in seen
    requires |kept| >= n
    requires forall j | j in kept :: key(candidates[k].value) <= key(candidates[j].value)
    ensures KeepsLargest(n, key, candidates, seen + {k}, kept)
  {
  }

  lemma KeepsReplaced<T>(n: nat, key: T -> nat, candidates: map<nat, Item<T>>, seen: set<nat>, kept: set<nat>,
                         out: nat, k: nat)
    requires KeepsLargest(n, key, candidates, seen, kept)
    requires k in candidates && k !in seen
    requires |kept| >= n && out in kept
    requires key(candidates[out].value) < key(candidates[k].value)
    requires forall j | j in kept :: key(candidates[out].value) <= key(candidates[j].value)
    ensures KeepsLargest(n, key, candidates, seen + {k}, kept - {out} + {k})
  {
  }

  /** The finished loop is a selection from the candidates. */
  lemma KeptIsSelection<T>(n: nat, id: T -> nat, key: T -> nat, candidates: map<nat, Item<T>>, kept: set<nat>,
                           items: seq<Item<T>>, d: map<nat, nat>)
    requires Holds(id, candidates, kept, items)
    requires KeepsLargest(n, key, candidates, candidates.Keys, kept)
    requires forall i, j | 0 <= i < j < |items| :: items[i] != items[j]
    requires d == KeysOf(key, Payload(candidates))
    ensures IsSelection(n, d, Ranked(id, key, Values(items)))
  {
  }

  lemma RootBelowKept<T>(id: T -> nat, key: T -> nat, candidates: map<nat, Item<T>>, kept: set<nat>,
                         items: seq<Item<T>>)
    requires Holds(id, candidates, kept, items)
    requires IsMinHeap(key, Values(items))
    ensures forall j | j in kept :: key(items[0].value) <= key(candidates[j].value)
  {
    forall j | j in kept ensures key(items[0].value) <= key(candidates[j].value) {
      var i :| 0 <= i < |items| && items[i] == candidates[j];
      RootIsMinimum(key, Values(items), i);
    }
  }

  lemma NotYetHeld<T>(id: T -> nat, candidates: map<nat, Item<T>>, kept: set<nat>, items: seq<Item<T>>, m: Item<T>)
    requires Holds(id, candidates, kept, items)
    requires id(m.value) !in kept
    ensures m !in items
  {
  }

  lemma HeldAreCandidates<T>(id: T -> nat, candidates: map<nat, Item<T>>, kept: set<nat>, items: seq<Item<T>>)
    requires Holds(id, candidates, kept, items)
    ensures Pointers(items) <= (set x | x in candidates.Values)
  {
  }

  lemma DistinctWhenIndexed<T>(h: Heap<T>)
    requires h.Indexed()
    ensures forall i, j | 0 <= i < j < |h.items| :: h.items[i] != h.items[j]
  {
  }

  function Payload<T>(candidates: map<nat, Item<T>>): (m: map<nat, T>)
    ensures m.Keys == candidates.Keys
  {
    map k | k in candidates :: candidates[k].value
  }

  lemma PayloadOverwritten<T>(id: T -> nat, candidates: map<nat, Item<T>>, base: map<nat, T>,
                              rows: seq<T>, i: nat, m: Item<T>)
    requires i < |rows| && m.value == rows[i]
    requires Payload(candidates) == base + ById(id, rows[..i])
    ensures Payload(candidates[id(rows[i]) := m]) == base + ById(id, rows[..i + 1])
  {
    assert rows[..i + 1] == rows[..i] + [rows[i]];
    ByIdAppend(id, rows[..i], rows[i]);
    MergeUpdate(base, ById(id, rows[..i]), id(rows[i]), rows[i]);
    PayloadUpdate(candidates, id(rows[i]), m);
  }

  lemma MergeUpdate<T>(base: map<nat, T>, m: map<nat, T>, k: nat, row: T)
    ensures base + m[k := row] == (base + m)[k := row]
  {
  }

  lemma PayloadUpdate<T>(candidates: map<nat, Item<T>>, k: nat, m: Item<T>)
    ensures Payload(candidates[k := m]) == Payload(candidates)[k := m.value]
  {
  }

  lemma SelectingPushed<T>(n: nat, id: T -> nat, key: T -> nat, candidates: map<nat, Item<T>>, seen: set<nat>,
                           kept: set<nat>, items: seq<Item<T>>, k: nat, items': seq<Item<T>>)
    requires Selecting(n, id, key, candidates, seen, kept, items)
    requires k in candidates && k !in seen && id(candidates[k].value) == k
    requires |items| < n
    requires multiset(items') == multiset(items) + multiset{candidates[k]}
    ensures Selecting(n, id, key, candidates, seen + {k}, kept + {k}, items')
  {
    HoldsPushed(id, candidates, kept, items, k, items');
    KeepsPushed(n, key, candidates, seen, kept, k);
  }

  lemma SelectingReplaced<T>(n: nat, id: T -> nat, key: T -> nat, candidates: map<nat, Item<T>>, seen: set<nat>,
                             kept: set<nat>, items: seq<Item<T>>, out: Item<T>, rest: seq<Item<T>>,
                             k: nat, items': seq<Item<T>>)
    requires Selecting(n, id, key, candidates, seen, kept, items) && WellKeyed(id, candidates)
    requires forall i, j | 0 <= i < j < |items| :: items[i] != items[j]
    requires IsMinHeap(key, Values(items)) && items != [] && out == items[0]
    requires k in candidates && k !in seen
    requires |items| >= n
    requires key(out.value) < key(candidates[k].value)
    requires multiset(rest) + multiset{out} == multiset(items)
    requires multiset(items') == multiset(rest) + multiset{candidates[k]}
    ensures Selecting(n, id, key, candidates, seen + {k}, kept - {id(out.value)} + {k}, items')
  {
    RootBelowKept(id, key, candidates, kept, items);
    HoldsPopped(id, candidates, kept, items, out, rest);
    HoldsPushed(id, candidates, kept - {id(out.value)}, rest, k, items');
    KeepsReplaced(n, key, candidates, seen, kept, id(out.value), k);
  }

  lemma SelectingSkipped<T>(n: nat, id: T -> nat, key: T -> nat, candidates: map<nat, Item<T>>, seen: set<nat>,
                            kept: set<nat>, items: seq<Item<T>>, k: nat)
    requires Selecting(n, id, key, candidates, seen, kept, items)
    requires IsMinHeap(key, Values(items)) && items != []
    requires k in candidates && k !in seen
    requires |items| >= n
    requires key(candidates[k].value) <= key(items[0].value)
    ensures Selecting(n, id, key, candidates, seen + {k}, kept, items)
  {
    RootBelowKept(id, key, candidates, kept, items);
    KeepsSkipped(n, key, candidates, seen, kept, k);
  }

  /** Every row of the list is the candidate with its id. */
  ghost predicate FromCandidates<T>(id: T -> nat, candidates: map<nat, T>, rows: seq<T>) {
    forall i | 0 <= i < |rows| :: id(rows[i]) in candidates && candidates[id(rows[i])] == rows[i]
  }

  lemma HeldRowsAreCandidates<T>(id: T -> nat, candidates: map<nat, Item<T>>, kept: set<nat>, items: seq<Item<T>>)
    requires Holds(id, candidates, kept, items)
    ensures FromCandidates(id, Payload(candidates), Values(items))
  {
  }

  /** The finished loop, in the terms of the ranking: from the old list and the updated rows. */
  lemma KeptIsRebuild<T>(n: nat, id: T -> nat, key: T -> nat, candidates: map<nat, Item<T>>, kept: set<nat>,
                         items: seq<Item<T>>, previous: seq<T>, rows: seq<T>)
    requires Holds(id, candidates, kept, items)
    requires KeepsLargest(n, key, candidates, candidates.Keys, kept)
    requires forall i, j | 0 <= i < j < |items| :: items[i] != items[j]
    requires Payload(candidates) == CandidateRows(id, previous, rows)
    ensures IsSelection(n, Candidates(Ranked(id, key, previous), EntriesOf(Ranked(id, key, rows))),
                        Ranked(id, key, Values(items)))
    ensures FromCandidates(id, CandidateRows(id, previous, rows), Values(items))
  {
    CandidateKeys(id, key, previous, rows);
    KeptIsSelection(n, id, key, candidates, kept, items, KeysOf(key, Payload(candidates)));
    HeldRowsAreCandidates(id, candidates, kept, items);
  }

  /** A descending permutation of a selection is the re-sorted list of the ranking. */
  lemma SnapshotIsResorted<T>(n: nat, id: T -> nat, key: T -> nat, heap: seq<Entry>, updated: map<nat, nat>,
                              sorted: seq<T>, top: seq<T>)
    requires IsSelection(n, Candidates(heap, updated), Ranked(id, key, sorted))
    requires multiset(top) == multiset(sorted) && Descending(key, top)
    ensures Resorted(n, heap, updated, Ranked(id, key, top))
  {
    RankedPermuted(id, key, top, sorted);
    PermutedSelection(n, Candidates(heap, updated), Ranked(id, key, sorted), Ranked(id, key, top));
  }

  // ------------------------------------------------- the whole-table query

  lemma {:induction false} LargestExists<T>(key: T -> nat, table: map<nat, T>, todo: set<nat>)
    requires {} != todo <= table.Keys
    ensures exists k :: k in todo && forall j | j in todo :: key(table[j]) <= key(table[k])
  {
    var k :| k in todo;
    if todo != {k} {
      LargestExists(key, table, todo - {k});
      var m :| m in todo - {k} && forall j | j in todo - {k} :: key(table[j]) <= key(table[m]);
      var best := if key(table[m]) < key(table[k]) then k else m;
      assert best in todo && forall j | j in todo :: key(table[j]) <= key(table[best]);
    } else {
      assert k in todo && forall j | j in todo :: key(table[j]) <= key(table[k]);
    }
  }

  /** What has been listed of the table when the ids in `todo` are left. */
  ghost predicate Listed<T>(id: T -> nat, key: T -> nat, table: map<nat, T>, todo: set<nat>, rows: seq<T>) {
    && todo <= table.Keys
    && DistinctIds(Ranked(id, key, rows))
    && Descending(key, rows)
    && Ids(Ranked(id, key, rows)) == table.Keys - todo
    && (forall i | 0 <= i < |rows| :: rows[i] == table[id(rows[i])])
    && (forall i, j | 0 <= i < |rows| && j in todo :: key(table[j]) <= key(rows[i]))
  }

  lemma ListedNext<T>(id: T -> nat, key: T -> nat, table: map<nat, T>, todo: set<nat>, rows: seq<T>, k: nat)
    requires Listed(id, key, table, todo, rows)
    requires k in todo && id(table[k]) == k
    requires forall j | j in todo :: key(table[j]) <= key(table[k])
    ensures Listed(id, key, table, todo - {k}, rows + [table[k]])
  {
    var s, t := Ranked(id, key, rows), Ranked(id, key, rows + [table[k]]);
    assert t == s + [Entry(k, key(table[k]))];
    assert Ids(t) == Ids(s) + {k};
    forall i | 0 <= i < |rows| ensures t[i].id != k {
      assert s[i].id in Ids(s);
    }
  }

  lemma ListedIsTopn<T>(n: nat, id: T -> nat, key: T -> nat, table: map<nat, T>, todo: set<nat>, rows: seq<T>)
    requires Listed(id, key, table, todo, rows)
    requires |rows| == n || (|rows| < n && todo == {})
    ensures IsTopn(n, ValueIn(KeysOf(key, table)), Ranked(id, key, rows))
    ensures DescendingKeys(Ranked(id, key, rows))
  {
  }

  /** `Topn`: the n largest rows of the table, largest first; ties fall either way. */
  method QueryTopn<T>(n: nat, id: T -> nat, key: T -> nat, table: map<nat, T>) returns (rows: seq<T>)
    requires KeyedById(id, table)
    ensures IsTopn(n, ValueIn(KeysOf(key, table)), Ranked(id, key, rows))
    ensures DescendingKeys(Ranked(id, key, rows)) && Descending(key, rows)
    ensures forall r | r in rows :: id(r) in table && table[id(r)] == r
  {
    rows := [];
    var todo := table.Keys;
    assert Ids(Ranked(id, key, rows)) == {} == table.Keys - todo;
    while |rows| < n && todo != {}
      invariant |rows| <= n
      invariant Listed(id, key, table, todo, rows)
      decreases todo
    {
      LargestExists(key, table, todo);
      var k :| k in todo && forall j | j in todo :: key(table[j]) <= key(table[k]);
      ListedNext(id, key, table, todo, rows, k);
      rows, todo := rows + [table[k]], todo - {k};
    }
    ListedIsTopn(n, id, key, table, todo, rows);
    forall i | 0 <= i < |rows| ensures id(rows[i]) in table && table[id(rows[i])] == rows[i] {
      assert Ranked(id, key, rows)[i].id in Ids(Ranked(id, key, rows));
    }
  }

  /** The values moved out so far are in descending order and not above those left. */
  ghost predicate Drained<T>(key: T -> nat, all: seq<T>, left: seq<T>, top: seq<T>) {
    && multiset(top) + multiset(left) == multiset(all)
    && Descending(key, top)
    && forall i, j | 0 <= i < |top| && 0 <= j < |left| :: key(top[i]) <= key(left[j])
  }

  lemma DrainedNothing<T>(key: T -> nat, all: seq<T>)
    ensures Drained(key, all, all, [])
  {
  }

  lemma DrainedOneMore<T>(key: T -> nat, all: seq<T>, left: seq<T>, left': seq<T>, top: seq<T>, x: T)
    requires Drained(key, all, left, top)
    requires multiset(left') + multiset{x} == multiset(left)
    requires forall j | 0 <= j < |left| :: key(x) <= key(left[j])
    ensures Drained(key, all, left', [x] + top)
  {
    assert x in multiset(left);
    forall j | 0 <= j < |left'| ensures left'[j] in left {
      assert left'[j] in multiset(left');
      assert left'[j] in multiset(left);
    }
  }

  lemma DrainedAll<T>(key: T -> nat, all: seq<T>, top: seq<T>)
    requires Drained(key, all, [], top)
    ensures Descending(key, top) && multiset(top) == multiset(all)
  {
  }

  class BoundedHeap<T> {
    const n: nat
    const id: T -> nat
    const key: T -> nat
    var heap: Heap<T>

    constructor (n: nat, id: T -> nat, key: T -> nat)
      requires n > 0
      ensures this.n == n && this.id == id && this.key == key
      ensures Valid() && heap.Valid() && fresh(heap) && heap.items == []
    {
      this.n, this.id, this.key := n, id, key;
      heap := new Heap<T>(key);
    }

    ghost predicate Valid()
      reads this, heap
    {
      n > 0 && heap.key == key
    }

    function Rows(): seq<T>
      reads this, heap
    {
      Values(heap.items)
    }

    /** The candidates by id, as heap entries: updated rows get new ones. */
    method Deduplicate(rows: seq<T>) returns (candidates: map<nat, Item<T>>)
      requires Valid()
      ensures forall k | k in candidates :: candidates[k] in heap.items || fresh(candidates[k])
      ensures Payload(candidates) == CandidateRows(id, Rows(), rows)
    {
      hide ById, Payload;
      var kept := OwnById();
      candidates := Overwrite(kept, rows);
    }

    method OwnById() returns (kept: map<nat, Item<T>>)
      ensures forall k | k in kept :: kept[k] in heap.items
      ensures Payload(kept) == ById(id, Rows())
    {
      kept := map[];
      for i := 0 to |heap.items|
        invariant forall k | k in kept :: kept[k] in heap.items
        invariant Payload(kept) == map[] + ById(id, Rows()[..i])
      {
        var m := heap.items[i];
        PayloadOverwritten(id, kept, map[], Rows(), i, m);
        kept := kept[id(m.value) := m];
      }
      assert Rows()[..|heap.items|] == Rows();
      assert map[] + ById(id, Rows()) == ById(id, Rows());
    }

    method Overwrite(kept: map<nat, Item<T>>, rows: seq<T>) returns (candidates: map<nat, Item<T>>)
      ensures forall k | k in candidates :: (k in kept && candidates[k] == kept[k]) || fresh(candidates[k])
      ensures Payload(candidates) == Payload(kept) + ById(id, rows)
    {
      candidates := kept;
      for i := 0 to |rows|
        invariant forall k | k in candidates :: (k in kept && candidates[k] == kept[k]) || fresh(candidates[k])
        invariant Payload(candidates) == Payload(kept) + ById(id, rows[..i])
      {
        var m := new Item<T>(rows[i]);
        PayloadOverwritten(id, candidates, Payload(kept), rows, i, m);
        candidates := candidates[id(rows[i]) := m];
      }
      assert rows[..|rows|] == rows;
    }

    function Entries(): seq<Entry>
      reads this, heap
    {
      Ranked(id, key, Rows())
    }

    /** One candidate of the selection loop. */
    method Offer(h: Heap<T>, candidates: map<nat, Item<T>>, k: nat, ghost seen: set<nat>, ghost kept: set<nat>)
      returns (ghost kept': set<nat>)
      requires n > 0 && h.key == key && h.Valid()
      requires WellKeyed(id, candidates)
      requires Selecting(n, id, key, candidates, seen, kept, h.items)
      requires k in candidates && k !in seen
      modifies h`items, candidates.Values`index
      ensures h.Valid()
      ensures Selecting(n, id, key, candidates, seen + {k}, kept', h.items)
    {
      var m := candidates[k];
      HeldAreCandidates(id, candidates, kept, h.items);
      kept' := kept;
      ghost var items := h.items;
      if |h.items| < n {
        h.HeapPush(m);
        SelectingPushed(n, id, key, candidates, seen, kept, items, k, h.items);
        kept' := kept + {k};
      } else if key(m.value) > key(h.items[0].value) {
        DistinctWhenIndexed(h);
        var x := h.HeapPop();
        ghost var rest := h.items;
        NotYetHeld(id, candidates, kept, items, m);
        assert m !in rest by {
          assert m in rest ==> m in Pointers(items);
        }
        h.HeapPush(m);
        SelectingReplaced(n, id, key, candidates, seen, kept, items, x, rest, k, h.items);
        kept' := kept - {id(x.value)} + {k};
      } else {
        SelectingSkipped(n, id, key, candidates, seen, kept, items, k);
      }
    }

    /** The selection loop, visiting the candidates in an arbitrary order. */
    method Select(candidates: map<nat, Item<T>>) returns (h: Heap<T>, ghost kept: set<nat>)
      requires n > 0
      requires WellKeyed(id, candidates)
      modifies candidates.Values`index
      ensures fresh(h) && h.key == key && h.Valid()
      ensures Selecting(n, id, key, candidates, candidates.Keys, kept, h.items)
    {
      h := new Heap<T>(key);
      kept := {};
      ghost var seen: set<nat> := {};
      var todo := candidates.Keys;
      while todo != {}
        invariant todo <= candidates.Keys && seen == candidates.Keys - todo
        invariant fresh(h) && h.key == key && h.Valid()
        invariant Selecting(n, id, key, candidates, seen, kept, h.items)
        decreases todo
      {
        var k :| k in todo;
        kept := Offer(h, candidates, k, seen, kept);
        seen, todo := seen + {k}, todo - {k};
      }
    }

    method Rebuild(rows: seq<T>) returns (h: Heap<T>)
      requires Valid()
      modifies Pointers(heap.items)`index
      ensures fresh(h) && h.key == key && h.Valid()
      ensures fresh(Pointers(h.items) - Pointers(heap.items))
      ensures IsSelection(n, Candidates(Entries(), EntriesOf(Ranked(id, key, rows))), Ranked(id, key, Values(h.items)))
      ensures FromCandidates(id, CandidateRows(id, Rows(), rows), Values(h.items))
    {
      var candidates := Deduplicate(rows);
      assert forall k | k in candidates :: Payload(candidates)[k] == candidates[k].value;
      ghost var kept;
      h, kept := Select(candidates);
      DistinctWhenIndexed(h);
      HeldAreCandidates(id, candidates, kept, h.items);
      KeptIsRebuild(n, id, key, candidates, kept, h.items, Rows(), rows);
    }

    /** Rebuilds the heap from its own entries and the updated rows. */
    method Sort(rows: seq<T>)
      requires Valid()
      modifies this`heap, Pointers(heap.items)`index
      ensures Valid() && heap.Valid()
      ensures fresh(heap) && fresh(Pointers(heap.items) - old(Pointers(heap.items)))
      ensures IsSelection(n, Candidates(old(Entries()), EntriesOf(Ranked(id, key, rows))), Entries())
      ensures FromCandidates(id, CandidateRows(id, old(Rows()), rows), Rows())
    {
      hide IsSelection, Candidates, EntriesOf, Ranked, CandidateRows, FromCandidates;
      var h := Rebuild(rows);
      heap := h;
    }

    method Drain() returns (top: seq<T>)
      requires Valid() && heap.Valid()
      modifies heap`items, Pointers(heap.items)`index
      ensures Valid() && heap.Indexed() && heap.items == []
      ensures Descending(key, top)
      ensures multiset(top) == multiset(old(Rows()))
    {
      hide IsMinHeap, Drained;
      top := [];
      DrainedNothing(key, Rows());
      while heap.items != []
        invariant Valid() && heap.Valid()
        invariant Pointers(heap.items) <= old(Pointers(heap.items))
        invariant Drained(key, old(Rows()), Rows(), top)
        decreases |heap.items|
      {
        ghost var before := Rows();
        var x := heap.HeapPop();
        DrainedOneMore(key, old(Rows()), before, Rows(), top, x.value);
        top := [x.value] + top;
      }
      DrainedAll(key, old(Rows()), top);
    }

    /** Drains the heap into a descending list and refills it with raw pushes: the slice is
        left in the order of the list, in general no longer a min-heap. */
    method Snapshot() returns (top: seq<T>)
      requires Valid() && heap.Valid()
      modifies heap`items, Pointers(heap.items)`index
      ensures Valid() && heap.Indexed() && fresh(Pointers(heap.items))
      ensures Rows() == top && Descending(key, top)
      ensures multiset(top) == multiset(old(Rows()))
    {
      top := Drain();
      for i := 0 to |top|
        invariant Valid() && heap.Indexed() && fresh(Pointers(heap.items))
        invariant Rows() == top[..i]
      {
        var x := new Item<T>(top[i]);
        heap.Push(x);
      }
    }

    /** `sort`, then `snapshot` of the freshly built min-heap. */
    method Resort(rows: seq<T>) returns (top: seq<T>)
      requires Valid()
      modifies this`heap, Pointers(heap.items)`index
      ensures Valid() && heap.Indexed()
      ensures fresh(heap) && fresh(Pointers(heap.items))
      ensures Rows() == top
      ensures Resorted(n, old(Entries()), EntriesOf(Ranked(id, key, rows)), Entries())
    {
      ghost var before := Entries();
      Sort(rows);
      ghost var sorted := Rows();
      top := Snapshot();
      SnapshotIsResorted(n, id, key, before, EntriesOf(Ranked(id, key, rows)), sorted, top);
    }

    /** Rebuilds the heap from a stored list. */
    method Load(rows: seq<T>)
      requires Valid() && heap.Valid() && heap.items == []
      modifies heap`items
      ensures Valid() && heap.Valid() && fresh(Pointers(heap.items))
      ensures multiset(Rows()) == multiset(rows)
    {
      for i := 0 to |rows|
        invariant Valid() && heap.Valid() && fresh(Pointers(heap.items))
        invariant multiset(Rows()) == multiset(rows[..i])
      {
        var x := new Item<T>(rows[i]);
        heap.HeapPush(x);
        assert rows[..i + 1] == rows[..i] + [rows[i]];
      }
      assert rows[..|rows|] == rows;
    }
  }
}
