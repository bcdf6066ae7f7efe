/** What a bounded top-n list means, independently of how it is computed. */
module TopnSpec {
  import opened Ledger

  datatype Entry = Entry(id: nat, key: nat)

  /** The value of every id; an id without a row counts as 0. */
  type Valuation = nat -> nat

  function ValueIn(table: map<nat, nat>): Valuation {
    id => if id in table then table[id] else 0
  }

  function Ids(s: seq<Entry>): (r: set<nat>)
    ensures forall i | 0 <= i < |s| :: s[i].id in r
  {
    set e | e in s :: e.id
  }

  ghost predicate DistinctIds(s: seq<Entry>) {
    forall i, j | 0 <= i < j < |s| :: s[i].id != s[j].id
  }

  /** `s` is a top-n list of the valuation: true values, no id twice, and whatever is
      left out is no larger than anything in a full list, and 0 otherwise. */
  ghost predicate IsTopn(n: nat, value: Valuation, s: seq<Entry>) {
    && |s| <= n
    && DistinctIds(s)
    && (forall e | e in s :: e.key == value(e.id))
    && (forall id | id !in Ids(s) :: Outside(n, value, s, id))
  }

  ghost predicate Outside(n: nat, value: Valuation, s: seq<Entry>, id: nat) {
    if |s| == n then forall e | e in s :: value(id) <= e.key else value(id) == 0
  }

  ghost predicate DescendingKeys(s: seq<Entry>) {
    forall i, j | 0 <= i < j < |s| :: s[j].key <= s[i].key
  }

  /** The key of rank i, 0 past the end. */
  function Rank(s: seq<Entry>, i: nat): nat {
    if i < |s| then s[i].key else 0
  }

  // ------------------------------------------------- the keys are determined

  /** The ids whose key exceeds t. */
  ghost function Above(s: seq<Entry>, t: nat): set<nat> {
    set e | e in s && e.key > t :: e.id
  }

  lemma {:induction false} IdsSize(s: seq<Entry>)
    requires DistinctIds(s)
    ensures |Ids(s)| == |s|
  {
    if s != [] {
      var k := |s| - 1;
      IdsSize(s[..k]);
      assert s == s[..k] + [s[k]];
      assert Ids(s) == Ids(s[..k]) + {s[k].id};
      assert s[k].id !in Ids(s[..k]);
    }
  }

  lemma AboveFitsOther(n: nat, value: Valuation, a: seq<Entry>, b: seq<Entry>, t: nat)
    requires IsTopn(n, value, a) && IsTopn(n, value, b)
    ensures |Above(a, t)| <= |Above(b, t)|
  {
    IdsSize(a);
    IdsSize(b);
    if id :| id in Above(a, t) && id !in Above(b, t) {
      // id is missing from b, so b is full of keys at least as large
      assert id !in Ids(b);
      assert Outside(n, value, b, id);
      assert Above(b, t) == Ids(b);
      assert Above(a, t) <= Ids(a);
      SubsetSize(Above(a, t), Ids(a));
    } else {
      SubsetSize(Above(a, t), Above(b, t));
    }
  }

  lemma {:induction false} RankCounts(s: seq<Entry>, i: nat, t: nat)
    requires DistinctIds(s) && DescendingKeys(s)
    ensures Rank(s, i) > t <==> |Above(s, t)| > i
  {
    if s == [] {
      assert Above(s, t) == {};
    } else if s[|s| - 1].key > t {
      assert forall e | e in s :: e.key > t;
      assert Above(s, t) == Ids(s);
      IdsSize(s);
    } else {
      var r := s[..|s| - 1];
      assert s == r + [s[|s| - 1]];
      assert Above(s, t) == Above(r, t);
      RankCounts(r, i, t);
    }
  }

  /** Any two ranked top-n lists of the same valuation show the same key at every rank
      (a shorter list only misses zeros): the list is determined by the table. */
  lemma TopnIsUnique(n: nat, value: Valuation, a: seq<Entry>, b: seq<Entry>, i: nat)
    requires IsTopn(n, value, a) && DescendingKeys(a)
    requires IsTopn(n, value, b) && DescendingKeys(b)
    ensures Rank(a, i) == Rank(b, i)
  {
    if Rank(a, i) < Rank(b, i) {
      RankCounts(a, i, Rank(a, i));
      RankCounts(b, i, Rank(a, i));
      AboveFitsOther(n, value, b, a, Rank(a, i));
    } else if Rank(b, i) < Rank(a, i) {
      RankCounts(a, i, Rank(b, i));
      RankCounts(b, i, Rank(b, i));
      AboveFitsOther(n, value, a, b, Rank(b, i));
    }
  }

  /** More than `i` ids have a value above t. */
  ghost predicate MoreAbove(value: Valuation, i: nat, t: nat) {
    exists ids: set<nat> :: |ids| > i && forall id | id in ids :: value(id) > t
  }

  /** The key of a rank below n is the value of that rank among all ids: it exceeds t exactly if
      more ids than the ones before it do. */
  lemma RankIsValue(n: nat, value: Valuation, s: seq<Entry>, i: nat, t: nat)
    requires IsTopn(n, value, s) && DescendingKeys(s) && i < n
    ensures Rank(s, i) > t <==> MoreAbove(value, i, t)
  {
    RankCounts(s, i, t);
    if Rank(s, i) > t {
      assert forall id | id in Above(s, t) :: value(id) > t;
    }
    if ids: set<nat> :| |ids| > i && forall id | id in ids :: value(id) > t {
      if id :| id in ids && id !in Above(s, t) {
        // id is missing from s, so s is full of keys at least as large
        assert id !in Ids(s);
        assert Outside(n, value, s, id);
        assert Above(s, t) == Ids(s);
        IdsSize(s);
      } else {
        SubsetSize(ids, Above(s, t));
      }
    }
  }

  // ------------------------------------------------- the selection

  /** `s` keeps min(n, |d|) of the candidates, none smaller than a dropped one. */
  ghost predicate IsSelection(n: nat, d: map<nat, nat>, s: seq<Entry>) {
    && |s| == (if |d| <= n then |d| else n)
    && DistinctIds(s)
    && (forall e | e in s :: e.id in d && e.key == d[e.id])
    && (forall id | id in d && id !in Ids(s) :: forall e | e in s :: d[id] <= e.key)
  }

  lemma SelectionIsTopn(n: nat, d: map<nat, nat>, s: seq<Entry>)
    requires IsSelection(n, d, s)
    ensures IsTopn(n, ValueIn(d), s)
  {
    IdsSize(s);
    forall id | id !in Ids(s) ensures Outside(n, ValueIn(d), s, id) {
      if id in d && |s| < n {
        SubsetSize(Ids(s), d.Keys);
      }
    }
  }

  /** The order in which the candidates are visited does not show in the result. */
  lemma SelectionIgnoresOrder(n: nat, d: map<nat, nat>, a: seq<Entry>, b: seq<Entry>, i: nat)
    requires IsSelection(n, d, a) && DescendingKeys(a)
    requires IsSelection(n, d, b) && DescendingKeys(b)
    ensures |a| == |b| && Rank(a, i) == Rank(b, i)
  {
    SelectionIsTopn(n, d, a);
    SelectionIsTopn(n, d, b);
    TopnIsUnique(n, ValueIn(d), a, b, i);
  }

  // ------------------------------------------------- order does not matter

  lemma PermutedIdsDistinct(a: seq<Entry>, b: seq<Entry>)
    requires DistinctIds(a)
    requires multiset(a) == multiset(b)
    ensures DistinctIds(b)
  {
    forall i, j | 0 <= i < j < |b| ensures b[i].id != b[j].id {
      if b[i].id == b[j].id {
        assert b == b[..i] + [b[i]] + b[i + 1..j] + [b[j]] + b[j + 1..];
        assert b[i] in multiset(a) && b[j] in multiset(a);
        if b[i] == b[j] {
          assert multiset(a)[b[i]] >= 2;
          OccursOnce(a, b[i]);
        }
      }
    }
  }

  lemma {:induction false} OccursOnce(a: seq<Entry>, e: Entry)
    requires DistinctIds(a)
    ensures multiset(a)[e] <= 1
  {
    if a != [] {
      var k := |a| - 1;
      assert a == a[..k] + [a[k]];
      OccursOnce(a[..k], e);
      if e == a[k] {
        assert e !in a[..k];
      }
    }
  }

  lemma PermutedTopn(n: nat, v: Valuation, a: seq<Entry>, b: seq<Entry>)
    requires IsTopn(n, v, a)
    requires multiset(a) == multiset(b)
    ensures IsTopn(n, v, b)
  {
    assert |a| == |multiset(a)| == |b|;
    assert forall e :: e in a <==> e in multiset(a);
    assert forall e :: e in b <==> e in multiset(b);
    assert Ids(a) == Ids(b);
    PermutedIdsDistinct(a, b);
    forall id | id !in Ids(b) ensures Outside(n, v, b, id) {
      assert Outside(n, v, a, id);
    }
  }

  lemma PermutedSelection(n: nat, d: map<nat, nat>, a: seq<Entry>, b: seq<Entry>)
    requires IsSelection(n, d, a)
    requires multiset(a) == multiset(b)
    ensures IsSelection(n, d, b)
  {
    assert |a| == |multiset(a)| == |b|;
    assert forall e :: e in a <==> e in multiset(a);
    assert forall e :: e in b <==> e in multiset(b);
    assert Ids(a) == Ids(b);
    PermutedIdsDistinct(a, b);
  }

  // ------------------------------------------------- incremental maintenance

  /** The candidates of a rebuild: the old list, overwritten by the updated rows. */
  function Candidates(s: seq<Entry>, updated: map<nat, nat>): map<nat, nat> {
    EntriesOf(s) + updated
  }

  function EntriesOf(s: seq<Entry>): (m: map<nat, nat>)
    ensures m.Keys == Ids(s)
  {
    if s == [] then map[]
    else
      assert s == s[..|s| - 1] + [s[|s| - 1]];
      EntriesOf(s[..|s| - 1])[s[|s| - 1].id := s[|s| - 1].key]
  }

  lemma {:induction false} EntriesOfDistinct(s: seq<Entry>)
    requires DistinctIds(s)
    ensures forall e | e in s :: EntriesOf(s)[e.id] == e.key
  {
    if s != [] {
      var k := |s| - 1;
      assert s == s[..k] + [s[k]];
      EntriesOfDistinct(s[..k]);
    }
  }

  lemma CandidatesHaveNewValues(before: Valuation, after: Valuation, previous: seq<Entry>, updated: map<nat, nat>,
                                id: nat)
    requires DistinctIds(previous) && forall e | e in previous :: e.key == before(e.id)
    requires forall id | id in updated :: updated[id] == after(id)
    requires forall id | id !in updated :: after(id) == before(id)
    requires id in Candidates(previous, updated)
    ensures Candidates(previous, updated)[id] == after(id)
  {
    EntriesOfDistinct(previous);
    if id !in updated {
      var e :| e in previous && e.id == id;
    }
  }

  /** An id that is neither in the old list nor updated stays outside. */
  lemma UntouchedStaysOutside(n: nat, before: Valuation, after: Valuation, previous: seq<Entry>, d: map<nat, nat>,
                              s: seq<Entry>, id: nat)
    requires DistinctIds(previous) && |previous| <= n
    requires Outside(n, before, previous, id) && after(id) == before(id)
    requires forall e | e in previous :: e.id in d && before(e.id) == e.key && before(e.id) <= d[e.id]
    requires IsSelection(n, d, s)
    ensures Outside(n, after, s, id)
  {
    if |previous| == n {
      FullListStaysAbove(n, after, previous, d, s, id);
    }
  }

  /** Looking only at the old list and the updated rows is enough when values never fall. */
  lemma RebuildKeepsTopn(n: nat, before: Valuation, after: Valuation, previous: seq<Entry>,
                         updated: map<nat, nat>, s: seq<Entry>)
    requires IsTopn(n, before, previous)
    requires forall id :: before(id) <= after(id)
    requires forall id | id in updated :: updated[id] == after(id)
    requires forall id | id !in updated :: after(id) == before(id)
    requires IsSelection(n, Candidates(previous, updated), s)
    ensures IsTopn(n, after, s)
  {
    var d := Candidates(previous, updated);
    SelectionIsTopn(n, d, s);
    forall id | id !in Ids(s) ensures Outside(n, after, s, id) {
      SelectedOutside(n, before, after, previous, updated, s, id);
    }
    forall e | e in s ensures e.key == after(e.id) {
      CandidatesHaveNewValues(before, after, previous, updated, e.id);
    }
  }

  lemma SelectedOutside(n: nat, before: Valuation, after: Valuation, previous: seq<Entry>,
                        updated: map<nat, nat>, s: seq<Entry>, id: nat)
    requires IsTopn(n, before, previous)
    requires forall id :: before(id) <= after(id)
    requires forall id | id in updated :: updated[id] == after(id)
    requires forall id | id !in updated :: after(id) == before(id)
    requires IsSelection(n, Candidates(previous, updated), s)
    requires id !in Ids(s)
    ensures Outside(n, after, s, id)
  {
    hide IsSelection, Outside;
    var d := Candidates(previous, updated);
    if id in d {
      SelectionIsTopn(n, d, s);
      CandidatesHaveNewValues(before, after, previous, updated, id);
      OutsideSame(n, ValueIn(d), after, s, id);
    } else {
      forall e | e in previous ensures e.id in d && before(e.id) == e.key && before(e.id) <= d[e.id] {
        CandidatesHaveNewValues(before, after, previous, updated, e.id);
      }
      UntouchedStaysOutside(n, before, after, previous, d, s, id);
    }
  }

  lemma OutsideSame(n: nat, v: Valuation, w: Valuation, s: seq<Entry>, id: nat)
    requires Outside(n, v, s, id) && v(id) == w(id)
    ensures Outside(n, w, s, id)
  {
  }

  /** A full old list keeps the new list full, and above everything it was above. */
  lemma FullListStaysAbove(n: nat, after: Valuation, previous: seq<Entry>, d: map<nat, nat>, s: seq<Entry>, id: nat)
    requires |previous| == n && DistinctIds(previous)
    requires forall e | e in previous :: e.id in d && after(id) <= d[e.id]
    requires IsSelection(n, d, s)
    ensures |s| == n
    ensures forall e | e in s :: after(id) <= e.key
  {
    IdsSize(previous);
    IdsSize(s);
    SubsetSize(Ids(previous), d.Keys);
    forall e | e in s ensures after(id) <= e.key {
      if Ids(previous) <= Ids(s) {
        SubsetSize(Ids(previous), Ids(s));
        assert e.id in Ids(previous);
        var o :| o in previous && o.id == e.id;
      } else {
        var x :| x in Ids(previous) && x !in Ids(s);
        var o :| o in previous && o.id == x;
      }
    }
  }

  /** A rebuild followed by a snapshot: a selection from the candidates, in descending order. */
  ghost predicate Resorted(n: nat, heap: seq<Entry>, updated: map<nat, nat>, heap': seq<Entry>) {
    IsSelection(n, Candidates(heap, updated), heap') && DescendingKeys(heap')
  }
}
