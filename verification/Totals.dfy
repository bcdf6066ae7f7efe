/** A stored running total with a copy in memory: an attempt raises the copy before its
    transaction, a commit stores the copy, a failed transaction leaves the copy raised, and
    a restart reloads the stored value. */
module Totals {

  /** What an action does to the total. A commit without files does not write it. */
  datatype Effect = Other | Boot | Commit(files: nat) | Fail(files: nat)

  /** What the two totals hold beyond the files of the committed attempts. */
  datatype Leak = Leak(mem: nat, stored: nat)

  function NextLeak(leak: Leak, e: Effect): Leak {
    match e
    case Other => leak
    case Boot => Leak(leak.stored, leak.stored)
    case Commit(files) => if files == 0 then leak else Leak(leak.mem, leak.mem)
    case Fail(files) => Leak(leak.mem + files, leak.stored)
  }

  function LeakAt(h: seq<Effect>, k: nat): Leak
    requires k <= |h|
  {
    if k == 0 then Leak(0, 0) else NextLeak(LeakAt(h, k - 1), h[k - 1])
  }

  // ------------------------------------------------- when nothing has leaked

  ghost predicate Leaking(h: seq<Effect>, i: nat) {
    i < |h| && h[i].Fail? && h[i].files > 0
  }

  ghost predicate Absorbing(h: seq<Effect>, i: nat) {
    i < |h| && h[i].Commit? && h[i].files > 0
  }

  ghost predicate NoBoot(h: seq<Effect>, i: nat, j: nat) {
    j <= |h| && forall m | i < m < j :: h[m] != Boot
  }

  /** A failed attempt that had found files, and a later commit of files by the same process. */
  ghost predicate LeakIsCommitted(h: seq<Effect>, i: nat, j: nat) {
    i < j && Leaking(h, i) && Absorbing(h, j) && NoBoot(h, i, j)
  }

  ghost predicate Inflated(h: seq<Effect>, k: nat) {
    exists i: nat, j: nat :: j < k && LeakIsCommitted(h, i, j)
  }

  /** A failed attempt of the running process whose files no commit has stored yet. */
  ghost predicate Pending(h: seq<Effect>, i: nat, k: nat) {
    && i < k && Leaking(h, i) && NoBoot(h, i, k)
    && forall m: nat | i < m < k :: !Absorbing(h, m)
  }

  ghost predicate HasPending(h: seq<Effect>, k: nat) {
    exists i :: Pending(h, i, k)
  }

  /** The stored total has leaked exactly when a failed attempt with files was followed by a
      commit with files before a restart; the copy is ahead while such an attempt is pending. */
  lemma {:induction false} LeakHistory(h: seq<Effect>, k: nat)
    requires k <= |h|
    ensures LeakAt(h, k).stored <= LeakAt(h, k).mem
    ensures LeakAt(h, k).stored > 0 <==> Inflated(h, k)
    ensures LeakAt(h, k).mem > LeakAt(h, k).stored <==> HasPending(h, k)
  {
    if k > 0 {
      LeakHistory(h, k - 1);
      if Absorbing(h, k - 1) {
        CommitStoresPending(h, k);
      } else if Leaking(h, k - 1) {
        assert Pending(h, k - 1, k);
        InflationStays(h, k);
      } else {
        InflationStays(h, k);
        PendingStays(h, k);
      }
    }
  }

  lemma InflationStays(h: seq<Effect>, k: nat)
    requires 0 < k <= |h| && !Absorbing(h, k - 1)
    ensures Inflated(h, k) <==> Inflated(h, k - 1)
  {
  }

  lemma PendingStays(h: seq<Effect>, k: nat)
    requires 0 < k <= |h| && !Absorbing(h, k - 1) && !Leaking(h, k - 1)
    ensures HasPending(h, k) <==> h[k - 1] != Boot && HasPending(h, k - 1)
  {
    if HasPending(h, k) {
      var i :| Pending(h, i, k);
      assert Pending(h, i, k - 1);
    }
    if h[k - 1] != Boot && HasPending(h, k - 1) {
      var k1 := k - 1;
      var i :| Pending(h, i, k1);
      assert Pending(h, i, k);
    }
  }

  lemma CommitStoresPending(h: seq<Effect>, k: nat)
    requires 0 < k <= |h| && Absorbing(h, k - 1)
    ensures Inflated(h, k) <==> Inflated(h, k - 1) || HasPending(h, k - 1)
    ensures !HasPending(h, k)
  {
    if Inflated(h, k) && !Inflated(h, k - 1) {
      var i: nat, j: nat :| j < k && LeakIsCommitted(h, i, j);
      assert j == k - 1;
      forall m: nat | i < m < k - 1 ensures !Absorbing(h, m) {
        assert Absorbing(h, m) ==> LeakIsCommitted(h, i, m);
      }
      assert Pending(h, i, k - 1);
    }
    var k1 := k - 1;
    if i :| Pending(h, i, k1) {
      assert LeakIsCommitted(h, i, k - 1);
    }
  }
}
