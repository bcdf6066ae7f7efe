/** The transaction column of the submit ranking: each batch counts its distinct
    transactions, so a transaction whose submissions fall into two batches counts twice. */
module TransactionCounts {
  import opened Wrappers
  import opened Ledger
  import opened TopnSpec
  import opened TopnMachine

  /** The owner's transactions with submissions on both sides of `mid` inside lo..hi-1. */
  function Straddling(events: seq<Event>, id: nat, lo: nat, mid: nat, hi: nat): set<nat> {
    TxSet(events, id, lo, mid) * TxSet(events, id, mid, hi)
  }

  /** How often a step of the run has counted an already counted transaction again. */
  ghost function Repeats(c: Config, run: seq<State>, i: nat, id: nat): nat
    requires i < |run|
  {
    if i == 0 then 0
    else Repeats(c, run, i - 1, id) + |Straddling(run[i].chain.events, id, c.start, run[i - 1].pos, run[i].pos)|
  }

  /** The row exceeds the number of distinct transactions by exactly the repeats. */
  lemma {:induction false} TxsExceedByRepeats(c: Config, run: seq<State>, i: nat, id: nat)
    requires IsRun(c, run)
    requires i < |run|
    requires c.field == Txs
    ensures ValueIn(run[i].table)(id) ==
            ValueIn(run[0].table)(id) + Counted(c, run[i], id) + Repeats(c, run, i, id)
  {
    RunIsSound(c, run, i);
    if i == 0 {
      EmptyRange(c.field, run[0].chain.events, id, c.start);
      FirstBootAtStart(c, run[0]);
    } else {
      var s, s' := run[i - 1], run[i];
      RunIsSound(c, run, i - 1);
      TxsExceedByRepeats(c, run, i - 1, id);
      StepMovesTotals(c, s, s', id);
      StepKeepsCounted(c, s, s', id);
      TxsSplit(s'.chain.events, id, c.start, s.pos, s'.pos);
    }
  }

  /** No transaction of the owner reaches over a cursor of the run. */
  ghost predicate NoneStraddles(c: Config, run: seq<State>, i: nat, id: nat)
    requires i < |run|
  {
    forall k | 0 <= k < i :: Straddling(run[i].chain.events, id, c.start, run[k].pos, run[i].pos) == {}
  }

  lemma CursorAdvances(c: Config, run: seq<State>, i: nat)
    requires IsRun(c, run)
    requires 0 < i < |run|
    ensures c.start <= run[i - 1].pos <= run[i].pos
  {
    RunIsSound(c, run, i - 1);
    StepMovesTotals(c, run[i - 1], run[i], 0);
  }

  lemma {:induction false} CursorsAscend(c: Config, run: seq<State>, k: nat, i: nat)
    requires IsRun(c, run)
    requires k <= i < |run|
    ensures c.start <= run[k].pos <= run[i].pos
  {
    if k < i {
      CursorsAscend(c, run, k, i - 1);
      CursorAdvances(c, run, i);
    } else if i > 0 {
      CursorAdvances(c, run, i);
    }
  }

  /** Crossing the cursor of step k by step i: crossed before, or between the last two cursors. */
  lemma StraddlingGrows(c: Config, run: seq<State>, k: nat, i: nat, id: nat)
    requires IsRun(c, run)
    requires k < i < |run|
    ensures Straddling(run[i].chain.events, id, c.start, run[k].pos, run[i].pos) <=
            Straddling(run[i - 1].chain.events, id, c.start, run[k].pos, run[i - 1].pos) +
            Straddling(run[i].chain.events, id, c.start, run[i - 1].pos, run[i].pos)
    ensures Straddling(run[i - 1].chain.events, id, c.start, run[k].pos, run[i - 1].pos) <=
            Straddling(run[i].chain.events, id, c.start, run[k].pos, run[i].pos)
  {
    hide TxSet, Step, Sound;
    var s, s' := run[i - 1], run[i];
    CursorsAscend(c, run, k, i - 1);
    CursorsAscend(c, run, i - 1, i);
    RunIsSound(c, run, i - 1);
    StepKeepsCounted(c, s, s', id);
    StraddlingSplits(s'.chain.events, id, c.start, run[k].pos, s.pos, s'.pos);
    assert Straddling(s'.chain.events, id, c.start, run[k].pos, s.pos) ==
           Straddling(s.chain.events, id, c.start, run[k].pos, s.pos);
  }

  /** Crossing p below r is crossing p below q, or crossing q below r. */
  lemma StraddlingSplits(events: seq<Event>, id: nat, lo: nat, p: nat, q: nat, r: nat)
    requires lo <= p <= q <= r
    ensures Straddling(events, id, lo, p, r) <= Straddling(events, id, lo, p, q) + Straddling(events, id, lo, q, r)
    ensures Straddling(events, id, lo, p, q) <= Straddling(events, id, lo, p, r)
  {
    hide TxSet;
    TxsSplit(events, id, p, q, r);
    TxsSplit(events, id, lo, p, q);
  }

  lemma {:induction false} NoRepeatsMeansNoneStraddles(c: Config, run: seq<State>, i: nat, id: nat)
    requires IsRun(c, run)
    requires i < |run|
    ensures Repeats(c, run, i, id) == 0 <==> NoneStraddles(c, run, i, id)
  {
    if i > 0 {
      NoRepeatsMeansNoneStraddles(c, run, i - 1, id);
      forall k | 0 <= k < i
        ensures Straddling(run[i].chain.events, id, c.start, run[k].pos, run[i].pos) <=
                Straddling(run[i - 1].chain.events, id, c.start, run[k].pos, run[i - 1].pos) +
                Straddling(run[i].chain.events, id, c.start, run[i - 1].pos, run[i].pos)
        ensures Straddling(run[i - 1].chain.events, id, c.start, run[k].pos, run[i - 1].pos) <=
                Straddling(run[i].chain.events, id, c.start, run[k].pos, run[i].pos)
      {
        StraddlingGrows(c, run, k, i, id);
      }
      var last := Straddling(run[i].chain.events, id, c.start, run[i - 1].pos, run[i].pos);
      assert |last| == 0 <==> last == {};
      if NoneStraddles(c, run, i, id) {
        assert last == {};
      }
    }
  }

  /** The row is the owner's number of distinct transactions (on top of its initial value)
      exactly when no transaction of the owner reaches over a batch boundary. */
  lemma TxsExactIffNoneStraddles(c: Config, run: seq<State>, i: nat, id: nat)
    requires IsRun(c, run)
    requires i < |run|
    requires c.field == Txs
    ensures ValueIn(run[i].table)(id) == ValueIn(run[0].table)(id) + Counted(c, run[i], id)
            <==> NoneStraddles(c, run, i, id)
  {
    TxsExceedByRepeats(c, run, i, id);
    NoRepeatsMeansNoneStraddles(c, run, i, id);
  }

  // ------------------------------------------------- concrete runs

  /** Owner 1 submits twice in one transaction, at positions 0 and 1. */
  const TWICE: Chain := Chain([Event(0, 0, 0, 1, 1, 1, 7), Event(1, 0, 0, 1, 1, 1, 7)], map[0 := 0], 1, 0)

  const ONE_SLOT: Config := Config(1, 1, 0, Txs)
  const BEFORE: State := State(TWICE, map[], None, None, 0, [])
  const BOOTED: State := State(TWICE, map[], None, Some([]), 0, [])
  const HALFWAY: State := State(TWICE, map[1 := 1], Some(0), Some([Entry(1, 1)]), 1, [Entry(1, 1)])
  const DONE: State := State(TWICE, map[1 := 2], Some(1), Some([Entry(1, 2)]), 2, [Entry(1, 2)])

  lemma TwiceQueries()
    ensures Settled(TWICE) == TWICE.events
    ensures TxSet(TWICE.events, 1, 0, 1) == TxSet(TWICE.events, 1, 1, 2) == TxSet(TWICE.events, 1, 0, 2) == {7}
    ensures Owners(TWICE.events, 0, 1) == Owners(TWICE.events, 1, 2) == {1}
  {
  }

  lemma OneSlotSelection(key: nat, heap: seq<Entry>)
    requires heap == [] || exists k :: heap == [Entry(1, k)]
    ensures Resorted(1, heap, map[1 := key], [Entry(1, key)])
  {
  }

  lemma FirstHalfAdvances()
    ensures Advanced(ONE_SLOT, BOOTED, HALFWAY, 1)
    ensures Updated(ONE_SLOT, BOOTED, 1) == map[1 := 1]
    ensures NextEnd(TWICE, 0, 1) == Some(1)
  {
    TwiceQueries();
  }

  lemma SecondHalfAdvances()
    ensures Advanced(ONE_SLOT, HALFWAY, DONE, 2)
    ensures Updated(ONE_SLOT, HALFWAY, 2) == map[1 := 2]
    ensures NextEnd(TWICE, 1, 1) == Some(2)
  {
    TwiceQueries();
  }

  lemma FirstHalfCommits()
    ensures CommitStep(ONE_SLOT, BOOTED, HALFWAY)
  {
    FirstHalfAdvances();
    OneSlotSelection(1, []);
    assert Committed(ONE_SLOT, BOOTED, HALFWAY, 1);
  }

  lemma SecondHalfCommits()
    ensures CommitStep(ONE_SLOT, HALFWAY, DONE)
  {
    SecondHalfAdvances();
    OneSlotSelection(2, HALFWAY.heap);
    assert Committed(ONE_SLOT, HALFWAY, DONE, 2);
  }

  lemma RunOfThree(c: Config, s0: State, s1: State, s2: State)
    requires FirstBoot(c, s0) && CommitStep(c, s0, s1) && CommitStep(c, s1, s2)
    ensures IsRun(c, [s0, s1, s2])
  {
    hide FirstBoot, CommitStep;
  }

  lemma BootsEmpty()
    ensures FirstBoot(ONE_SLOT, BOOTED)
  {
    assert BootStep(ONE_SLOT, BEFORE, BOOTED);
  }

  /** Owner 1's row has grown by two although it holds a single transaction. */
  ghost predicate CountedTwice(c: Config, first: State, last: State) {
    && ValueIn(last.table)(1) == ValueIn(first.table)(1) + 2
    && Counted(c, last, 1) == 1
  }

  lemma DoneCountedTwice()
    ensures CountedTwice(ONE_SLOT, BOOTED, DONE)
  {
    TwiceQueries();
  }

  /** Batches of one: the single transaction is counted twice. */
  lemma SplitTransactionCountsTwice()
    ensures exists first: State, middle: State, last: State ::
              IsRun(ONE_SLOT, [first, middle, last]) && CountedTwice(ONE_SLOT, first, last)
  {
    BootsEmpty();
    FirstHalfCommits();
    SecondHalfCommits();
    DoneCountedTwice();
    RunOfThree(ONE_SLOT, BOOTED, HALFWAY, DONE);
  }

  // ------------------------------------------------- retries must not shrink

  /** Two submits in one block: 1 to owner 1, then 5 to owner 2. */
  const PAIR: Chain := Chain([Event(0, 0, 0, 1, 1, 1, 7), Event(1, 0, 0, 2, 5, 5, 8)], map[0 := 0], 1, 0)

  const WIDE: Config := Config(1, 2, 0, Size)
  const IDLE: State := State(PAIR, map[], None, Some([]), 0, [])
  const FAILED: State := State(PAIR, map[], None, Some([]), 0, [Entry(2, 5)])
  const SHORT: State := State(PAIR, map[1 := 1], Some(0), Some([Entry(2, 5)]), 1, [Entry(2, 5)])

  lemma PairUpdates()
    ensures Updated(WIDE, IDLE, 2) == map[1 := 1, 2 := 5]
    ensures Updated(WIDE, FAILED, 1) == map[1 := 1]
  {
    var e0, e1 := PAIR.events[0], PAIR.events[1];
    assert e0 in PAIR.events && e1 in PAIR.events;
    assert PAIR.events[..1] == [e0];
    assert Owners(PAIR.events, 0, 2) == {1, 2};
    assert Owners(PAIR.events, 0, 1) == {1};
    assert Sum(Size, PAIR.events, 1, 0, 2) == 1 && Sum(Size, PAIR.events, 2, 0, 2) == 5;
    assert Sum(Size, PAIR.events, 1, 0, 1) == 1;
  }

  lemma PairSelection(heap: seq<Entry>, updated: map<nat, nat>)
    requires Candidates(heap, updated) == map[1 := 1, 2 := 5]
    ensures Resorted(1, heap, updated, [Entry(2, 5)])
  {
  }

  lemma PairFails()
    ensures Aborted(WIDE, IDLE, FAILED, 2)
  {
    PairUpdates();
    assert Candidates([], map[1 := 1, 2 := 5]) == map[1 := 1, 2 := 5];
    PairSelection([], map[1 := 1, 2 := 5]);
  }

  lemma PairAdvancesShort()
    ensures Advanced(WIDE, FAILED, SHORT, 1)
    ensures Updated(WIDE, FAILED, 1) == map[1 := 1]
  {
    PairUpdates();
  }

  lemma PairResorts()
    ensures Resorted(1, [Entry(2, 5)], map[1 := 1], [Entry(2, 5)])
  {
  }

  lemma PairCommitsShort()
    ensures Committed(WIDE, FAILED, SHORT, 1)
  {
    PairAdvancesShort();
    PairResorts();
  }

  lemma PairIsSettled()
    ensures Settled(PAIR) == PAIR.events
    ensures NextEnd(PAIR, 0, WIDE.batch) == Some(2)
    ensures IsLastFinalizedBlock(PAIR, 0)
  {
    assert PAIR.events[0] in Settled(PAIR);
  }

  lemma IdleIsBooted()
    ensures FirstBoot(WIDE, IDLE)
  {
    assert WellFormed(PAIR);
    assert BootStep(WIDE, State(PAIR, map[], None, None, 0, []), IDLE);
  }

  /** A position of the last finalized block, not necessarily the last one. */
  ghost predicate IsLastFinalizedBlock(chain: Chain, pos: nat) {
    var s := Settled(chain);
    s != [] && exists e :: e in s && e.pos == pos && e.block == s[|s| - 1].block
  }

  /** Why the end of a batch must be the last finalized position and not any position of
      the last finalized block: after a first start, a failed batch over both submits followed
      by a commit of the first alone stores a list that is not a top-n of the stored table. */
  lemma ShorterRetryBreaksRanking()
    ensures exists s: State, failed: State, done: State :: ShrunkRetry(s, failed, done)
  {
    IdleIsBooted();
    PairIsSettled();
    PairFails();
    assert FailStep(WIDE, IDLE, FAILED);
    PairCommitsShort();
    ShortListIsWrong();
    assert ShrunkRetry(IDLE, FAILED, SHORT);
  }

  ghost predicate ShrunkRetry(s: State, failed: State, done: State) {
    && FirstBoot(WIDE, s)
    && FailStep(WIDE, s, failed)
    && IsLastFinalizedBlock(failed.chain, 0)
    && Committed(WIDE, failed, done, 1)
    && !StoresTopn(done)
  }

  ghost predicate StoresTopn(s: State) {
    s.snap.Some? && IsTopn(WIDE.n, ValueIn(s.table), s.snap.value)
  }

  lemma ShortListIsWrong()
    ensures !StoresTopn(SHORT)
  {
  }
}
