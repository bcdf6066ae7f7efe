/** Counts of submits by block time, and when they are final. */
module TimeCounts {
  import opened Wrappers
  import opened Ledger

  const SECONDS_IN_HOUR := 3600
  const SECONDS_IN_DAY := 86400

  // ------------------------------------------------- counting by time

  datatype Counts = Counts(files: nat, dataSize: nat, baseFee: nat, txs: nat)

  function Plus(a: Counts, b: Counts): Counts {
    Counts(a.files + b.files, a.dataSize + b.dataSize, a.baseFee + b.baseFee, a.txs + b.txs)
  }

  function SumBetween(f: Field, events: seq<Event>, lo: int, hi: int): nat {
    if events == [] then 0
    else
      var e := events[|events| - 1];
      SumBetween(f, events[..|events| - 1], lo, hi) + if lo <= e.time < hi then Measure(f, e) else 0
  }

  function TxsBetween(events: seq<Event>, lo: int, hi: int): set<nat> {
    set e | e in events && lo <= e.time < hi :: e.tx
  }

  /** `SubmitStore.Count`: the submits with lo <= block time < hi. */
  function Count(events: seq<Event>, lo: int, hi: int): Counts {
    Counts(SumBetween(Files, events, lo, hi), SumBetween(Size, events, lo, hi), SumBetween(Amount, events, lo, hi),
           |TxsBetween(events, lo, hi)|)
  }

  /** The counts of a single submit, column by column. */
  lemma OneEventCount(e: Event, lo: int, hi: int)
    ensures Count([e], lo, hi) ==
            if lo <= e.time < hi then Counts(files := 1, dataSize := e.size, baseFee := e.amount, txs := 1)
            else Counts(files := 0, dataSize := 0, baseFee := 0, txs := 0)
  {
    OneEventBetween(Files, e, lo, hi);
    OneEventBetween(Size, e, lo, hi);
    OneEventBetween(Amount, e, lo, hi);
    assert TxsBetween([e], lo, hi) == if lo <= e.time < hi then {e.tx} else {};
  }

  lemma OneEventBetween(f: Field, e: Event, lo: int, hi: int)
    ensures SumBetween(f, [e], lo, hi) == if lo <= e.time < hi then Measure(f, e) else 0
  {
    assert [e][..|[e]| - 1] == [];
    assert SumBetween(f, [], lo, hi) == 0;
  }

  lemma {:induction false} SumsBetweenAppend(f: Field, events: seq<Event>, more: seq<Event>, lo: int, hi: int)
    ensures SumBetween(f, events + more, lo, hi) == SumBetween(f, events, lo, hi) + SumBetween(f, more, lo, hi)
  {
    if more == [] {
      assert events + more == events;
    } else {
      var all, k := events + more, |more| - 1;
      assert all[..|all| - 1] == events + more[..k];
      SumsBetweenAppend(f, events, more[..k], lo, hi);
    }
  }

  /** Files, sizes and fees of two lists of submits add up; with the single submit this fixes
      them for every list. */
  lemma CountsAppend(events: seq<Event>, more: seq<Event>, lo: int, hi: int)
    ensures var a, b, c := Count(events, lo, hi), Count(more, lo, hi), Count(events + more, lo, hi);
            c.files == a.files + b.files && c.dataSize == a.dataSize + b.dataSize && c.baseFee == a.baseFee + b.baseFee
  {
    SumsBetweenAppend(Files, events, more, lo, hi);
    SumsBetweenAppend(Size, events, more, lo, hi);
    SumsBetweenAppend(Amount, events, more, lo, hi);
  }

  /** Where the submits of the window are. */
  ghost function PlacesBetween(events: seq<Event>, lo: int, hi: int): set<int> {
    set i | 0 <= i < |events| && lo <= events[i].time < hi
  }

  function During(lo: int, hi: int): Event -> bool {
    (e: Event) => lo <= e.time < hi
  }

  /** The number of submits in the window, the sums of their sizes and of their fees, and the
      number of distinct transactions among them. */
  ghost predicate CountsSubmits(c: Counts, events: seq<Event>, lo: int, hi: int) {
    && c.files == |PlacesBetween(events, lo, hi)|
    && c.dataSize == Total(SizeOf(), events, During(lo, hi))
    && c.baseFee == Total(AmountOf(), events, During(lo, hi))
    && c.txs == |set i | i in PlacesBetween(events, lo, hi) :: events[i].tx|
  }

  /** What the four columns are. */
  lemma CountIsNumber(events: seq<Event>, lo: int, hi: int)
    ensures CountsSubmits(Count(events, lo, hi), events, lo, hi)
    ensures Count(events, lo, hi).txs <= Count(events, lo, hi).files
  {
    hide Total;
    FilesBetween(events, lo, hi);
    SumsBetweenAreTotals(events, lo, hi);
    forall e | e in events && lo <= e.time < hi
      ensures exists i :: i in PlacesBetween(events, lo, hi) && events[i] == e
    {
      var i :| 0 <= i < |events| && events[i] == e;
      assert i in PlacesBetween(events, lo, hi);
    }
    assert TxsBetween(events, lo, hi) == set i | i in PlacesBetween(events, lo, hi) :: events[i].tx;
  }

  lemma {:induction false} SumsBetweenAreTotals(events: seq<Event>, lo: int, hi: int)
    ensures SumBetween(Size, events, lo, hi) == Total(SizeOf(), events, During(lo, hi))
    ensures SumBetween(Amount, events, lo, hi) == Total(AmountOf(), events, During(lo, hi))
  {
    if events != [] {
      var init, e := events[..|events| - 1], events[|events| - 1];
      assert events == init + [e];
      SumsBetweenAreTotals(init, lo, hi);
      TotalAppend(SizeOf(), init, e, During(lo, hi));
      TotalAppend(AmountOf(), init, e, During(lo, hi));
    }
  }

  lemma {:induction false} FilesBetween(events: seq<Event>, lo: int, hi: int)
    ensures SumBetween(Files, events, lo, hi) == |PlacesBetween(events, lo, hi)|
    ensures |TxsBetween(events, lo, hi)| <= SumBetween(Files, events, lo, hi)
  {
    if events != [] {
      var init, e := events[..|events| - 1], events[|events| - 1];
      assert events == init + [e];
      FilesBetween(init, lo, hi);
      PlacesBetweenGrow(init, e, lo, hi);
    }
  }

  lemma PlacesBetweenGrow(events: seq<Event>, e: Event, lo: int, hi: int)
    ensures |PlacesBetween(events + [e], lo, hi)| ==
            |PlacesBetween(events, lo, hi)| + if lo <= e.time < hi then 1 else 0
    ensures |TxsBetween(events + [e], lo, hi)| <= |TxsBetween(events, lo, hi)| + if lo <= e.time < hi then 1 else 0
  {
    var more := if lo <= e.time < hi then {|events|} else {};
    assert PlacesBetween(events + [e], lo, hi) == PlacesBetween(events, lo, hi) + more;
    var txs := if lo <= e.time < hi then {e.tx} else {};
    assert TxsBetween(events + [e], lo, hi) == TxsBetween(events, lo, hi) + txs;
  }

  lemma {:induction false} SumBetweenSplits(f: Field, events: seq<Event>, lo: int, mid: int, hi: int)
    requires lo <= mid <= hi
    ensures SumBetween(f, events, lo, mid) + SumBetween(f, events, mid, hi) == SumBetween(f, events, lo, hi)
  {
    if events != [] {
      SumBetweenSplits(f, events[..|events| - 1], lo, mid, hi);
    }
  }

  /** A transaction has one time. */
  ghost predicate TxTimesFit(events: seq<Event>) {
    forall d, e | d in events && e in events && d.tx == e.tx :: d.time == e.time
  }

  lemma AscendingTxTimesFit(events: seq<Event>)
    requires Ascending(events)
    ensures TxTimesFit(events)
  {
  }

  /** So no transaction is in two adjacent windows. */
  lemma TxsBetweenSplits(events: seq<Event>, lo: int, mid: int, hi: int)
    requires TxTimesFit(events)
    requires lo <= mid <= hi
    ensures |TxsBetween(events, lo, mid)| + |TxsBetween(events, mid, hi)| == |TxsBetween(events, lo, hi)|
  {
    var a, b := TxsBetween(events, lo, mid), TxsBetween(events, mid, hi);
    forall x | x in TxsBetween(events, lo, hi) ensures x in a + b {
      var e :| e in events && lo <= e.time < hi && e.tx == x;
      assert e.time < mid || mid <= e.time;
    }
    assert TxsBetween(events, lo, hi) == a + b;
    assert a !! b;
  }

  /** Adjacent windows add up, distinct transactions included. */
  lemma CountSplits(events: seq<Event>, lo: int, mid: int, hi: int)
    requires TxTimesFit(events)
    requires lo <= mid <= hi
    ensures Plus(Count(events, lo, mid), Count(events, mid, hi)) == Count(events, lo, hi)
  {
    SumBetweenSplits(Files, events, lo, mid, hi);
    SumBetweenSplits(Size, events, lo, mid, hi);
    SumBetweenSplits(Amount, events, lo, mid, hi);
    TxsBetweenSplits(events, lo, mid, hi);
  }

  lemma {:induction false} SumBetweenIgnores(f: Field, events: seq<Event>, more: seq<Event>, lo: int, hi: int)
    requires forall e | e in more :: hi <= e.time
    ensures SumBetween(f, events + more, lo, hi) == SumBetween(f, events, lo, hi)
  {
    if more == [] {
      assert events + more == events;
    } else {
      var all := events + more;
      assert all[..|all| - 1] == events + more[..|more| - 1];
      assert more[|more| - 1] in more;
      SumBetweenIgnores(f, events, more[..|more| - 1], lo, hi);
    }
  }

  lemma CountIgnores(events: seq<Event>, more: seq<Event>, lo: int, hi: int)
    requires forall e | e in more :: hi <= e.time
    ensures Count(events + more, lo, hi) == Count(events, lo, hi)
  {
    SumBetweenIgnores(Files, events, more, lo, hi);
    SumBetweenIgnores(Size, events, more, lo, hi);
    SumBetweenIgnores(Amount, events, more, lo, hi);
    assert TxsBetween(events + more, lo, hi) == TxsBetween(events, lo, hi);
  }

  // ------------------------------------------------- closed windows

  /** A finalized block at or after `end` is stored: the condition of `tryAcquireTimeRange`. */
  ghost predicate Closed(c: Chain, end: int) {
    exists b :: b in c.blocks && b <= c.finalized && end <= c.blocks[b]
  }

  lemma LaterBlocksAreLater(c: Chain, b: nat, e: Event)
    requires WellFormed(c)
    requires b in c.blocks && e in c.events && b <= e.block
    ensures c.blocks[b] <= e.time
  {
  }

  /** The two lists differ only in events at or after `end`, behind a common beginning. */
  ghost predicate SameBefore(a: seq<Event>, b: seq<Event>, end: int) {
    exists k: nat :: SameUpTo(a, b, end, k)
  }

  ghost predicate SameUpTo(a: seq<Event>, b: seq<Event>, end: int, k: nat) {
    && k <= |a| && k <= |b| && a[..k] == b[..k]
    && (forall e | e in a[k..] :: end <= e.time) && (forall e | e in b[k..] :: end <= e.time)
  }

  lemma SameBeforeCounts(a: seq<Event>, b: seq<Event>, end: int, lo: int, hi: int)
    requires SameBefore(a, b, end) && hi <= end
    ensures Count(a, lo, hi) == Count(b, lo, hi)
  {
    hide Count;
    var k: nat :| SameUpTo(a, b, end, k);
    assert a == a[..k] + a[k..] && b == b[..k] + b[k..];
    CountIgnores(a[..k], a[k..], lo, hi);
    CountIgnores(b[..k], b[k..], lo, hi);
  }

  lemma PushKeepsEvents(c: Chain, c': Chain, block: nat, time: nat, more: seq<Event>, b: nat, end: int)
    requires WellFormed(c) && Pushed(c, c', block, time, more)
    requires b in c.blocks && b <= c.finalized && end <= c.blocks[b]
    ensures b in c'.blocks && c'.blocks[b] == c.blocks[b]
    ensures SameBefore(c.events, c'.events, end)
  {
    var k := |c.events|;
    assert c'.events[k..] == more;
    forall e | e in more ensures end <= e.time {
      assert e in c'.events;
      LaterBlocksAreLater(c', b, e);
    }
    assert SameUpTo(c.events, c'.events, end, k);
  }

  lemma PopKeepsEvents(c: Chain, c': Chain, block: nat, b: nat, end: int)
    requires WellFormed(c) && Popped(c, c', block)
    requires b in c.blocks && b <= c.finalized && end <= c.blocks[b]
    ensures b in c'.blocks && c'.blocks[b] == c.blocks[b]
    ensures SameBefore(c.events, c'.events, end)
  {
    BeforeSelects(c.events, block);
    var k := |c'.events|;
    forall e | e in c.events[k..] ensures end <= e.time {
      LaterBlocksAreLater(c, b, e);
    }
    assert SameUpTo(c.events, c'.events, end, k);
  }

  /** A closed window stays closed and its events never change again, whatever is synced,
      re-organized or finalized next. */
  lemma ClosedWindowIsFinal(c: Chain, c': Chain, end: int)
    requires WellFormed(c) && ChainStep(c, c') && Closed(c, end)
    ensures WellFormed(c') && Closed(c', end)
    ensures SameBefore(c.events, c'.events, end)
  {
    hide SameBefore;
    var b :| b in c.blocks && b <= c.finalized && end <= c.blocks[b];
    if block, time, more :| Pushed(c, c', block, time, more) {
      PushKeepsEvents(c, c', block, time, more, b, end);
    } else if block :| Popped(c, c', block) {
      PopKeepsWellFormed(c, c', block);
      PopKeepsEvents(c, c', block, b, end);
    } else {
      assert b in c'.blocks && b <= c'.finalized;
      SameAsItself(c.events, end);
    }
  }

  lemma SameAsItself(a: seq<Event>, end: int)
    ensures SameBefore(a, a, end)
  {
    assert SameUpTo(a, a, end, |a|);
  }

  /** So are its counts. */
  lemma ClosedCountIsFinal(c: Chain, c': Chain, end: int, lo: int, hi: int)
    requires WellFormed(c) && ChainStep(c, c') && Closed(c, end) && hi <= end
    ensures Count(c'.events, lo, hi) == Count(c.events, lo, hi)
  {
    ClosedWindowIsFinal(c, c', end);
    SameBeforeCounts(c.events, c'.events, end, lo, hi);
  }

  /** Over any history of the chain the counts of a closed window never change again. */
  lemma {:induction false} ClosedCountForever(chains: seq<Chain>, i: nat, j: nat, end: int, lo: int, hi: int)
    requires IsHistory(chains) && i <= j < |chains|
    requires Closed(chains[i], end) && hi <= end
    ensures Closed(chains[j], end) && Count(chains[j].events, lo, hi) == Count(chains[i].events, lo, hi)
  {
    hide Closed, Count;
    if i < j {
      ClosedCountForever(chains, i, j - 1, end, lo, hi);
      SettledForever(chains, i, j - 1);
      ClosedWindowIsFinal(chains[j - 1], chains[j], end);
      ClosedCountIsFinal(chains[j - 1], chains[j], end, lo, hi);
    }
  }

  // ------------------------------------------------- the block that closes a window

  /** The earliest of some blocks at or after a time, the lowest of equally early ones. */
  ghost predicate IsFirstAfter(blocks: map<nat, nat>, among: set<nat>, t: int, first: nat)
    requires among <= blocks.Keys
  {
    && first in among && t <= blocks[first]
    && forall b | b in among && t <= blocks[b] ::
         blocks[first] < blocks[b] || (blocks[first] == blocks[b] && first <= b)
  }

  method FirstBlockAfterTime(blocks: map<nat, nat>, t: int) returns (first: Option<nat>)
    ensures first.None? ==> forall b | b in blocks :: blocks[b] < t
    ensures first.Some? ==> IsFirstAfter(blocks, blocks.Keys, t, first.value)
  {
    first := None;
    var todo := blocks.Keys;
    while todo != {}
      invariant todo <= blocks.Keys
      invariant first.None? ==> forall b | b in blocks && b !in todo :: blocks[b] < t
      invariant first.Some? ==> IsFirstAfter(blocks, blocks.Keys - todo, t, first.value)
      decreases todo
    {
      var b :| b in todo;
      if t <= blocks[b] {
        var earlier := first.None? || blocks[b] < blocks[first.value];
        if earlier || (blocks[b] == blocks[first.value] && b < first.value) {
          first := Some(b);
        }
      }
      todo := todo - {b};
    }
    assert blocks.Keys - todo == blocks.Keys;
  }

  /** The earliest block after `end` is finalized exactly when some block after it is. */
  lemma FirstBlockDecides(c: Chain, end: int, first: nat)
    requires BlockTimesFit(c)
    requires IsFirstAfter(c.blocks, c.blocks.Keys, end, first)
    ensures first <= c.finalized <==> Closed(c, end)
  {
  }
}
