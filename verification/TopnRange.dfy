/** The ranking of recent senders: short windows, cut from an arbitrary instant on, feed
    hourly buckets. Instants are nanoseconds of Unix time, stored times whole seconds. */
module TopnRange {
  import opened Wrappers
  import opened Ledger
  import opened Multiples
  import opened TimeCounts

  const NANOS := 1_000_000_000

  // ------------------------------------------------- the sequence of windows

  /** The cursor is stored as RFC 3339 text, which drops the part of a second. */
  function Stored(t: int): int {
    t / NANOS
  }

  /** The start of window k: window 0 starts at `first`, a later one an interval (in seconds)
      behind the stored start of the one before. */
  function WindowStart(first: int, interval: int, k: nat): int {
    if k == 0 then first else (Stored(WindowStart(first, interval, k - 1)) + interval) * NANOS
  }

  predicate InWindow(first: int, interval: int, k: nat, t: int) {
    WindowStart(first, interval, k) <= t < WindowStart(first, interval, k) + interval * NANOS
  }

  /** How many of the first k windows contain the instant. */
  function TimesCovered(first: int, interval: int, k: nat, t: int): nat {
    if k == 0 then 0
    else TimesCovered(first, interval, k - 1, t) + if InWindow(first, interval, k - 1, t) then 1 else 0
  }

  lemma StoredSeconds(s: int)
    ensures Stored(s * NANOS) == s
  {
  }

  lemma LaterWindowsAdjoin(first: int, interval: int, k: nat)
    requires interval > 0 && k > 0
    ensures WindowStart(first, interval, k + 1) == WindowStart(first, interval, k) + interval * NANOS
  {
  }

  function Overlaps(first: int, interval: int, t: int): bool {
    WindowStart(first, interval, 1) <= t < first + interval * NANOS
  }

  /** The windows leave no gap, and overlap only between the first and the second, by the
      part of a second that the first start has. */
  lemma {:induction false} WindowsCover(first: int, interval: int, k: nat, t: int)
    requires interval > 0 && k > 0
    ensures TimesCovered(first, interval, k, t) ==
            (if first <= t < WindowStart(first, interval, k - 1) + interval * NANOS then 1 else 0) +
            (if k > 1 && Overlaps(first, interval, t) then 1 else 0)
    ensures first <= WindowStart(first, interval, k - 1)
    ensures first + interval * NANOS - WindowStart(first, interval, 1) == first % NANOS
  {
    assert TimesCovered(first, interval, 0, t) == 0;
    if k > 1 {
      WindowsCover(first, interval, k - 1, t);
      if k > 2 {
        LaterWindowsAdjoin(first, interval, k - 2);
      }
    }
  }

  /** Block times are whole seconds, so at most one time is counted twice: that of the second
      window's start, when the first start was not a whole second. */
  lemma SecondCountedTwiceIff(first: int, interval: int, k: nat, s: int)
    requires interval > 0 && k > 1
    ensures TimesCovered(first, interval, k, s * NANOS) <= 2
    ensures TimesCovered(first, interval, k, s * NANOS) == 2 <==> first % NANOS != 0 && s == Stored(first) + interval
  {
    WindowsCover(first, interval, k, s * NANOS);
    WindowsCover(first, interval, 2, s * NANOS);
    OverlapSecond(first, interval, s);
    if k > 2 {
      StartsGrow(first, interval, k - 1);
    }
  }

  lemma OverlapSecond(first: int, interval: int, s: int)
    requires interval > 0
    ensures Overlaps(first, interval, s * NANOS) <==> first % NANOS != 0 && s == Stored(first) + interval
    ensures first <= WindowStart(first, interval, 1)
  {
    assert WindowStart(first, interval, 0) == first;
  }

  lemma {:induction false} StartsGrow(first: int, interval: int, k: nat)
    requires interval > 0 && k > 0
    ensures WindowStart(first, interval, 1) <= WindowStart(first, interval, k)
  {
    if k > 1 {
      StartsGrow(first, interval, k - 1);
      LaterWindowsAdjoin(first, interval, k - 1);
    }
  }

  // ------------------------------------------------- windows and hours

  const HOUR := SECONDS_IN_HOUR * NANOS

  /** `r.start.Truncate(time.Hour)`. */
  function HourOf(t: int): int {
    t - t % HOUR
  }

  /** All of the window belongs to the hour of its start. */
  predicate WithinHour(first: int, interval: int, k: nat) {
    var start := WindowStart(first, interval, k);
    start + interval * NANOS <= HourOf(start) + HOUR
  }

  /** Every whole second is counted at most once, in the bucket of its own hour. */
  ghost predicate Faithful(first: int, interval: int) {
    && (forall k :: WithinHour(first, interval, k))
    && (forall k, s :: TimesCovered(first, interval, k, s * NANOS) <= 1)
  }

  lemma AlignedStart(first: int, interval: int, k: nat)
    requires interval > 0 && first % (interval * NANOS) == 0
    ensures WindowStart(first, interval, k) == first + k * (interval * NANOS)
  {
    AlignedIsWhole(first, interval);
    WholeStart(first, interval, k);
  }

  lemma AlignedIsWithinHour(first: int, interval: int, m: int, k: nat)
    requires interval > 0 && m > 0 && interval * m == SECONDS_IN_HOUR
    requires first % (interval * NANOS) == 0
    ensures WithinHour(first, interval, k)
  {
    var w := interval * NANOS;
    AlignedStart(first, interval, k);
    var q := first / w + k;
    assert WindowStart(first, interval, k) == w * q;
    assert HOUR == w * m;
    BoundaryAhead(w, m, q);
  }

  /** The multiples of w * m are multiples of w: from one of w to the next of w * m is w at least. */
  lemma BoundaryAhead(w: int, m: int, q: int)
    requires w > 0 && m > 0 && w * m > 0
    ensures w * q + w <= w * q - (w * q) % (w * m) + w * m
  {
    var h := (w * q) / (w * m) + 1;
    assert (w * m) * h == w * q - (w * q) % (w * m) + w * m;
    assert (w * m) * h == w * (m * h);
    MultiplesInOrder(w, q, m * h);
    if q < m * h {
      MultipleAbove(w, q, m * h);
    }
  }

  /** From a start off the grid of the interval, the window around some full hour straddles it. */
  lemma UnalignedStraddles(first: int, interval: int, m: int) returns (k: nat)
    requires interval > 0 && m > 0 && interval * m == SECONDS_IN_HOUR
    requires first % NANOS == 0 && first % (interval * NANOS) != 0
    ensures !WithinHour(first, interval, k)
  {
    hide HourOf, WindowStart;
    var w := interval * NANOS;
    assert HOUR == w * m;
    var h := HourOf(first) + HOUR;
    NextHour(first);
    NotOnBoundary(w, m, first, h);
    k := (h - first) / w;
    WholeStart(first, interval, k);
    var start := first + k * w;
    assert start == h - (h - first) % w;
    HourBelow(start, h);
  }

  lemma NextHour(t: int)
    ensures HourOf(t) + HOUR == t - t % HOUR + HOUR
    ensures t < HourOf(t) + HOUR && (HourOf(t) + HOUR) % HOUR == 0
  {
  }

  lemma HourBelow(t: int, h: int)
    requires h % HOUR == 0 && t < h
    ensures HourOf(t) + HOUR <= h
  {
  }

  lemma NotOnBoundary(w: int, m: int, first: int, h: int)
    requires w > 0 && m > 0 && HOUR == w * m && first % w != 0
    requires h == first - first % HOUR + HOUR
    ensures (h - first) % w != 0
  {
    if (h - first) % w == 0 {
      var a, b := (h - first) / w, first / HOUR + 1;
      assert h == HOUR * b == w * (m * b);
      assert first == w * (m * b) - w * a == w * (m * b - a);
      MultipleOf(w, m * b - a);
    }
  }

  lemma {:induction false} WholeStart(first: int, interval: int, k: nat)
    requires interval > 0 && first % NANOS == 0
    ensures WindowStart(first, interval, k) == first + k * (interval * NANOS)
  {
    if k > 0 {
      WholeStart(first, interval, k - 1);
      var s := first / NANOS + (k - 1) * interval;
      assert first + (k - 1) * (interval * NANOS) == s * NANOS;
      StoredSeconds(s);
      assert (s + interval) * NANOS == first + k * (interval * NANOS);
    }
  }

  /** Each second is counted once and in its own hour exactly when the first window starts on
      a multiple of the interval. */
  lemma FaithfulIffAligned(first: int, interval: int, m: int)
    requires interval > 0 && m > 0 && interval * m == SECONDS_IN_HOUR
    ensures Faithful(first, interval) <==> first % (interval * NANOS) == 0
  {
    if first % (interval * NANOS) == 0 {
      forall k ensures WithinHour(first, interval, k) {
        AlignedIsWithinHour(first, interval, m, k);
      }
      AlignedIsWhole(first, interval);
      forall k, s ensures TimesCovered(first, interval, k, s * NANOS) <= 1 {
        CoveredOnce(first, interval, k, s);
      }
    } else if first % NANOS == 0 {
      var k := UnalignedStraddles(first, interval, m);
    } else {
      SecondCountedTwiceIff(first, interval, 2, Stored(first) + interval);
    }
  }

  lemma AlignedIsWhole(first: int, interval: int)
    requires interval > 0 && first % (interval * NANOS) == 0
    ensures first % NANOS == 0
  {
    var q := first / (interval * NANOS);
    assert first == (interval * NANOS) * q == NANOS * (interval * q);
    MultipleOf(NANOS, interval * q);
  }

  lemma CoveredOnce(first: int, interval: int, k: nat, s: int)
    requires interval > 0 && first % NANOS == 0
    ensures TimesCovered(first, interval, k, s * NANOS) <= 1
  {
    if k == 1 {
      WindowsCover(first, interval, 1, s * NANOS);
    } else if k > 1 {
      SecondCountedTwiceIff(first, interval, k, s);
    }
  }

  // ------------------------------------------------- the buckets

  /** The bucket of an hour (its start in seconds) and a sender. */
  datatype Bucket = Bucket(hour: int, owner: nat)

  type Buckets = map<Bucket, Counts>

  const NOTHING := Counts(0, 0, 0, 0)

  function At(buckets: Buckets, b: Bucket): Counts {
    if b in buckets then buckets[b] else NOTHING
  }

  function Owned(events: seq<Event>, id: nat): seq<Event> {
    if events == [] then []
    else
      var e := events[|events| - 1];
      Owned(events[..|events| - 1], id) + if e.owner == id then [e] else []
  }

  /** The groups of `GroupBySenderByTime`. */
  function SendersBetween(events: seq<Event>, lo: int, hi: int): set<nat> {
    set e | e in events && lo <= e.time < hi :: e.owner
  }

  /** The first whole second at or after an instant. */
  function Ceil(t: int): int {
    -((-t) / NANOS)
  }

  function BucketsOf(hour: int, senders: set<nat>): set<Bucket> {
    set id | id in senders :: Bucket(hour, id)
  }

  /** `BatchDeltaUpsert` of the groups of a window. */
  function Added(buckets: Buckets, events: seq<Event>, hour: int, lo: int, hi: int): Buckets {
    AddedFor(buckets, events, hour, lo, hi, SendersBetween(events, lo, hi))
  }

  function AddedFor(buckets: Buckets, events: seq<Event>, hour: int, lo: int, hi: int, senders: set<nat>): Buckets {
    buckets + map b | b in BucketsOf(hour, senders) :: Plus(At(buckets, b), Count(Owned(events, b.owner), lo, hi))
  }

  /** `Del`: retention drops the hours that start before the limit. */
  function Dropped(buckets: Buckets, limit: int): Buckets {
    map b | b in buckets && limit <= b.hour :: buckets[b]
  }

  /** The interval of the windows in seconds and the first start in nanoseconds. */
  datatype Config = Config(interval: Positive, first: int)

  /** `cursor` is the stored start of the last window, `limit` where retention has cut. */
  datatype State = State(chain: Chain, buckets: Buckets, cursor: Option<int>, limit: int)

  function NextStart(c: Config, cursor: Option<int>): int {
    match cursor
    case None => c.first
    case Some(last) => (last + c.interval) * NANOS
  }

  function AfterWindow(interval: Positive, events: seq<Event>, buckets: Buckets, start: int, limit: int): Buckets {
    Dropped(Added(buckets, events, HourOf(start) / NANOS, Ceil(start), Ceil(start + interval * NANOS)), limit)
  }

  ghost predicate WindowStep(c: Config, s: State, s': State) {
    var start := NextStart(c, s.cursor);
    && Closed(s.chain, Ceil(start + c.interval * NANOS))
    && s.limit <= s'.limit
    && s' == State(s.chain, AfterWindow(c.interval, s.chain.events, s.buckets, start, s'.limit),
                   Some(Stored(start)), s'.limit)
  }

  ghost predicate SyncStep(s: State, s': State) {
    ChainStep(s.chain, s'.chain) && s' == s.(chain := s'.chain)
  }

  ghost predicate Step(c: Config, s: State, s': State) {
    s' == s || SyncStep(s, s') || WindowStep(c, s, s')
  }

  ghost predicate IsRun(c: Config, run: seq<State>) {
    && run != [] && WellFormed(run[0].chain) && run[0].buckets == map[] && run[0].cursor == None
    && forall i | 0 < i < |run| :: Step(c, run[i - 1], run[i])
  }

  // ------------------------------------------------- what a bucket holds

  /** The second in which the first window starts. */
  function Base(c: Config): int {
    Stored(c.first)
  }

  /** One second if the first window starts inside it, after its beginning. */
  function Fraction(c: Config): (r: int)
    ensures 0 <= r <= 1
  {
    if c.first % NANOS == 0 then 0 else 1
  }

  /** The second up to which windows have come, and in which the next one starts. */
  function End(c: Config, s: State): int {
    match s.cursor
    case None => Base(c)
    case Some(last) => last + c.interval
  }

  ghost predicate OnGrid(c: Config, second: int) {
    Base(c) <= second && (second - Base(c)) % c.interval == 0
  }

  /** The first second at or after t in which a window starts. */
  function GridFrom(c: Config, t: int): (r: int)
    ensures Base(c) <= r
  {
    if t <= Base(c) then Base(c) else t + (Base(c) - t) % c.interval
  }

  /** The end of the last window counted, when windows have come up to `end`. */
  function Reached(c: Config, end: int): int {
    if end == Base(c) + c.interval then end + Fraction(c) else end
  }

  function HourAt(second: int): int {
    second - second % SECONDS_IN_HOUR
  }

  function CountFrom(events: seq<Event>, lo: int, hi: int): Counts {
    if lo < hi then Count(events, lo, hi) else NOTHING
  }

  /** Where counting for an hour starts: in the first window that starts in the hour or later.
      A first start inside a second leaves that second out. */
  function HourBegin(c: Config, hour: int): int {
    GridFrom(c, hour) + if GridFrom(c, hour) == Base(c) then Fraction(c) else 0
  }

  /** Where it ends: with the last window of the hour, as far as windows have come. */
  function HourEnd(c: Config, hour: int, end: int): int {
    if GridFrom(c, hour + SECONDS_IN_HOUR) < end then GridFrom(c, hour + SECONDS_IN_HOUR) else end
  }

  /** What the bucket of an hour holds when windows have come up to `end`: its sender's events
      of the windows that start in the hour. A first start inside a second makes the first
      two windows overlap. */
  function HourCounts(c: Config, events: seq<Event>, b: Bucket, end: int): Counts {
    if HourAt(b.hour) != b.hour then NOTHING
    else Plus(CountFrom(Owned(events, b.owner), HourBegin(c, b.hour), HourEnd(c, b.hour, end)),
              CountedAgain(c, events, b, end))
  }

  function CountedAgain(c: Config, events: seq<Event>, b: Bucket, end: int): Counts {
    if Base(c) < end && b.hour == HourAt(Base(c))
    then CountFrom(Owned(events, b.owner), Base(c) + c.interval, Base(c) + c.interval + Fraction(c))
    else NOTHING
  }

  /** Every bucket that retention has kept holds what it should, as far as windows have come. */
  ghost predicate BucketsAreRight(c: Config, s: State) {
    && WellFormed(s.chain)
    && OnGrid(c, End(c, s))
    && (s.cursor.None? <==> End(c, s) == Base(c))
    && (s.cursor.Some? ==> Closed(s.chain, Reached(c, End(c, s))))
    && forall b: Bucket ::
         At(s.buckets, b) ==
         if s.limit <= b.hour then HourCounts(c, s.chain.events, b, End(c, s)) else NOTHING
  }

  /** The grid points at or after t are those at or after the first of them. */
  lemma GridFromIsFirst(c: Config, t: int, p: int)
    requires OnGrid(c, p)
    ensures OnGrid(c, GridFrom(c, t)) && t <= GridFrom(c, t)
    ensures t <= p <==> GridFrom(c, t) <= p
    ensures p < t <==> p + c.interval <= GridFrom(c, t)
  {
    var w, g := c.interval, GridFrom(c, t);
    if t <= Base(c) {
    } else {
      var x, y := -((Base(c) - t) / w), (p - Base(c)) / w;
      assert g - Base(c) == w * x;
      assert p - Base(c) == w * y;
      MultipleOf(w, x);
      MultiplesInOrder(w, x, y);
      if y < x {
        MultipleAbove(w, y, x);
      } else {
        MultiplesInOrder(w, y, x);
      }
    }
  }

  lemma NextOnGrid(c: Config, second: int)
    requires OnGrid(c, second)
    ensures OnGrid(c, second + c.interval)
    ensures second != Base(c) ==> Base(c) + c.interval <= second
  {
    var w := c.interval;
    var y := (second - Base(c)) / w;
    assert second - Base(c) == w * y;
    assert second + w - Base(c) == w * (y + 1);
    MultipleOf(w, y + 1);
    if second != Base(c) {
      assert y > 0;
      MultipleAbove(w, 0, y);
    }
  }

  /** `Stored` is the second an instant lies in, `Ceil` the first one not before it, `HourOf` the
      full hour at or before it. */
  lemma InstantParts(t: int, second: int)
    ensures Stored(t) * NANOS <= t < (Stored(t) + 1) * NANOS
    ensures Ceil(t) <= second <==> t <= second * NANOS
    ensures HourOf(t) <= t < HourOf(t) + HOUR && HourOf(t) % HOUR == 0
  {
    NextHour(t);
    assert HourOf(t) + HOUR - HOUR == HourOf(t);
  }

  /** The seconds a window counts are those inside it. */
  lemma WindowSeconds(first: int, interval: int, k: nat, second: int)
    ensures InWindow(first, interval, k, second * NANOS) <==>
            var start := WindowStart(first, interval, k);
            Ceil(start) <= second < Ceil(start + interval * NANOS)
  {
    var start := WindowStart(first, interval, k);
    InstantParts(start, second);
    InstantParts(start + interval * NANOS, second);
  }

  // ------------------------------------------------- counts of one owner

  function OwnedDuring(id: nat, lo: int, hi: int): Event -> bool {
    (e: Event) => e.owner == id && lo <= e.time < hi
  }

  ghost function OwnedPlaces(events: seq<Event>, id: nat, lo: int, hi: int): set<int> {
    set i | 0 <= i < |events| && events[i].owner == id && lo <= events[i].time < hi
  }

  /** The number of the sender's submits in the window, the sums of their sizes and of their
      fees, and the number of distinct transactions among them. */
  ghost predicate CountsSender(c: Counts, events: seq<Event>, id: nat, lo: int, hi: int) {
    && c.files == |OwnedPlaces(events, id, lo, hi)|
    && c.dataSize == Total(SizeOf(), events, OwnedDuring(id, lo, hi))
    && c.baseFee == Total(AmountOf(), events, OwnedDuring(id, lo, hi))
    && c.txs == |set i | i in OwnedPlaces(events, id, lo, hi) :: events[i].tx|
  }

  /** What a window adds to the bucket of a sender; the sender has a group exactly if it has
      submits in the window. */
  lemma SenderCounts(events: seq<Event>, id: nat, lo: int, hi: int)
    ensures CountsSender(Count(Owned(events, id), lo, hi), events, id, lo, hi)
    ensures id in SendersBetween(events, lo, hi) <==> Count(Owned(events, id), lo, hi).files > 0
  {
    hide Total, Owned;
    OwnedSums(events, id, lo, hi);
    OwnedTxs(events, id, lo, hi);
  }

  lemma {:induction false} OwnedSums(events: seq<Event>, id: nat, lo: int, hi: int)
    ensures SumBetween(Files, Owned(events, id), lo, hi) == |OwnedPlaces(events, id, lo, hi)|
    ensures SumBetween(Size, Owned(events, id), lo, hi) == Total(SizeOf(), events, OwnedDuring(id, lo, hi))
    ensures SumBetween(Amount, Owned(events, id), lo, hi) == Total(AmountOf(), events, OwnedDuring(id, lo, hi))
  {
    if events == [] {
      assert OwnedPlaces(events, id, lo, hi) == {};
    } else {
      hide SumBetween, Owned, Total;
      var init, e := events[..|events| - 1], events[|events| - 1];
      assert events == init + [e];
      OwnedSums(init, id, lo, hi);
      TotalAppend(SizeOf(), init, e, OwnedDuring(id, lo, hi));
      TotalAppend(AmountOf(), init, e, OwnedDuring(id, lo, hi));
      OwnedPlacesGrow(init, e, id, lo, hi);
      OwnedSumGrows(Files, init, e, id, lo, hi);
      OwnedSumGrows(Size, init, e, id, lo, hi);
      OwnedSumGrows(Amount, init, e, id, lo, hi);
    }
  }

  lemma OwnedSumGrows(f: Field, events: seq<Event>, e: Event, id: nat, lo: int, hi: int)
    ensures SumBetween(f, Owned(events + [e], id), lo, hi) ==
            SumBetween(f, Owned(events, id), lo, hi) + if e.owner == id && lo <= e.time < hi then Measure(f, e) else 0
  {
    OwnedOneMore(events, e, id);
    hide Owned, SumBetween, Measure;
    if e.owner == id {
      SumsBetweenAppend(f, Owned(events, id), [e], lo, hi);
      OneEventBetween(f, e, lo, hi);
    }
  }

  lemma OwnedOneMore(events: seq<Event>, e: Event, id: nat)
    ensures Owned(events + [e], id) == if e.owner == id then Owned(events, id) + [e] else Owned(events, id)
  {
    assert (events + [e])[..|events|] == events;
  }

  lemma OwnedPlacesGrow(events: seq<Event>, e: Event, id: nat, lo: int, hi: int)
    ensures |OwnedPlaces(events + [e], id, lo, hi)| ==
            |OwnedPlaces(events, id, lo, hi)| + if e.owner == id && lo <= e.time < hi then 1 else 0
  {
    var more := if e.owner == id && lo <= e.time < hi then {|events|} else {};
    assert OwnedPlaces(events + [e], id, lo, hi) == OwnedPlaces(events, id, lo, hi) + more;
  }

  lemma OwnedTxs(events: seq<Event>, id: nat, lo: int, hi: int)
    ensures TxsBetween(Owned(events, id), lo, hi) == set i | i in OwnedPlaces(events, id, lo, hi) :: events[i].tx
    ensures id in SendersBetween(events, lo, hi) <==> OwnedPlaces(events, id, lo, hi) != {}
  {
    hide Owned;
    forall e ensures e in Owned(events, id) <==> e in events && e.owner == id {
      OwnedMembers(events, id, e);
    }
    forall e | e in events && e.owner == id && lo <= e.time < hi
      ensures exists i :: i in OwnedPlaces(events, id, lo, hi) && events[i] == e
    {
      var i :| 0 <= i < |events| && events[i] == e;
      assert i in OwnedPlaces(events, id, lo, hi);
    }
  }

  lemma {:induction false} OwnedMembers(events: seq<Event>, id: nat, e: Event)
    ensures e in Owned(events, id) <==> e in events && e.owner == id
  {
    if events != [] {
      OwnedMembers(events[..|events| - 1], id, e);
    }
  }

  lemma {:induction false} OwnedAppend(a: seq<Event>, b: seq<Event>, id: nat)
    ensures Owned(a + b, id) == Owned(a, id) + Owned(b, id)
  {
    if b == [] {
      assert a + b == a;
    } else {
      var k := |b| - 1;
      OwnedAppend(a, b[..k], id);
      assert (a + b)[..|a + b| - 1] == a + b[..k];
    }
  }

  lemma OwnedTimesFit(events: seq<Event>, id: nat)
    requires Ascending(events)
    ensures TxTimesFit(Owned(events, id))
  {
    AscendingTxTimesFit(events);
    forall d, e | d in Owned(events, id) && e in Owned(events, id) && d.tx == e.tx ensures d.time == e.time {
      OwnedMembers(events, id, d);
      OwnedMembers(events, id, e);
    }
  }

  lemma OwnedCountIsFinal(a: seq<Event>, b: seq<Event>, end: int, id: nat, lo: int, hi: int)
    requires SameBefore(a, b, end) && hi <= end
    ensures Count(Owned(a, id), lo, hi) == Count(Owned(b, id), lo, hi)
  {
    hide Count;
    var k: nat :| SameUpTo(a, b, end, k);
    assert a == a[..k] + a[k..] && b == b[..k] + b[k..];
    OwnedAppend(a[..k], a[k..], id);
    OwnedAppend(b[..k], b[k..], id);
    forall e ensures e in Owned(a[k..], id) ==> hi <= e.time {
      OwnedMembers(a[k..], id, e);
    }
    forall e ensures e in Owned(b[k..], id) ==> hi <= e.time {
      OwnedMembers(b[k..], id, e);
    }
    CountIgnores(Owned(a[..k], id), Owned(a[k..], id), lo, hi);
    CountIgnores(Owned(b[..k], id), Owned(b[k..], id), lo, hi);
  }

  lemma NoGroupNoCount(events: seq<Event>, id: nat, lo: int, hi: int)
    requires id !in SendersBetween(events, lo, hi)
    ensures Count(Owned(events, id), lo, hi) == NOTHING
  {
    forall e ensures e in Owned(events, id) ==> !(lo <= e.time < hi) {
      OwnedMembers(events, id, e);
    }
    NothingBetween(Owned(events, id), lo, hi);
  }

  lemma NothingBetween(events: seq<Event>, lo: int, hi: int)
    requires forall e | e in events :: !(lo <= e.time < hi)
    ensures Count(events, lo, hi) == NOTHING
  {
    NoneSummed(Files, events, lo, hi);
    NoneSummed(Size, events, lo, hi);
    NoneSummed(Amount, events, lo, hi);
    assert TxsBetween(events, lo, hi) == {};
  }

  lemma {:induction false} NoneSummed(f: Field, events: seq<Event>, lo: int, hi: int)
    requires forall e | e in events :: !(lo <= e.time < hi)
    ensures SumBetween(f, events, lo, hi) == 0
  {
    if events != [] {
      assert events[|events| - 1] in events;
      NoneSummed(f, events[..|events| - 1], lo, hi);
    }
  }

  // ------------------------------------------------- every step keeps the buckets right

  lemma ClosedHourIsFinal(c: Config, a: seq<Event>, d: seq<Event>, b: Bucket, end: int)
    requires OnGrid(c, end)
    requires end == Base(c) || SameBefore(a, d, Reached(c, end))
    ensures HourCounts(c, a, b, end) == HourCounts(c, d, b, end)
  {
    hide Count, Owned, SameBefore;
    NextOnGrid(c, end);
    var lo, hi := HourBegin(c, b.hour), HourEnd(c, b.hour, end);
    if end != Base(c) {
      OwnedCountIsFinal(a, d, Reached(c, end), b.owner, lo, hi);
      if Fraction(c) == 1 {
        OwnedCountIsFinal(a, d, Reached(c, end), b.owner, Base(c) + c.interval, Base(c) + c.interval + 1);
      }
    }
  }

  lemma SyncKeepsBuckets(c: Config, s: State, s': State)
    requires BucketsAreRight(c, s) && SyncStep(s, s')
    ensures BucketsAreRight(c, s')
  {
    hide HourCounts, Reached, WellFormed, Closed, SameBefore, OnGrid, Base, ChainStep;
    if s.cursor.Some? {
      ClosedWindowIsFinal(s.chain, s'.chain, Reached(c, End(c, s)));
    } else {
      SettledIsFinal(s.chain, s'.chain);
    }
    forall b: Bucket
      ensures HourCounts(c, s'.chain.events, b, End(c, s)) == HourCounts(c, s.chain.events, b, End(c, s))
    {
      ClosedHourIsFinal(c, s.chain.events, s'.chain.events, b, End(c, s));
    }
  }

  /** The bounds of the next window in whole seconds. */
  lemma WindowBounds(c: Config, s: State)
    requires s.cursor.None? <==> End(c, s) == Base(c)
    ensures var start, second, shift := NextStart(c, s.cursor), End(c, s), Reached(c, End(c, s) + c.interval);
            && Stored(start) == second
            && Ceil(start) == shift - c.interval
            && Ceil(start + c.interval * NANOS) == shift
            && HourOf(start) / NANOS == HourAt(second)
  {
    hide HourOf;
    SplitInstant(NextStart(c, s.cursor), c.interval);
    if s.cursor.Some? {
      StoredSeconds(End(c, s));
      WholeSeconds(End(c, s));
    }
  }

  lemma WholeSeconds(second: int)
    ensures (second * NANOS) % NANOS == 0
  {
  }

  lemma SplitInstant(t: int, interval: int)
    ensures Ceil(t) == Stored(t) + if t % NANOS == 0 then 0 else 1
    ensures Ceil(t + interval * NANOS) == Ceil(t) + interval
    ensures HourOf(t) / NANOS == HourAt(Stored(t))
  {
    var second := Stored(t);
    assert t == second * NANOS + t % NANOS;
    assert HourOf(t) == HourAt(second) * NANOS;
    StoredSeconds(HourAt(second));
  }

  lemma AddedAt(buckets: Buckets, events: seq<Event>, hour: int, lo: int, hi: int, limit: int, b: Bucket)
    ensures At(Dropped(Added(buckets, events, hour, lo, hi), limit), b) ==
            if b.hour < limit then NOTHING
            else if b.hour == hour then Plus(At(buckets, b), Count(Owned(events, b.owner), lo, hi))
            else At(buckets, b)
  {
    hide Count, Owned, SendersBetween;
    if b.hour == hour && b.owner !in SendersBetween(events, lo, hi) {
      NoGroupNoCount(events, b.owner, lo, hi);
    }
    assert b in BucketsOf(hour, SendersBetween(events, lo, hi)) <==>
           b.hour == hour && b.owner in SendersBetween(events, lo, hi);
  }

  /** Another hour's bounds do not see the window that starts at `second`. */
  lemma OtherHourStays(c: Config, events: seq<Event>, b: Bucket, second: int)
    requires OnGrid(c, second) && b.hour != HourAt(second)
    ensures HourCounts(c, events, b, second + c.interval) == HourCounts(c, events, b, second)
  {
    hide Count, Owned, OnGrid, GridFrom, Base, Fraction, Plus;
    NextOnGrid(c, second);
    if b.hour % SECONDS_IN_HOUR == 0 {
      GridFromIsFirst(c, b.hour, second);
      GridFromIsFirst(c, b.hour + SECONDS_IN_HOUR, second);
      assert b.hour + SECONDS_IN_HOUR <= second || second < b.hour;
    }
  }

  lemma SplitFrom(events: seq<Event>, lo: int, mid: int, hi: int)
    requires TxTimesFit(events) && lo <= mid <= hi
    ensures CountFrom(events, lo, hi) == Plus(CountFrom(events, lo, mid), CountFrom(events, mid, hi))
  {
    hide Count;
    CountSplits(events, lo, mid, hi);
  }

  lemma OwnHourBounds(c: Config, hour: int, second: int)
    requires OnGrid(c, second) && hour == HourAt(second)
    ensures hour % SECONDS_IN_HOUR == 0
    ensures Base(c) <= GridFrom(c, hour) <= second
    ensures second + c.interval <= GridFrom(c, hour + SECONDS_IN_HOUR)
    ensures GridFrom(c, hour) == Base(c) ==> hour <= Base(c)
  {
    hide OnGrid, GridFrom;
    NextOnGrid(c, second);
    GridFromIsFirst(c, hour, second);
    GridFromIsFirst(c, hour + SECONDS_IN_HOUR, second);
    FirstInHour(c, hour);
  }

  lemma FirstWindowGrows(c: Config, events: seq<Event>, b: Bucket)
    requires Ascending(events) && OnGrid(c, Base(c)) && b.hour == HourAt(Base(c))
    ensures var end := Base(c) + c.interval;
            HourCounts(c, events, b, end) ==
            Plus(HourCounts(c, events, b, Base(c)),
                 CountFrom(Owned(events, b.owner), Base(c) + Fraction(c), end + Fraction(c)))
  {
    hide Count, Owned, Ascending, TxTimesFit, OnGrid, GridFrom, Base, Fraction, Plus;
    OwnedTimesFit(events, b.owner);
    OwnHourBounds(c, b.hour, Base(c));
    var own, end := Owned(events, b.owner), Base(c) + c.interval;
    SplitFrom(own, Base(c) + Fraction(c), end, end + Fraction(c));
    NothingYet(c, events, b);
    PlusNothing(CountFrom(own, Base(c) + Fraction(c), end + Fraction(c)), HourCounts(c, events, b, Base(c)));
  }

  lemma LaterWindowGrows(c: Config, events: seq<Event>, b: Bucket, second: int)
    requires Ascending(events) && b.hour == HourAt(second)
    requires OnGrid(c, second) && second != Base(c)
    ensures HourCounts(c, events, b, second + c.interval) ==
            Plus(HourCounts(c, events, b, second), CountFrom(Owned(events, b.owner), second, second + c.interval))
  {
    hide Count, Owned, Ascending, TxTimesFit, OnGrid, GridFrom, Base, Fraction, Plus;
    OwnedTimesFit(events, b.owner);
    NextOnGrid(c, second);
    OwnHourBounds(c, b.hour, second);
    var own, begin, end := Owned(events, b.owner), HourBegin(c, b.hour), second + c.interval;
    SplitFrom(own, begin, second, end);
    PlusMoves(CountFrom(own, begin, second), CountFrom(own, second, end), CountedAgain(c, events, b, second));
  }

  lemma PlusMoves(x: Counts, y: Counts, z: Counts)
    ensures Plus(Plus(x, y), z) == Plus(Plus(x, z), y)
  {
  }

  /** The window's own hour gets the window's events. */
  lemma OwnHourGrows(c: Config, events: seq<Event>, b: Bucket, second: int)
    requires Ascending(events)
    requires OnGrid(c, second) && b.hour == HourAt(second)
    ensures var end := Reached(c, second + c.interval);
            HourCounts(c, events, b, second + c.interval) ==
            Plus(HourCounts(c, events, b, second), Count(Owned(events, b.owner), end - c.interval, end))
  {
    hide Count, Owned, HourCounts, Ascending, HourAt, OnGrid;
    if second == Base(c) {
      FirstWindowGrows(c, events, b);
    } else {
      LaterWindowGrows(c, events, b, second);
    }
  }

  lemma FirstInHour(c: Config, hour: int)
    ensures hour <= Base(c) <==> GridFrom(c, hour) == Base(c)
  {
  }

  /** One more window: the counts of its hour grow by the window's, the others stay. */
  lemma HourCountsGrow(c: Config, events: seq<Event>, b: Bucket, second: int)
    requires Ascending(events) && OnGrid(c, second)
    ensures var end := Reached(c, second + c.interval);
            HourCounts(c, events, b, second + c.interval) ==
            if b.hour == HourAt(second)
            then Plus(HourCounts(c, events, b, second), Count(Owned(events, b.owner), end - c.interval, end))
            else HourCounts(c, events, b, second)
  {
    hide HourCounts, Count, Owned, Ascending, OnGrid;
    if b.hour == HourAt(second) {
      OwnHourGrows(c, events, b, second);
    } else {
      OtherHourStays(c, events, b, second);
    }
  }

  lemma BucketAfterWindow(c: Config, s: State, b: Bucket, limit: int)
    requires BucketsAreRight(c, s) && s.limit <= limit
    ensures At(AfterWindow(c.interval, s.chain.events, s.buckets, NextStart(c, s.cursor), limit), b) ==
            if limit <= b.hour then HourCounts(c, s.chain.events, b, End(c, s) + c.interval) else NOTHING
  {
    hide Count, Owned, HourOf, HourCounts, Added, Dropped, Closed, Ceil, OnGrid, Ascending, BlockTimesFit, At;
    hide NextStart;
    WindowBounds(c, s);
    var end := Reached(c, End(c, s) + c.interval);
    AddedAt(s.buckets, s.chain.events, HourAt(End(c, s)), end - c.interval, end, limit, b);
    HourCountsGrow(c, s.chain.events, b, End(c, s));
  }

  lemma WindowKeepsBuckets(c: Config, s: State, s': State)
    requires BucketsAreRight(c, s) && WindowStep(c, s, s')
    ensures BucketsAreRight(c, s')
  {
    hide HourOf, HourCounts, AfterWindow, Closed, Ceil, WellFormed, OnGrid;
    WindowBounds(c, s);
    NextOnGrid(c, End(c, s));
    AfterBase(c, End(c, s));
    assert End(c, s') == End(c, s) + c.interval;
    forall b: Bucket
      ensures At(s'.buckets, b) ==
              if s'.limit <= b.hour then HourCounts(c, s'.chain.events, b, End(c, s')) else NOTHING
    {
      BucketAfterWindow(c, s, b, s'.limit);
    }
  }

  lemma AfterBase(c: Config, second: int)
    requires OnGrid(c, second)
    ensures Base(c) < second + c.interval
  {
  }

  lemma NothingCounted(c: Config, s: State)
    requires WellFormed(s.chain) && s.buckets == map[] && s.cursor == None
    ensures BucketsAreRight(c, s)
  {
    hide HourCounts, WellFormed;
    forall b: Bucket ensures HourCounts(c, s.chain.events, b, Base(c)) == NOTHING {
      NothingYet(c, s.chain.events, b);
    }
  }

  lemma NothingYet(c: Config, events: seq<Event>, b: Bucket)
    ensures HourCounts(c, events, b, Base(c)) == NOTHING
  {
    hide Count, Owned, Base, Fraction, GridFrom, HourAt, Plus;
    var begin, end := HourBegin(c, b.hour), HourEnd(c, b.hour, Base(c));
    assert end <= begin;
    PlusNothing(CountFrom(Owned(events, b.owner), begin, end), CountedAgain(c, events, b, Base(c)));
  }

  lemma PlusNothing(x: Counts, y: Counts)
    requires y == NOTHING
    ensures Plus(x, y) == Plus(y, x) == x
  {
  }

  /** In every state of every run each bucket that retention has kept holds exactly its sender's
      events of the windows that start in its hour, up to the end of the last window. */
  lemma {:induction false} RunKeepsBuckets(c: Config, run: seq<State>, i: nat)
    requires IsRun(c, run) && i < |run|
    ensures BucketsAreRight(c, run[i])
  {
    hide BucketsAreRight, WindowStep;
    if i == 0 {
      NothingCounted(c, run[0]);
    } else {
      RunKeepsBuckets(c, run, i - 1);
      if SyncStep(run[i - 1], run[i]) {
        SyncKeepsBuckets(c, run[i - 1], run[i]);
      } else if run[i] != run[i - 1] {
        WindowKeepsBuckets(c, run[i - 1], run[i]);
      }
    }
  }

  /** The k-th window of a run is the k-th of the sequence of windows. */
  ghost predicate AtWindow(c: Config, s: State, k: nat) {
    && (s.cursor.None? <==> k == 0)
    && NextStart(c, s.cursor) == WindowStart(c.first, c.interval, k)
  }

  lemma {:induction false} RunFollowsWindows(c: Config, run: seq<State>, i: nat)
    requires IsRun(c, run) && i < |run|
    ensures exists k: nat :: AtWindow(c, run[i], k)
  {
    hide AfterWindow, Closed;
    if i == 0 {
      assert AtWindow(c, run[0], 0);
    } else {
      RunFollowsWindows(c, run, i - 1);
      var k: nat :| AtWindow(c, run[i - 1], k);
      assert run[i].cursor == run[i - 1].cursor ==> AtWindow(c, run[i], k);
      assert run[i].cursor == Some(Stored(WindowStart(c.first, c.interval, k))) ==> AtWindow(c, run[i], k + 1);
    }
  }

  /** The hours of the buckets there are: full ones, not before the hour of the first start. */
  ghost predicate HoursFrom(buckets: Buckets, hour: int) {
    forall b | b in buckets :: hour <= b.hour && b.hour % SECONDS_IN_HOUR == 0
  }

  lemma {:induction false} BucketsFromFirst(c: Config, run: seq<State>, i: nat)
    requires IsRun(c, run) && i < |run|
    ensures HoursFrom(run[i].buckets, HourAt(Base(c)))
  {
    hide BucketsAreRight, WindowStep;
    if i > 0 {
      BucketsFromFirst(c, run, i - 1);
      RunKeepsBuckets(c, run, i - 1);
      if run[i] != run[i - 1] && !SyncStep(run[i - 1], run[i]) {
        WindowAddsLater(c, run[i - 1], run[i]);
      }
    }
  }

  lemma WindowAddsLater(c: Config, s: State, s': State)
    requires BucketsAreRight(c, s) && WindowStep(c, s, s') && HoursFrom(s.buckets, HourAt(Base(c)))
    ensures HoursFrom(s'.buckets, HourAt(Base(c)))
  {
    hide HourOf, Ceil, Count, Owned, HourCounts, SendersBetween, NextStart, At;
    WindowBounds(c, s);
    HoursInOrder(Base(c), End(c, s));
  }

  lemma HoursInOrder(a: int, b: int)
    requires a <= b
    ensures HourAt(a) <= HourAt(b) && HourAt(b) % SECONDS_IN_HOUR == 0
  {
  }

  ghost predicate Aligned(c: Config) {
    && c.first % (c.interval * NANOS) == 0
    && SECONDS_IN_HOUR % c.interval == 0
  }

  lemma AlignedHour(c: Config, hour: int)
    requires Aligned(c) && hour % SECONDS_IN_HOUR == 0
    ensures Fraction(c) == 0
    ensures GridFrom(c, hour) == if hour <= Base(c) then Base(c) else hour
  {
    AlignedIsWhole(c.first, c.interval);
    if Base(c) < hour {
      var w := c.interval;
      var m, q, h := SECONDS_IN_HOUR / w, c.first / (w * NANOS), hour / SECONDS_IN_HOUR;
      assert c.first == (w * NANOS) * q == (w * q) * NANOS;
      StoredSeconds(w * q);
      assert hour == (w * m) * h == w * (m * h);
      assert Base(c) - hour == w * (q - m * h);
      MultipleOf(w, q - m * h);
    }
  }

  lemma AlignedCounts(c: Config, events: seq<Event>, b: Bucket, end: int)
    requires Aligned(c) && b.hour % SECONDS_IN_HOUR == 0
    ensures var from := if b.hour <= Base(c) then Base(c) else b.hour;
            var to := if b.hour + SECONDS_IN_HOUR < end then b.hour + SECONDS_IN_HOUR else end;
            HourCounts(c, events, b, end) == CountFrom(Owned(events, b.owner), from, to)
  {
    hide Count, Owned, GridFrom, Aligned, Base, Fraction, Plus;
    AlignedHour(c, b.hour);
    AlignedHour(c, b.hour + SECONDS_IN_HOUR);
    PlusNothing(CountFrom(Owned(events, b.owner), HourBegin(c, b.hour), HourEnd(c, b.hour, end)),
                CountedAgain(c, events, b, end));
  }

  /** From a start on the grid of the interval the bucket of an hour holds exactly the events of
      that hour, from the first start up to the end of the last window. */
  lemma AlignedBucketIsHour(c: Config, run: seq<State>, i: nat, b: Bucket)
    requires Aligned(c) && IsRun(c, run) && i < |run|
    requires run[i].limit <= b.hour && b.hour % SECONDS_IN_HOUR == 0
    ensures var from := if b.hour <= Base(c) then Base(c) else b.hour;
            var to := if b.hour + SECONDS_IN_HOUR < End(c, run[i]) then b.hour + SECONDS_IN_HOUR else End(c, run[i]);
            At(run[i].buckets, b) == CountFrom(Owned(run[i].chain.events, b.owner), from, to)
  {
    hide CountFrom, Owned, HourCounts, At, Aligned, IsRun, WellFormed;
    RunKeepsBuckets(c, run, i);
    AlignedCounts(c, run[i].chain.events, b, End(c, run[i]));
  }

  // ------------------------------------------------- the statistics task

  lemma OneMoreSender(buckets: Buckets, events: seq<Event>, hour: int, lo: int, hi: int, senders: set<nat>, id: nat)
    requires id !in senders
    ensures AddedFor(buckets, events, hour, lo, hi, senders + {id}) ==
            var before := AddedFor(buckets, events, hour, lo, hi, senders);
            before[Bucket(hour, id) := Plus(At(before, Bucket(hour, id)), Count(Owned(events, id), lo, hi))]
  {
    hide Count, Owned;
    assert BucketsOf(hour, senders + {id}) == BucketsOf(hour, senders) + {Bucket(hour, id)};
    assert Bucket(hour, id) !in BucketsOf(hour, senders);
  }

  datatype TimeRange = TimeRange(start: int, end: int)

  datatype Error = TimeNotReach | BlockNotSync | BlockNotFinalized

  class Database {
    var chain: Chain
    var buckets: Buckets
    var timeConfig: Option<int>
  }

  class TopnSubmitRange {
    const db: Database
    const interval: Positive
    const maxSpan: nat
    const startTime: int

    constructor (db: Database, interval: Positive, maxSpan: nat, startTime: int)
      ensures this.db == db && this.interval == interval && this.maxSpan == maxSpan && this.startTime == startTime
    {
      this.db, this.interval, this.maxSpan, this.startTime := db, interval, maxSpan, startTime;
    }

    /** Without a cursor windows start at the configured time, or as far back as is retained. */
    function FirstStart(now: int): int {
      if startTime < now - maxSpan * NANOS then now - maxSpan * NANOS else startTime
    }

    /** In a run from there no bucket lies before the configured start or before what is retained,
        but for the hour the first window starts in. */
    lemma NoBucketBeforeFirst(now: int, run: seq<State>, i: nat, b: Bucket)
      requires IsRun(Config(interval, FirstStart(now)), run) && i < |run| && b in run[i].buckets
      ensures startTime < (b.hour + SECONDS_IN_HOUR) * NANOS
      ensures now - maxSpan * NANOS < (b.hour + SECONDS_IN_HOUR) * NANOS
    {
      hide IsRun;
      var c := Config(interval, FirstStart(now));
      BucketsFromFirst(c, run, i);
      InstantParts(c.first, 0);
      assert Base(c) < HourAt(Base(c)) + SECONDS_IN_HOUR;
    }

    method NextTimeRange(now: int) returns (r: TimeRange)
      ensures r.start == NextStart(Config(interval, FirstStart(now)), db.timeConfig)
      ensures r.end == r.start + interval * NANOS
      ensures db.timeConfig.Some? ==> r.start == db.timeConfig.value * NANOS + interval * NANOS
      ensures db.timeConfig.None? ==> startTime <= r.start && now - maxSpan * NANOS <= r.start
      ensures db.timeConfig.None? ==> r.start == startTime || r.start == now - maxSpan * NANOS
    {
      var nextRangeStart;
      if db.timeConfig.Some? {
        var lastStatTime := db.timeConfig.value * NANOS;
        nextRangeStart := lastStatTime + interval * NANOS;
      } else {
        var earliest := now - maxSpan * NANOS;
        if startTime < earliest {
          nextRangeStart := earliest;
        } else {
          nextRangeStart := startTime;
        }
      }
      r := TimeRange(nextRangeStart, nextRangeStart + interval * NANOS);
    }

    /** `tryAcquireTimeRange`: the next window, once its end has passed and a block at or
        after it is finalized. */
    method TryAcquireTimeRange(now: int) returns (r: Result<TimeRange, Error>)
      requires BlockTimesFit(db.chain)
      ensures var start := NextStart(Config(interval, FirstStart(now)), db.timeConfig);
              var end := start + interval * NANOS;
              && (r.Ok? <==> end <= now && Closed(db.chain, Ceil(end)))
              && (r.Ok? ==> r.value == TimeRange(start, end))
              && (r == Err(TimeNotReach) <==> now < end)
              && (r == Err(BlockNotSync) <==>
                   end <= now && forall b | b in db.chain.blocks :: db.chain.blocks[b] < Ceil(end))
    {
      hide NextStart, Ceil;
      var timeRange := NextTimeRange(now);
      if now < timeRange.end {
        return Err(TimeNotReach);
      }
      var blockNum := FirstBlockAfterTime(db.chain.blocks, Ceil(timeRange.end));
      if blockNum.None? {
        return Err(BlockNotSync);
      }
      FirstBlockDecides(db.chain, Ceil(timeRange.end), blockNum.value);
      if blockNum.value > db.chain.finalized {
        return Err(BlockNotFinalized);
      }
      return Ok(timeRange);
    }

    method Upsert(hour: int, lo: int, hi: int) returns (buckets: Buckets)
      ensures buckets == Added(db.buckets, db.chain.events, hour, lo, hi)
    {
      hide Count, Owned, AddedFor;
      buckets := db.buckets;
      NoSenders(db.buckets, db.chain.events, hour, lo, hi);
      var todo := SendersBetween(db.chain.events, lo, hi);
      ghost var done: set<nat> := {};
      while todo != {}
        invariant todo <= SendersBetween(db.chain.events, lo, hi)
        invariant done == SendersBetween(db.chain.events, lo, hi) - todo
        invariant buckets == AddedFor(db.buckets, db.chain.events, hour, lo, hi, done)
        decreases todo
      {
        var id :| id in todo;
        OneMoreSender(db.buckets, db.chain.events, hour, lo, hi, done, id);
        var stat := Count(Owned(db.chain.events, id), lo, hi);
        buckets := buckets[Bucket(hour, id) := Plus(At(buckets, Bucket(hour, id)), stat)];
        todo, done := todo - {id}, done + {id};
      }
      assert done == SendersBetween(db.chain.events, lo, hi);
    }

    /** `Del`: the rows with a stat time before `minTime` go. */
    method Retain(buckets: Buckets, minTime: int) returns (kept: Buckets)
      ensures kept == Dropped(buckets, Ceil(minTime))
    {
      kept := map b | b in buckets && !(b.hour * NANOS < minTime) :: buckets[b];
    }

    /** The transaction adds the window to its bucket, drops old buckets and moves the cursor. */
    method CalculateStat(r: TimeRange, now: int, fault: bool) returns (ok: bool)
      requires r.end == r.start + interval * NANOS
      modifies db`buckets, db`timeConfig
      ensures ok == !fault
      ensures ok ==> db.timeConfig == Some(Stored(r.start))
      ensures ok ==> db.buckets == AfterWindow(interval, db.chain.events, old(db.buckets), r.start,
                                               Ceil(now - maxSpan * NANOS))
      ensures !ok ==> db.buckets == old(db.buckets) && db.timeConfig == old(db.timeConfig)
    {
      hide Added, HourOf, Ceil, Dropped;
      var statTime := HourOf(r.start) / NANOS;
      var buckets := Upsert(statTime, Ceil(r.start), Ceil(r.end));
      if fault {
        return false;
      }
      db.buckets := Retain(buckets, now - maxSpan * NANOS);
      db.timeConfig := Some(Stored(r.start));
      return true;
    }

    /** One round of `AbsStat.DoStat`, by a clock that does not go back: it counts the next window
        exactly when the window's end has passed, the window is closed and nothing fails, and then
        is a step of the machine whose first start is the one this round would take. */
    method Attempt(now: int, fault: bool, ghost limit: int) returns (ok: bool)
      requires BlockTimesFit(db.chain) && limit <= Ceil(now - maxSpan * NANOS)
      modifies db`buckets, db`timeConfig
      ensures var end := NextStart(Config(interval, FirstStart(now)), old(db.timeConfig)) + interval * NANOS;
              ok <==> !fault && end <= now && Closed(db.chain, Ceil(end))
      ensures ok ==> forall first | old(db.timeConfig).Some? || first == FirstStart(now) ::
                WindowStep(Config(interval, first), old(State(db.chain, db.buckets, db.timeConfig, limit)),
                           State(db.chain, db.buckets, db.timeConfig, Ceil(now - maxSpan * NANOS)))
      ensures !ok ==> db.buckets == old(db.buckets) && db.timeConfig == old(db.timeConfig)
    {
      hide AfterWindow, Closed, Ceil, HourOf;
      var timeRange := TryAcquireTimeRange(now);
      ok := timeRange.Ok?;
      if ok {
        ok := CalculateStat(timeRange.value, now, fault);
      }
    }
  }

  lemma NoSenders(buckets: Buckets, events: seq<Event>, hour: int, lo: int, hi: int)
    ensures AddedFor(buckets, events, hour, lo, hi, {}) == buckets
  {
  }
}
