/** The windowed statistics: every window of the fine interval writes its own row and
    rewrites the row of its hour and of its day; totals are carried from row to row. Times
    are whole seconds of Unix time in UTC. */
module Windows {
  import opened Wrappers
  import opened Ledger
  import opened Multiples
  import opened TimeCounts

  /** Go's zero time in Unix seconds: below every stored time. */
  const ZERO_TIME := -62135596800

  // ------------------------------------------------- the rows

  datatype StatType = Min | TenMin | Hour | Day

  function Interval(t: StatType): int {
    match t
    case Min => 60
    case TenMin => 600
    case Hour => SECONDS_IN_HOUR
    case Day => SECONDS_IN_DAY
  }

  /** Ten minutes, hours and days are ten, six and twenty-four of the next smaller interval. */
  lemma IntervalsNest()
    ensures Interval(Min) == 60 && Interval(TenMin) == 10 * Interval(Min)
    ensures Interval(Hour) == 6 * Interval(TenMin) && Interval(Day) == 24 * Interval(Hour)
  {
  }

  /** `calStatRangeStart` for hours and days: a time on a boundary belongs to the range it ends. */
  function RangeStart(t: int, interval: int): int
    requires interval > 0
  {
    if t % interval == 0 then t - interval else t - t % interval
  }

  datatype Key = Key(statType: StatType, time: int)

  /** `delta` counts the row's period, `total` everything up to its end. */
  datatype Row = Row(delta: Counts, total: Counts)

  type Rows = map<Key, Row>

  /** `statByTimeRange`. */
  function StatRow(events: seq<Event>, rows: Rows, statType: StatType, start: int, end: int): Row {
    var delta := Count(events, start, end);
    var previous := Key(statType, start - Interval(statType));
    var before := if previous in rows then rows[previous].total else Count(events, ZERO_TIME, start);
    Row(delta, Plus(before, delta))
  }

  /** The fine interval and the hour-aligned start of the statistics. */
  datatype Config = Config(fine: StatType, start: int)

  datatype State = State(chain: Chain, rows: Rows)

  ghost predicate Proper(c: Config) {
    && (c.fine == Min || c.fine == TenMin)
    && c.start % SECONDS_IN_HOUR == 0 && ZERO_TIME <= c.start - SECONDS_IN_DAY
  }

  /** The start of a row's period in the window that ends at `end`. */
  function PeriodStart(c: Config, t: StatType, end: int): int {
    if t == c.fine then end - Interval(t) else RangeStart(end, Interval(t))
  }

  predicate Written(c: Config, t: StatType) {
    t == c.fine || t == Hour || t == Day
  }

  /** The rows after the window that ends at `end`: three rows written, the others kept. */
  function AfterWindow(c: Config, events: seq<Event>, rows: Rows, end: int): Rows {
    var f, h, d := end - Interval(c.fine), RangeStart(end, SECONDS_IN_HOUR), RangeStart(end, SECONDS_IN_DAY);
    rows[Key(Hour, h) := StatRow(events, rows, Hour, h, end)]
        [Key(Day, d) := StatRow(events, rows, Day, d, end)]
        [Key(c.fine, f) := StatRow(events, rows, c.fine, f, end)]
  }

  /** The unique index on type and time lets the three rows in: the fine row is new, and
      differs from the two that replace deleted ones. */
  predicate RowsFit(c: Config, rows: Rows, end: int) {
    var f := Key(c.fine, end - Interval(c.fine));
    f !in rows && f != Key(Hour, RangeStart(end, SECONDS_IN_HOUR)) && f != Key(Day, RangeStart(end, SECONDS_IN_DAY))
  }

  /** `nextTimeRange`: behind the last fine row. */
  ghost predicate NextStart(c: Config, rows: Rows, start: int) {
    if forall k | k in rows :: k.statType != c.fine then start == c.start
    else
      && Key(c.fine, start - Interval(c.fine)) in rows
      && forall k | k in rows && k.statType == c.fine :: k.time <= start - Interval(c.fine)
  }

  ghost predicate WindowStep(c: Config, s: State, s': State) {
    exists start :: NextStart(c, s.rows, start) && Closed(s.chain, start + Interval(c.fine))
      && RowsFit(c, s.rows, start + Interval(c.fine))
      && s' == s.(rows := AfterWindow(c, s.chain.events, s.rows, start + Interval(c.fine)))
  }

  ghost predicate SyncStep(s: State, s': State) {
    ChainStep(s.chain, s'.chain) && s' == s.(chain := s'.chain)
  }

  ghost predicate Step(c: Config, s: State, s': State) {
    s' == s || SyncStep(s, s') || WindowStep(c, s, s')
  }

  ghost predicate IsRun(c: Config, run: seq<State>) {
    && run != [] && WellFormed(run[0].chain) && run[0].rows == map[]
    && forall i | 0 < i < |run| :: Step(c, run[i - 1], run[i])
  }

  // ------------------------------------------------- what the rows hold

  function Until(t: StatType, time: int, last: int): int {
    if time + Interval(t) < last then time + Interval(t) else last
  }

  /** The row counts its period, and everything before the end of it, up to the end of the
      last window. */
  ghost predicate RowIsRight(events: seq<Event>, k: Key, row: Row, last: int) {
    && row.delta == Count(events, k.time, Until(k.statType, k.time, last))
    && row.total == Count(events, ZERO_TIME, Until(k.statType, k.time, last))
  }

  /** The periods that meet the time from the start of the statistics to the last window. */
  ghost predicate IsPeriod(c: Config, k: Key, last: int) {
    && c.start < last && Written(c, k.statType)
    && k.time % Interval(k.statType) == 0
    && k.time < last && c.start < k.time + Interval(k.statType)
  }

  ghost predicate Reported(c: Config, s: State, last: int) {
    && WellFormed(s.chain)
    && c.start <= last && last % Interval(c.fine) == 0
    && (c.start < last ==> Closed(s.chain, last))
    && (forall k :: k in s.rows <==> IsPeriod(c, k, last))
    && (forall k | k in s.rows :: RowIsRight(s.chain.events, k, s.rows[k], last))
  }

  // ------------------------------------------------- every step keeps the rows right

  lemma SyncKeepsReported(c: Config, s: State, s': State, last: int)
    requires Reported(c, s, last) && SyncStep(s, s')
    ensures Reported(c, s', last)
  {
    hide Count;
    if c.start < last {
      ClosedWindowIsFinal(s.chain, s'.chain, last);
      forall k | k in s'.rows ensures RowIsRight(s'.chain.events, k, s'.rows[k], last) {
        ClosedCountIsFinal(s.chain, s'.chain, last, k.time, Until(k.statType, k.time, last));
        ClosedCountIsFinal(s.chain, s'.chain, last, ZERO_TIME, Until(k.statType, k.time, last));
      }
    } else {
      SettledIsFinal(s.chain, s'.chain);
    }
  }

  /** With m small intervals to a large one, the last boundary before last + i is a multiple
      of the small interval, so it does not lie inside (last, last + i). */
  lemma RangeStartIsBoundary(i: int, m: int, last: int)
    requires i > 0 && m > 0 && i * m > 0
    requires last % i == 0
    ensures var start := RangeStart(last + i, i * m);
            start % (i * m) == 0 && start <= last < last + i <= start + i * m
  {
    var w, end := i * m, last + i;
    RangeStartBounds(end, w);
    var p, q := RangeStart(end, w) / w, last / i;
    SameMultiple(i, m, p);
    assert last == i * q && end == i * q + i;
    if q < m * p {
      MultipleAbove(i, q, m * p);
    } else {
      MultiplesInOrder(i, q, m * p);
    }
  }

  lemma SameMultiple(i: int, m: int, p: int)
    ensures (i * m) * p == i * (m * p)
  {
  }

  lemma RangeStartBounds(t: int, w: int)
    requires w > 0
    ensures var start := RangeStart(t, w);
            start % w == 0 && start == w * (start / w) && start < t <= start + w
  {
    var p := if t % w == 0 then t / w - 1 else t / w;
    assert t == w * (t / w) + t % w;
    assert RangeStart(t, w) == w * p;
    MultipleOf(w, p);
  }

  /** Every window ends on each boundary it reaches: a period never starts inside a window. */
  lemma PeriodAlignment(c: Config, t: StatType, last: int, time: int)
    requires Proper(c) && Written(c, t)
    requires last % Interval(c.fine) == 0
    ensures var end, start := last + Interval(c.fine), PeriodStart(c, t, last + Interval(c.fine));
            && start % Interval(t) == 0
            && start <= last < end <= start + Interval(t)
            && (time % Interval(t) == 0 && time != start && time < end ==> time + Interval(t) <= start && time < last)
  {
    var i, w := Interval(c.fine), Interval(t);
    if t != c.fine {
      assert i * (w / i) == w;
      RangeStartIsBoundary(i, w / i, last);
    }
    var end, start := last + i, PeriodStart(c, t, last + i);
    if time % w == 0 && time != start && time < end {
      BoundariesApart(w, time, start, end);
    }
  }

  /** A row outside the three written periods is complete and stays right. */
  lemma KeptRowIsRight(c: Config, s: State, last: int, k: Key)
    requires Proper(c) && Reported(c, s, last)
    requires k in s.rows && k.time != PeriodStart(c, k.statType, last + Interval(c.fine))
    ensures RowIsRight(s.chain.events, k, s.rows[k], last + Interval(c.fine))
  {
    hide Count;
    assert IsPeriod(c, k, last);
    PeriodAlignment(c, k.statType, last, k.time);
  }

  /** A written row is right: its total is carried from a row that ends where it starts, or
      from a count up to there. */
  lemma WrittenRowIsRight(c: Config, s: State, last: int, t: StatType)
    requires Proper(c) && Reported(c, s, last) && Written(c, t)
    ensures var end, start := last + Interval(c.fine), PeriodStart(c, t, last + Interval(c.fine));
            RowIsRight(s.chain.events, Key(t, start), StatRow(s.chain.events, s.rows, t, start, end), end)
  {
    hide Count, Plus, PeriodStart;
    var end, start := last + Interval(c.fine), PeriodStart(c, t, last + Interval(c.fine));
    PeriodAlignment(c, t, last, start);
    var previous := Key(t, start - Interval(t));
    if previous in s.rows {
      assert RowIsRight(s.chain.events, previous, s.rows[previous], last);
    }
    AscendingTxTimesFit(s.chain.events);
    CountSplits(s.chain.events, ZERO_TIME, start, end);
  }

  lemma PeriodsGrow(c: Config, last: int, k: Key)
    requires Proper(c) && c.start <= last && last % Interval(c.fine) == 0
    ensures IsPeriod(c, k, last + Interval(c.fine)) <==>
            || IsPeriod(c, k, last)
            || (Written(c, k.statType) && k.time == PeriodStart(c, k.statType, last + Interval(c.fine)))
  {
    if Written(c, k.statType) {
      PeriodAlignment(c, k.statType, last, k.time);
    }
  }

  lemma WrittenKeys(c: Config, events: seq<Event>, rows: Rows, end: int, k: Key)
    requires Proper(c)
    ensures k in AfterWindow(c, events, rows, end) <==>
            k in rows || (Written(c, k.statType) && k.time == PeriodStart(c, k.statType, end))
    ensures Written(c, k.statType) && k.time == PeriodStart(c, k.statType, end) ==>
            AfterWindow(c, events, rows, end)[k] == StatRow(events, rows, k.statType, k.time, end)
    ensures k in rows && Written(c, k.statType) && k.time != PeriodStart(c, k.statType, end) ==>
            AfterWindow(c, events, rows, end)[k] == rows[k]
  {
    hide Count, StatRow, RangeStart;
  }

  lemma RowAfterWindow(c: Config, s: State, last: int, k: Key)
    requires Proper(c) && Reported(c, s, last)
    ensures var end := last + Interval(c.fine);
            var rows := AfterWindow(c, s.chain.events, s.rows, end);
            && (k in rows <==> IsPeriod(c, k, end))
            && (k in rows ==> RowIsRight(s.chain.events, k, rows[k], end))
  {
    hide Count, StatRow, AfterWindow, PeriodStart, RowIsRight, Closed, WellFormed;
    WrittenKeys(c, s.chain.events, s.rows, last + Interval(c.fine), k);
    PeriodsGrow(c, last, k);
    if Written(c, k.statType) && k.time == PeriodStart(c, k.statType, last + Interval(c.fine)) {
      WrittenRowIsRight(c, s, last, k.statType);
    } else if k in s.rows {
      KeptRowIsRight(c, s, last, k);
    }
  }

  lemma WindowKeepsReported(c: Config, s: State, last: int)
    requires Proper(c) && Reported(c, s, last)
    requires Closed(s.chain, last + Interval(c.fine))
    ensures var end := last + Interval(c.fine);
            Reported(c, s.(rows := AfterWindow(c, s.chain.events, s.rows, end)), end)
  {
    hide AfterWindow, RowIsRight, IsPeriod, Closed, WellFormed;
    var end := last + Interval(c.fine);
    var rows := AfterWindow(c, s.chain.events, s.rows, end);
    forall k
      ensures (k in rows <==> IsPeriod(c, k, end)) && (k in rows ==> RowIsRight(s.chain.events, k, rows[k], end))
    {
      RowAfterWindow(c, s, last, k);
    }
    NextEndIsBoundary(c, last);
  }

  lemma LastFineRow(c: Config, s: State, last: int, k: Key)
    requires Proper(c) && Reported(c, s, last)
    ensures k in s.rows && k.statType == c.fine ==> k.time <= last - Interval(c.fine)
    ensures Key(c.fine, last - Interval(c.fine)) in s.rows <==> c.start < last
  {
    hide Count, RowIsRight, Closed, WellFormed;
    ShiftedRemainder(Interval(c.fine), last - Interval(c.fine));
    assert k in s.rows ==> IsPeriod(c, k, last);
    PeriodAlignment(c, c.fine, last - Interval(c.fine), k.time);
  }

  /** The next window starts where the last one ended. */
  lemma NextStartIsLast(c: Config, s: State, last: int, start: int)
    requires Proper(c) && Reported(c, s, last)
    ensures NextStart(c, s.rows, start) <==> start == last
  {
    hide Reported, Proper;
    forall k ensures k in s.rows && k.statType == c.fine ==> k.time <= last - Interval(c.fine) {
      LastFineRow(c, s, last, k);
    }
    LastFineRow(c, s, last, Key(c.fine, last));
    LastFineRow(c, s, last, Key(c.fine, start - Interval(c.fine)));
    assert c.start <= last by { ReportedFromStart(c, s, last); }
    if c.start == last {
      forall k ensures k in s.rows ==> k.statType != c.fine {
        NoRowsYet(c, s, k);
      }
    }
  }

  lemma ReportedFromStart(c: Config, s: State, last: int)
    requires Reported(c, s, last)
    ensures c.start <= last
  {
  }

  lemma NoRowsYet(c: Config, s: State, k: Key)
    requires Reported(c, s, c.start)
    ensures k !in s.rows
  {
  }

  // ------------------------------------------------- runs

  lemma StepKeepsReported(c: Config, s: State, s': State, last: int)
    requires Proper(c) && Reported(c, s, last) && Step(c, s, s')
    ensures exists last' :: Reported(c, s', last')
  {
    hide Reported, Closed, AfterWindow, NextStart;
    if s' == s {
    } else if SyncStep(s, s') {
      SyncKeepsReported(c, s, s', last);
    } else {
      var start :| NextStart(c, s.rows, start) && Closed(s.chain, start + Interval(c.fine))
        && s' == s.(rows := AfterWindow(c, s.chain.events, s.rows, start + Interval(c.fine)));
      NextStartIsLast(c, s, last, start);
      WindowKeepsReported(c, s, last);
    }
  }

  lemma NothingReported(c: Config, s: State)
    requires Proper(c) && WellFormed(s.chain) && s.rows == map[]
    ensures Reported(c, s, c.start)
  {
    hide Count, RowIsRight, WellFormed;
    HourIsBoundary(c.start);
  }

  lemma HourIsBoundary(t: int)
    requires t % SECONDS_IN_HOUR == 0
    ensures t % Interval(Min) == 0 && t % Interval(TenMin) == 0
  {
    var h := t / SECONDS_IN_HOUR;
    assert t == 60 * (60 * h) == 600 * (6 * h);
    MultipleOf(60, 60 * h);
    MultipleOf(600, 6 * h);
  }

  lemma NextEndIsBoundary(c: Config, last: int)
    requires last % Interval(c.fine) == 0
    ensures (last + Interval(c.fine)) % Interval(c.fine) == 0
  {
    var w := Interval(c.fine);
    assert last + w == w * (last / w + 1);
    MultipleOf(w, last / w + 1);
  }

  /** In every state of every run the rows are those of the periods that meet the time
      covered so far, and each holds the count of its period and of all time before its end,
      both up to the end of the last window; the next window starts there. */
  lemma {:induction false} RunIsReported(c: Config, run: seq<State>, i: nat)
    requires Proper(c) && IsRun(c, run) && i < |run|
    ensures exists last :: Reported(c, run[i], last)
  {
    hide Reported, Step;
    if i == 0 {
      NothingReported(c, run[0]);
    } else {
      RunIsReported(c, run, i - 1);
      var last :| Reported(c, run[i - 1], last);
      StepKeepsReported(c, run[i - 1], run[i], last);
    }
  }

  lemma WindowKeepsFinished(c: Config, s: State, last: int, k: Key)
    requires Proper(c) && Reported(c, s, last)
    requires k in s.rows && k.time + Interval(k.statType) <= last
    ensures var rows := AfterWindow(c, s.chain.events, s.rows, last + Interval(c.fine));
            k in rows && rows[k] == s.rows[k]
  {
    hide Count, RowIsRight, Closed, WellFormed, StatRow;
  }

  /** A row of a period that is over is final: no later step changes it. */
  lemma FinishedRowIsFinal(c: Config, s: State, s': State, last: int, k: Key)
    requires Proper(c) && Reported(c, s, last) && Step(c, s, s')
    requires k in s.rows && k.time + Interval(k.statType) <= last
    ensures k in s'.rows && s'.rows[k] == s.rows[k]
  {
    hide Reported, Closed, AfterWindow, NextStart;
    if s' != s && !SyncStep(s, s') {
      var start :| NextStart(c, s.rows, start) && Closed(s.chain, start + Interval(c.fine))
        && s' == s.(rows := AfterWindow(c, s.chain.events, s.rows, start + Interval(c.fine)));
      NextStartIsLast(c, s, last, start);
      WindowKeepsFinished(c, s, last, k);
    }
  }

  // ------------------------------------------------- the statistics task

  lemma ProperRowsFit(c: Config, s: State, last: int)
    requires Proper(c) && Reported(c, s, last)
    ensures RowsFit(c, s.rows, last + Interval(c.fine))
  {
  }

  // ------------------------------------------------- which fine intervals work

  /** From an hour-aligned start the first window fits in for the intervals below an hour, and
      for a day unless it starts on a day boundary. */
  lemma FirstWindowFitsIff(c: Config)
    requires c.start % SECONDS_IN_HOUR == 0
    ensures RowsFit(c, map[], c.start + Interval(c.fine)) <==>
            c.fine == Min || c.fine == TenMin || (c.fine == Day && c.start % SECONDS_IN_DAY != 0)
  {
    hide RangeStart;
    if c.fine == Hour {
      NextRangeStart(c.start, SECONDS_IN_HOUR);
    } else if c.fine == Day {
      NextRangeStart(c.start, SECONDS_IN_DAY);
    }
  }

  /** The range that a time and one interval more ends in starts at that time only on a boundary. */
  lemma NextRangeStart(t: int, interval: int)
    requires interval > 0
    ensures RangeStart(t + interval, interval) == t <==> t % interval == 0
  {
    ShiftedRemainder(interval, t);
  }

  /** With an hourly fine interval nothing is ever written: the fine row of every window is
      the same as its hour row. */
  lemma {:induction false} HourlyStaysEmpty(c: Config, run: seq<State>, i: nat)
    requires c.fine == Hour && c.start % SECONDS_IN_HOUR == 0
    requires IsRun(c, run) && i < |run|
    ensures run[i].rows == map[]
  {
    hide Closed, AfterWindow, WellFormed, RowsFit;
    if i > 0 {
      HourlyStaysEmpty(c, run, i - 1);
      FirstWindowFitsIff(c);
      assert Step(c, run[i - 1], run[i]);
    }
  }

  /** The three rows of the only window that a daily fine interval gets in. */
  function OnlyDailyRows(c: Config, events: seq<Event>): Rows {
    AfterWindow(c, events, map[], c.start + SECONDS_IN_DAY)
  }

  /** After it, the next window is aligned to days: its fine row is the same as its day row. */
  lemma SecondDayNeverFits(c: Config, events: seq<Event>, start: int)
    requires c.fine == Day && c.start % SECONDS_IN_DAY != 0
    requires NextStart(c, OnlyDailyRows(c, events), start)
    ensures !RowsFit(c, OnlyDailyRows(c, events), start + SECONDS_IN_DAY)
  {
    hide Count, StatRow;
    var end := c.start + SECONDS_IN_DAY;
    var rows := OnlyDailyRows(c, events);
    assert Key(Day, RangeStart(end, SECONDS_IN_DAY)) in rows && Key(Day, c.start) in rows;
    assert Key(Day, start - SECONDS_IN_DAY) in rows;
    assert start == RangeStart(end, SECONDS_IN_DAY) + SECONDS_IN_DAY;
    BoundaryAfter(end);
  }

  lemma BoundaryAfter(t: int)
    ensures (RangeStart(t, SECONDS_IN_DAY) + 2 * SECONDS_IN_DAY) % SECONDS_IN_DAY == 0
  {
  }

  ghost predicate DailyState(c: Config, s: State) {
    && WellFormed(s.chain)
    && (s.rows != map[] ==>
          && c.start % SECONDS_IN_DAY != 0
          && Closed(s.chain, c.start + SECONDS_IN_DAY)
          && s.rows == OnlyDailyRows(c, s.chain.events))
  }

  lemma DailySyncs(c: Config, s: State, s': State)
    requires DailyState(c, s) && SyncStep(s, s')
    ensures DailyState(c, s')
  {
    hide Count, Closed;
    if s.rows == map[] {
      SettledIsFinal(s.chain, s'.chain);
    } else {
      var end := c.start + SECONDS_IN_DAY;
      ClosedWindowIsFinal(s.chain, s'.chain, end);
      forall lo, hi | hi <= end ensures Count(s'.chain.events, lo, hi) == Count(s.chain.events, lo, hi) {
        ClosedCountIsFinal(s.chain, s'.chain, end, lo, hi);
      }
      SameDailyRows(c, s.chain.events, s'.chain.events);
    }
  }

  lemma SameDailyRows(c: Config, a: seq<Event>, b: seq<Event>)
    requires forall lo, hi | hi <= c.start + SECONDS_IN_DAY :: Count(a, lo, hi) == Count(b, lo, hi)
    ensures OnlyDailyRows(c, a) == OnlyDailyRows(c, b)
  {
    hide Count;
  }

  /** With a daily fine interval at most one window is ever written, the first one, and only
      if it does not start on a day boundary. */
  lemma {:induction false} DailyCommitsOnce(c: Config, run: seq<State>, i: nat)
    requires c.fine == Day && c.start % SECONDS_IN_HOUR == 0
    requires IsRun(c, run) && i < |run|
    ensures DailyState(c, run[i])
  {
    hide Closed, OnlyDailyRows, WellFormed, RowsFit;
    if i > 0 {
      DailyCommitsOnce(c, run, i - 1);
      FirstWindowFitsIff(c);
      assert Step(c, run[i - 1], run[i]);
      if SyncStep(run[i - 1], run[i]) {
        DailySyncs(c, run[i - 1], run[i]);
      } else if run[i] != run[i - 1] {
        DailyWindows(c, run[i - 1], run[i]);
      }
    }
  }

  lemma DailyWindows(c: Config, s: State, s': State)
    requires c.fine == Day && c.start % SECONDS_IN_HOUR == 0
    requires DailyState(c, s) && WindowStep(c, s, s')
    ensures DailyState(c, s')
  {
    hide Closed, WellFormed, RowsFit, AfterWindow;
    FirstWindowFitsIff(c);
    var start :| NextStart(c, s.rows, start) && Closed(s.chain, start + SECONDS_IN_DAY)
      && RowsFit(c, s.rows, start + SECONDS_IN_DAY)
      && s' == s.(rows := AfterWindow(c, s.chain.events, s.rows, start + SECONDS_IN_DAY));
    if s.rows != map[] {
      SecondDayNeverFits(c, s.chain.events, start);
    }
  }

  lemma DailyRowsAreRight(c: Config, events: seq<Event>, k: Key)
    requires c.fine == Day && c.start % SECONDS_IN_HOUR == 0 && ZERO_TIME <= c.start - SECONDS_IN_DAY
    requires Ascending(events)
    requires k in OnlyDailyRows(c, events)
    ensures RowIsRight(events, k, OnlyDailyRows(c, events)[k], c.start + SECONDS_IN_DAY)
  {
    hide Count, Plus;
    var end := c.start + SECONDS_IN_DAY;
    assert k.time < end <= k.time + Interval(k.statType);
    AscendingTxTimesFit(events);
    CountSplits(events, ZERO_TIME, k.time, end);
  }

  /** A window that ends at `last` has been written, unless there are no rows; it is closed, no
      row starts behind it, and every row is right. */
  ghost predicate RightUpTo(c: Config, s: State, last: int) {
    && (s.rows != map[] ==> Key(c.fine, last - Interval(c.fine)) in s.rows && Closed(s.chain, last))
    && forall k | k in s.rows :: k.time < last && RowIsRight(s.chain.events, k, s.rows[k], last)
  }

  /** Whatever the fine interval: in every state of every run each row there is counts its
      period, and everything before the period's end, up to the end of the last window. */
  lemma EveryRowIsRight(c: Config, run: seq<State>, i: nat)
    requires c.start % SECONDS_IN_HOUR == 0 && ZERO_TIME <= c.start - SECONDS_IN_DAY
    requires IsRun(c, run) && i < |run|
    ensures exists last :: RightUpTo(c, run[i], last)
  {
    hide RowIsRight, IsRun, OnlyDailyRows, Closed;
    var s := run[i];
    if c.fine == Hour {
      HourlyStaysEmpty(c, run, i);
      assert RightUpTo(c, s, 0);
    } else if c.fine == Day {
      DailyCommitsOnce(c, run, i);
      DailyIsRight(c, s);
    } else {
      RunIsReported(c, run, i);
      var last :| Reported(c, s, last);
      ReportedIsRight(c, s, last);
    }
  }

  /** So what each row holds, in every state of every run, are the numbers of submits and of
      transactions and the sums of sizes and fees, in its period and before the period's end. */
  lemma RowsAreNumbers(c: Config, run: seq<State>, i: nat)
    requires c.start % SECONDS_IN_HOUR == 0 && ZERO_TIME <= c.start - SECONDS_IN_DAY
    requires IsRun(c, run) && i < |run|
    ensures exists last :: RightUpTo(c, run[i], last) && forall k | k in run[i].rows ::
              var row, over := run[i].rows[k], k.time + Interval(k.statType);
              var end := if over < last then over else last;
              && CountsSubmits(row.delta, run[i].chain.events, k.time, end)
              && CountsSubmits(row.total, run[i].chain.events, ZERO_TIME, end)
  {
    hide IsRun, CountsSubmits, Count, Closed;
    EveryRowIsRight(c, run, i);
    var last :| RightUpTo(c, run[i], last);
    var events := run[i].chain.events;
    forall k | k in run[i].rows
      ensures var end := if k.time + Interval(k.statType) < last then k.time + Interval(k.statType) else last;
              && CountsSubmits(run[i].rows[k].delta, events, k.time, end)
              && CountsSubmits(run[i].rows[k].total, events, ZERO_TIME, end)
    {
      var end := Until(k.statType, k.time, last);
      assert RowIsRight(events, k, run[i].rows[k], last);
      CountIsNumber(events, k.time, end);
      CountIsNumber(events, ZERO_TIME, end);
    }
  }

  lemma DailyIsRight(c: Config, s: State)
    requires c.fine == Day && c.start % SECONDS_IN_HOUR == 0 && ZERO_TIME <= c.start - SECONDS_IN_DAY
    requires DailyState(c, s)
    ensures RightUpTo(c, s, c.start + SECONDS_IN_DAY)
  {
    hide RowIsRight, Closed, StatRow;
    forall k | k in s.rows
      ensures k.time < c.start + SECONDS_IN_DAY && RowIsRight(s.chain.events, k, s.rows[k], c.start + SECONDS_IN_DAY)
    {
      DailyRowsAreRight(c, s.chain.events, k);
    }
  }

  lemma ReportedIsRight(c: Config, s: State, last: int)
    requires Proper(c) && Reported(c, s, last)
    ensures RightUpTo(c, s, last)
  {
    hide RowIsRight, Closed, WellFormed;
    if k :| k in s.rows {
      assert IsPeriod(c, k, last);
      LastFineRow(c, s, last, k);
    }
  }

  datatype TimeRange = TimeRange(start: int, end: int)

  datatype Error = TimeNotReach | BlockNotSync | BlockNotFinalized

  class Database {
    var chain: Chain
    var rows: Rows

    /** `LastByType`: the time of the last row of a type. */
    method LastByType(t: StatType) returns (last: Option<int>)
      ensures last.None? ==> forall k | k in rows :: k.statType != t
      ensures last.Some? ==> Key(t, last.value) in rows
      ensures last.Some? ==> forall k | k in rows && k.statType == t :: k.time <= last.value
    {
      last := None;
      var todo := rows.Keys;
      while todo != {}
        invariant todo <= rows.Keys
        invariant last.None? ==> forall k | k in rows && k !in todo :: k.statType != t
        invariant last.Some? ==> Key(t, last.value) in rows
        invariant last.Some? ==> forall k | k in rows && k !in todo && k.statType == t :: k.time <= last.value
        decreases todo
      {
        var k :| k in todo;
        if k.statType == t && (last.None? || last.value < k.time) {
          last := Some(k.time);
        }
        todo := todo - {k};
      }
    }
  }

  class StatSubmit {
    const db: Database
    const statType: StatType
    const startTime: int

    constructor (db: Database, statType: StatType, startTime: int)
      ensures this.db == db && this.statType == statType && this.startTime == startTime
    {
      this.db, this.statType, this.startTime := db, statType, startTime;
    }

    function Settings(): Config {
      Config(statType, startTime)
    }

    method NextTimeRange() returns (r: TimeRange)
      ensures NextStart(Settings(), db.rows, r.start) && r.end == r.start + Interval(statType)
    {
      var last := db.LastByType(statType);
      var start := if last.None? then startTime else last.value + Interval(statType);
      r := TimeRange(start, start + Interval(statType));
    }

    /** `tryAcquireTimeRange`: the next window, once its end has passed and a block at or
        after it is finalized. */
    method TryAcquireTimeRange(now: int) returns (r: Result<TimeRange, Error>)
      requires BlockTimesFit(db.chain)
      ensures r.Ok? ==> Due(Settings(), State(db.chain, db.rows), now, r.value.start)
      ensures r.Ok? ==> r.value.end == r.value.start + Interval(statType)
      ensures r.Err? ==> forall start :: !Due(Settings(), State(db.chain, db.rows), now, start)
      ensures r == Err(TimeNotReach) <==>
                forall start | NextStart(Settings(), db.rows, start) :: now < start + Interval(statType)
      ensures r == Err(BlockNotSync) ==> exists start ::
                && NextStart(Settings(), db.rows, start)
                && forall b | b in db.chain.blocks :: db.chain.blocks[b] < start + Interval(statType)
      ensures r == Err(BlockNotFinalized) ==> exists start ::
                && NextStart(Settings(), db.rows, start)
                && exists b :: b in db.chain.blocks && start + Interval(statType) <= db.chain.blocks[b]
    {
      hide NextStart;
      var timeRange := NextTimeRange();
      NextStartIsOne(Settings(), db.rows, timeRange.start);
      if now < timeRange.end {
        return Err(TimeNotReach);
      }
      var blockNum := FirstBlockAfterTime(db.chain.blocks, timeRange.end);
      if blockNum.None? {
        return Err(BlockNotSync);
      }
      FirstBlockDecides(db.chain, timeRange.end, blockNum.value);
      if blockNum.value > db.chain.finalized {
        return Err(BlockNotFinalized);
      }
      return Ok(timeRange);
    }

    /** The transaction deletes the hour and the day row and adds three; `fault` fails it. */
    method CalculateStat(tr: TimeRange, fault: bool) returns (ok: bool)
      requires tr.end == tr.start + Interval(statType)
      modifies db`rows
      ensures ok <==> !fault && RowsFit(Settings(), old(db.rows), tr.end)
      ensures db.rows == if ok then AfterWindow(Settings(), db.chain.events, old(db.rows), tr.end) else old(db.rows)
      ensures ok ==> Key(statType, tr.start) in db.rows
      ensures ok ==> CountsSubmits(db.rows[Key(statType, tr.start)].delta, db.chain.events, tr.start, tr.end)
    {
      hide Count, CountsSubmits;
      CountIsNumber(db.chain.events, tr.start, tr.end);
      var hour, day := RangeStart(tr.end, SECONDS_IN_HOUR), RangeStart(tr.end, SECONDS_IN_DAY);
      var stat := StatRow(db.chain.events, db.rows, statType, tr.start, tr.end);
      var hStat := StatRow(db.chain.events, db.rows, Hour, hour, tr.end);
      var dStat := StatRow(db.chain.events, db.rows, Day, day, tr.end);
      var left := db.rows - {Key(Hour, hour)} - {Key(Day, day)};
      if fault {
        return false;
      }
      if Key(statType, tr.start) in left || Key(statType, tr.start) in {Key(Hour, hour), Key(Day, day)} {
        return false;
      }
      db.rows := left[Key(Hour, hour) := hStat][Key(Day, day) := dStat][Key(statType, tr.start) := stat];
      return true;
    }

    /** One round of `AbsStat.DoStat`: it writes the next window exactly when the window's end has
        passed, the window is closed, the index lets its rows in, and nothing fails. */
    method Attempt(now: int, fault: bool) returns (ok: bool)
      requires BlockTimesFit(db.chain)
      modifies db`rows
      ensures ok <==> !fault && Writable(Settings(), old(State(db.chain, db.rows)), now)
      ensures ok ==> WindowStep(Settings(), old(State(db.chain, db.rows)), State(db.chain, db.rows))
      ensures !ok ==> db.rows == old(db.rows)
    {
      hide AfterWindow, Closed, NextStart, RowsFit;
      var timeRange := TryAcquireTimeRange(now);
      ok := timeRange.Ok?;
      if ok {
        OneIsDue(Settings(), State(db.chain, db.rows), now, timeRange.value.start);
        ok := CalculateStat(timeRange.value, fault);
      }
    }
  }

  /** The next window starts at `start`, its end has passed and it is closed. */
  ghost predicate Due(c: Config, s: State, now: int, start: int) {
    && NextStart(c, s.rows, start)
    && start + Interval(c.fine) <= now && Closed(s.chain, start + Interval(c.fine))
  }

  ghost predicate Writable(c: Config, s: State, now: int) {
    exists start :: Due(c, s, now, start) && RowsFit(c, s.rows, start + Interval(c.fine))
  }

  lemma OneIsDue(c: Config, s: State, now: int, start: int)
    requires NextStart(c, s.rows, start)
    ensures Writable(c, s, now) <==> Due(c, s, now, start) && RowsFit(c, s.rows, start + Interval(c.fine))
  {
    hide Closed, RowsFit, NextStart;
    NextStartIsOne(c, s.rows, start);
  }

  lemma NextStartIsOne(c: Config, rows: Rows, start: int)
    requires NextStart(c, rows, start)
    ensures forall other | NextStart(c, rows, other) :: other == start
  {
    forall other | NextStart(c, rows, other) ensures other == start {
      if k :| k in rows && k.statType == c.fine {
        assert Key(c.fine, start - Interval(c.fine)) in rows && Key(c.fine, other - Interval(c.fine)) in rows;
      }
    }
  }

  /** In a run with a fine interval below an hour the index never stops a window that is due,
      so an attempt without a failure writes it, and the time covered grows by the interval. */
  lemma DueWindowIsWritten(c: Config, run: seq<State>, i: nat, now: int, start: int)
    requires Proper(c) && IsRun(c, run) && i < |run|
    requires Due(c, run[i], now, start)
    ensures var end := start + Interval(c.fine);
            && Reported(c, run[i], start) && RowsFit(c, run[i].rows, end)
            && Reported(c, run[i].(rows := AfterWindow(c, run[i].chain.events, run[i].rows, end)), end)
  {
    hide Reported, IsRun, Closed, AfterWindow, RowsFit, NextStart;
    RunIsReported(c, run, i);
    var last :| Reported(c, run[i], last);
    NextStartIsLast(c, run[i], last, start);
    ProperRowsFit(c, run[i], last);
    WindowKeepsReported(c, run[i], last);
  }
}
