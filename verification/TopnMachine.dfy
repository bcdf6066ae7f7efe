/** The incremental top-n task as a state machine over one ranked column: every
    interleaving of syncing, batches, failed batches and process restarts. */
module TopnMachine {
  import opened Wrappers
  import opened Ledger
  import opened TopnSpec

  /** `n` heap slots, `batch` positions per batch, `start` the position of a fresh cursor. */
  datatype Config = Config(n: nat, batch: Positive, start: nat, field: Field)

  /** `table`, `stored` and `snap` are committed; `pos` and `heap` live in memory. */
  datatype State = State(chain: Chain, table: map<nat, nat>, stored: Option<nat>, snap: Option<seq<Entry>>,
                         pos: nat, heap: seq<Entry>)

  /** `loadLastPos`: resume behind the stored position. */
  function Resume(start: nat, stored: Option<nat>): nat {
    match stored
    case Some(p) => p + 1
    case None => start
  }

  /** `nextStatRange`: the end (exclusive) of the next batch, or None while there is nothing to do. */
  function NextEnd(chain: Chain, pos: nat, batch: Positive): (r: Option<Positive>)
    ensures r.Some? <==> pos < SettledEnd(chain)
    ensures r.Some? ==> r.value == if SettledEnd(chain) < pos + batch then SettledEnd(chain) else pos + batch
  {
    match LastFinalized(chain)
    case None => None
    case Some(last) =>
      if last < pos then None
      else Some(if last < pos + batch then last + 1 else pos + batch)
  }

  /** The rows a batch rewrites: those with an event in [pos, end). */
  function Updated(c: Config, s: State, end: nat): map<nat, nat> {
    map id | id in Owners(s.chain.events, s.pos, end) ::
      ValueIn(s.table)(id) + Gain(c.field, s.chain.events, id, s.pos, end)
  }

  ghost predicate SyncStep(s: State, s': State) {
    ChainStep(s.chain, s'.chain) && s' == s.(chain := s'.chain)
  }

  /** Other tasks register ids, with value 0. */
  ghost predicate RegisterStep(s: State, s': State) {
    && s' == s.(table := s'.table)
    && (forall id | id in s.table :: id in s'.table && s'.table[id] == s.table[id])
    && (forall id | id in s'.table && id !in s.table :: s'.table[id] == 0)
  }

  ghost predicate CommitStep(c: Config, s: State, s': State) {
    exists end :: NextEnd(s.chain, s.pos, c.batch) == Some(end) && Committed(c, s, s', end)
  }

  ghost predicate Advanced(c: Config, s: State, s': State, end: Positive) {
    && s'.chain == s.chain
    && s'.table == s.table + Updated(c, s, end)
    && s'.stored == Some(end - 1)
    && s'.pos == end
  }

  ghost predicate Committed(c: Config, s: State, s': State, end: Positive) {
    var u := Updated(c, s, end);
    && Advanced(c, s, s', end)
    && if u == map[] then s'.heap == s.heap && s'.snap == s.snap
       else Resorted(c.n, s.heap, u, s'.heap) && s'.snap == Some(s'.heap)
  }

  /** A batch whose transaction fails: nothing is committed, the heap may already be re-sorted. */
  ghost predicate FailStep(c: Config, s: State, s': State) {
    || s' == s
    || exists end :: NextEnd(s.chain, s.pos, c.batch) == Some(end) && Aborted(c, s, s', end)
  }

  ghost predicate Aborted(c: Config, s: State, s': State, end: nat) {
    && s' == s.(heap := s'.heap)
    && Updated(c, s, end) != map[]
    && Resorted(c.n, s.heap, Updated(c, s, end), s'.heap)
  }

  /** Where an attempt fails: reading, before the heap is re-sorted, or after. */
  datatype Fault = NoFault | ReadFault | EarlyFault | LateFault

  /** A transaction that fails after the re-sort; without updated rows there is none. */
  ghost predicate Failed(c: Config, s: State, s': State, end: nat) {
    if Updated(c, s, end) == map[] then s' == s else Aborted(c, s, s', end)
  }

  /** One round: nothing to do, a committed batch, a failed one that has re-sorted the heap, or
      one that has failed before. */
  ghost predicate Attempted(c: Config, s: State, s': State, fault: Fault) {
    match NextEnd(s.chain, s.pos, c.batch)
    case None => s' == s
    case Some(end) =>
      match fault
      case NoFault => Committed(c, s, s', end)
      case LateFault => Failed(c, s, s', end)
      case _ => s' == s
  }

  /** Another task registers one id. */
  ghost predicate Registered(s: State, s': State, id: nat) {
    s' == s.(table := if id in s.table then s.table else s.table[id := 0])
  }

  /** Inside the transaction of a batch: the heap is re-sorted, `table'` and `snap'` are
      about to be committed. */
  ghost predicate Staged(c: Config, s: State, s1: State, table': map<nat, nat>, snap': Option<seq<Entry>>,
                         end: Positive) {
    && s1 == s.(heap := s1.heap)
    && table' == s.table + Updated(c, s, end)
    && if Updated(c, s, end) == map[] then s1.heap == s.heap && snap' == s.snap
       else Resorted(c.n, s.heap, Updated(c, s, end), s1.heap) && snap' == Some(s1.heap)
  }

  lemma StagedAborts(c: Config, s: State, s1: State, table': map<nat, nat>, snap': Option<seq<Entry>>, end: Positive)
    requires Staged(c, s, s1, table', snap', end)
    ensures Failed(c, s, s1, end)
  {
  }

  lemma StagedCommits(c: Config, s: State, s1: State, s2: State, end: Positive)
    requires Staged(c, s, s1, s2.table, s2.snap, end)
    requires s2 == State(s1.chain, s2.table, Some(end - 1), s2.snap, end, s1.heap)
    ensures Committed(c, s, s2, end)
  {
  }

  /** The process starts again: memory is rebuilt from the database. */
  ghost predicate BootStep(c: Config, s: State, s': State) {
    && s' == s.(snap := s'.snap, pos := s'.pos, heap := s'.heap)
    && s'.pos == Resume(c.start, s.stored)
    && match s.snap
       case Some(list) => s'.snap == s.snap && multiset(s'.heap) == multiset(list)
       case None =>
         IsTopn(c.n, ValueIn(s.table), s'.heap) && DescendingKeys(s'.heap) && s'.snap == Some(s'.heap)
  }

  ghost predicate Step(c: Config, s: State, s': State) {
    || SyncStep(s, s')
    || RegisterStep(s, s')
    || CommitStep(c, s, s')
    || FailStep(c, s, s')
    || BootStep(c, s, s')
  }

  /** The first start on a database without statistics; its table may already hold values. */
  ghost predicate FirstBoot(c: Config, s: State) {
    exists blank: State :: blank.stored == None && blank.snap == None
      && WellFormed(blank.chain) && BootStep(c, blank, s)
  }

  ghost predicate IsRun(c: Config, run: seq<State>) {
    && run != []
    && FirstBoot(c, run[0])
    && forall i | 0 < i < |run| :: Step(c, run[i - 1], run[i])
  }

  /** A round is a step, however it ends. */
  lemma AttemptIsStep(c: Config, s: State, s': State, fault: Fault)
    requires Attempted(c, s, s', fault)
    ensures Step(c, s, s')
  {
    hide Committed, Aborted, NextEnd;
  }

  /** A batch that is committed, has failed after the re-sort, or before. */
  lemma BatchIsAttempt(c: Config, s: State, s': State, end: Positive, fault: Fault)
    requires NextEnd(s.chain, s.pos, c.batch) == Some(end)
    requires fault == NoFault ==> Committed(c, s, s', end)
    requires fault == LateFault ==> Failed(c, s, s', end)
    requires fault == ReadFault || fault == EarlyFault ==> s' == s
    ensures Attempted(c, s, s', fault)
  {
    hide Committed, Failed, NextEnd;
  }

  lemma NothingIsAttempt(c: Config, s: State, fault: Fault)
    requires NextEnd(s.chain, s.pos, c.batch) == None
    ensures Attempted(c, s, s, fault)
  {
  }

  lemma CommitMovesCursor(c: Config, s: State, s': State, end: Positive)
    ensures Committed(c, s, s', end) ==> s'.pos == end && s'.chain == s.chain
    ensures Failed(c, s, s', end) ==> s'.pos == s.pos
  {
  }

  lemma StutterIsStep(c: Config, s: State)
    ensures Step(c, s, s)
  {
  }

  lemma SyncIsStep(c: Config, s: State, s': State)
    requires ChainStep(s.chain, s'.chain) && s' == s.(chain := s'.chain)
    ensures Step(c, s, s')
  {
  }

  lemma RegisterIsStep(c: Config, s: State, s': State)
    requires RegisterStep(s, s')
    ensures Step(c, s, s')
  {
  }

  lemma RegisteredIsStep(c: Config, s: State, s': State, id: nat)
    requires Registered(s, s', id)
    ensures Step(c, s, s')
  {
  }

  lemma BootIsStep(c: Config, s: State, s': State)
    requires BootStep(c, s, s')
    ensures Step(c, s, s')
  {
  }

  lemma FirstRun(c: Config, blank: State, s: State)
    requires blank.stored == None && blank.snap == None && WellFormed(blank.chain)
    requires BootStep(c, blank, s)
    ensures IsRun(c, [s])
  {
  }

  // ------------------------------------------------- the invariant

  /** The table as it would be after counting everything below `to`. */
  function Ahead(c: Config, s: State, to: nat): Valuation {
    AheadOf(c.field, s.table, s.chain.events, s.pos, to)
  }

  function AheadOf(f: Field, table: map<nat, nat>, events: seq<Event>, pos: nat, to: nat): Valuation {
    (id: nat) => AheadAt(f, table, events, pos, to, id)
  }

  function AheadAt(f: Field, table: map<nat, nat>, events: seq<Event>, pos: nat, to: nat, id: nat): nat {
    ValueIn(table)(id) + Gain(f, events, id, pos, to)
  }

  /** The heap reflects position `to`: the cursor, or the end of a failed batch. A later
      attempt never ends before `to`. */
  ghost predicate Reflects(c: Config, s: State, to: nat) {
    && s.pos <= to
    && (to == s.pos || (to <= SettledEnd(s.chain) && to <= s.pos + c.batch))
    && IsTopn(c.n, Ahead(c, s, to), s.heap)
  }

  ghost predicate Sound(c: Config, s: State) {
    && WellFormed(s.chain)
    && s.pos == Resume(c.start, s.stored)
    && (s.pos == c.start || (c.start <= s.pos <= SettledEnd(s.chain)))
    && s.snap.Some?
    && IsTopn(c.n, ValueIn(s.table), s.snap.value)
    && DescendingKeys(s.snap.value)
    && exists to :: Reflects(c, s, to)
  }

  lemma SameValuesSameTopn(n: nat, v: Valuation, w: Valuation, s: seq<Entry>)
    requires IsTopn(n, v, s)
    requires forall id :: v(id) == w(id)
    ensures IsTopn(n, w, s)
  {
  }

  // ------------------------------------------------- every step keeps the invariant

  lemma SyncKeepsSound(c: Config, s: State, s': State)
    requires Sound(c, s)
    requires SyncStep(s, s')
    ensures Sound(c, s')
  {
    SettledIsFinal(s.chain, s'.chain);
    SettledEndGrows(s.chain, s'.chain);
    var to :| Reflects(c, s, to);
    forall id ensures Ahead(c, s, to)(id) == Ahead(c, s', to)(id) {
      if to == s.pos {
        EmptyRange(c.field, s.chain.events, id, to);
        EmptyRange(c.field, s'.chain.events, id, to);
      } else {
        SettledQueryIsFinal(c.field, s.chain, s'.chain, id, s.pos, to);
      }
    }
    SameValuesSameTopn(c.n, Ahead(c, s, to), Ahead(c, s', to), s.heap);
    assert Reflects(c, s', to);
  }

  lemma EmptyRange(f: Field, events: seq<Event>, id: nat, p: nat)
    ensures Gain(f, events, id, p, p) == 0
  {
    assert Owners(events, p, p) == {};
    GainIsZero(f, events, id, p, p);
  }

  lemma RegisterKeepsSound(c: Config, s: State, s': State)
    requires Sound(c, s)
    requires RegisterStep(s, s')
    ensures Sound(c, s')
  {
    var to :| Reflects(c, s, to);
    assert forall id: nat :: ValueIn(s.table)(id) == ValueIn(s'.table)(id);
    SameValuesSameTopn(c.n, ValueIn(s.table), ValueIn(s'.table), s.snap.value);
    SameValuesSameTopn(c.n, Ahead(c, s, to), Ahead(c, s', to), s.heap);
    assert Reflects(c, s', to);
  }

  /** Re-sorting a heap that reflects an earlier position with the rows of a batch that
      ends no earlier yields a top-n as of the end of the batch. */
  lemma ResortReflects(c: Config, s: State, to: nat, end: nat, heap': seq<Entry>)
    requires Reflects(c, s, to) && to <= end
    requires IsSelection(c.n, Candidates(s.heap, Updated(c, s, end)), heap')
    ensures IsTopn(c.n, Ahead(c, s, end), heap')
  {
    hide IsTopn, IsSelection, Candidates, NextEnd;
    var u := Updated(c, s, end);
    forall id: nat
      ensures Ahead(c, s, to)(id) <= Ahead(c, s, end)(id)
      ensures id !in u ==> Ahead(c, s, end)(id) == Ahead(c, s, to)(id)
    {
      GainGrows(c.field, s.chain.events, id, s.pos, to, end);
      if id !in u {
        GainIsZero(c.field, s.chain.events, id, s.pos, end);
      }
    }
    RebuildKeepsTopn(c.n, Ahead(c, s, to), Ahead(c, s, end), s.heap, u, heap');
  }

  lemma AbortReflects(c: Config, s: State, s': State, to: nat, end: Positive)
    requires Reflects(c, s, to) && to <= end
    requires NextEnd(s.chain, s.pos, c.batch) == Some(end)
    requires Aborted(c, s, s', end)
    ensures Reflects(c, s', end)
  {
    ResortReflects(c, s, to, end, s'.heap);
    SameValuesSameTopn(c.n, Ahead(c, s, end), Ahead(c, s', end), s'.heap);
  }

  lemma ReachedByBatch(c: Config, s: State, to: nat, end: Positive)
    requires Reflects(c, s, to)
    requires NextEnd(s.chain, s.pos, c.batch) == Some(end)
    ensures to <= end <= SettledEnd(s.chain)
  {
  }

  lemma FailKeepsSound(c: Config, s: State, s': State)
    requires Sound(c, s)
    requires FailStep(c, s, s')
    ensures Sound(c, s')
  {
    if s' != s {
      var end :| NextEnd(s.chain, s.pos, c.batch) == Some(end) && Aborted(c, s, s', end);
      var to :| Reflects(c, s, to);
      ReachedByBatch(c, s, to, end);
      AbortReflects(c, s, s', to, end);
    }
  }

  /** Committing a batch moves exactly the counted-ahead value into the table. */
  lemma CommittedValue(c: Config, s: State, s': State, end: Positive, id: nat)
    requires Advanced(c, s, s', end)
    ensures ValueIn(s'.table)(id) == Ahead(c, s, end)(id) == Ahead(c, s', end)(id)
  {
    EmptyRange(c.field, s.chain.events, id, end);
    var u := Updated(c, s, end);
    if id in u {
      assert s'.table[id] == u[id];
    } else {
      GainIsZero(c.field, s.chain.events, id, s.pos, end);
      assert id in s'.table <==> id in s.table;
    }
  }

  lemma CommitReflects(c: Config, s: State, s': State, to: nat, end: Positive)
    requires Reflects(c, s, to) && to <= end
    requires s.snap.Some? && IsTopn(c.n, ValueIn(s.table), s.snap.value) && DescendingKeys(s.snap.value)
    requires Committed(c, s, s', end)
    ensures IsTopn(c.n, Ahead(c, s', end), s'.heap)
    ensures s'.snap.Some? && IsTopn(c.n, ValueIn(s'.table), s'.snap.value) && DescendingKeys(s'.snap.value)
  {
    hide IsTopn, DescendingKeys, Gain, Owners;
    forall id: nat ensures ValueIn(s'.table)(id) == Ahead(c, s, end)(id) == Ahead(c, s', end)(id) {
      CommittedValue(c, s, s', end, id);
    }
    if Updated(c, s, end) == map[] {
      UntouchedByBatch(c, s, to, end);
      SameValuesSameTopn(c.n, Ahead(c, s, to), Ahead(c, s', end), s'.heap);
      SameValuesSameTopn(c.n, ValueIn(s.table), ValueIn(s'.table), s'.snap.value);
    } else {
      ResortReflects(c, s, to, end, s'.heap);
      SameValuesSameTopn(c.n, Ahead(c, s, end), Ahead(c, s', end), s'.heap);
      SameValuesSameTopn(c.n, Ahead(c, s, end), ValueIn(s'.table), s'.heap);
    }
  }

  lemma CommitKeepsSound(c: Config, s: State, s': State)
    requires Sound(c, s)
    requires CommitStep(c, s, s')
    ensures Sound(c, s')
  {
    var end :| NextEnd(s.chain, s.pos, c.batch) == Some(end) && Committed(c, s, s', end);
    var to :| Reflects(c, s, to);
    ReachedByBatch(c, s, to, end);
    CommitReflects(c, s, s', to, end);
    assert Reflects(c, s', end);
  }

  /** A batch without rows changes no value, however far a failed batch had looked ahead. */
  lemma UntouchedByBatch(c: Config, s: State, to: nat, end: nat)
    requires s.pos <= to <= end
    requires Updated(c, s, end) == map[]
    ensures forall id: nat :: Ahead(c, s, to)(id) == Ahead(c, s, end)(id) == ValueIn(s.table)(id)
  {
    assert Owners(s.chain.events, s.pos, end) == Updated(c, s, end).Keys;
    forall id: nat ensures Ahead(c, s, to)(id) == Ahead(c, s, end)(id) == ValueIn(s.table)(id) {
      GainIsZero(c.field, s.chain.events, id, s.pos, end);
      GainGrows(c.field, s.chain.events, id, s.pos, to, end);
    }
  }

  lemma BootGivesReflection(c: Config, s: State, s': State)
    requires BootStep(c, s, s')
    requires s.snap.Some? ==> IsTopn(c.n, ValueIn(s.table), s.snap.value)
    ensures Reflects(c, s', s'.pos)
  {
    if s.snap.Some? {
      PermutedTopn(c.n, ValueIn(s.table), s.snap.value, s'.heap);
    }
    forall id: nat ensures Ahead(c, s', s'.pos)(id) == ValueIn(s.table)(id) {
      EmptyRange(c.field, s'.chain.events, id, s'.pos);
    }
    SameValuesSameTopn(c.n, ValueIn(s.table), Ahead(c, s', s'.pos), s'.heap);
  }

  lemma BootKeepsSound(c: Config, s: State, s': State)
    requires Sound(c, s)
    requires BootStep(c, s, s')
    ensures Sound(c, s')
  {
    BootGivesReflection(c, s, s');
  }

  lemma FirstBootIsSound(c: Config, s: State)
    requires FirstBoot(c, s)
    ensures Sound(c, s)
  {
    var blank: State :| blank.stored == None && blank.snap == None
                         && WellFormed(blank.chain) && BootStep(c, blank, s);
    BootGivesReflection(c, blank, s);
  }

  lemma StepKeepsSound(c: Config, s: State, s': State)
    requires Sound(c, s)
    requires Step(c, s, s')
    ensures Sound(c, s')
  {
    if SyncStep(s, s') {
      SyncKeepsSound(c, s, s');
    } else if RegisterStep(s, s') {
      RegisterKeepsSound(c, s, s');
    } else if CommitStep(c, s, s') {
      CommitKeepsSound(c, s, s');
    } else if FailStep(c, s, s') {
      FailKeepsSound(c, s, s');
    } else {
      BootKeepsSound(c, s, s');
    }
  }

  lemma {:induction false} RunIsSound(c: Config, run: seq<State>, i: nat)
    requires IsRun(c, run)
    requires i < |run|
    ensures Sound(c, run[i])
  {
    if i == 0 {
      FirstBootIsSound(c, run[0]);
    } else {
      RunIsSound(c, run, i - 1);
      StepKeepsSound(c, run[i - 1], run[i]);
    }
  }

  lemma RunContinues(c: Config, run: seq<State>, s': State)
    requires IsRun(c, run)
    requires Step(c, run[|run| - 1], s')
    ensures IsRun(c, run + [s'])
  {
  }

  // ------------------------------------------------- main results

  /** At every moment of every run the stored list is a ranked top-n of the whole table. */
  lemma StoredListIsTopn(c: Config, run: seq<State>, i: nat)
    requires IsRun(c, run)
    requires i < |run|
    ensures run[i].snap.Some?
    ensures IsTopn(c.n, ValueIn(run[i].table), run[i].snap.value)
    ensures DescendingKeys(run[i].snap.value)
  {
    RunIsSound(c, run, i);
  }

  /** ... so it shows, rank by rank, what ranking the whole table again would show. */
  lemma StoredListAgreesWithTable(c: Config, run: seq<State>, i: nat, again: seq<Entry>, rank: nat)
    requires IsRun(c, run)
    requires i < |run|
    requires IsTopn(c.n, ValueIn(run[i].table), again) && DescendingKeys(again)
    ensures run[i].snap.Some? && Rank(run[i].snap.value, rank) == Rank(again, rank)
  {
    RunIsSound(c, run, i);
    TopnIsUnique(c.n, ValueIn(run[i].table), run[i].snap.value, again, rank);
  }

  /** So the key of every rank is the value of that rank in the table. */
  lemma StoredRankIsValue(c: Config, run: seq<State>, i: nat, rank: nat, t: nat)
    requires IsRun(c, run)
    requires i < |run| && rank < c.n
    ensures run[i].snap.Some?
    ensures Rank(run[i].snap.value, rank) > t <==> MoreAbove(ValueIn(run[i].table), rank, t)
  {
    RunIsSound(c, run, i);
    RankIsValue(c.n, ValueIn(run[i].table), run[i].snap.value, rank, t);
  }

  /** What has been counted so far for an id. */
  function Counted(c: Config, s: State, id: nat): nat {
    Gain(c.field, s.chain.events, id, c.start, s.pos)
  }

  lemma SyncKeepsCounted(c: Config, s: State, s': State, id: nat)
    requires Sound(c, s)
    requires SyncStep(s, s')
    ensures Counted(c, s', id) == Counted(c, s, id)
    ensures forall lo, hi | c.start <= lo <= hi <= s.pos ::
              TxSet(s'.chain.events, id, lo, hi) == TxSet(s.chain.events, id, lo, hi)
  {
    SettledIsFinal(s.chain, s'.chain);
    forall lo, hi | c.start <= lo <= hi <= s.pos
      ensures Gain(c.field, s'.chain.events, id, lo, hi) == Gain(c.field, s.chain.events, id, lo, hi)
      ensures TxSet(s'.chain.events, id, lo, hi) == TxSet(s.chain.events, id, lo, hi)
    {
      if lo == hi {
        EmptyRange(c.field, s.chain.events, id, lo);
        EmptyRange(c.field, s'.chain.events, id, lo);
        assert TxSet(s'.chain.events, id, lo, hi) == {} == TxSet(s.chain.events, id, lo, hi);
      } else {
        SettledQueryIsFinal(c.field, s.chain, s'.chain, id, lo, hi);
      }
    }
  }

  lemma OtherStepsKeepTotals(c: Config, s: State, s': State, id: nat)
    requires s.pos == Resume(c.start, s.stored)
    requires SyncStep(s, s') || RegisterStep(s, s') || BootStep(c, s, s') || FailStep(c, s, s')
    ensures s'.pos == s.pos
    ensures ValueIn(s'.table)(id) == ValueIn(s.table)(id)
  {
  }

  lemma AdvancedTotals(c: Config, s: State, s': State, end: Positive, id: nat)
    requires s.pos < end && Advanced(c, s, s', end)
    ensures s.pos < s'.pos && s'.chain == s.chain
    ensures ValueIn(s'.table)(id) == ValueIn(s.table)(id) + Gain(c.field, s'.chain.events, id, s.pos, s'.pos)
  {
    CommittedValue(c, s, s', end, id);
  }

  /** A step moves the cursor and the table together, or neither. */
  lemma StepMovesTotals(c: Config, s: State, s': State, id: nat)
    requires s.pos == Resume(c.start, s.stored)
    requires Step(c, s, s')
    ensures s.pos <= s'.pos
    ensures s'.pos == s.pos || s'.chain == s.chain
    ensures ValueIn(s'.table)(id) == ValueIn(s.table)(id) + Gain(c.field, s'.chain.events, id, s.pos, s'.pos)
  {
    if CommitStep(c, s, s') {
      var end :| NextEnd(s.chain, s.pos, c.batch) == Some(end) && Committed(c, s, s', end);
      AdvancedTotals(c, s, s', end, id);
    } else {
      OtherStepsKeepTotals(c, s, s', id);
      EmptyRange(c.field, s'.chain.events, id, s.pos);
    }
  }

  lemma StepKeepsCounted(c: Config, s: State, s': State, id: nat)
    requires Sound(c, s)
    requires Step(c, s, s')
    ensures c.start <= s.pos
    ensures Gain(c.field, s'.chain.events, id, c.start, s.pos) == Counted(c, s, id)
    ensures forall lo, hi | c.start <= lo <= hi <= s.pos ::
              TxSet(s'.chain.events, id, lo, hi) == TxSet(s.chain.events, id, lo, hi)
  {
    if SyncStep(s, s') {
      SyncKeepsCounted(c, s, s', id);
    } else {
      assert s'.chain == s.chain;
    }
  }

  /** Exactly once: whatever failed, was retried or restarted, a row holds its initial
      value plus its owner's events from the start position up to the cursor. */
  lemma {:induction false} RowsCountEventsOnce(c: Config, run: seq<State>, i: nat, id: nat)
    requires IsRun(c, run)
    requires i < |run|
    requires c.field != Txs
    ensures ValueIn(run[i].table)(id) == ValueIn(run[0].table)(id) + Counted(c, run[i], id)
  {
    RunIsSound(c, run, i);
    if i == 0 {
      EmptyRange(c.field, run[0].chain.events, id, c.start);
      FirstBootAtStart(c, run[0]);
    } else {
      var s, s' := run[i - 1], run[i];
      RunIsSound(c, run, i - 1);
      RowsCountEventsOnce(c, run, i - 1, id);
      StepMovesTotals(c, s, s', id);
      StepKeepsCounted(c, s, s', id);
      SumSplits(c.field, s'.chain.events, id, c.start, s.pos, s'.pos);
    }
  }

  lemma FirstBootAtStart(c: Config, s: State)
    requires FirstBoot(c, s)
    ensures s.pos == c.start
  {
  }

  /** The committed rows and the stored ranking depend on the cursor only: two runs over
      the same chain that have reached the same cursor agree, whatever failed in either. */
  lemma CursorDeterminesResult(c: Config, a: seq<State>, i: nat, b: seq<State>, j: nat, id: nat, rank: nat)
    requires IsRun(c, a) && i < |a|
    requires IsRun(c, b) && j < |b|
    requires c.field != Txs
    requires forall x: nat :: ValueIn(a[0].table)(x) == ValueIn(b[0].table)(x)
    requires a[i].pos == b[j].pos
    requires Continues(a[i].chain, b[j].chain)
    ensures ValueIn(a[i].table)(id) == ValueIn(b[j].table)(id)
    ensures a[i].snap.Some? && b[j].snap.Some?
    ensures Rank(a[i].snap.value, rank) == Rank(b[j].snap.value, rank)
  {
    RunIsSound(c, a, i);
    RunIsSound(c, b, j);
    forall x: nat ensures ValueIn(a[i].table)(x) == ValueIn(b[j].table)(x) {
      RowsCountEventsOnce(c, a, i, x);
      RowsCountEventsOnce(c, b, j, x);
      if a[i].pos == c.start {
        EmptyRange(c.field, a[i].chain.events, x, c.start);
        EmptyRange(c.field, b[j].chain.events, x, c.start);
      } else {
        SettledQueryIsFinal(c.field, a[i].chain, b[j].chain, x, c.start, a[i].pos);
      }
    }
    SameValuesSameTopn(c.n, ValueIn(a[i].table), ValueIn(b[j].table), a[i].snap.value);
    TopnIsUnique(c.n, ValueIn(b[j].table), a[i].snap.value, b[j].snap.value, rank);
  }

  // ------------------------------------------------- progress

  /** Rounds of the process, one after the other, without a failure. */
  ghost predicate Undisturbed(c: Config, run: seq<State>) {
    run != [] && forall i | 0 < i < |run| :: Attempted(c, run[i - 1], run[i], NoFault)
  }

  lemma UndisturbedAtFirst(c: Config, run: seq<State>)
    requires run != []
    ensures Undisturbed(c, run[|run| - 1..])
  {
  }

  lemma OneRoundMore(c: Config, rounds: seq<State>, s': State)
    requires Undisturbed(c, rounds) && Attempted(c, rounds[|rounds| - 1], s', NoFault)
    ensures Undisturbed(c, rounds + [s'])
  {
    hide Attempted;
  }

  /** On a chain that stands still every round counts a full batch, until the cursor is at the
      settled end. */
  lemma {:induction false} RoundsReach(c: Config, run: seq<State>, k: nat)
    requires Undisturbed(c, run) && k < |run|
    ensures run[k].chain == run[0].chain
    ensures var end := SettledEnd(run[0].chain);
            run[k].pos == if end <= run[0].pos then run[0].pos
                          else if end < run[0].pos + k * c.batch then end else run[0].pos + k * c.batch
  {
    if k > 0 {
      hide Updated, SettledEnd;
      RoundsReach(c, run, k - 1);
      assert Attempted(c, run[k - 1], run[k], NoFault);
      assert k * c.batch == (k - 1) * c.batch + c.batch;
    }
  }

  /** So as many rounds as there are batches to count reach it. */
  lemma RoundsCatchUp(c: Config, run: seq<State>, k: nat)
    requires Undisturbed(c, run) && k < |run|
    requires SettledEnd(run[0].chain) <= run[0].pos + k * c.batch
    ensures run[k].chain == run[0].chain && SettledEnd(run[k].chain) <= run[k].pos
  {
    hide SettledEnd;
    RoundsReach(c, run, k);
  }

  /** And then every settled event from the start position on is in the rows. */
  lemma CaughtUpRows(c: Config, run: seq<State>, i: nat, id: nat)
    requires IsRun(c, run) && i < |run|
    requires c.field != Txs
    requires SettledEnd(run[i].chain) <= run[i].pos
    ensures ValueIn(run[i].table)(id) ==
            ValueIn(run[0].table)(id) +
            Gain(c.field, Settled(run[i].chain), id, c.start, SettledEnd(run[i].chain))
  {
    hide SettledEnd, Settled;
    var s := run[i];
    RunIsSound(c, run, i);
    RowsCountEventsOnce(c, run, i, id);
    QueryIsSettled(c.field, s.chain, id, c.start, SettledEnd(s.chain));
    if s.pos != SettledEnd(s.chain) {
      EmptyRange(c.field, s.chain.events, id, c.start);
      NoRange(c.field, s.chain.events, id, c.start, SettledEnd(s.chain));
    }
  }

  lemma NoRange(f: Field, events: seq<Event>, id: nat, lo: nat, hi: nat)
    requires hi <= lo
    ensures Gain(f, events, id, lo, hi) == 0
  {
    assert Owners(events, lo, hi) == {};
    GainIsZero(f, events, id, lo, hi);
  }
}
