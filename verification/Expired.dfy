/** The expired-files counter: per-address counts, one stored total, one cursor, and the
    total and position the process keeps in memory. */
module Expired {
  import opened Wrappers
  import opened Ledger
  import Totals

  const BATCH_IN_SUBMIT_IDS: Positive := 10000

  /** The count column of the grouped query. */
  datatype Group = Group(senderId: nat, files: nat)

  /** `rows`, `total` and `cursor` are committed; `memTotal` and `pos` live in memory. */
  datatype State = State(chain: Chain, rows: map<nat, nat>, total: Option<nat>, cursor: Option<nat>,
                         memTotal: nat, pos: nat)

  /** Commit and Fail are attempts over the positions from the cursor up to `end`; a failed
      attempt has read its groups, and its transaction is rolled back. Register is another
      task adding an address row. */
  datatype Action = Sync(chain: Chain) | Register(id: nat) | Boot | Commit(end: Positive) | Fail(end: Positive)

  // ------------------------------------------------- counting events

  function CountIn(events: seq<Event>, lo: nat, hi: nat): nat {
    if events == [] then 0
    else
      var e := events[|events| - 1];
      CountIn(events[..|events| - 1], lo, hi) + if lo <= e.pos < hi then 1 else 0
  }

  function CountOwned(events: seq<Event>, ids: set<nat>, lo: nat, hi: nat): nat {
    if events == [] then 0
    else
      var e := events[|events| - 1];
      CountOwned(events[..|events| - 1], ids, lo, hi) + if e.owner in ids && lo <= e.pos < hi then 1 else 0
  }

  lemma {:induction false} OneMoreOwner(events: seq<Event>, ids: set<nat>, id: nat, lo: nat, hi: nat)
    requires id !in ids
    ensures CountOwned(events, ids + {id}, lo, hi) == CountOwned(events, ids, lo, hi) + Sum(Files, events, id, lo, hi)
  {
    if events != [] {
      OneMoreOwner(events[..|events| - 1], ids, id, lo, hi);
    }
  }

  lemma {:induction false} NoOwner(events: seq<Event>, lo: nat, hi: nat)
    ensures CountOwned(events, {}, lo, hi) == 0
  {
    if events != [] {
      NoOwner(events[..|events| - 1], lo, hi);
    }
  }

  lemma {:induction false} AllOwned(events: seq<Event>, ids: set<nat>, lo: nat, hi: nat)
    requires Owners(events, lo, hi) <= ids
    ensures CountOwned(events, ids, lo, hi) == CountIn(events, lo, hi)
  {
    if events != [] {
      var init, e := events[..|events| - 1], events[|events| - 1];
      assert e in events;
      forall id | id in Owners(init, lo, hi) ensures id in Owners(events, lo, hi) {
        var x :| x in init && lo <= x.pos < hi && x.owner == id;
        assert x in events;
      }
      AllOwned(init, ids, lo, hi);
    }
  }

  lemma {:induction false} CountSplits(events: seq<Event>, lo: nat, mid: nat, hi: nat)
    requires lo <= mid <= hi
    ensures CountIn(events, lo, mid) + CountIn(events, mid, hi) == CountIn(events, lo, hi)
  {
    if events != [] {
      CountSplits(events[..|events| - 1], lo, mid, hi);
    }
  }

  lemma {:induction false} CountIgnoresLater(events: seq<Event>, more: seq<Event>, lo: nat, hi: nat)
    requires forall e | e in more :: hi <= e.pos
    ensures CountIn(events + more, lo, hi) == CountIn(events, lo, hi)
  {
    if more == [] {
      assert events + more == events;
    } else {
      var all := events + more;
      assert all[..|all| - 1] == events + more[..|more| - 1];
      assert more[|more| - 1] in more;
      CountIgnoresLater(events, more[..|more| - 1], lo, hi);
    }
  }

  lemma SettledCountIsFinal(c: Chain, c': Chain, lo: nat, hi: nat)
    requires WellFormed(c) && WellFormed(c')
    requires Continues(c, c')
    requires hi <= SettledEnd(c)
    ensures CountIn(c'.events, lo, hi) == CountIn(c.events, lo, hi)
  {
    SettledEndGrows(c, c');
    UnsettledIsLater(c);
    UnsettledIsLater(c');
    var more := Settled(c')[|Settled(c)|..];
    assert Settled(c') == Settled(c) + more;
    CountIgnoresLater(Settled(c), c.events[|Settled(c)|..], lo, hi);
    CountIgnoresLater(Settled(c'), c'.events[|Settled(c')|..], lo, hi);
    CountIgnoresLater(Settled(c), more, lo, hi);
  }

  function Ids(groups: seq<Group>): set<nat> {
    set g | g in groups :: g.senderId
  }

  function GroupTotal(groups: seq<Group>): nat {
    if groups == [] then 0 else GroupTotal(groups[..|groups| - 1]) + groups[|groups| - 1].files
  }

  /** One group per owner, each with its owner's number of files at positions lo..hi-1. */
  ghost predicate IsCount(events: seq<Event>, lo: nat, hi: nat, groups: seq<Group>) {
    && (forall i, j | 0 <= i < j < |groups| :: groups[i].senderId != groups[j].senderId)
    && (forall g | g in groups :: g.files == Gain(Files, events, g.senderId, lo, hi))
  }

  /** The counts of distinct owners add up to the number of their events. */
  lemma {:induction false} GroupTotalIsCount(events: seq<Event>, lo: nat, hi: nat, groups: seq<Group>)
    requires IsCount(events, lo, hi, groups)
    ensures GroupTotal(groups) == CountOwned(events, Ids(groups), lo, hi)
  {
    if groups == [] {
      assert Ids(groups) == {};
      NoOwner(events, lo, hi);
    } else {
      var init, g := groups[..|groups| - 1], groups[|groups| - 1];
      assert g in groups;
      assert Ids(groups) == Ids(init) + {g.senderId};
      GroupTotalIsCount(events, lo, hi, init);
      OneMoreOwner(events, Ids(init), g.senderId, lo, hi);
    }
  }

  // ------------------------------------------------- the state machine

  function Resume(cursor: Option<nat>): nat {
    match cursor
    case Some(p) => p + 1
    case None => 0
  }

  /** `MaxSubmissionIndexExpired`: the position of the last event with a time up to `limit`. */
  function LastExpired(events: seq<Event>, limit: int): Option<nat> {
    if events == [] then None
    else
      var e := events[|events| - 1];
      if e.time <= limit then Some(e.pos) else LastExpired(events[..|events| - 1], limit)
  }

  function NextEnd(chain: Chain, limit: int, pos: nat): (r: Option<Positive>)
    ensures r.Some? ==> pos < r.value
  {
    match LastExpired(chain.events, limit)
    case None => None
    case Some(last) =>
      if last < pos then None
      else Some(if last < pos + BATCH_IN_SUBMIT_IDS then last + 1 else pos + BATCH_IN_SUBMIT_IDS)
  }

  /** The time of the finalized block, against the synced events. */
  ghost predicate FinalizedAt(chain: Chain, time: nat) {
    forall e | e in chain.events ::
      && (e.block <= chain.finalized ==> e.time <= time)
      && (chain.finalized <= e.block ==> time <= e.time)
  }

  ghost predicate Attempted(expire: nat, s: State, end: Positive) {
    exists time: nat :: FinalizedAt(s.chain, time) && NextEnd(s.chain, time - expire, s.pos) == Some(end)
  }

  ghost predicate Enabled(expire: nat, s: State, a: Action) {
    match a
    case Sync(chain) => ChainStep(s.chain, chain)
    case Register(_) => true
    case Boot => true
    case Commit(end) => Attempted(expire, s, end)
    case Fail(end) => Attempted(expire, s, end)
  }

  /** The rows with the files of the given owners added. */
  function RowsWith(rows: map<nat, nat>, events: seq<Event>, lo: nat, hi: nat, ids: set<nat>): map<nat, nat> {
    rows + map id | id in ids :: ValueAt(rows, id) + Gain(Files, events, id, lo, hi)
  }

  function AddFiles(rows: map<nat, nat>, events: seq<Event>, lo: nat, hi: nat): map<nat, nat> {
    RowsWith(rows, events, lo, hi, Owners(events, lo, hi))
  }

  lemma OneMoreRow(rows: map<nat, nat>, events: seq<Event>, lo: nat, hi: nat, ids: set<nat>, id: nat)
    requires id !in ids
    ensures RowsWith(rows, events, lo, hi, ids + {id}) ==
            RowsWith(rows, events, lo, hi, ids)[id :=
              ValueAt(RowsWith(rows, events, lo, hi, ids), id) + Gain(Files, events, id, lo, hi)]
  {
  }

  lemma NoRow(rows: map<nat, nat>, events: seq<Event>, lo: nat, hi: nat)
    ensures RowsWith(rows, events, lo, hi, Ids([])) == rows
  {
  }

  lemma AddedGroup(rows: map<nat, nat>, events: seq<Event>, lo: nat, hi: nat, groups: seq<Group>, i: nat)
    requires i < |groups| && IsCount(events, lo, hi, groups)
    ensures var before := RowsWith(rows, events, lo, hi, Ids(groups[..i]));
            RowsWith(rows, events, lo, hi, Ids(groups[..i + 1])) ==
            before[groups[i].senderId := ValueAt(before, groups[i].senderId) + groups[i].files]
  {
    hide Gain, RowsWith;
    assert groups[..i + 1] == groups[..i] + [groups[i]];
    assert Ids(groups[..i + 1]) == Ids(groups[..i]) + {groups[i].senderId};
    OneMoreRow(rows, events, lo, hi, Ids(groups[..i]), groups[i].senderId);
  }

  function FilesUpTo(s: State, end: nat): nat {
    CountIn(s.chain.events, s.pos, end)
  }

  function Next(s: State, a: Action): State {
    match a
    case Sync(chain) => s.(chain := chain)
    case Register(id) => s.(rows := if id in s.rows then s.rows else s.rows[id := 0])
    case Boot =>
      var v := if s.total.Some? then s.total.value else 0;
      s.(total := Some(v), memTotal := v, pos := Resume(s.cursor))
    case Commit(end) =>
      if FilesUpTo(s, end) == 0 then s.(cursor := Some(end - 1), pos := end)
      else
        var v := s.memTotal + FilesUpTo(s, end);
        State(s.chain, AddFiles(s.rows, s.chain.events, s.pos, end), Some(v), Some(end - 1), v, end)
    case Fail(end) => s.(memTotal := s.memTotal + FilesUpTo(s, end))
  }

  function At(s0: State, actions: seq<Action>, i: nat): State
    requires i <= |actions|
  {
    if i == 0 then s0 else Next(At(s0, actions, i - 1), actions[i - 1])
  }

  /** A run starts the process on a database without statistics. */
  ghost predicate IsRun(expire: nat, s0: State, actions: seq<Action>) {
    && WellFormed(s0.chain)
    && s0.total == None && s0.cursor == None
    && (forall id | id in s0.rows :: s0.rows[id] == 0)
    && |actions| > 0 && actions[0] == Boot
    && forall i | 0 <= i < |actions| :: Enabled(expire, At(s0, actions, i), actions[i])
  }

  function EffectOf(s: State, a: Action): Totals.Effect {
    match a
    case Sync(_) => Totals.Other
    case Register(_) => Totals.Other
    case Boot => Totals.Boot
    case Commit(end) => Totals.Commit(FilesUpTo(s, end))
    case Fail(end) => Totals.Fail(FilesUpTo(s, end))
  }

  /** What the actions of a run do to the total. */
  function History(s0: State, actions: seq<Action>): (h: seq<Totals.Effect>)
    ensures |h| == |actions|
  {
    seq(|actions|, i requires 0 <= i < |actions| => EffectOf(At(s0, actions, i), actions[i]))
  }

  function LeakAt(s0: State, actions: seq<Action>, i: nat): Totals.Leak
    requires i <= |actions|
  {
    Totals.LeakAt(History(s0, actions), i)
  }

  ghost predicate Accounted(s: State, leak: Totals.Leak) {
    && WellFormed(s.chain)
    && s.pos == Resume(s.cursor) && s.pos <= SettledEnd(s.chain)
    && (forall id: nat :: ValueAt(s.rows, id) == Gain(Files, s.chain.events, id, 0, s.pos))
    && s.memTotal == CountIn(s.chain.events, 0, s.pos) + leak.mem
    && s.total == Some(CountIn(s.chain.events, 0, s.pos) + leak.stored)
  }

  /** Event i is the last one with a time up to the limit. */
  ghost predicate LastExpiredAt(events: seq<Event>, limit: int, i: int) {
    && 0 <= i < |events| && events[i].time <= limit
    && LastExpired(events, limit) == Some(events[i].pos)
    && forall j | i < j < |events| :: limit < events[j].time
  }

  lemma {:induction false} LastExpiredIsEvent(events: seq<Event>, limit: int)
    ensures match LastExpired(events, limit)
            case Some(_) => exists i :: LastExpiredAt(events, limit, i)
            case None => forall j | 0 <= j < |events| :: limit < events[j].time
  {
    if events != [] {
      var init := events[..|events| - 1];
      if events[|events| - 1].time <= limit {
        assert LastExpiredAt(events, limit, |events| - 1);
      } else {
        LastExpiredIsEvent(init, limit);
        if i :| LastExpiredAt(init, limit, i) {
          assert LastExpiredAt(events, limit, i);
        }
      }
    }
  }

  /** There is a batch exactly if an expired file lies at or behind the cursor. It ends behind the
      last expired file, or is as long as a batch may be. */
  lemma NextEndReaches(chain: Chain, limit: int, pos: nat)
    requires Ascending(chain.events)
    ensures NextEnd(chain, limit, pos).Some? <==>
            exists e :: e in chain.events && e.time <= limit && pos <= e.pos
    ensures var end := NextEnd(chain, limit, pos);
            end.Some? ==>
              && pos < end.value <= pos + BATCH_IN_SUBMIT_IDS
              && (exists e :: e in chain.events && e.time <= limit && end.value <= e.pos + 1)
              && (end.value == pos + BATCH_IN_SUBMIT_IDS ||
                  forall e | e in chain.events && e.time <= limit :: e.pos < end.value)
  {
    hide LastExpired;
    LastExpiredIsEvent(chain.events, limit);
    if i :| LastExpiredAt(chain.events, limit, i) {
      assert chain.events[i] in chain.events;
      forall e | e in chain.events && e.time <= limit ensures e.pos <= chain.events[i].pos {
        var j :| 0 <= j < |chain.events| && chain.events[j] == e;
        assert j < i ==> Follows(chain.events[j], chain.events[i]);
      }
    }
  }

  lemma OlderIsSettled(chain: Chain, time: nat, i: nat)
    requires WellFormed(chain) && FinalizedAt(chain, time)
    requires i < |chain.events|
    requires chain.events[i].time < time || chain.events[i].block <= chain.finalized
    ensures chain.events[i].pos < SettledEnd(chain)
  {
    assert chain.events[i] in chain.events;
    BeforeSelects(chain.events, chain.finalized + 1);
    var last := |Settled(chain)| - 1;
    assert i <= last;
    assert i < last ==> Follows(chain.events[i], chain.events[last]);
  }

  /** A file above the finalized head, as old as the finalized block. */
  ghost predicate HasTwin(chain: Chain, time: nat) {
    exists e :: e in chain.events && chain.finalized < e.block && e.time == time
  }

  /** What the last expired position settles. */
  ghost predicate ExpiresSettled(chain: Chain, limit: int) {
    match LastExpired(chain.events, limit)
    case Some(p) => p < SettledEnd(chain)
    case None => true
  }

  /** The expired files are finalized exactly when the expiry time is positive or no file above
      the finalized head has the time of the finalized block. */
  lemma ExpiredIsSettledIff(expire: nat, chain: Chain, time: nat)
    requires WellFormed(chain) && FinalizedAt(chain, time)
    ensures ExpiresSettled(chain, time - expire) <==> expire > 0 || !HasTwin(chain, time)
  {
    hide WellFormed, SettledEnd, LastExpired;
    LastExpiredIsEvent(chain.events, time - expire);
    if expire > 0 || !HasTwin(chain, time) {
      if LastExpired(chain.events, time - expire).Some? {
        var i :| LastExpiredAt(chain.events, time - expire, i);
        assert chain.events[i] in chain.events;
        OlderIsSettled(chain, time, i);
      }
    } else {
      var e :| e in chain.events && chain.finalized < e.block && e.time == time;
      var j :| 0 <= j < |chain.events| && chain.events[j] == e;
      TwinIsUnsettled(chain, time, j);
    }
  }

  lemma TwinIsUnsettled(chain: Chain, time: nat, j: nat)
    requires WellFormed(chain) && j < |chain.events|
    requires chain.finalized < chain.events[j].block && chain.events[j].time <= time
    ensures !ExpiresSettled(chain, time)
  {
    LastExpiredIsEvent(chain.events, time);
    var i :| LastExpiredAt(chain.events, time, i);
    assert i == j || Follows(chain.events[j], chain.events[i]);
    BeforeSelects(chain.events, chain.finalized + 1);
    UnsettledIsLater(chain);
    assert chain.events[i] == chain.events[|Settled(chain)|..][i - |Settled(chain)|];
  }

  /** The batch ends at or below the last settled position. */
  ghost predicate EndsSettled(s: State, a: Action) {
    match a
    case Commit(end) => end <= SettledEnd(s.chain)
    case _ => true
  }

  /** With a positive expiry time every batch ends settled. */
  lemma ExpiredIsSettled(expire: nat, s: State, a: Action)
    requires WellFormed(s.chain) && Enabled(expire, s, a)
    requires expire > 0 || EndsSettled(s, a)
    ensures EndsSettled(s, a)
    ensures a.Commit? ==> s.pos < a.end
  {
    hide WellFormed, SettledEnd, FinalizedAt, LastExpired;
    if a.Commit? {
      var time: nat :| FinalizedAt(s.chain, time) && NextEnd(s.chain, time - expire, s.pos) == Some(a.end);
      ExpiredIsSettledIff(expire, s.chain, time);
    }
  }

  lemma SyncKeepsAccount(s: State, leak: Totals.Leak, chain: Chain)
    requires Accounted(s, leak)
    requires ChainStep(s.chain, chain)
    ensures Accounted(s.(chain := chain), leak)
  {
    SettledIsFinal(s.chain, chain);
    SettledEndGrows(s.chain, chain);
    SettledCountIsFinal(s.chain, chain, 0, s.pos);
    forall id: nat ensures Gain(Files, chain.events, id, 0, s.pos) == Gain(Files, s.chain.events, id, 0, s.pos) {
      SettledQueryIsFinal(Files, s.chain, chain, id, 0, s.pos);
    }
  }

  lemma NoFilesNoOwners(events: seq<Event>, lo: nat, hi: nat)
    ensures CountIn(events, lo, hi) == 0 <==> Owners(events, lo, hi) == {}
  {
    if Owners(events, lo, hi) == {} {
      AllOwned(events, {}, lo, hi);
      NoOwner(events, lo, hi);
    } else {
      var e :| e in events && lo <= e.pos < hi;
      var i :| 0 <= i < |events| && events[i] == e;
      CountsEvent(events, lo, hi, i);
    }
  }

  lemma {:induction false} CountsEvent(events: seq<Event>, lo: nat, hi: nat, i: nat)
    requires i < |events| && lo <= events[i].pos < hi
    ensures CountIn(events, lo, hi) > 0
  {
    if i < |events| - 1 {
      CountsEvent(events[..|events| - 1], lo, hi, i);
    }
  }

  lemma AddedFiles(rows: map<nat, nat>, events: seq<Event>, id: nat, lo: nat, hi: nat)
    ensures ValueAt(AddFiles(rows, events, lo, hi), id) == ValueAt(rows, id) + Gain(Files, events, id, lo, hi)
  {
    if id !in Owners(events, lo, hi) {
      GainIsZero(Files, events, id, lo, hi);
    }
  }

  lemma CommittedRows(s: State, end: Positive, id: nat)
    requires s.pos < end
    ensures ValueAt(Next(s, Commit(end)).rows, id) == ValueAt(s.rows, id) + Gain(Files, s.chain.events, id, s.pos, end)
  {
    hide Sum, CountIn;
    NoFilesNoOwners(s.chain.events, s.pos, end);
    AddedFiles(s.rows, s.chain.events, id, s.pos, end);
    if FilesUpTo(s, end) == 0 {
      GainIsZero(Files, s.chain.events, id, s.pos, end);
    }
  }

  lemma CommitKeepsAccount(s: State, leak: Totals.Leak, end: Positive)
    requires Accounted(s, leak)
    requires s.pos < end <= SettledEnd(s.chain)
    ensures Accounted(Next(s, Commit(end)), Totals.NextLeak(leak, EffectOf(s, Commit(end))))
  {
    hide CountIn, Sum, WellFormed, SettledEnd;
    CountSplits(s.chain.events, 0, s.pos, end);
    forall id: nat ensures ValueAt(Next(s, Commit(end)).rows, id) == Gain(Files, s.chain.events, id, 0, end) {
      CommittedRows(s, end, id);
      SumSplits(Files, s.chain.events, id, 0, s.pos, end);
    }
  }

  lemma {:induction false} EmptyCount(events: seq<Event>, p: nat)
    ensures CountIn(events, p, p) == 0
  {
    if events != [] {
      EmptyCount(events[..|events| - 1], p);
    }
  }

  lemma FirstBootIsAccounted(s0: State)
    requires WellFormed(s0.chain) && s0.total == None && s0.cursor == None
    requires forall id | id in s0.rows :: s0.rows[id] == 0
    ensures Accounted(Next(s0, Boot), Totals.Leak(0, 0))
  {
    EmptyCount(s0.chain.events, 0);
    forall id: nat ensures Gain(Files, s0.chain.events, id, 0, 0) == 0 {
      assert Owners(s0.chain.events, 0, 0) == {};
      GainIsZero(Files, s0.chain.events, id, 0, 0);
    }
  }

  lemma StepKeepsAccount(expire: nat, s: State, leak: Totals.Leak, a: Action)
    requires expire > 0 || EndsSettled(s, a)
    requires Accounted(s, leak) && Enabled(expire, s, a)
    ensures Accounted(Next(s, a), Totals.NextLeak(leak, EffectOf(s, a)))
  {
    match a {
      case Sync(chain) => SyncKeepsAccount(s, leak, chain);
      case Commit(end) =>
        ExpiredIsSettled(expire, s, a);
        CommitKeepsAccount(s, leak, end);
      case _ =>
    }
  }

  /** Every batch of the run ended settled. */
  ghost predicate AllSettled(s0: State, actions: seq<Action>) {
    forall i | 0 <= i < |actions| :: EndsSettled(At(s0, actions, i), actions[i])
  }

  lemma LeakGrows(s0: State, actions: seq<Action>, i: nat)
    requires 0 < i <= |actions|
    ensures LeakAt(s0, actions, i) ==
            Totals.NextLeak(LeakAt(s0, actions, i - 1), EffectOf(At(s0, actions, i - 1), actions[i - 1]))
  {
  }

  /** After every action of every run, each address has exactly its files below the cursor,
      and the two totals exceed the number of those files by exactly the leaks. */
  lemma {:induction false} RunIsAccounted(expire: nat, s0: State, actions: seq<Action>, i: nat)
    requires IsRun(expire, s0, actions) && (expire > 0 || AllSettled(s0, actions))
    requires 0 < i <= |actions|
    ensures Accounted(At(s0, actions, i), LeakAt(s0, actions, i))
  {
    LeakGrows(s0, actions, i);
    hide LeakAt, Accounted, EffectOf;
    if i == 1 {
      FirstBootIsAccounted(s0);
      assert At(s0, actions, 0) == s0;
      FirstLeak(s0, actions);
    } else {
      RunIsAccounted(expire, s0, actions, i - 1);
      StepKeepsAccount(expire, At(s0, actions, i - 1), LeakAt(s0, actions, i - 1), actions[i - 1]);
    }
  }

  lemma FirstLeak(s0: State, actions: seq<Action>)
    requires |actions| > 0 && actions[0] == Boot
    ensures LeakAt(s0, actions, 1) == Totals.Leak(0, 0)
  {
    LeakGrows(s0, actions, 1);
  }

  /** The stored total exceeds the sum of the address rows, listed in any order, by exactly
      the stored leak. */
  lemma TotalExceedsRowsByLeak(expire: nat, s0: State, actions: seq<Action>, i: nat, table: seq<Group>)
    requires IsRun(expire, s0, actions) && (expire > 0 || AllSettled(s0, actions))
    requires 0 < i <= |actions|
    requires forall j, k | 0 <= j < k < |table| :: table[j].senderId != table[k].senderId
    requires Ids(table) == At(s0, actions, i).rows.Keys
    requires forall g | g in table :: g.files == ValueAt(At(s0, actions, i).rows, g.senderId)
    ensures At(s0, actions, i).total == Some(GroupTotal(table) + LeakAt(s0, actions, i).stored)
  {
    hide At, LeakAt, IsRun, CountIn, CountOwned, GroupTotal, WellFormed, SettledEnd;
    RunIsAccounted(expire, s0, actions, i);
    var s := At(s0, actions, i);
    GroupTotalIsCount(s.chain.events, 0, s.pos, table);
    forall id | id in Owners(s.chain.events, 0, s.pos) ensures id in s.rows {
      var e :| e in s.chain.events && 0 <= e.pos < s.pos && e.owner == id;
      OwnerCounts(s.chain.events, e, 0, s.pos);
    }
    AllOwned(s.chain.events, s.rows.Keys, 0, s.pos);
  }

  lemma {:induction false} OwnerCounts(events: seq<Event>, e: Event, lo: nat, hi: nat)
    requires e in events && lo <= e.pos < hi
    ensures Gain(Files, events, e.owner, lo, hi) > 0
  {
    if e != events[|events| - 1] {
      OwnerCounts(events[..|events| - 1], e, lo, hi);
    }
  }

  // ------------------------------------------------- when the total is right

  /** The stored total is the number of expired files up to the cursor exactly when no
      failed attempt with files was followed by a commit with files before a restart. */
  lemma TotalIsExactIff(expire: nat, s0: State, actions: seq<Action>, i: nat)
    requires IsRun(expire, s0, actions) && (expire > 0 || AllSettled(s0, actions))
    requires 0 < i <= |actions|
    ensures At(s0, actions, i).total == Some(CountIn(At(s0, actions, i).chain.events, 0, At(s0, actions, i).pos))
            <==> !Totals.Inflated(History(s0, actions), i)
  {
    hide At, IsRun, History, Totals.Inflated, Totals.HasPending, WellFormed, SettledEnd, CountIn;
    RunIsAccounted(expire, s0, actions, i);
    Totals.LeakHistory(History(s0, actions), i);
  }

  /** One synced and finalized file. */
  const ONE_FILE := Chain([Event(0, 0, 0, 7, 1, 1, 1)], map[], 1, 5)
  const FRESH := State(ONE_FILE, map[], None, None, 0, 0)
  const RETRY: seq<Action> := [Boot, Fail(1), Commit(1)]

  lemma OneFileExpires(s: State)
    requires s.chain == ONE_FILE && s.pos == 0
    ensures Attempted(1, s, 1) && FilesUpTo(s, 1) == 1
  {
    assert CountIn(ONE_FILE.events[..0], 0, 1) == 0;
    assert FinalizedAt(ONE_FILE, 1);
    assert NextEnd(ONE_FILE, 1 - 1, 0) == Some(1);
  }

  lemma RetryStates()
    ensures At(FRESH, RETRY, 1) == State(ONE_FILE, map[], Some(0), None, 0, 0)
    ensures At(FRESH, RETRY, 2) == State(ONE_FILE, map[], Some(0), None, 1, 0)
    ensures At(FRESH, RETRY, 3).total == Some(2)
  {
  }

  /** One file, one failed attempt and its retry: the total says two. */
  lemma RetryCountsTwice()
    ensures IsRun(1, FRESH, RETRY)
    ensures At(FRESH, RETRY, 3).total == Some(2)
    ensures CountIn(ONE_FILE.events, 0, 1) == 1
  {
    hide CountIn, AddFiles, Attempted, Next;
    RetryStates();
    OneFileExpires(FRESH);
    OneFileExpires(At(FRESH, RETRY, 1));
    OneFileExpires(At(FRESH, RETRY, 2));
    assert At(FRESH, RETRY, 0) == FRESH;
    forall i | 0 <= i < 3 ensures Enabled(1, At(FRESH, RETRY, i), RETRY[i]) {
      if i == 1 {} else if i == 2 {}
    }
  }

  /** One file in block 1, as old as the finalized block 0; then block 1 is popped. */
  const TWIN := Chain([Event(0, 1, 5, 7, 1, 1, 1)], map[0 := 5, 1 := 5], 2, 0)
  const POPPED := Chain([], map[0 := 5], 1, 0)
  const REORG: seq<Action> := [Boot, Commit(1), Sync(POPPED)]

  lemma TwinExpires(s: State)
    requires s.chain == TWIN && s.pos == 0
    ensures Attempted(0, s, 1) && FilesUpTo(s, 1) == 1
    ensures WellFormed(TWIN) && HasTwin(TWIN, 5) && ChainStep(TWIN, POPPED)
  {
    assert TWIN.events[0] in TWIN.events && TWIN.events[..0] == [];
    assert FinalizedAt(TWIN, 5);
    assert NextEnd(TWIN, 5, 0) == Some(1);
    assert Before(TWIN.events, 1) == [];
    assert Popped(TWIN, POPPED, 1);
  }

  lemma ReorgStates()
    ensures At(State(TWIN, map[], None, None, 0, 0), REORG, 1) == State(TWIN, map[], Some(0), None, 0, 0)
    ensures At(State(TWIN, map[], None, None, 0, 0), REORG, 2).chain == TWIN
    ensures At(State(TWIN, map[], None, None, 0, 0), REORG, 3).chain == POPPED
    ensures At(State(TWIN, map[], None, None, 0, 0), REORG, 3).total == Some(1)
  {
    hide CountIn, AddFiles;
    var s0 := State(TWIN, map[], None, None, 0, 0);
    assert At(s0, REORG, 0) == s0;
    TwinExpires(At(s0, REORG, 1));
  }

  /** An expiry time of zero counts a file that is not finalized: it is popped, and stays counted. */
  lemma ZeroExpiryCountsPopped()
    ensures IsRun(0, State(TWIN, map[], None, None, 0, 0), REORG)
    ensures At(State(TWIN, map[], None, None, 0, 0), REORG, 3).total == Some(1)
    ensures At(State(TWIN, map[], None, None, 0, 0), REORG, 3).chain.events == []
  {
    hide CountIn, AddFiles, Attempted, Next, WellFormed, ChainStep, HasTwin;
    var s0 := State(TWIN, map[], None, None, 0, 0);
    ReorgStates();
    assert At(s0, REORG, 0) == s0;
    TwinExpires(At(s0, REORG, 1));
    forall i | 0 <= i < 3 ensures Enabled(0, At(s0, REORG, i), REORG[i]) {
      if i == 1 {} else if i == 2 {}
    }
  }

  // ------------------------------------------------- the statistics task

  datatype Error = FinalizedPosNotSynced | MinPosNotFinalized

  datatype StatRange = StatRange(minPos: nat, maxPos: nat)

  datatype Fault = NoFault | ReadFault | TransactionFault

  /** The tables and config entries of the statistics task. */
  class Database {
    var chain: Chain
    var expiredFiles: map<nat, nat>
    var totalConfig: Option<nat>
    var submitIdConfig: Option<nat>

    /** One row per sender with a submit at positions lo..hi-1, in no particular order. */
    method GroupBySender(lo: nat, hi: nat) returns (groups: seq<Group>)
      ensures IsCount(chain.events, lo, hi, groups)
      ensures Ids(groups) == Owners(chain.events, lo, hi)
    {
      groups := [];
      var todo := Owners(chain.events, lo, hi);
      while todo != {}
        invariant todo <= Owners(chain.events, lo, hi)
        invariant Ids(groups) == Owners(chain.events, lo, hi) - todo
        invariant IsCount(chain.events, lo, hi, groups)
        decreases todo
      {
        var id :| id in todo;
        forall g | g in groups ensures g.senderId != id {
          assert g.senderId in Ids(groups);
        }
        assert Ids(groups + [Group(id, Gain(Files, chain.events, id, lo, hi))]) == Ids(groups) + {id};
        groups, todo := groups + [Group(id, Gain(Files, chain.events, id, lo, hi))], todo - {id};
      }
    }
  }

  class StatSubmitExpired {
    const db: Database
    const fileExpireSeconds: nat
    var fileExpiredTotal: nat
    var currentPos: nat

    ghost function Current(): State
      reads this, db
    {
      State(db.chain, db.expiredFiles, db.totalConfig, db.submitIdConfig, fileExpiredTotal, currentPos)
    }

    constructor (db: Database, fileExpireSeconds: nat)
      modifies db`totalConfig
      ensures this.db == db && this.fileExpireSeconds == fileExpireSeconds
      ensures forall memTotal, pos :: Current() ==
                Next(State(db.chain, db.expiredFiles, old(db.totalConfig), db.submitIdConfig, memTotal, pos), Boot)
      ensures currentPos == if db.submitIdConfig.Some? then db.submitIdConfig.value + 1 else 0
    {
      this.db, this.fileExpireSeconds := db, fileExpireSeconds;
      currentPos := Resume(db.submitIdConfig);
      fileExpiredTotal := if db.totalConfig.Some? then db.totalConfig.value else 0;
      new;
      if db.totalConfig.None? {
        db.totalConfig := Some(0);
      }
    }

    method NextStatRange(finalizedTime: nat) returns (r: Result<StatRange, Error>)
      ensures match NextEnd(db.chain, finalizedTime - fileExpireSeconds, currentPos)
              case Some(end) => r == Ok(StatRange(currentPos, end - 1))
              case None => r == Err(if LastExpired(db.chain.events, finalizedTime - fileExpireSeconds).None?
                                    then FinalizedPosNotSynced else MinPosNotFinalized)
    {
      var minPos, maxPos := currentPos, currentPos + BATCH_IN_SUBMIT_IDS - 1;
      var maxExpireTime := finalizedTime - fileExpireSeconds;
      var maxPosExpired := LastExpired(db.chain.events, maxExpireTime);
      if maxPosExpired.None? {
        return Err(FinalizedPosNotSynced);
      }
      if maxPosExpired.value < minPos {
        return Err(MinPosNotFinalized);
      }
      if maxPosExpired.value < maxPos {
        maxPos := maxPosExpired.value;
      }
      return Ok(StatRange(minPos, maxPos));
    }

    /** The loop over the groups: the increments to write, and the total in memory raised
        at once, before the transaction. */
    method CollectUpdates(groups: seq<Group>)
      modifies this`fileExpiredTotal
      ensures fileExpiredTotal == old(fileExpiredTotal) + GroupTotal(groups)
    {
      for i := 0 to |groups|
        invariant fileExpiredTotal == old(fileExpiredTotal) + GroupTotal(groups[..i])
      {
        assert groups[..i + 1][..i] == groups[..i];
        fileExpiredTotal := fileExpiredTotal + groups[i].files;
      }
      assert groups[..|groups|] == groups;
    }

    /** `BatchDeltaUpsertExpiredFiles`: add each group to its row. */
    method AddToRows(groups: seq<Group>, ghost lo: nat, ghost hi: nat) returns (rows: map<nat, nat>)
      requires IsCount(db.chain.events, lo, hi, groups)
      requires Ids(groups) == Owners(db.chain.events, lo, hi)
      ensures rows == AddFiles(db.expiredFiles, db.chain.events, lo, hi)
    {
      hide Gain, Owners, RowsWith;
      rows := db.expiredFiles;
      NoRow(db.expiredFiles, db.chain.events, lo, hi);
      for i := 0 to |groups|
        invariant rows == RowsWith(db.expiredFiles, db.chain.events, lo, hi, Ids(groups[..i]))
      {
        AddedGroup(db.expiredFiles, db.chain.events, lo, hi, groups, i);
        var g := groups[i];
        rows := rows[g.senderId := ValueAt(rows, g.senderId) + g.files];
      }
      assert groups[..|groups|] == groups;
    }

    method CalculateStat(r: StatRange, fault: Fault) returns (ok: bool)
      requires r.minPos == currentPos
      modifies this`fileExpiredTotal, this`currentPos, db`expiredFiles, db`totalConfig, db`submitIdConfig
      ensures ok <==> fault == NoFault
      ensures ok ==> db.submitIdConfig == Some(r.maxPos) && currentPos == r.maxPos + 1
      ensures Current() == match fault
                           case NoFault => Next(old(Current()), Commit(r.maxPos + 1))
                           case ReadFault => old(Current())
                           case TransactionFault => Next(old(Current()), Fail(r.maxPos + 1))
    {
      hide CountIn, CountOwned, Gain, Owners, GroupTotal, IsCount;
      if fault == ReadFault {
        return false;
      }
      var groups := db.GroupBySender(r.minPos, r.maxPos + 1);
      GroupTotalIsCount(db.chain.events, r.minPos, r.maxPos + 1, groups);
      AllOwned(db.chain.events, Ids(groups), r.minPos, r.maxPos + 1);
      NoFilesNoOwners(db.chain.events, r.minPos, r.maxPos + 1);
      assert groups != [] ==> groups[0].senderId in Ids(groups);
      CollectUpdates(groups);
      var rows := AddToRows(groups, r.minPos, r.maxPos + 1);
      if fault == TransactionFault {
        return false;
      }
      if |groups| > 0 {
        db.expiredFiles, db.totalConfig := rows, Some(fileExpiredTotal);
      }
      db.submitIdConfig := Some(r.maxPos);
      currentPos := r.maxPos + 1;
      return true;
    }

    /** One round of `AbsTopn.DoStat`: nothing, or an attempt that the machine enables. */
    method Attempt(finalizedTime: nat, fault: Fault) returns (ok: bool)
      requires FinalizedAt(db.chain, finalizedTime)
      modifies this`fileExpiredTotal, this`currentPos, db`expiredFiles, db`totalConfig, db`submitIdConfig
      ensures match NextEnd(db.chain, finalizedTime - fileExpireSeconds, old(currentPos))
              case None => !ok && Current() == old(Current())
              case Some(end) =>
                && ok == (fault == NoFault)
                && Enabled(fileExpireSeconds, old(Current()), Commit(end))
                && Enabled(fileExpireSeconds, old(Current()), Fail(end))
                && Current() == match fault
                                case NoFault => Next(old(Current()), Commit(end))
                                case ReadFault => old(Current())
                                case TransactionFault => Next(old(Current()), Fail(end))
    {
      hide NextEnd, Next, FinalizedAt;
      ghost var s := Current();
      var r := NextStatRange(finalizedTime);
      ok := r.Ok?;
      if ok {
        assert Attempted(fileExpireSeconds, s, r.value.maxPos + 1);
        ok := CalculateStat(r.value, fault);
      }
    }

    /** The loop of `AbsTopn.DoStat` while nothing fails and the chain stands still, up to its first
        pause: commits that the machine enables, after which every expired file has been counted. */
    method CatchUp(finalizedTime: nat) returns (ghost actions: seq<Action>)
      requires FinalizedAt(db.chain, finalizedTime) && Ascending(db.chain.events)
      modifies this`fileExpiredTotal, this`currentPos, db`expiredFiles, db`totalConfig, db`submitIdConfig
      ensures Current() == At(old(Current()), actions, |actions|)
      ensures forall i | 0 <= i < |actions| ::
                actions[i].Commit? && Enabled(fileExpireSeconds, At(old(Current()), actions, i), actions[i])
      ensures forall e | e in db.chain.events && e.time <= finalizedTime - fileExpireSeconds :: e.pos < currentPos
    {
      hide NextEnd, Next, FinalizedAt, Ascending, Enabled;
      ghost var s0 := Current();
      actions := [];
      var ok := true;
      while ok
        invariant db.chain == s0.chain
        invariant Current() == At(s0, actions, |actions|)
        invariant forall i | 0 <= i < |actions| ::
                    actions[i].Commit? && Enabled(fileExpireSeconds, At(s0, actions, i), actions[i])
        invariant !ok ==> NextEnd(db.chain, finalizedTime - fileExpireSeconds, currentPos) == None
        decreases LastOf(db.chain, finalizedTime - fileExpireSeconds) - currentPos, ok
      {
        ghost var s, end := Current(), NextEnd(db.chain, finalizedTime - fileExpireSeconds, currentPos);
        ok := Attempt(finalizedTime, NoFault);
        if ok {
          CommitMoves(s, end.value, finalizedTime - fileExpireSeconds);
          OneCommitMore(fileExpireSeconds, s0, actions, end.value);
          actions := actions + [Commit(end.value)];
        }
      }
      NextEndReaches(db.chain, finalizedTime - fileExpireSeconds, currentPos);
    }
  }

  /** One past the last expired file. */
  ghost function LastOf(chain: Chain, limit: int): int {
    match LastExpired(chain.events, limit)
    case None => 0
    case Some(last) => last + 1
  }

  lemma CommitMoves(s: State, end: Positive, limit: int)
    requires NextEnd(s.chain, limit, s.pos) == Some(end)
    ensures Next(s, Commit(end)).chain == s.chain && Next(s, Commit(end)).pos == end
    ensures s.pos < end <= LastOf(s.chain, limit)
  {
  }

  lemma OneCommitMore(expire: nat, s0: State, actions: seq<Action>, end: Positive)
    requires forall i | 0 <= i < |actions| ::
               actions[i].Commit? && Enabled(expire, At(s0, actions, i), actions[i])
    requires Enabled(expire, At(s0, actions, |actions|), Commit(end))
    ensures var more := actions + [Commit(end)];
            && At(s0, more, |more|) == Next(At(s0, actions, |actions|), Commit(end))
            && forall i | 0 <= i < |more| :: more[i].Commit? && Enabled(expire, At(s0, more, i), more[i])
  {
    hide Enabled, Next;
    var more := actions + [Commit(end)];
    forall i | 0 <= i <= |actions| ensures At(s0, more, i) == At(s0, actions, i) {
      AtPrefix(s0, actions, Commit(end), i);
    }
  }

  lemma {:induction false} AtPrefix(s0: State, actions: seq<Action>, a: Action, i: nat)
    requires i <= |actions|
    ensures At(s0, actions + [a], i) == At(s0, actions, i)
  {
    if i > 0 {
      AtPrefix(s0, actions, a, i - 1);
    }
  }
}
