/** The pruned-files counter: a scan that moves submits from Pruned to PrunedCounted, one
    page a transaction, while the storage syncer and the API write statuses they fetched
    from the storage node. */
module PrunedFiles {
  import opened Wrappers
  import Ledger
  import Totals

  const PAGE := 100

  datatype Status = NotUploaded | PartialUploaded | Uploaded | Pruned | PrunedCounted

  function Rank(s: Status): nat {
    match s
    case NotUploaded => 0
    case PartialUploaded => 1
    case Uploaded => 2
    case Pruned => 3
    case PrunedCounted => 4
  }

  /** What the storage node says about a file. */
  datatype NodeInfo = NodeInfo(pruned: bool, finalized: bool, uploadedSegNum: nat)

  function Reported(info: NodeInfo): Status {
    if info.pruned then Pruned
    else if info.finalized then Uploaded
    else if info.uploadedSegNum > 0 then PartialUploaded
    else NotUploaded
  }

  /** The status that gets written for a file last seen with status `seen`, if any. */
  function NewStatus(seen: Status, info: Option<NodeInfo>): Option<Status> {
    if info.Some? && Rank(Reported(info.value)) > Rank(seen) then Some(Reported(info.value)) else None
  }

  datatype FileInfo = FileInfo(status: Status, uploadedSegNum: nat)

  /** `getFileInfo`: an update for a file, or an error when the node has nothing new. */
  method GetFileInfo(seen: Status, info: Option<NodeInfo>) returns (r: Option<FileInfo>)
    ensures r.Some? <==> NewStatus(seen, info).Some?
    ensures r.Some? ==> Some(r.value.status) == NewStatus(seen, info)
    ensures r.Some? ==> r.value.uploadedSegNum == info.value.uploadedSegNum
    ensures r.Some? ==> Rank(r.value.status) > Rank(seen) && r.value.status != PrunedCounted
    ensures r.Some? ==> (r.value.status == Pruned <==> info.value.pruned)
    ensures r.Some? ==> (r.value.status == Uploaded <==> !info.value.pruned && info.value.finalized)
    ensures r.Some? ==> (r.value.status == PartialUploaded <==>
                         !info.value.pruned && !info.value.finalized && info.value.uploadedSegNum > 0)
    ensures info == None || seen == Pruned || seen == PrunedCounted ==> r == None
    ensures info.Some? && seen == Uploaded ==> (r.Some? <==> info.value.pruned)
    ensures info.Some? && seen == PartialUploaded ==> (r.Some? <==> info.value.pruned || info.value.finalized)
    ensures info.Some? && seen == NotUploaded ==>
              (r.Some? <==> info.value.pruned || info.value.finalized || info.value.uploadedSegNum > 0)
  {
    var fileInfo, updated := FileInfo(seen, 0), false;
    if info.Some? {
      var status := NotUploaded;
      if info.value.pruned {
        status := Pruned;
      } else if info.value.finalized {
        status := Uploaded;
      } else if info.value.uploadedSegNum > 0 {
        status := PartialUploaded;
      }
      if Rank(status) > Rank(fileInfo.status) {
        fileInfo, updated := FileInfo(status, info.value.uploadedSegNum), true;
      }
    }
    if !updated {
      return None;
    }
    return Some(fileInfo);
  }

  // ------------------------------------------------- the state machine

  datatype Submit = Submit(sender: nat, status: Status)

  type Submits = map<nat, Submit>

  /** `submits`, `rows` and `total` are tables; `memTotal` lives in memory. */
  datatype State = State(submits: Submits, rows: map<nat, nat>, total: Option<nat>, memTotal: nat)

  /** Page counts the pruned submits of one page, or fails after having summed them up.
      Observe writes what the node reports for a file that was read with status `seen`.
      Add and Remove are the chain syncer's. */
  datatype Action =
    | Boot
    | Page(lo: nat, ok: bool)
    | Observe(id: nat, seen: Status, info: Option<NodeInfo>)
    | Add(id: nat, sender: nat)
    | Remove(ids: set<nat>)

  /** `QueryFinalizedAscWithCursor`: the pruned submits of a page. */
  function Selected(submits: Submits, lo: nat): set<nat> {
    set id | id in submits && lo <= id < lo + PAGE && submits[id].status == Pruned
  }

  function OwnedBy(submits: Submits, ids: set<nat>, a: nat): set<nat> {
    set id | id in ids && id in submits && submits[id].sender == a
  }

  function Senders(submits: Submits, ids: set<nat>): set<nat> {
    set id | id in ids && id in submits :: submits[id].sender
  }

  function Marked(submits: Submits, ids: set<nat>): Submits {
    map id | id in submits :: if id in ids then submits[id].(status := PrunedCounted) else submits[id]
  }

  /** The rows with the files `ids` of the given senders added. */
  function RowsWith(rows: map<nat, nat>, submits: Submits, ids: set<nat>, senders: set<nat>): map<nat, nat> {
    rows + map a | a in senders :: ValueAt(rows, a) + |OwnedBy(submits, ids, a)|
  }

  function Next(s: State, a: Action): State {
    match a
    case Boot =>
      var v := if s.total.Some? then s.total.value else 0;
      s.(total := Some(v), memTotal := v)
    case Page(lo, ok) =>
      var ids := Selected(s.submits, lo);
      if ids == {} then s
      else if ok then
        State(Marked(s.submits, ids), RowsWith(s.rows, s.submits, ids, Senders(s.submits, ids)),
              Some(s.memTotal + |ids|), s.memTotal + |ids|)
      else s.(memTotal := s.memTotal + |ids|)
    case Observe(id, seen, info) =>
      if id in s.submits && NewStatus(seen, info).Some?
      then s.(submits := s.submits[id := s.submits[id].(status := NewStatus(seen, info).value)])
      else s
    case Add(id, sender) => s.(submits := s.submits[id := Submit(sender, NotUploaded)])
    case Remove(ids) => s.(submits := s.submits - ids)
  }

  function At(s0: State, actions: seq<Action>, i: nat): State
    requires i <= |actions|
  {
    if i == 0 then s0 else Next(At(s0, actions, i - 1), actions[i - 1])
  }

  ghost predicate Enabled(s: State, a: Action) {
    a.Add? ==> a.id !in s.submits
  }

  /** A run starts with nothing counted and no stored total. */
  ghost predicate IsRun(s0: State, actions: seq<Action>) {
    && s0.total == None
    && (forall id | id in s0.rows :: s0.rows[id] == 0)
    && (forall id | id in s0.submits :: s0.submits[id].status != PrunedCounted)
    && |actions| > 0 && actions[0] == Boot
    && forall i | 0 <= i < |actions| :: Enabled(At(s0, actions, i), actions[i])
  }

  ghost predicate IsCounted(submits: Submits, id: nat) {
    id in submits && submits[id].status == PrunedCounted
  }

  function CountedBy(submits: Submits, a: nat): set<nat> {
    set id | id in submits && submits[id].status == PrunedCounted && submits[id].sender == a
  }

  // ------------------------------------------------- counted files that lose their status

  function LostBy(s: State, a: Action, owner: nat): set<nat> {
    CountedBy(s.submits, owner) - CountedBy(Next(s, a).submits, owner)
  }

  /** The number of times a counted file of the owner has lost its status. */
  function LossesAt(s0: State, actions: seq<Action>, i: nat, owner: nat): nat
    requires i <= |actions|
  {
    if i == 0 then 0
    else LossesAt(s0, actions, i - 1, owner) + |LostBy(At(s0, actions, i - 1), actions[i - 1], owner)|
  }

  /** A write on a counted file: its status was read before it was counted, or not read at all. */
  ghost predicate Loses(s: State, a: Action) {
    match a
    case Observe(id, seen, info) => IsCounted(s.submits, id) && NewStatus(seen, info).Some?
    case Remove(ids) => exists id :: id in ids && IsCounted(s.submits, id)
    case _ => false
  }

  lemma PageRow(s: State, lo: nat, owner: nat)
    ensures ValueAt(Next(s, Page(lo, true)).rows, owner) ==
            ValueAt(s.rows, owner) + |OwnedBy(s.submits, Selected(s.submits, lo), owner)|
  {
  }

  lemma PageCounted(s: State, lo: nat, owner: nat)
    ensures CountedBy(Next(s, Page(lo, true)).submits, owner) ==
            CountedBy(s.submits, owner) + OwnedBy(s.submits, Selected(s.submits, lo), owner)
    ensures CountedBy(s.submits, owner) !! OwnedBy(s.submits, Selected(s.submits, lo), owner)
  {
  }

  /** A committed page marks the pruned submits of the page, and touches no other submit. */
  lemma PageMarksSelected(s: State, lo: nat, id: nat)
    ensures Next(s, Page(lo, true)).submits.Keys == s.submits.Keys
    ensures id in s.submits ==>
              var submit := Next(s, Page(lo, true)).submits[id];
              if lo <= id < lo + PAGE && s.submits[id].status == Pruned
              then submit == Submit(sender := s.submits[id].sender, status := PrunedCounted)
              else submit == s.submits[id]
  {
    var ids := Selected(s.submits, lo);
    assert id in ids <==> id in s.submits && lo <= id < lo + PAGE && s.submits[id].status == Pruned;
  }

  lemma OthersCountNothing(s: State, a: Action, owner: nat)
    requires Enabled(s, a)
    requires !a.Page? || !a.ok
    ensures CountedBy(Next(s, a).submits, owner) <= CountedBy(s.submits, owner)
    ensures Next(s, a).rows == s.rows
  {
  }

  lemma StepKeepsRow(s: State, a: Action, owner: nat, losses: nat)
    requires Enabled(s, a)
    requires ValueAt(s.rows, owner) == |CountedBy(s.submits, owner)| + losses
    ensures ValueAt(Next(s, a).rows, owner) == |CountedBy(Next(s, a).submits, owner)| + losses + |LostBy(s, a, owner)|
  {
    hide Next, CountedBy, OwnedBy;
    if a.Page? && a.ok {
      PageRow(s, a.lo, owner);
      PageCounted(s, a.lo, owner);
      assert LostBy(s, a, owner) == {};
    } else {
      OthersCountNothing(s, a, owner);
      assert CountedBy(s.submits, owner) == CountedBy(Next(s, a).submits, owner) + LostBy(s, a, owner);
    }
  }

  /** After every action of every run the pruned files of an address are its submits in
      status PrunedCounted, plus one for every time a counted submit of it lost that status. */
  lemma {:induction false} RowsCountPruned(s0: State, actions: seq<Action>, i: nat, owner: nat)
    requires IsRun(s0, actions) && i <= |actions|
    ensures ValueAt(At(s0, actions, i).rows, owner) ==
            |CountedBy(At(s0, actions, i).submits, owner)| + LossesAt(s0, actions, i, owner)
  {
    hide CountedBy, LostBy, Next;
    if i == 0 {
      NothingCounted(s0, owner);
    } else {
      RowsCountPruned(s0, actions, i - 1, owner);
      StepKeepsRow(At(s0, actions, i - 1), actions[i - 1], owner, LossesAt(s0, actions, i - 1, owner));
    }
  }

  lemma NothingCounted(s0: State, owner: nat)
    requires forall id | id in s0.submits :: s0.submits[id].status != PrunedCounted
    ensures CountedBy(s0.submits, owner) == {}
  {
  }

  ghost predicate LosesSome(s: State, a: Action) {
    exists owner :: LostBy(s, a, owner) != {}
  }

  lemma LossIsAWrite(s: State, a: Action)
    requires Enabled(s, a)
    ensures Loses(s, a) <==> LosesSome(s, a)
  {
    if Loses(s, a) {
      var id := if a.Observe? then a.id else var x :| x in a.ids && IsCounted(s.submits, x); x;
      assert id in LostBy(s, a, s.submits[id].sender);
    }
  }

  ghost predicate LosesBefore(s0: State, actions: seq<Action>, i: nat) {
    exists j: nat :: j < i && j < |actions| && Loses(At(s0, actions, j), actions[j])
  }

  ghost predicate HasLosses(s0: State, actions: seq<Action>, i: nat)
    requires i <= |actions|
  {
    exists owner :: LossesAt(s0, actions, i, owner) > 0
  }

  lemma LossesGrow(s0: State, actions: seq<Action>, i: nat)
    requires i < |actions|
    ensures HasLosses(s0, actions, i + 1) <==> HasLosses(s0, actions, i) || LosesSome(At(s0, actions, i), actions[i])
  {
    hide At, LostBy;
    var k := i + 1;
    if HasLosses(s0, actions, k) {
      var owner :| LossesAt(s0, actions, k, owner) > 0;
      assert LossesAt(s0, actions, i, owner) > 0 || LostBy(At(s0, actions, i), actions[i], owner) != {};
    }
    if HasLosses(s0, actions, i) {
      var owner :| LossesAt(s0, actions, i, owner) > 0;
      assert LossesAt(s0, actions, k, owner) > 0;
    }
    if LosesSome(At(s0, actions, i), actions[i]) {
      var s, a := At(s0, actions, i), actions[i];
      var owner :| LostBy(s, a, owner) != {};
      assert LossesAt(s0, actions, k, owner) > 0;
    }
  }

  lemma {:induction false} LossesComeFromWrites(s0: State, actions: seq<Action>, i: nat)
    requires IsRun(s0, actions) && i <= |actions|
    ensures LosesBefore(s0, actions, i) <==> HasLosses(s0, actions, i)
  {
    hide At, Loses, LosesSome;
    if i > 0 {
      var j := i - 1;
      LossesComeFromWrites(s0, actions, j);
      LossIsAWrite(At(s0, actions, j), actions[j]);
      LossesGrow(s0, actions, j);
      assert LosesBefore(s0, actions, i) <==> LosesBefore(s0, actions, j) || Loses(At(s0, actions, j), actions[j]);
    }
  }

  /** Every address has as many pruned files as it has submits in status PrunedCounted. */
  ghost predicate RowsAreExact(s: State) {
    forall owner: nat :: ValueAt(s.rows, owner) == |CountedBy(s.submits, owner)|
  }

  /** The counts are right for every address exactly when no counted submit was written or
      removed: an update fetched for a file that was counted since it was read, or that was
      read without its status, is what breaks them. */
  lemma RowsAreExactIff(s0: State, actions: seq<Action>, i: nat)
    requires IsRun(s0, actions) && i <= |actions|
    ensures RowsAreExact(At(s0, actions, i)) <==> !LosesBefore(s0, actions, i)
  {
    hide At, IsRun, CountedBy, LosesBefore, LossesAt, ValueAt;
    LossesComeFromWrites(s0, actions, i);
    var s := At(s0, actions, i);
    forall owner: nat
      ensures ValueAt(s.rows, owner) == |CountedBy(s.submits, owner)| + LossesAt(s0, actions, i, owner)
    {
      RowsCountPruned(s0, actions, i, owner);
    }
    if HasLosses(s0, actions, i) {
      var owner :| LossesAt(s0, actions, i, owner) > 0;
      assert ValueAt(s.rows, owner) != |CountedBy(s.submits, owner)|;
    }
  }

  // ------------------------------------------------- one file

  predicate Counts(s: State, a: Action, id: nat) {
    a.Page? && a.ok && id in Selected(s.submits, a.lo)
  }

  function TimesCounted(s0: State, actions: seq<Action>, i: nat, id: nat): nat
    requires i <= |actions|
  {
    if i == 0 then 0
    else TimesCounted(s0, actions, i - 1, id) + if Counts(At(s0, actions, i - 1), actions[i - 1], id) then 1 else 0
  }

  ghost predicate LosesFile(s: State, a: Action, id: nat) {
    IsCounted(s.submits, id) && !IsCounted(Next(s, a).submits, id)
  }

  ghost function TimesLost(s0: State, actions: seq<Action>, i: nat, id: nat): nat
    requires i <= |actions|
  {
    if i == 0 then 0
    else TimesLost(s0, actions, i - 1, id) + if LosesFile(At(s0, actions, i - 1), actions[i - 1], id) then 1 else 0
  }

  lemma CountedOnceMore(s: State, a: Action, id: nat)
    requires Enabled(s, a)
    ensures Counts(s, a, id) ==> !IsCounted(s.submits, id) && IsCounted(Next(s, a).submits, id)
    ensures !Counts(s, a, id) && !IsCounted(s.submits, id) ==> !IsCounted(Next(s, a).submits, id)
  {
  }

  /** A file is counted once more than it has lost its status, or as often: twice only
      after a loss in between. */
  lemma {:induction false} CountedAgainOnlyAfterLoss(s0: State, actions: seq<Action>, i: nat, id: nat)
    requires IsRun(s0, actions) && i <= |actions|
    ensures TimesCounted(s0, actions, i, id) ==
            TimesLost(s0, actions, i, id) + if IsCounted(At(s0, actions, i).submits, id) then 1 else 0
  {
    hide IsCounted, Counts, Next;
    if i == 0 {
      NotCountedAtFirst(s0, id);
    } else {
      CountedAgainOnlyAfterLoss(s0, actions, i - 1, id);
      CountedOnceMore(At(s0, actions, i - 1), actions[i - 1], id);
    }
  }

  lemma NotCountedAtFirst(s0: State, id: nat)
    requires forall x | x in s0.submits :: s0.submits[x].status != PrunedCounted
    ensures !IsCounted(s0.submits, id)
  {
  }

  // ------------------------------------------------- writers that know the status

  /** The writer has read the current status, and no counted submit is removed. */
  ghost predicate Informed(s: State, a: Action) {
    match a
    case Observe(id, seen, _) => id in s.submits ==> seen == s.submits[id].status
    case Remove(ids) => forall id | id in ids :: !IsCounted(s.submits, id)
    case _ => true
  }

  /** Statuses only rise: with informed writers every count stays exact. */
  lemma InformedRunsAreExact(s0: State, actions: seq<Action>, i: nat)
    requires IsRun(s0, actions) && i <= |actions|
    requires forall j | 0 <= j < |actions| :: Informed(At(s0, actions, j), actions[j])
    ensures RowsAreExact(At(s0, actions, i))
  {
    hide At, IsRun, RowsAreExact;
    RowsAreExactIff(s0, actions, i);
    forall j: nat | j < |actions| ensures !Loses(At(s0, actions, j), actions[j]) {
      assert Informed(At(s0, actions, j), actions[j]);
    }
  }

  /** One pruned file among the latest: the syncer reads it without its status. */
  const ONE_FILE := State(map[0 := Submit(7, Pruned)], map[], None, 0)
  const RESET: seq<Action> := [
    Boot, Page(0, true), Observe(0, NotUploaded, Some(NodeInfo(true, true, 1))), Page(0, true)]

  lemma OneFilePage(s: State)
    requires s.submits == map[0 := Submit(7, Pruned)]
    ensures Selected(s.submits, 0) == {0} && Senders(s.submits, {0}) == {7} && OwnedBy(s.submits, {0}, 7) == {0}
    ensures Marked(s.submits, {0}) == map[0 := Submit(7, PrunedCounted)]
  {
  }

  lemma ResetStates()
    ensures At(ONE_FILE, RESET, 2) == State(map[0 := Submit(7, PrunedCounted)], map[7 := 1], Some(1), 1)
    ensures At(ONE_FILE, RESET, 4) == State(map[0 := Submit(7, PrunedCounted)], map[7 := 2], Some(2), 2)
  {
    hide Selected, Senders, OwnedBy, Marked;
    assert At(ONE_FILE, RESET, 0) == ONE_FILE;
    OneFilePage(At(ONE_FILE, RESET, 1));
    assert At(ONE_FILE, RESET, 2).submits == map[0 := Submit(7, PrunedCounted)];
    assert At(ONE_FILE, RESET, 3) == State(map[0 := Submit(7, Pruned)], map[7 := 1], Some(1), 1);
    OneFilePage(At(ONE_FILE, RESET, 3));
  }

  /** The reset file is counted again: two pruned files for an address that has one. */
  lemma ResetFileCountsTwice()
    ensures IsRun(ONE_FILE, RESET)
    ensures At(ONE_FILE, RESET, 4).rows == map[7 := 2]
    ensures CountedBy(At(ONE_FILE, RESET, 4).submits, 7) == {0}
  {
    ResetStates();
  }

  // ------------------------------------------------- the total

  function EffectOf(s: State, a: Action): Totals.Effect {
    match a
    case Boot => Totals.Boot
    case Page(lo, ok) => if ok then Totals.Commit(|Selected(s.submits, lo)|) else Totals.Fail(|Selected(s.submits, lo)|)
    case _ => Totals.Other
  }

  function History(s0: State, actions: seq<Action>): (h: seq<Totals.Effect>)
    ensures |h| == |actions|
  {
    seq(|actions|, i requires 0 <= i < |actions| => EffectOf(At(s0, actions, i), actions[i]))
  }

  /** The files counted by the committed pages. */
  function FilesCounted(s0: State, actions: seq<Action>, i: nat): nat
    requires i <= |actions|
  {
    if i == 0 then 0
    else FilesCounted(s0, actions, i - 1) + FilesOf(At(s0, actions, i - 1), actions[i - 1])
  }

  function FilesOf(s: State, a: Action): nat {
    if a.Page? && a.ok then |Selected(s.submits, a.lo)| else 0
  }

  lemma TotalStep(s: State, a: Action, counted: nat, leak: Totals.Leak)
    requires s.memTotal == counted + leak.mem
    requires s.total == Some(counted + leak.stored)
    ensures Next(s, a).memTotal == counted + FilesOf(s, a) + Totals.NextLeak(leak, EffectOf(s, a)).mem
    ensures Next(s, a).total == Some(counted + FilesOf(s, a) + Totals.NextLeak(leak, EffectOf(s, a)).stored)
  {
  }

  /** The totals are the files counted by committed pages and the leak of failed ones. */
  lemma {:induction false} TotalIsAccounted(s0: State, actions: seq<Action>, i: nat)
    requires IsRun(s0, actions) && 0 < i <= |actions|
    ensures At(s0, actions, i).memTotal == FilesCounted(s0, actions, i) + Totals.LeakAt(History(s0, actions), i).mem
    ensures At(s0, actions, i).total ==
            Some(FilesCounted(s0, actions, i) + Totals.LeakAt(History(s0, actions), i).stored)
  {
    hide EffectOf, FilesOf, Next, IsRun, History, Totals.NextLeak;
    if i == 1 {
      FirstBoot(s0, actions);
    } else {
      TotalIsAccounted(s0, actions, i - 1);
      LeakStep(s0, actions, i - 1);
      TotalStep(At(s0, actions, i - 1), actions[i - 1], FilesCounted(s0, actions, i - 1),
                Totals.LeakAt(History(s0, actions), i - 1));
    }
  }

  lemma LeakStep(s0: State, actions: seq<Action>, i: nat)
    requires i < |actions|
    ensures var h := History(s0, actions);
            Totals.LeakAt(h, i + 1) == Totals.NextLeak(Totals.LeakAt(h, i), EffectOf(At(s0, actions, i), actions[i]))
  {
    hide EffectOf, At, Totals.NextLeak;
  }

  lemma FirstBoot(s0: State, actions: seq<Action>)
    requires IsRun(s0, actions)
    ensures At(s0, actions, 1).memTotal == 0 && At(s0, actions, 1).total == Some(0)
    ensures FilesCounted(s0, actions, 1) == 0 && Totals.LeakAt(History(s0, actions), 1) == Totals.Leak(0, 0)
  {
  }

  /** The stored total is the number of files counted exactly when no failed page was
      followed by a committed one before a restart. */
  lemma TotalIsExactIff(s0: State, actions: seq<Action>, i: nat)
    requires IsRun(s0, actions) && 0 < i <= |actions|
    ensures At(s0, actions, i).total == Some(FilesCounted(s0, actions, i))
            <==> !Totals.Inflated(History(s0, actions), i)
  {
    hide At, IsRun, History, FilesCounted, Totals.Inflated, Totals.HasPending;
    TotalIsAccounted(s0, actions, i);
    Totals.LeakHistory(History(s0, actions), i);
  }

  /** A page that fails, and is scanned again. */
  const RETRIED: seq<Action> := [Boot, Page(0, false), Page(0, true)]

  lemma RetriedStates()
    ensures At(ONE_FILE, RETRIED, 1) == State(map[0 := Submit(7, Pruned)], map[], Some(0), 0)
    ensures At(ONE_FILE, RETRIED, 2) == State(map[0 := Submit(7, Pruned)], map[], Some(0), 1)
    ensures At(ONE_FILE, RETRIED, 3) == State(map[0 := Submit(7, PrunedCounted)], map[7 := 1], Some(2), 2)
    ensures FilesCounted(ONE_FILE, RETRIED, 3) == 1
  {
    hide Selected, Senders, OwnedBy, Marked;
    assert At(ONE_FILE, RETRIED, 0) == ONE_FILE && FilesCounted(ONE_FILE, RETRIED, 0) == 0;
    OneFilePage(At(ONE_FILE, RETRIED, 1));
    assert FilesCounted(ONE_FILE, RETRIED, 1) == 0;
    assert FilesCounted(ONE_FILE, RETRIED, 2) == 0;
  }

  /** The files of a failed page stay in the total: it says two, for the one file there is. */
  lemma FailedPageCountsTwice()
    ensures IsRun(ONE_FILE, RETRIED)
    ensures At(ONE_FILE, RETRIED, 3).total == Some(2)
    ensures FilesCounted(ONE_FILE, RETRIED, 3) == 1
    ensures CountedBy(At(ONE_FILE, RETRIED, 3).submits, 7) == {0} && At(ONE_FILE, RETRIED, 3).rows == map[7 := 1]
  {
    RetriedStates();
  }

  // ------------------------------------------------- the scan

  function Elements(s: seq<nat>): set<nat> {
    set x | x in s
  }

  /** The files of the given senders. */
  function OwnedIn(submits: Submits, ids: set<nat>, senders: set<nat>): set<nat> {
    set id | id in ids && id in submits && submits[id].sender in senders
  }

  function PrunedBelow(submits: Submits, n: nat): set<nat> {
    set id | id in submits && id < n && submits[id].status == Pruned
  }

  lemma OneMoreSender(submits: Submits, ids: set<nat>, senders: set<nat>, a: nat)
    requires a !in senders
    ensures OwnedIn(submits, ids, senders + {a}) == OwnedIn(submits, ids, senders) + OwnedBy(submits, ids, a)
    ensures |OwnedIn(submits, ids, senders + {a})| == |OwnedIn(submits, ids, senders)| + |OwnedBy(submits, ids, a)|
  {
  }

  lemma AllSenders(submits: Submits, ids: set<nat>)
    requires ids <= submits.Keys
    ensures OwnedIn(submits, ids, Senders(submits, ids)) == ids
    ensures OwnedIn(submits, ids, {}) == {}
  {
  }

  /** One list of files per sender. */
  ghost predicate IsGrouping(submits: Submits, ids: set<nat>, mapping: map<nat, seq<nat>>) {
    && mapping.Keys == Senders(submits, ids)
    && forall a | a in mapping ::
         Elements(mapping[a]) == OwnedBy(submits, ids, a) && |mapping[a]| == |OwnedBy(submits, ids, a)|
  }

  lemma GroupedOneMore(submits: Submits, ids: set<nat>, mapping: map<nat, seq<nat>>, id: nat)
    requires IsGrouping(submits, ids, mapping)
    requires id in submits && id !in ids
    ensures var a := submits[id].sender;
            IsGrouping(submits, ids + {id}, mapping[a := (if a in mapping then mapping[a] else []) + [id]])
  {
    var a := submits[id].sender;
    var more := mapping[a := (if a in mapping then mapping[a] else []) + [id]];
    assert OwnedBy(submits, ids + {id}, a) == OwnedBy(submits, ids, a) + {id};
    if a !in mapping {
      assert OwnedBy(submits, ids, a) == {};
    }
    forall b | b in more
      ensures Elements(more[b]) == OwnedBy(submits, ids + {id}, b) && |more[b]| == |OwnedBy(submits, ids + {id}, b)|
    {
      if b != a {
        assert OwnedBy(submits, ids + {id}, b) == OwnedBy(submits, ids, b);
      }
    }
    assert Senders(submits, ids + {id}) == Senders(submits, ids) + {a};
  }

  /** What a scan from s0 has done when it has counted everything below n. */
  ghost predicate Scanned(s0: State, s: State, n: nat) {
    && s.submits == Marked(s0.submits, PrunedBelow(s0.submits, n))
    && s.memTotal == s0.memTotal + |PrunedBelow(s0.submits, n)|
    && forall a: nat :: ValueAt(s.rows, a) == ValueAt(s0.rows, a) + |OwnedBy(s0.submits, PrunedBelow(s0.submits, n), a)|
  }

  /** The page from n on has been summed up, but not committed. */
  ghost predicate ScannedButOne(s0: State, s: State, n: nat) {
    && Selected(s.submits, n) != {}
    && Scanned(s0, s.(memTotal := s0.memTotal + |PrunedBelow(s0.submits, n)|), n)
    && s.memTotal == s0.memTotal + |PrunedBelow(s0.submits, n)| + |Selected(s.submits, n)|
  }

  lemma PageOfScan(submits: Submits, n: nat, a: nat)
    ensures var marked, ids := Marked(submits, PrunedBelow(submits, n)), Selected(submits, n);
            && Selected(marked, n) == ids
            && PrunedBelow(submits, n + PAGE) == PrunedBelow(submits, n) + ids
            && |PrunedBelow(submits, n + PAGE)| == |PrunedBelow(submits, n)| + |ids|
            && OwnedBy(marked, ids, a) == OwnedBy(submits, ids, a)
            && |OwnedBy(submits, PrunedBelow(submits, n + PAGE), a)| ==
               |OwnedBy(submits, PrunedBelow(submits, n), a)| + |OwnedBy(submits, ids, a)|
            && Marked(marked, ids) == Marked(submits, PrunedBelow(submits, n + PAGE))
  {
    var ids := Selected(submits, n);
    assert PrunedBelow(submits, n + PAGE) == PrunedBelow(submits, n) + ids;
    assert PrunedBelow(submits, n) !! ids;
    assert OwnedBy(submits, PrunedBelow(submits, n + PAGE), a) ==
           OwnedBy(submits, PrunedBelow(submits, n), a) + OwnedBy(submits, ids, a);
    assert OwnedBy(submits, PrunedBelow(submits, n), a) !! OwnedBy(submits, ids, a);
  }

  lemma MarkedNothing(submits: Submits)
    ensures Marked(submits, {}) == submits
  {
  }

  lemma ScanStep(s0: State, s: State, n: nat)
    requires Scanned(s0, s, n)
    ensures Scanned(s0, Next(s, Page(n, true)), n + PAGE)
  {
    hide Marked, Selected, PrunedBelow, OwnedBy, RowsWith;
    PageOfScan(s0.submits, n, 0);
    MarkedNothing(s.submits);
    forall a: nat
      ensures ValueAt(Next(s, Page(n, true)).rows, a) ==
              ValueAt(s0.rows, a) + |OwnedBy(s0.submits, PrunedBelow(s0.submits, n + PAGE), a)|
    {
      PageRow(s, n, a);
      PageOfScan(s0.submits, n, a);
    }
  }

  lemma ScanStart(s: State)
    ensures Scanned(s, s, 0)
  {
  }

  /** What ends a scan before its time: reading the largest index fails, the process is
      interrupted before a page, reading a page fails, or its transaction does. */
  datatype Stop = Never | NoMaxIndex | Interrupt(page: nat) | Unreadable(page: nat) | Uncommittable(page: nat)

  datatype ScanEnd = Finished | InvalidIndex | Interrupted | Unread | Uncommitted

  /** The tables and config entry of the statistics task. */
  class Database {
    var submits: Submits
    var prunedFiles: map<nat, nat>
    var totalConfig: Option<nat>

    /** `QueryFinalizedAscWithCursor`. */
    method QueryPruned(lo: nat) returns (ids: seq<nat>)
      ensures Elements(ids) == Selected(submits, lo)
      ensures forall i, j | 0 <= i < j < |ids| :: ids[i] < ids[j]
    {
      ids := [];
      for id := lo to lo + PAGE
        invariant Elements(ids) == set x | x in Selected(submits, lo) && x < id
        invariant forall i, j | 0 <= i < j < |ids| :: ids[i] < ids[j]
        invariant forall i | 0 <= i < |ids| :: ids[i] < id
      {
        if id in submits && submits[id].status == Pruned {
          assert Elements(ids + [id]) == Elements(ids) + {id};
          ids := ids + [id];
        }
      }
    }
  }

  class StatSubmitPruned {
    const db: Database
    var filePrunedTotal: nat

    ghost function Current(): State
      reads this, db
    {
      State(db.submits, db.prunedFiles, db.totalConfig, filePrunedTotal)
    }

    constructor (db: Database)
      modifies db`totalConfig
      ensures this.db == db
      ensures forall memTotal ::
                Current() == Next(State(db.submits, db.prunedFiles, old(db.totalConfig), memTotal), Boot)
    {
      this.db := db;
      filePrunedTotal := if db.totalConfig.Some? then db.totalConfig.value else 0;
      new;
      if db.totalConfig.None? {
        db.totalConfig := Some(0);
      }
    }

    method GroupBySender(ids: seq<nat>) returns (mapping: map<nat, seq<nat>>)
      requires Elements(ids) <= db.submits.Keys
      requires forall i, j | 0 <= i < j < |ids| :: ids[i] < ids[j]
      ensures IsGrouping(db.submits, Elements(ids), mapping)
    {
      mapping := map[];
      for i := 0 to |ids|
        invariant IsGrouping(db.submits, Elements(ids[..i]), mapping)
      {
        var id := ids[i];
        assert Elements(ids[..i + 1]) == Elements(ids[..i]) + {id};
        assert id in Elements(ids);
        GroupedOneMore(db.submits, Elements(ids[..i]), mapping, id);
        var senderID := db.submits[id].sender;
        mapping := mapping[senderID := (if senderID in mapping then mapping[senderID] else []) + [id]];
      }
      assert ids[..|ids|] == ids;
    }

    /** The loop over the senders: what to write, and the total in memory raised at once. */
    method SumUp(ghost ids: set<nat>, mapping: map<nat, seq<nat>>)
      returns (addresses: map<nat, nat>, submitIds: seq<nat>)
      requires ids <= db.submits.Keys
      requires IsGrouping(db.submits, ids, mapping)
      modifies this`filePrunedTotal
      ensures addresses == map a | a in Senders(db.submits, ids) :: |OwnedBy(db.submits, ids, a)|
      ensures Elements(submitIds) == ids && |submitIds| == |ids|
      ensures filePrunedTotal == old(filePrunedTotal) + |ids|
    {
      hide Senders, OwnedBy, OwnedIn;
      addresses, submitIds := map[], [];
      AllSenders(db.submits, ids);
      var todo := mapping.Keys;
      ghost var done: set<nat> := {};
      while todo != {}
        invariant todo <= mapping.Keys && done == mapping.Keys - todo
        invariant addresses == map a | a in done :: |OwnedBy(db.submits, ids, a)|
        invariant Elements(submitIds) == OwnedIn(db.submits, ids, done)
        invariant |submitIds| == |OwnedIn(db.submits, ids, done)|
        invariant filePrunedTotal == old(filePrunedTotal) + |OwnedIn(db.submits, ids, done)|
        decreases todo
      {
        var a :| a in todo;
        OneMoreSender(db.submits, ids, done, a);
        assert Elements(submitIds + mapping[a]) == Elements(submitIds) + Elements(mapping[a]);
        addresses, submitIds := addresses[a := |mapping[a]|], submitIds + mapping[a];
        filePrunedTotal := filePrunedTotal + |mapping[a]|;
        todo, done := todo - {a}, done + {a};
      }
      assert done == mapping.Keys;
    }

    /** The transaction of a page. */
    method WritePage(ghost ids: set<nat>, addresses: map<nat, nat>, submitIds: seq<nat>)
      requires addresses == map a | a in Senders(db.submits, ids) :: |OwnedBy(db.submits, ids, a)|
      requires Elements(submitIds) == ids
      modifies db`submits, db`prunedFiles, db`totalConfig
      ensures db.submits == Marked(old(db.submits), ids)
      ensures db.prunedFiles == RowsWith(old(db.prunedFiles), old(db.submits), ids, Senders(old(db.submits), ids))
      ensures db.totalConfig == Some(filePrunedTotal)
    {
      hide OwnedBy, Senders;
      db.prunedFiles := db.prunedFiles + map a | a in addresses :: ValueAt(db.prunedFiles, a) + addresses[a];
      db.submits := map id | id in db.submits ::
        if id in submitIds then db.submits[id].(status := PrunedCounted) else db.submits[id];
      db.totalConfig := Some(filePrunedTotal);
    }

    /** One page of the scan; without pruned submits there is no transaction to fail. */
    method CountPage(lo: nat, ok: bool) returns (failed: bool)
      modifies this`filePrunedTotal, db`submits, db`prunedFiles, db`totalConfig
      ensures Current() == Next(old(Current()), Page(lo, ok))
      ensures failed <==> !ok && Selected(old(db.submits), lo) != {}
    {
      hide Selected, Senders, OwnedBy, RowsWith, Marked, IsGrouping;
      failed := false;
      var submitIds := db.QueryPruned(lo);
      if |submitIds| > 0 {
        assert submitIds[0] in Elements(submitIds);
        SelectedAreSubmits(db.submits, lo);
        ghost var ids := Elements(submitIds);
        var mapping := GroupBySender(submitIds);
        var addresses, counted := SumUp(ids, mapping);
        if ok {
          WritePage(ids, addresses, counted);
        }
        failed := !ok;
      }
    }

    /** `MAX(submission_index)`; without submits there is none. */
    method MaxSubmissionIndex() returns (maxId: Option<nat>)
      ensures maxId.None? <==> db.submits == map[]
      ensures maxId.Some? ==> IsLast(db.submits.Keys, maxId.value)
    {
      if db.submits == map[] {
        return None;
      }
      LatestExists(db.submits.Keys);
      var last :| IsLast(db.submits.Keys, last);
      return Some(last);
    }

    /** One scan of the table, page by page. When it comes to its end (`ErrNoFileInfoToStat`),
        every pruned submit has been counted, once; stopped or failing before, it has counted
        those on the pages before, and a failed transaction leaves its page in the total. */
    method Scan(stop: Stop) returns (end: ScanEnd, ghost upTo: nat)
      modifies this`filePrunedTotal, db`submits, db`prunedFiles, db`totalConfig
      ensures end == InvalidIndex <==> stop != NoMaxIndex && old(db.submits) == map[]
      ensures end == InvalidIndex || stop == NoMaxIndex ==> Current() == old(Current())
      ensures end == Finished ==> Scanned(old(Current()), Current(), upTo)
      ensures end == Finished ==> forall id | id in db.submits :: id < upTo && db.submits[id].status != Pruned
      ensures end == Interrupted ==> stop == Interrupt(upTo) && Scanned(old(Current()), Current(), upTo)
      ensures end == Unread ==>
                stop == NoMaxIndex || (stop == Unreadable(upTo) && Scanned(old(Current()), Current(), upTo))
      ensures end == Uncommitted ==> stop == Uncommittable(upTo) && ScannedButOne(old(Current()), Current(), upTo)
      ensures stop == NoMaxIndex ==> end == Unread
      ensures stop == Never && old(db.submits) != map[] ==> end == Finished
    {
      hide Scanned, ScannedButOne, Next, Selected;
      upTo := 0;
      if stop == NoMaxIndex {
        return Unread, 0;
      }
      var maxSubmitId := MaxSubmissionIndex();
      if maxSubmitId.None? {
        return InvalidIndex, 0;
      }
      ScanStart(Current());
      var nextSubmitId := 0;
      while stop != Interrupt(nextSubmitId) && nextSubmitId <= maxSubmitId.value
        invariant Scanned(old(Current()), Current(), nextSubmitId)
        decreases maxSubmitId.value + PAGE - nextSubmitId
      {
        if stop == Unreadable(nextSubmitId) {
          return Unread, nextSubmitId;
        }
        ghost var s := Current();
        var failed := CountPage(nextSubmitId, stop != Uncommittable(nextSubmitId));
        if failed {
          FailedPage(old(Current()), s, nextSubmitId);
          return Uncommitted, nextSubmitId;
        }
        EmptyPage(s, nextSubmitId, stop != Uncommittable(nextSubmitId));
        ScanStep(old(Current()), s, nextSubmitId);
        nextSubmitId := nextSubmitId + PAGE;
      }
      if stop == Interrupt(nextSubmitId) {
        return Interrupted, nextSubmitId;
      }
      ScanLeavesNone(old(Current()), Current(), nextSubmitId);
      return Finished, nextSubmitId;
    }
  }

  lemma SelectedAreSubmits(submits: Submits, lo: nat)
    ensures Selected(submits, lo) <= submits.Keys
  {
  }

  lemma FailedPage(s0: State, s: State, n: nat)
    requires Scanned(s0, s, n) && Selected(s.submits, n) != {}
    ensures ScannedButOne(s0, Next(s, Page(n, false)), n)
  {
  }

  lemma EmptyPage(s: State, n: nat, ok: bool)
    requires ok || Selected(s.submits, n) == {}
    ensures Next(s, Page(n, ok)) == Next(s, Page(n, true))
  {
  }

  lemma ScanLeavesNone(s0: State, s: State, n: nat)
    requires Scanned(s0, s, n)
    requires forall id | id in s0.submits :: id < n
    ensures forall id | id in s.submits :: id < n && s.submits[id].status != Pruned
  {
  }

  // ------------------------------------------------- the storage syncer

  const LATEST := 100

  datatype Row = Row(submissionIndex: nat, status: Status)

  function InfoOf(node: map<nat, NodeInfo>, id: nat): Option<NodeInfo> {
    if id in node then Some(node[id]) else None
  }

  /** A submit after the syncer has asked the node about the given ids, status unseen. */
  function Refreshed(submit: Submit, id: nat, asked: set<nat>, node: map<nat, NodeInfo>): Submit {
    if id in asked && NewStatus(NotUploaded, InfoOf(node, id)).Some?
    then submit.(status := NewStatus(NotUploaded, InfoOf(node, id)).value)
    else submit
  }

  function RefreshedAll(submits: Submits, asked: set<nat>, node: map<nat, NodeInfo>): Submits {
    map id | id in submits :: Refreshed(submits[id], id, asked, node)
  }

  function AskedOf(rows: seq<Row>): set<nat> {
    set r | r in rows :: r.submissionIndex
  }

  /** The rows list, without their status, the submits above those that are left. */
  ghost predicate IsLatest(submits: Submits, rows: seq<Row>, rest: set<nat>) {
    && rest <= submits.Keys && AskedOf(rows) == submits.Keys - rest && |AskedOf(rows)| == |rows|
    && (forall r | r in rows :: r.status == NotUploaded)
    && (forall id, other | id in rest && other in AskedOf(rows) :: id < other)
  }

  lemma NextLatest(submits: Submits, rows: seq<Row>, rest: set<nat>, last: nat)
    requires IsLatest(submits, rows, rest)
    requires last in rest && forall id | id in rest :: id <= last
    ensures IsLatest(submits, rows + [Row(last, NotUploaded)], rest - {last})
  {
    assert AskedOf(rows + [Row(last, NotUploaded)]) == AskedOf(rows) + {last};
    assert last !in AskedOf(rows);
  }

  class StorageSyncer {
    const db: Database

    constructor (db: Database)
      ensures this.db == db
    {
      this.db := db;
    }

    /** `QueryDesc`: the latest submits. The query selects no status, so each row comes with
        the first one. */
    method QueryDesc(batch: nat) returns (rows: seq<Row>)
      ensures IsLatest(db.submits, rows, db.submits.Keys - AskedOf(rows))
      ensures |rows| == if |db.submits| < batch then |db.submits| else batch
    {
      rows := [];
      var todo := db.submits.Keys;
      assert |db.submits.Keys| == |db.submits|;
      while |rows| < batch && todo != {}
        invariant IsLatest(db.submits, rows, todo)
        invariant |rows| + |todo| == |db.submits| && |rows| <= batch
        decreases todo
      {
        LatestExists(todo);
        var last :| last in todo && forall id | id in todo :: id <= last;
        NextLatest(db.submits, rows, todo, last);
        rows, todo := rows + [Row(last, NotUploaded)], todo - {last};
      }
      assert todo == db.submits.Keys - AskedOf(rows);
    }

    /** `LatestFiles`: write what the node reports for the latest submits. Since no row shows
        its status, even a counted submit is written. */
    method LatestFiles(node: map<nat, NodeInfo>) returns (ghost rows: seq<Row>, ghost asked: set<nat>)
      modifies db`submits
      ensures asked == AskedOf(rows) && forall r | r in rows :: r.status == NotUploaded
      ensures |asked| == if |old(db.submits)| < LATEST then |old(db.submits)| else LATEST
      ensures asked <= old(db.submits).Keys
      ensures forall id, other | id in old(db.submits) - asked && other in asked :: id < other
      ensures db.submits == RefreshedAll(old(db.submits), asked, node)
      ensures forall s: State | s.submits == old(db.submits) ::
                s.(submits := db.submits) == At(s, Observes(rows, node), |rows|)
    {
      hide Refreshed, IsLatest;
      var submits := QueryDesc(LATEST);
      rows, asked := submits, AskedOf(submits);
      LatestRows(db.submits, submits);
      var unfinalized: seq<Row> := [];
      for i := 0 to |submits|
        invariant unfinalized == submits[..i]
      {
        if Rank(submits[i].status) < Rank(Pruned) {
          unfinalized := unfinalized + [submits[i]];
        }
      }
      assert unfinalized == submits;
      forall s: State | s.submits == db.submits
        ensures s.(submits := RefreshedAll(db.submits, asked, node)) == At(s, Observes(rows, node), |rows|)
      {
        RoundObserves(s, rows, node, |rows|);
        assert rows[..|rows|] == rows;
      }
      UpdateFileInfos(unfinalized, node);
    }

    /** `UpdateFileInfos` and `UpdateSubmitByPrimaryKey` for rows without status. */
    method UpdateFileInfos(rows: seq<Row>, node: map<nat, NodeInfo>)
      requires forall r | r in rows :: r.submissionIndex in db.submits && r.status == NotUploaded
      modifies db`submits
      ensures db.submits == RefreshedAll(old(db.submits), AskedOf(rows), node)
    {
      RefreshedNone(db.submits, node);
      for i := 0 to |rows|
        invariant db.submits == RefreshedAll(old(db.submits), AskedOf(rows[..i]), node)
      {
        hide Refreshed;
        var row := rows[i];
        RefreshedOneMore(old(db.submits), rows, i, node);
        var info := GetFileInfo(row.status, InfoOf(node, row.submissionIndex));
        if info.Some? {
          var submit := db.submits[row.submissionIndex];
          db.submits := db.submits[row.submissionIndex := submit.(status := info.value.status)];
        }
      }
      assert rows[..|rows|] == rows;
    }
  }

  lemma LatestRows(submits: Submits, rows: seq<Row>)
    requires IsLatest(submits, rows, submits.Keys - AskedOf(rows))
    ensures forall r | r in rows :: r.submissionIndex in submits && r.status == NotUploaded
    ensures AskedOf(rows) <= submits.Keys && |AskedOf(rows)| == |rows|
    ensures forall id, other | id in submits - AskedOf(rows) && other in AskedOf(rows) :: id < other
  {
    forall r | r in rows ensures r.submissionIndex in submits {
      assert r.submissionIndex in AskedOf(rows);
    }
  }

  lemma RefreshedNone(submits: Submits, node: map<nat, NodeInfo>)
    ensures RefreshedAll(submits, AskedOf([]), node) == submits
  {
  }

  lemma RefreshedOneMore(submits: Submits, rows: seq<Row>, i: nat, node: map<nat, NodeInfo>)
    requires i < |rows| && rows[i].submissionIndex in submits
    ensures var id, info := rows[i].submissionIndex, InfoOf(node, rows[i].submissionIndex);
            var before := RefreshedAll(submits, AskedOf(rows[..i]), node);
            RefreshedAll(submits, AskedOf(rows[..i + 1]), node) ==
            if NewStatus(NotUploaded, info).None? then before
            else before[id := before[id].(status := NewStatus(NotUploaded, info).value)]
  {
  }

  /** The writes of one round of the syncer, as actions of the state machine. */
  function Observes(rows: seq<Row>, node: map<nat, NodeInfo>): (actions: seq<Action>)
    ensures |actions| == |rows|
  {
    seq(|rows|, i requires 0 <= i < |rows| =>
      Observe(rows[i].submissionIndex, rows[i].status, InfoOf(node, rows[i].submissionIndex)))
  }

  /** A round of the syncer is a sequence of Observe actions, each for a file read without status. */
  lemma {:induction false} RoundObserves(s: State, rows: seq<Row>, node: map<nat, NodeInfo>, i: nat)
    requires forall r | r in rows :: r.submissionIndex in s.submits && r.status == NotUploaded
    requires i <= |rows|
    ensures At(s, Observes(rows, node), i) == s.(submits := RefreshedAll(s.submits, AskedOf(rows[..i]), node))
  {
    if i == 0 {
      RefreshedNone(s.submits, node);
    } else {
      hide Refreshed;
      RoundObserves(s, rows, node, i - 1);
      RefreshedOneMore(s.submits, rows, i - 1, node);
      assert rows[i - 1] in rows;
    }
  }

  lemma {:induction false} AtAppended(s0: State, actions: seq<Action>, more: seq<Action>, i: nat)
    requires i <= |more|
    ensures At(s0, actions + more, |actions| + i) == At(At(s0, actions, |actions|), more, i)
  {
    if i == 0 {
      AtPrefix(s0, actions, more, |actions|);
    } else {
      AtAppended(s0, actions, more, i - 1);
      assert (actions + more)[|actions| + i - 1] == more[i - 1];
    }
  }

  lemma {:induction false} AtPrefix(s0: State, actions: seq<Action>, more: seq<Action>, i: nat)
    requires i <= |actions|
    ensures At(s0, actions + more, i) == At(s0, actions, i)
  {
    if i > 0 {
      AtPrefix(s0, actions, more, i - 1);
    }
  }

  /** A round of the syncer at the end of a run goes on with the run. */
  lemma RoundContinuesRun(s0: State, actions: seq<Action>, rows: seq<Row>, node: map<nat, NodeInfo>)
    requires IsRun(s0, actions)
    requires forall r | r in rows :: r.submissionIndex in At(s0, actions, |actions|).submits && r.status == NotUploaded
    ensures var s, longer := At(s0, actions, |actions|), actions + Observes(rows, node);
            && IsRun(s0, longer)
            && At(s0, longer, |longer|) == s.(submits := RefreshedAll(s.submits, AskedOf(rows), node))
  {
    hide RefreshedAll, Next;
    var s, longer := At(s0, actions, |actions|), actions + Observes(rows, node);
    forall i | 0 <= i < |longer| ensures Enabled(At(s0, longer, i), longer[i]) {
      if i < |actions| {
        AtPrefix(s0, actions, Observes(rows, node), i);
      }
    }
    AtAppended(s0, actions, Observes(rows, node), |rows|);
    RoundObserves(s, rows, node, |rows|);
    assert rows[..|rows|] == rows;
  }

  /** A counted file among those asked for that the node knows something of. */
  ghost predicate ResetsSome(submits: Submits, asked: set<nat>, node: map<nat, NodeInfo>) {
    exists id :: id in asked && IsCounted(submits, id) && id in node && Reported(node[id]) != NotUploaded
  }

  lemma ResetIsLoss(submits: Submits, asked: set<nat>, node: map<nat, NodeInfo>)
    ensures forall owner: nat :: CountedBy(RefreshedAll(submits, asked, node), owner) <= CountedBy(submits, owner)
    ensures ResetsSome(submits, asked, node) <==>
            exists owner: nat :: CountedBy(RefreshedAll(submits, asked, node), owner) != CountedBy(submits, owner)
  {
    var after := RefreshedAll(submits, asked, node);
    if ResetsSome(submits, asked, node) {
      var id :| id in asked && IsCounted(submits, id) && id in node && Reported(node[id]) != NotUploaded;
      assert id in CountedBy(submits, submits[id].sender) && id !in CountedBy(after, submits[id].sender);
    }
    if owner: nat :| CountedBy(after, owner) != CountedBy(submits, owner) {
      var id :| id in CountedBy(submits, owner) && id !in CountedBy(after, owner);
      assert IsCounted(submits, id) && id in asked;
    }
  }

  /** After a round of the syncer the counts are right exactly when they were before it and
      the node knew nothing of any counted file among the latest. */
  lemma RoundKeepsExactIff(s0: State, actions: seq<Action>, rows: seq<Row>, node: map<nat, NodeInfo>)
    requires IsRun(s0, actions)
    requires forall r | r in rows :: r.submissionIndex in At(s0, actions, |actions|).submits && r.status == NotUploaded
    ensures var s, longer := At(s0, actions, |actions|), actions + Observes(rows, node);
            RowsAreExact(At(s0, longer, |longer|)) <==> RowsAreExact(s) && !ResetsSome(s.submits, AskedOf(rows), node)
  {
    hide RefreshedAll, CountedBy, At, IsRun, Loses, ValueAt, ResetsSome;
    var s, longer := At(s0, actions, |actions|), actions + Observes(rows, node);
    var after := At(s0, longer, |longer|);
    RoundContinuesRun(s0, actions, rows, node);
    ResetIsLoss(s.submits, AskedOf(rows), node);
    if RowsAreExact(after) {
      EarlierIsExact(s0, actions, Observes(rows, node));
      forall owner: nat ensures CountedBy(after.submits, owner) == CountedBy(s.submits, owner) {
        assert ValueAt(s.rows, owner) == |CountedBy(s.submits, owner)|;
        Ledger.SubsetSize(CountedBy(after.submits, owner), CountedBy(s.submits, owner));
      }
    }
  }

  lemma LossesStay(s0: State, actions: seq<Action>, more: seq<Action>)
    requires LosesBefore(s0, actions, |actions|)
    ensures LosesBefore(s0, actions + more, |actions + more|)
  {
    hide At, Loses;
    var longer := actions + more;
    var j: nat :| j < |actions| && Loses(At(s0, actions, j), actions[j]);
    AtPrefix(s0, actions, more, j);
    assert longer[j] == actions[j];
  }

  lemma EarlierIsExact(s0: State, actions: seq<Action>, more: seq<Action>)
    requires IsRun(s0, actions) && IsRun(s0, actions + more)
    requires RowsAreExact(At(s0, actions + more, |actions + more|))
    ensures RowsAreExact(At(s0, actions, |actions|))
  {
    hide RowsAreExact, At, IsRun, LosesBefore;
    RowsAreExactIff(s0, actions + more, |actions + more|);
    RowsAreExactIff(s0, actions, |actions|);
    if LosesBefore(s0, actions, |actions|) {
      LossesStay(s0, actions, more);
    }
  }

  predicate IsLast(ids: set<nat>, last: nat) {
    last in ids && forall id | id in ids :: id <= last
  }

  lemma {:induction false} LatestExists(ids: set<nat>)
    requires ids != {}
    ensures exists last :: IsLast(ids, last)
  {
    var x :| x in ids;
    if ids == {x} {
      assert IsLast(ids, x);
    } else {
      LatestExists(ids - {x});
      var y :| IsLast(ids - {x}, y);
      assert ids == ids - {x} + {x};
      assert IsLast(ids, if x < y then y else x);
    }
  }

  /** A counted submit among those asked for is reset whenever the node knows anything of it. */
  lemma AskedFileIsReset(submits: Submits, asked: set<nat>, node: map<nat, NodeInfo>, id: nat)
    requires id in asked && IsCounted(submits, id)
    ensures Refreshed(submits[id], id, asked, node).status == PrunedCounted <==>
            id !in node || Reported(node[id]) == NotUploaded
  {
  }
}
