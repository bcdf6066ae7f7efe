/** The miner ranking: one heap over the reward amount, paged by block number. */
module TopnReward {
  import opened Wrappers
  import opened Ledger
  import opened GoHeap
  import opened TopnSpec
  import opened BoundedTopn
  import opened TopnMachine

  const BATCH_IN_BNS: Positive := 1000
  const MAX_MINERS: Positive := 100

  datatype Miner = Miner(id: nat, amount: nat, wins: nat)

  datatype GroupedReward = GroupedReward(minerId: nat, amount: nat, wins: nat)

  datatype StatRange = StatRange(minPos: nat, maxPos: nat)

  datatype Error = FinalizedPosNotSynced | MinPosNotFinalized

  function MinerId(): Miner -> nat { (m: Miner) => m.id }

  function MinerAmount(): Miner -> nat { (m: Miner) => m.amount }

  function GroupId(): GroupedReward -> nat { (g: GroupedReward) => g.minerId }

  /** The row of a miner after counting its rewards in blocks lo..hi-1. */
  function UpdatedMiner(miners: map<nat, Miner>, events: seq<Event>, id: nat, lo: nat, hi: nat): Miner {
    var m := if id in miners then miners[id] else Miner(id, 0, 0);
    Miner(id, m.amount + Gain(Amount, events, id, lo, hi), m.wins + Gain(Files, events, id, lo, hi))
  }

  function UpdatedMiners(miners: map<nat, Miner>, events: seq<Event>, lo: nat, hi: nat): map<nat, Miner> {
    map id | id in Owners(events, lo, hi) :: UpdatedMiner(miners, events, id, lo, hi)
  }

  function Group(events: seq<Event>, id: nat, lo: nat, hi: nat): GroupedReward {
    GroupedReward(id, Gain(Amount, events, id, lo, hi), Gain(Files, events, id, lo, hi))
  }

  function Groups(events: seq<Event>, lo: nat, hi: nat): map<nat, GroupedReward> {
    map id | id in Owners(events, lo, hi) :: Group(events, id, lo, hi)
  }

  /** The group of a single reward. */
  lemma GroupOfOne(e: Event, lo: nat, hi: nat)
    ensures Groups([e], lo, hi) ==
            if lo <= e.pos < hi then map[e.owner := GroupedReward(minerId := e.owner, amount := e.amount, wins := 1)]
            else map[]
  {
    OneEventGains(e, e.owner, lo, hi);
  }

  /** The group holds the sum of its miner's rewards in the range and their number. */
  ghost predicate IsGroup(g: GroupedReward, events: seq<Event>, lo: nat, hi: nat) {
    && g.amount == Total(AmountOf(), events, OwnedWithin(g.minerId, lo, hi))
    && g.wins == |Places(events, g.minerId, lo, hi)|
  }

  lemma GroupIsRight(events: seq<Event>, id: nat, lo: nat, hi: nat)
    ensures IsGroup(Group(events, id, lo, hi), events, lo, hi)
  {
    SumsAreTotals(events, id, lo, hi);
    CountsAreNumbers(events, id, lo, hi);
  }

  /** One right group for each miner of a set. */
  ghost predicate Grouped(groups: seq<GroupedReward>, events: seq<Event>, lo: nat, hi: nat, done: set<nat>) {
    && ById(GroupId(), groups) == (map id | id in done :: Group(events, id, lo, hi))
    && |groups| == |done|
    && forall g | g in groups :: IsGroup(g, events, lo, hi)
  }

  lemma NothingGrouped(events: seq<Event>, lo: nat, hi: nat)
    ensures Grouped([], events, lo, hi, {})
  {
  }

  lemma GroupedOneMore(groups: seq<GroupedReward>, events: seq<Event>, lo: nat, hi: nat, done: set<nat>, id: nat)
    requires Grouped(groups, events, lo, hi, done) && id !in done
    ensures Grouped(groups + [Group(events, id, lo, hi)], events, lo, hi, done + {id})
  {
    hide Gain, IsGroup;
    var g := Group(events, id, lo, hi);
    ByIdAppend(GroupId(), groups, g);
    GroupIsRight(events, id, lo, hi);
    assert g.minerId == id;
  }

  lemma AllGrouped(groups: seq<GroupedReward>, events: seq<Event>, lo: nat, hi: nat)
    requires Grouped(groups, events, lo, hi, Owners(events, lo, hi))
    ensures ById(GroupId(), groups) == Groups(events, lo, hi) && |groups| == |Owners(events, lo, hi)|
    ensures forall g | g in groups :: IsGroup(g, events, lo, hi)
  {
    hide Group, IsGroup;
  }

  function AddGroup(miners: map<nat, Miner>, g: GroupedReward): Miner {
    var m := if g.minerId in miners then miners[g.minerId] else Miner(g.minerId, 0, 0);
    Miner(g.minerId, m.amount + g.amount, m.wins + g.wins)
  }

  function AddGroups(miners: map<nat, Miner>, groups: map<nat, GroupedReward>): map<nat, Miner> {
    map id | id in groups :: AddGroup(miners, groups[id])
  }

  lemma AddOneMore(miners: map<nat, Miner>, groups: map<nat, GroupedReward>, g: GroupedReward)
    ensures AddGroups(miners, groups[g.minerId := g]) == AddGroups(miners, groups)[g.minerId := AddGroup(miners, g)]
  {
  }

  lemma AddGroupKeepsId(miners: map<nat, Miner>, g: GroupedReward)
    ensures AddGroup(miners, g).id == g.minerId
  {
  }

  lemma AddedOneMore(miners: map<nat, Miner>, groups: seq<GroupedReward>, i: nat, updates: seq<Miner>)
    requires i < |groups|
    requires ById(MinerId(), updates) == AddGroups(miners, ById(GroupId(), groups[..i]))
    ensures ById(MinerId(), updates + [AddGroup(miners, groups[i])]) ==
            AddGroups(miners, ById(GroupId(), groups[..i + 1]))
  {
    hide AddGroup, AddGroups, ById;
    AddGroupKeepsId(miners, groups[i]);
    assert groups[..i + 1] == groups[..i] + [groups[i]];
    ByIdAppend(MinerId(), updates, AddGroup(miners, groups[i]));
    ByIdAppend(GroupId(), groups[..i], groups[i]);
    AddOneMore(miners, ById(GroupId(), groups[..i]), groups[i]);
  }

  lemma AddedGroups(miners: map<nat, Miner>, events: seq<Event>, lo: nat, hi: nat)
    ensures AddGroups(miners, Groups(events, lo, hi)) == UpdatedMiners(miners, events, lo, hi)
  {
  }

  /** The updated rows carry, in the ranked column, the updates of the state machine. */
  lemma UpdatesMatch(c: Config, s: State, miners: map<nat, Miner>, end: nat)
    requires c.field == Amount
    requires s.table == KeysOf(MinerAmount(), miners)
    ensures KeysOf(MinerAmount(), UpdatedMiners(miners, s.chain.events, s.pos, end)) == Updated(c, s, end)
    ensures KeysOf(MinerAmount(), miners + UpdatedMiners(miners, s.chain.events, s.pos, end)) ==
            s.table + Updated(c, s, end)
  {
  }

  /** The miner's row after the batch, whether or not the batch touches it. */
  lemma RowAfterBatch(miners: map<nat, Miner>, events: seq<Event>, lo: nat, hi: nat, id: nat)
    requires KeyedById(MinerId(), miners)
    requires id in miners || id in Owners(events, lo, hi)
    ensures (miners + UpdatedMiners(miners, events, lo, hi))[id] == UpdatedMiner(miners, events, id, lo, hi)
  {
    if id !in Owners(events, lo, hi) {
      GainIsZero(Amount, events, id, lo, hi);
      GainIsZero(Files, events, id, lo, hi);
    }
  }

  lemma UpdatesCompose(miners: map<nat, Miner>, half: map<nat, Miner>, events: seq<Event>, lo: nat, mid: nat, hi: nat,
                       id: nat)
    requires lo <= mid <= hi
    requires if id in half then half[id] == UpdatedMiner(miners, events, id, lo, mid)
             else id !in miners && id !in Owners(events, lo, mid)
    ensures UpdatedMiner(half, events, id, mid, hi) == UpdatedMiner(miners, events, id, lo, hi)
  {
    SumSplits(Amount, events, id, lo, mid, hi);
    SumSplits(Files, events, id, lo, mid, hi);
    if id !in half {
      GainIsZero(Amount, events, id, lo, mid);
      GainIsZero(Files, events, id, lo, mid);
    }
  }

  /** Two adjacent batches leave what one batch over both would: amounts and win counts
      do not depend on where the batches were cut. */
  lemma BatchesCompose(miners: map<nat, Miner>, events: seq<Event>, lo: nat, mid: nat, hi: nat)
    requires KeyedById(MinerId(), miners)
    requires lo <= mid <= hi
    ensures miners + UpdatedMiners(miners, events, lo, hi) ==
            var half := miners + UpdatedMiners(miners, events, lo, mid);
            half + UpdatedMiners(half, events, mid, hi)
  {
    var half := miners + UpdatedMiners(miners, events, lo, mid);
    var both, one := half + UpdatedMiners(half, events, mid, hi), miners + UpdatedMiners(miners, events, lo, hi);
    assert Owners(events, lo, hi) == Owners(events, lo, mid) + Owners(events, mid, hi);
    assert both.Keys == one.Keys;
    forall id | id in one ensures both[id] == one[id] {
      hide UpdatedMiner;
      if id in half {
        RowAfterBatch(miners, events, lo, mid, id);
      }
      RowAfterBatch(miners, events, lo, hi, id);
      RowAfterBatch(half, events, mid, hi, id);
      UpdatesCompose(miners, half, events, lo, mid, hi, id);
    }
  }

  /** The tables and config entries of the statistics task. */
  class Database {
    var chain: Chain
    var miners: map<nat, Miner>
    var heapConfig: Option<seq<Miner>>
    var bnConfig: Option<nat>

    ghost predicate Valid()
      reads this
    {
      KeyedById(MinerId(), miners)
    }

    /** One row per miner with a reward in blocks lo..hi-1, in no particular order. */
    method GroupByMiner(lo: nat, hi: nat) returns (groups: seq<GroupedReward>)
      ensures ById(GroupId(), groups) == Groups(chain.events, lo, hi)
      ensures |groups| == |Owners(chain.events, lo, hi)|
      ensures forall g | g in groups :: IsGroup(g, chain.events, lo, hi)
    {
      hide Grouped, Group, IsGroup;
      groups := [];
      ghost var done: set<nat> := {};
      var todo := Owners(chain.events, lo, hi);
      NothingGrouped(chain.events, lo, hi);
      while todo != {}
        invariant todo <= Owners(chain.events, lo, hi) && done == Owners(chain.events, lo, hi) - todo
        invariant Grouped(groups, chain.events, lo, hi, done)
        decreases todo
      {
        var id :| id in todo;
        GroupedOneMore(groups, chain.events, lo, hi, done, id);
        groups, todo := groups + [Group(chain.events, id, lo, hi)], todo - {id};
        done := done + {id};
      }
      assert done == Owners(chain.events, lo, hi);
      AllGrouped(groups, chain.events, lo, hi);
    }
  }

  function StoredList(heapConfig: Option<seq<Miner>>): Option<seq<Entry>> {
    match heapConfig
    case None => None
    case Some(list) => Some(Ranked(MinerId(), MinerAmount(), list))
  }

  ghost function StateOf(db: Database, pos: nat, rows: seq<Miner>): State
    reads db
  {
    State(db.chain, KeysOf(MinerAmount(), db.miners), db.bnConfig,
          StoredList(db.heapConfig),
          pos, Ranked(MinerId(), MinerAmount(), rows))
  }

  function TaskConfig(start: nat): Config {
    Config(MAX_MINERS, BATCH_IN_BNS, start, Amount)
  }

  class TopnReward {
    const db: Database
    const start: nat
    const heap: BoundedHeap<Miner>
    var currentPos: nat

    ghost predicate Valid()
      reads this, db, heap, heap.heap
    {
      && db.Valid()
      && heap.Valid()
      && heap.n == MAX_MINERS && heap.id == MinerId() && heap.key == MinerAmount()
    }

    /** The heap is the old one or a new one, and so are its entries. */
    twostate predicate NewHeapOnly(before: Heap<Miner>, entries: seq<Item<Miner>>)
      reads heap, heap.heap
    {
      && (fresh(heap.heap) || heap.heap == before)
      && fresh(Pointers(heap.heap.items) - Pointers(entries))
    }

    ghost function Settings(): Config {
      TaskConfig(start)
    }

    ghost function Current(): State
      reads this, db, heap, heap.heap
    {
      StateOf(db, currentPos, heap.Rows())
    }

    lemma CurrentParts()
      ensures Current().chain == db.chain && Current().pos == currentPos
    {
    }

    /** `MustNewTopnReward`: load the heap, or initialize it from the table; load the cursor. */
    constructor (db: Database, start: nat)
      requires db.Valid()
      modifies db`heapConfig
      ensures Valid() && this.db == db && this.start == start
      ensures fresh(heap) && fresh(heap.heap) && fresh(Pointers(heap.heap.items))
      ensures forall pos, rows :: BootStep(Settings(), old(StateOf(db, pos, rows)), Current())
      ensures currentPos == if db.bnConfig.Some? then db.bnConfig.value + 1 else start
    {
      this.db, this.start := db, start;
      var h := new BoundedHeap<Miner>(MAX_MINERS, MinerId(), MinerAmount());
      heap := h;
      currentPos := Resume(start, db.bnConfig);
      new;
      if db.heapConfig.Some? {
        h.Load(db.heapConfig.value);
        RankedPermuted(MinerId(), MinerAmount(), h.Rows(), db.heapConfig.value);
      } else {
        var rows := QueryTopn(MAX_MINERS, MinerId(), MinerAmount(), db.miners);
        h.Load(rows);
        var snapshot := h.Snapshot();
        InitIsTopn(db.miners, rows, snapshot);
        db.heapConfig := Some(snapshot);
      }
    }

    method NextStatRange() returns (r: Result<StatRange, Error>)
      requires Valid()
      ensures match NextEnd(db.chain, currentPos, BATCH_IN_BNS)
              case Some(end) => r == Ok(StatRange(currentPos, end - 1))
              case None => r == Err(if LastFinalized(db.chain).None? then FinalizedPosNotSynced else MinPosNotFinalized)
      ensures r.Ok? <==> currentPos < SettledEnd(db.chain)
      ensures r.Ok? ==> r.value.minPos == currentPos
      ensures r.Ok? ==> r.value.maxPos + 1 == if SettledEnd(db.chain) < currentPos + BATCH_IN_BNS
                                              then SettledEnd(db.chain) else currentPos + BATCH_IN_BNS
      ensures r == Err(FinalizedPosNotSynced) <==> SettledEnd(db.chain) == 0
    {
      var minPos, maxPos := currentPos, currentPos + BATCH_IN_BNS - 1;
      var finalizedPos := LastFinalized(db.chain);
      if finalizedPos.None? {
        return Err(FinalizedPosNotSynced);
      }
      if finalizedPos.value < minPos {
        return Err(MinPosNotFinalized);
      }
      maxPos := if finalizedPos.value < maxPos then finalizedPos.value else maxPos;
      return Ok(StatRange(minPos, maxPos));
    }

    /** The rows to write: the stored ones plus the grouped rewards. */
    method CollectUpdates(r: StatRange) returns (updates: seq<Miner>)
      ensures ById(MinerId(), updates) == UpdatedMiners(db.miners, db.chain.events, r.minPos, r.maxPos + 1)
    {
      var groups := db.GroupByMiner(r.minPos, r.maxPos + 1);
      updates := [];
      for i := 0 to |groups|
        invariant ById(MinerId(), updates) == AddGroups(db.miners, ById(GroupId(), groups[..i]))
      {
        AddedOneMore(db.miners, groups, i, updates);
        updates := updates + [AddGroup(db.miners, groups[i])];
      }
      assert groups[..|groups|] == groups;
      AddedGroups(db.miners, db.chain.events, r.minPos, r.maxPos + 1);
    }

    /** The row writes of the transaction: what the tables would hold, with the heap
        re-sorted on the way. Nothing is in the database yet. */
    method Stage(updates: seq<Miner>, ghost end: Positive)
      returns (miners: map<nat, Miner>, heapConfig: Option<seq<Miner>>)
      requires Valid()
      requires ById(MinerId(), updates) == UpdatedMiners(db.miners, db.chain.events, currentPos, end)
      modifies heap`heap, Pointers(heap.heap.items)`index
      ensures Valid() && NewHeapOnly(old(heap.heap), old(heap.heap.items))
      ensures miners == db.miners + UpdatedMiners(db.miners, db.chain.events, currentPos, end)
      ensures KeyedById(MinerId(), miners)
      ensures Staged(Settings(), old(Current()), Current(), KeysOf(MinerAmount(), miners), StoredList(heapConfig), end)
      ensures Failed(Settings(), old(Current()), Current(), end)
      ensures updates == [] ==> Current() == old(Current())
    {
      hide UpdatedMiners, Updated, Failed, Staged, Resorted, EntriesOf, KeysOf;
      miners, heapConfig := db.miners, db.heapConfig;
      ghost var s := Current();
      if |updates| > 0 {
        miners := miners + ById(MinerId(), updates);
        var snapshot := heap.Resort(updates);
        heapConfig := Some(snapshot);
      }
      BatchIsStaged(Settings(), s, db.miners, updates, miners, Current(), heapConfig, end);
      StagedAborts(Settings(), s, Current(), KeysOf(MinerAmount(), miners), StoredList(heapConfig), end);
    }

    /** The commit: the staged rows, the snapshot and the cursor reach the database together. */
    method Commit(miners: map<nat, Miner>, heapConfig: Option<seq<Miner>>, maxPos: nat, ghost s: State)
      requires Valid()
      requires KeyedById(MinerId(), miners)
      requires Staged(Settings(), s, Current(), KeysOf(MinerAmount(), miners), StoredList(heapConfig), maxPos + 1)
      modifies this`currentPos, db`miners, db`heapConfig, db`bnConfig
      ensures Valid() && db.miners == miners && db.heapConfig == heapConfig
      ensures db.bnConfig == Some(maxPos) && currentPos == maxPos + 1
      ensures Committed(Settings(), s, Current(), maxPos + 1)
    {
      hide Staged, Committed, KeysOf, Ranked;
      ghost var s1 := Current();
      db.miners, db.heapConfig, db.bnConfig := miners, heapConfig, Some(maxPos);
      currentPos := maxPos + 1;
      StagedCommits(Settings(), s, s1, Current(), maxPos + 1);
    }

    method CalculateStat(r: StatRange, fault: Fault) returns (ok: bool)
      requires Valid()
      requires r.minPos == currentPos
      modifies this`currentPos, db`miners, db`heapConfig, db`bnConfig, heap`heap, Pointers(heap.heap.items)`index
      ensures Valid() && NewHeapOnly(old(heap.heap), old(heap.heap.items))
      ensures ok <==> fault == NoFault
      ensures ok ==> db.miners ==
                     old(db.miners) + UpdatedMiners(old(db.miners), db.chain.events, r.minPos, r.maxPos + 1)
      ensures !ok ==> db.miners == old(db.miners)
      ensures ok ==> Committed(Settings(), old(Current()), Current(), r.maxPos + 1)
      ensures fault == LateFault ==> Failed(Settings(), old(Current()), Current(), r.maxPos + 1)
      ensures fault == ReadFault || fault == EarlyFault ==> Current() == old(Current())
    {
      hide Committed, Failed, UpdatedMiners;
      ok := false;
      if fault != ReadFault {
        var updates := CollectUpdates(r);
        if updates == [] || fault != EarlyFault {
          ok := Transact(r, updates, fault);
        }
      }
    }

    /** One round of `AbsTopn.DoStat`. */
    method Attempt(fault: Fault) returns (ok: bool)
      requires Valid()
      modifies this`currentPos, db`miners, db`heapConfig, db`bnConfig, heap`heap, Pointers(heap.heap.items)`index
      ensures Valid() && NewHeapOnly(old(heap.heap), old(heap.heap.items))
      ensures ok <==> fault == NoFault && old(currentPos) < SettledEnd(db.chain)
      ensures old(currentPos) <= currentPos && (ok <==> old(currentPos) != currentPos)
      ensures db.miners == if !ok then old(db.miners) else
                           old(db.miners) + UpdatedMiners(old(db.miners), db.chain.events, old(currentPos), currentPos)
      ensures Attempted(Settings(), old(Current()), Current(), fault)
    {
      hide Committed, Failed, NextEnd, UpdatedMiners, Attempted, SettledEnd;
      ghost var s := Current();
      var r := NextStatRange();
      ok := r.Ok?;
      if ok {
        ok := CalculateStat(r.value, fault);
        CommitMovesCursor(Settings(), s, Current(), r.value.maxPos + 1);
        BatchIsAttempt(Settings(), s, Current(), r.value.maxPos + 1, fault);
      } else {
        NothingIsAttempt(Settings(), s, fault);
      }
    }

    /** Another task registers a miner that has no row yet. */
    method Register(id: nat)
      requires Valid()
      modifies db`miners
      ensures Valid()
      ensures db.miners == if id in old(db.miners) then old(db.miners) else old(db.miners)[id := Miner(id, 0, 0)]
      ensures Registered(old(Current()), Current(), id)
    {
      if id !in db.miners {
        db.miners := db.miners[id := Miner(id, 0, 0)];
      }
    }

    /** The transaction: its writes reach the tables at the end or not at all. */
    method Transact(r: StatRange, updates: seq<Miner>, fault: Fault) returns (ok: bool)
      requires Valid()
      requires r.minPos == currentPos
      requires ById(MinerId(), updates) == UpdatedMiners(db.miners, db.chain.events, r.minPos, r.maxPos + 1)
      modifies this`currentPos, db`miners, db`heapConfig, db`bnConfig, heap`heap, Pointers(heap.heap.items)`index
      ensures Valid() && NewHeapOnly(old(heap.heap), old(heap.heap.items))
      ensures ok <==> fault == NoFault
      ensures ok ==> db.miners ==
                     old(db.miners) + UpdatedMiners(old(db.miners), db.chain.events, r.minPos, r.maxPos + 1)
      ensures !ok ==> db.miners == old(db.miners)
      ensures ok ==> Committed(Settings(), old(Current()), Current(), r.maxPos + 1)
      ensures !ok ==> Failed(Settings(), old(Current()), Current(), r.maxPos + 1)
      ensures !ok && updates == [] ==> Current() == old(Current())
    {
      hide UpdatedMiners, Updated, Committed, Failed, Staged, KeysOf, Current, StateOf, NewHeapOnly, ById, Ranked;
      ghost var s := Current();
      var miners, heapConfig := Stage(updates, r.maxPos + 1);
      ok := fault == NoFault;
      if ok {
        Commit(miners, heapConfig, r.maxPos, s);
      }
    }
  }

  /** One round of `AbsTopn.DoStat`, and what can happen between rounds. */
  datatype Action = Attempt(fault: Fault) | Restart | Register(id: nat)

  /** What an action does to the state of the machine. */
  ghost predicate Did(c: Config, s: State, s': State, action: Action) {
    match action
    case Attempt(fault) => Attempted(c, s, s', fault)
    case Restart => BootStep(c, s, s')
    case Register(id) => Registered(s, s', id)
  }

  lemma DidIsStep(c: Config, s: State, s': State, action: Action)
    requires Did(c, s, s', action)
    ensures Step(c, s, s')
  {
    hide Attempted, BootStep, Registered, Step;
    match action {
      case Attempt(fault) => AttemptIsStep(c, s, s', fault);
      case Restart => BootIsStep(c, s, s');
      case Register(id) => RegisteredIsStep(c, s, s', id);
    }
  }

  /** Round i of the run: the chain becomes the i-th, then the i-th action happens. */
  ghost predicate FollowsAt(c: Config, run: seq<State>, script: seq<Action>, chains: seq<Chain>, i: nat)
    requires i < |script| == |chains| && 2 * i + 2 < |run|
  {
    run[2 * i + 1] == run[2 * i].(chain := chains[i]) && Did(c, run[2 * i + 1], run[2 * i + 2], script[i])
  }

  // ------------------------------------------------- the rows

  function RowOf(miners: map<nat, Miner>, id: nat): Miner {
    if id in miners then miners[id] else Miner(id, 0, 0)
  }

  /** Every row is the one before, plus its miner's rewards in blocks start..pos-1: each counted
      once, in the amount and in the number of wins. */
  ghost predicate RowsCount(before: map<nat, Miner>, miners: map<nat, Miner>, events: seq<Event>, start: nat,
                            pos: nat) {
    && before.Keys <= miners.Keys
    && forall id: nat ::
         && RowOf(miners, id).amount == RowOf(before, id).amount + Gain(Amount, events, id, start, pos)
         && RowOf(miners, id).wins == RowOf(before, id).wins + Gain(Files, events, id, start, pos)
  }

  lemma RowsAtFirst(miners: map<nat, Miner>, events: seq<Event>, start: nat)
    ensures RowsCount(miners, miners, events, start, start)
  {
    forall id: nat ensures Gain(Amount, events, id, start, start) == 0 == Gain(Files, events, id, start, start) {
      EmptyRange(Amount, events, id, start);
      EmptyRange(Files, events, id, start);
    }
  }

  lemma RowsAfterSync(before: map<nat, Miner>, miners: map<nat, Miner>, c: Chain, c': Chain, start: nat, pos: nat)
    requires RowsCount(before, miners, c.events, start, pos)
    requires WellFormed(c) && ChainStep(c, c') && (pos == start || pos <= SettledEnd(c))
    ensures RowsCount(before, miners, c'.events, start, pos)
  {
    hide WellFormed, ChainStep, Continues, SettledEnd;
    SettledIsFinal(c, c');
    forall id: nat
      ensures Gain(Amount, c'.events, id, start, pos) == Gain(Amount, c.events, id, start, pos)
      ensures Gain(Files, c'.events, id, start, pos) == Gain(Files, c.events, id, start, pos)
    {
      if pos == start {
        EmptyRange(Amount, c.events, id, start);
        EmptyRange(Amount, c'.events, id, start);
        EmptyRange(Files, c.events, id, start);
        EmptyRange(Files, c'.events, id, start);
      } else {
        SettledQueryIsFinal(Amount, c, c', id, start, pos);
        SettledQueryIsFinal(Files, c, c', id, start, pos);
      }
    }
  }

  lemma RowsAfterBatch(before: map<nat, Miner>, miners: map<nat, Miner>, events: seq<Event>, start: nat, pos: nat,
                       end: nat)
    requires RowsCount(before, miners, events, start, pos) && start <= pos <= end
    ensures RowsCount(before, miners + UpdatedMiners(miners, events, pos, end), events, start, end)
  {
    hide Gain;
    var more := miners + UpdatedMiners(miners, events, pos, end);
    forall id: nat
      ensures RowOf(more, id).amount == RowOf(before, id).amount + Gain(Amount, events, id, start, end)
      ensures RowOf(more, id).wins == RowOf(before, id).wins + Gain(Files, events, id, start, end)
    {
      GainSplits(events, id, start, pos, end);
      if id !in Owners(events, pos, end) {
        GainIsZero(Amount, events, id, pos, end);
        GainIsZero(Files, events, id, pos, end);
      }
    }
  }

  lemma GainSplits(events: seq<Event>, id: nat, lo: nat, mid: nat, hi: nat)
    requires lo <= mid <= hi
    ensures Gain(Amount, events, id, lo, hi) == Gain(Amount, events, id, lo, mid) + Gain(Amount, events, id, mid, hi)
    ensures Gain(Files, events, id, lo, hi) == Gain(Files, events, id, lo, mid) + Gain(Files, events, id, mid, hi)
  {
    SumSplits(Amount, events, id, lo, mid, hi);
    SumSplits(Files, events, id, lo, mid, hi);
  }

  /** What an action does to the table, when the cursor goes from `pos` to `pos'`. */
  ghost predicate RowsDid(miners: map<nat, Miner>, miners': map<nat, Miner>, events: seq<Event>, pos: nat, pos': nat,
                          action: Action) {
    match action
    case Attempt(_) => pos <= pos' && miners' == miners + UpdatedMiners(miners, events, pos, pos')
    case Restart => pos' == pos && miners' == miners
    case Register(id) => pos' == pos && miners' == if id in miners then miners else miners[id := Miner(id, 0, 0)]
  }

  lemma RowsAfterAction(before: map<nat, Miner>, miners: map<nat, Miner>, miners': map<nat, Miner>, events: seq<Event>,
                        start: nat, pos: nat, pos': nat, action: Action)
    requires RowsCount(before, miners, events, start, pos) && start <= pos
    requires RowsDid(miners, miners', events, pos, pos', action)
    ensures RowsCount(before, miners', events, start, pos')
  {
    hide Gain, UpdatedMiners;
    if action.Attempt? {
      RowsAfterBatch(before, miners, events, start, pos, pos');
    }
  }

  /** A round keeps the rows right. */
  lemma RowsAfterRound(c: Config, run: seq<State>, before: map<nat, Miner>, miners: map<nat, Miner>,
                       miners': map<nat, Miner>, chain: Chain, pos': nat, action: Action)
    requires IsRun(c, run) && run != [] && ChainStep(run[|run| - 1].chain, chain)
    requires RowsCount(before, miners, run[|run| - 1].chain.events, c.start, run[|run| - 1].pos)
    requires RowsDid(miners, miners', chain.events, run[|run| - 1].pos, pos', action)
    ensures RowsCount(before, miners', chain.events, c.start, pos')
  {
    hide RowsCount, RowsDid, IsRun, ChainStep, WellFormed, SettledEnd;
    var s := run[|run| - 1];
    RunIsSound(c, run, |run| - 1);
    RowsAfterSync(before, miners, s.chain, chain, c.start, s.pos);
    RowsAfterAction(before, miners, miners', chain.events, c.start, s.pos, pos', action);
  }

  // ------------------------------------------------- the whole operation

  /** The task from its first start through any script of attempts, failures, restarts and
      registered miners, while the synced chain moves under it: a run of the state machine that
      does what the script says. Every reward up to the stored position is in the rows, once, and
      the stored list is a ranked top-n of them. */
  method Operate(db: Database, start: nat, script: seq<Action>, chains: seq<Chain>) returns (ghost run: seq<State>)
    requires db.Valid() && WellFormed(db.chain)
    requires db.heapConfig == None && db.bnConfig == None
    requires |chains| == |script| && ChainHistory(db.chain, chains)
    modifies db
    ensures IsRun(TaskConfig(start), run) && |run| == 2 * |script| + 1
    ensures forall i | 0 <= i < |script| :: FollowsAt(TaskConfig(start), run, script, chains, i)
    ensures RowsCount(old(db.miners), db.miners, db.chain.events, start, Resume(start, db.bnConfig))
    ensures db.heapConfig.Some?
    ensures IsTopn(MAX_MINERS, ValueIn(KeysOf(MinerAmount(), db.miners)),
                   Ranked(MinerId(), MinerAmount(), db.heapConfig.value))
    ensures DescendingKeys(Ranked(MinerId(), MinerAmount(), db.heapConfig.value))
  {
    hide DescendingKeys, RowsCount, RowsDid, FollowsAt, Did;
    hide Step, IsTopn, ChainStep, BootStep, WellFormed, IsRun, KeysOf, Ranked, TopnReward.Current;
    ghost var chain0, before := db.chain, db.miners;
    var task := new TopnReward(db, start);
    run := [task.Current()];
    FirstRun(TaskConfig(start), old(StateOf(db, 0, [])), task.Current());
    RowsAtFirst(before, db.chain.events, start);
    for i := 0 to |script|
      invariant task.Valid() && task.db == db && task.start == start
      invariant fresh(task) && fresh(task.heap) && fresh(task.heap.heap) && fresh(Pointers(task.heap.heap.items))
      invariant IsRun(TaskConfig(start), run) && |run| == 2 * i + 1 && run[2 * i] == task.Current()
      invariant forall j | 0 <= j < i :: FollowsAt(TaskConfig(start), run, script, chains, j)
      invariant RowsCount(before, db.miners, db.chain.events, start, task.currentPos)
      invariant db.chain == if i == 0 then chain0 else chains[i - 1]
    {
      ChainMoves(chain0, chains, i);
      ghost var shorter, miners := run, db.miners;
      task.CurrentParts();
      task, run := Round(task, chains[i], script[i], run);
      RowsAfterRound(TaskConfig(start), shorter, before, miners, db.miners, chains[i], task.currentPos, script[i]);
      FollowsLonger(TaskConfig(start), shorter, run, script, chains, i);
    }
    ListIsTopn(task, run);
  }

  /** The table and the stored list, as the last state of the run has them. */
  lemma ListIsTopn(task: TopnReward, run: seq<State>)
    requires IsRun(task.Settings(), run) && run != [] && run[|run| - 1] == task.Current()
    ensures task.currentPos == Resume(task.start, task.db.bnConfig)
    ensures task.db.heapConfig.Some?
    ensures IsTopn(MAX_MINERS, ValueIn(KeysOf(MinerAmount(), task.db.miners)),
                   Ranked(MinerId(), MinerAmount(), task.db.heapConfig.value))
    ensures DescendingKeys(Ranked(MinerId(), MinerAmount(), task.db.heapConfig.value))
  {
    hide IsRun, IsTopn, KeysOf, Ranked, DescendingKeys;
    RunIsSound(task.Settings(), run, |run| - 1);
    StoredListIsTopn(task.Settings(), run, |run| - 1);
  }

  lemma FollowsLonger(c: Config, run: seq<State>, more: seq<State>, script: seq<Action>, chains: seq<Chain>, i: nat)
    requires i < |script| == |chains| && |run| == 2 * i + 1
    requires forall j | 0 <= j < i :: FollowsAt(c, run, script, chains, j)
    requires |more| == 2 * i + 3 && more == run + [more[2 * i + 1], more[2 * i + 2]]
    requires more[2 * i + 1] == more[2 * i].(chain := chains[i]) && Did(c, more[2 * i + 1], more[2 * i + 2], script[i])
    ensures forall j | 0 <= j < i + 1 :: FollowsAt(c, more, script, chains, j)
  {
    hide Did;
    forall j | 0 <= j < i + 1 ensures FollowsAt(c, more, script, chains, j) {
      if j < i {
        assert FollowsAt(c, run, script, chains, j);
      }
    }
  }

  /** The chain moves, then something happens to the task: the run goes on, with the states that
      the chain and the action say. */
  method Round(task: TopnReward, chain: Chain, action: Action, ghost run: seq<State>)
    returns (task': TopnReward, ghost run': seq<State>)
    requires task.Valid() && ChainStep(task.db.chain, chain)
    requires IsRun(task.Settings(), run) && run[|run| - 1] == task.Current()
    modifies task`currentPos, task.db`chain, task.db`miners, task.db`heapConfig, task.db`bnConfig
    modifies task.heap`heap, Pointers(task.heap.heap.items)`index
    ensures task'.Valid() && task'.db == task.db && task'.start == task.start && task'.db.chain == chain
    ensures task' == task || (fresh(task') && fresh(task'.heap))
    ensures fresh(task'.heap.heap) || task'.heap.heap == old(task.heap.heap)
    ensures fresh(Pointers(task'.heap.heap.items) - old(Pointers(task.heap.heap.items)))
    ensures var s := old(task.Current()).(chain := chain);
            run' == run + [s, task'.Current()] && Did(task.Settings(), s, task'.Current(), action)
    ensures IsRun(task'.Settings(), run')
    ensures RowsDid(old(task.db.miners), task.db.miners, chain.events, old(task.currentPos), task'.currentPos, action)
  {
    hide Step, ChainStep, IsRun, Did, RowsDid, Sound;
    ghost var c := task.Settings();
    ghost var s := task.Current();
    task.db.chain := chain;
    SyncIsStep(c, s, task.Current());
    RunContinues(c, run, task.Current());
    run' := run + [task.Current()];
    AtStoredPosition(c, run', task.Current());
    task' := Act(task, action);
    DidIsStep(c, s.(chain := chain), task'.Current(), action);
    RunContinues(c, run', task'.Current());
    run' := run' + [task'.Current()];
  }

  lemma AtStoredPosition(c: Config, run: seq<State>, s: State)
    requires IsRun(c, run) && run[|run| - 1] == s
    ensures s.pos == Resume(c.start, s.stored)
  {
    RunIsSound(c, run, |run| - 1);
  }

  method Act(task: TopnReward, action: Action) returns (task': TopnReward)
    requires task.Valid() && task.currentPos == Resume(task.start, task.db.bnConfig)
    modifies task`currentPos, task.db`miners, task.db`heapConfig, task.db`bnConfig
    modifies task.heap`heap, Pointers(task.heap.heap.items)`index
    ensures task'.Valid() && task'.db == task.db && task'.start == task.start
    ensures task' == task || (fresh(task') && fresh(task'.heap))
    ensures fresh(task'.heap.heap) || task'.heap.heap == old(task.heap.heap)
    ensures fresh(Pointers(task'.heap.heap.items) - old(Pointers(task.heap.heap.items)))
    ensures Did(task.Settings(), old(task.Current()), task'.Current(), action)
    ensures RowsDid(old(task.db.miners), task.db.miners, task.db.chain.events, old(task.currentPos), task'.currentPos,
                    action)
  {
    hide BootStep, Attempted, UpdatedMiners;
    task' := task;
    match action {
      case Attempt(fault) =>
        var ok := task.Attempt(fault);
        if !ok {
          NothingUpdated(task.db.miners, task.db.chain.events, task.currentPos);
        }
      case Restart =>
        task' := new TopnReward(task.db, task.start);
      case Register(id) =>
        task.Register(id);
    }
  }

  lemma NothingUpdated(miners: map<nat, Miner>, events: seq<Event>, pos: nat)
    ensures miners + UpdatedMiners(miners, events, pos, pos) == miners
  {
    assert Owners(events, pos, pos) == {};
  }

  /** The loop of `AbsTopn.DoStat` while nothing fails and the chain stands still, up to its first
      pause: every reward that is settled has been counted. */
  method CatchUp(task: TopnReward, ghost run: seq<State>) returns (ghost run': seq<State>)
    requires task.Valid()
    requires IsRun(task.Settings(), run) && run != [] && run[|run| - 1] == task.Current()
    modifies task`currentPos, task.db`miners, task.db`heapConfig, task.db`bnConfig
    modifies task.heap`heap, Pointers(task.heap.heap.items)`index
    ensures task.Valid() && SettledEnd(task.db.chain) <= task.currentPos
    ensures IsRun(task.Settings(), run') && run <= run' && run'[|run'| - 1] == task.Current()
    ensures Undisturbed(task.Settings(), run'[|run| - 1..])
    ensures forall id: nat :: RowOf(task.db.miners, id).amount ==
              ValueIn(run[0].table)(id) +
              Gain(Amount, Settled(task.db.chain), id, task.start, SettledEnd(task.db.chain))
  {
    hide IsRun, Undisturbed, Attempted, UpdatedMiners, SettledEnd, Step;
    run' := run;
    var ok := true;
    UndisturbedAtFirst(task.Settings(), run);
    while ok
      invariant task.Valid()
      invariant task.heap.heap == old(task.heap.heap) || fresh(task.heap.heap)
      invariant fresh(Pointers(task.heap.heap.items) - old(Pointers(task.heap.heap.items)))
      invariant IsRun(task.Settings(), run') && run <= run' && run'[|run'| - 1] == task.Current()
      invariant Undisturbed(task.Settings(), run'[|run| - 1..])
      invariant !ok ==> SettledEnd(task.db.chain) <= task.currentPos
      decreases SettledEnd(task.db.chain) - task.currentPos, ok
    {
      ghost var s := task.Current();
      ok := task.Attempt(NoFault);
      AttemptIsStep(task.Settings(), s, task.Current(), NoFault);
      RunContinues(task.Settings(), run', task.Current());
      OneRoundMore(task.Settings(), run'[|run| - 1..], task.Current());
      assert (run' + [task.Current()])[|run| - 1..] == run'[|run| - 1..] + [task.Current()];
      run' := run' + [task.Current()];
    }
    forall id: nat ensures RowOf(task.db.miners, id).amount == ValueIn(run'[|run'| - 1].table)(id) {}
    forall id: nat
      ensures ValueIn(run'[|run'| - 1].table)(id) == ValueIn(run[0].table)(id) +
              Gain(Amount, Settled(task.db.chain), id, task.start, SettledEnd(task.db.chain))
    {
      CaughtUpRows(task.Settings(), run', |run'| - 1, id);
    }
  }

  /** What the collected updates do to the ranked column. */
  lemma BatchEffect(c: Config, s: State, miners: map<nat, Miner>, updates: seq<Miner>, miners': map<nat, Miner>,
                    heap': seq<Entry>, end: Positive)
    requires c.field == Amount
    requires s.table == KeysOf(MinerAmount(), miners)
    requires ById(MinerId(), updates) == UpdatedMiners(miners, s.chain.events, s.pos, end)
    requires miners' == if updates == [] then miners else miners + ById(MinerId(), updates)
    requires updates != [] ==> Resorted(c.n, s.heap, EntriesOf(Ranked(MinerId(), MinerAmount(), updates)), heap')
    ensures miners' == miners + UpdatedMiners(miners, s.chain.events, s.pos, end)
    ensures KeysOf(MinerAmount(), miners') == s.table + Updated(c, s, end)
    ensures updates == [] <==> Updated(c, s, end) == map[]
    ensures updates != [] ==> Resorted(c.n, s.heap, Updated(c, s, end), heap')
  {
    hide UpdatedMiner, Gain, Resorted;
    UpdatesMatch(c, s, miners, end);
    RankedById(MinerId(), MinerAmount(), updates);
    if updates == [] {
      assert miners' == miners + ById(MinerId(), updates);
    } else {
      assert updates[0] in updates;
      assert updates[0].id in Updated(c, s, end);
    }
  }

  lemma BatchIsStaged(c: Config, s: State, miners: map<nat, Miner>, updates: seq<Miner>, miners': map<nat, Miner>,
                      s1: State, heapConfig: Option<seq<Miner>>, end: Positive)
    requires c.field == Amount
    requires s.table == KeysOf(MinerAmount(), miners)
    requires ById(MinerId(), updates) == UpdatedMiners(miners, s.chain.events, s.pos, end)
    requires s1 == s.(heap := s1.heap)
    requires miners' == if updates == [] then miners else miners + ById(MinerId(), updates)
    requires updates == [] ==> s1.heap == s.heap && StoredList(heapConfig) == s.snap
    requires updates != [] ==> StoredList(heapConfig) == Some(s1.heap)
    requires updates != [] ==> Resorted(c.n, s.heap, EntriesOf(Ranked(MinerId(), MinerAmount(), updates)), s1.heap)
    ensures miners' == miners + UpdatedMiners(miners, s.chain.events, s.pos, end)
    ensures Staged(c, s, s1, KeysOf(MinerAmount(), miners'), StoredList(heapConfig), end)
  {
    BatchEffect(c, s, miners, updates, miners', s1.heap, end);
  }

  lemma InitIsTopn(miners: map<nat, Miner>, rows: seq<Miner>, snapshot: seq<Miner>)
    requires IsTopn(MAX_MINERS, ValueIn(KeysOf(MinerAmount(), miners)), Ranked(MinerId(), MinerAmount(), rows))
    requires multiset(snapshot) == multiset(rows)
    requires Descending(MinerAmount(), snapshot)
    ensures IsTopn(MAX_MINERS, ValueIn(KeysOf(MinerAmount(), miners)), Ranked(MinerId(), MinerAmount(), snapshot))
    ensures DescendingKeys(Ranked(MinerId(), MinerAmount(), snapshot))
  {
    RankedPermuted(MinerId(), MinerAmount(), rows, snapshot);
    PermutedTopn(MAX_MINERS, ValueIn(KeysOf(MinerAmount(), miners)),
                 Ranked(MinerId(), MinerAmount(), rows), Ranked(MinerId(), MinerAmount(), snapshot));
  }
}
