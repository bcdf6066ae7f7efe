/** The sender ranking: four heaps over one address table, paged by submission index.
    Each heap, with the shared table and cursor, runs the state machine of its column. */
module TopnSubmit {
  import opened Wrappers
  import opened Ledger
  import opened GoHeap
  import opened TopnSpec
  import opened BoundedTopn
  import opened TopnMachine
  import opened TransactionCounts

  const BATCH_IN_SUBMIT_IDS: Positive := 10000
  const MAX_SUBMITS: Positive := 100
  const FIELDS: set<Field> := {Size, Amount, Txs, Files}

  datatype Address = Address(id: nat, address: string, dataSize: nat, storageFee: nat, txs: nat, files: nat)

  datatype GroupedSubmit = GroupedSubmit(senderId: nat, dataSize: nat, storageFee: nat, txs: nat, files: nat)

  datatype StatRange = StatRange(minPos: nat, maxPos: nat)

  datatype Error = FinalizedPosNotSynced | MinPosNotFinalized

  type Lists = map<Field, seq<Address>>

  lemma AllFields()
    ensures forall f: Field :: f in FIELDS
  {
    forall f: Field ensures f in FIELDS {
      match f case Size => case Amount => case Txs => case Files =>
    }
  }

  function AddressId(): Address -> nat { (a: Address) => a.id }

  /** The column a heap is ordered by. */
  function Column(f: Field, a: Address): nat {
    match f
    case Size => a.dataSize
    case Amount => a.storageFee
    case Txs => a.txs
    case Files => a.files
  }

  function KeyOf(f: Field): Address -> nat { (a: Address) => Column(f, a) }

  function SenderId(): GroupedSubmit -> nat { (g: GroupedSubmit) => g.senderId }

  function Group(events: seq<Event>, id: nat, lo: nat, hi: nat): GroupedSubmit {
    GroupedSubmit(id, Gain(Size, events, id, lo, hi), Gain(Amount, events, id, lo, hi),
                  Gain(Txs, events, id, lo, hi), Gain(Files, events, id, lo, hi))
  }

  function Groups(events: seq<Event>, lo: nat, hi: nat): map<nat, GroupedSubmit> {
    map id | id in Owners(events, lo, hi) :: Group(events, id, lo, hi)
  }

  /** The group of a single submit. */
  lemma GroupOfOne(e: Event, lo: nat, hi: nat)
    ensures Groups([e], lo, hi) ==
            if lo <= e.pos < hi
            then map[e.owner := GroupedSubmit(senderId := e.owner, dataSize := e.size, storageFee := e.amount,
                                              txs := 1, files := 1)]
            else map[]
  {
    OneEventGains(e, e.owner, lo, hi);
  }

  /** The group holds the sums of the sizes and of the fees of its sender's submits in the range,
      their number, and the number of distinct transactions among them. */
  ghost predicate IsGroup(g: GroupedSubmit, events: seq<Event>, lo: nat, hi: nat) {
    && g.dataSize == Total(SizeOf(), events, OwnedWithin(g.senderId, lo, hi))
    && g.storageFee == Total(AmountOf(), events, OwnedWithin(g.senderId, lo, hi))
    && g.files == |Places(events, g.senderId, lo, hi)|
    && g.txs == |set i | i in Places(events, g.senderId, lo, hi) :: events[i].tx|
  }

  lemma GroupIsRight(events: seq<Event>, id: nat, lo: nat, hi: nat)
    ensures IsGroup(Group(events, id, lo, hi), events, lo, hi)
  {
    hide Total, Gain;
    SumsAreTotals(events, id, lo, hi);
    CountsAreNumbers(events, id, lo, hi);
  }

  /** One right group for each sender of a set. */
  ghost predicate Grouped(groups: seq<GroupedSubmit>, events: seq<Event>, lo: nat, hi: nat, done: set<nat>) {
    && ById(SenderId(), groups) == (map id | id in done :: Group(events, id, lo, hi))
    && |groups| == |done|
    && forall g | g in groups :: IsGroup(g, events, lo, hi)
  }

  lemma NothingGrouped(events: seq<Event>, lo: nat, hi: nat)
    ensures Grouped([], events, lo, hi, {})
  {
  }

  lemma GroupedOneMore(groups: seq<GroupedSubmit>, events: seq<Event>, lo: nat, hi: nat, done: set<nat>, id: nat)
    requires Grouped(groups, events, lo, hi, done) && id !in done
    ensures Grouped(groups + [Group(events, id, lo, hi)], events, lo, hi, done + {id})
  {
    hide Gain, IsGroup;
    var g := Group(events, id, lo, hi);
    ByIdAppend(SenderId(), groups, g);
    GroupIsRight(events, id, lo, hi);
    assert g.senderId == id;
  }

  lemma AllGrouped(groups: seq<GroupedSubmit>, events: seq<Event>, lo: nat, hi: nat)
    requires Grouped(groups, events, lo, hi, Owners(events, lo, hi))
    ensures ById(SenderId(), groups) == Groups(events, lo, hi) && |groups| == |Owners(events, lo, hi)|
    ensures forall g | g in groups :: IsGroup(g, events, lo, hi)
  {
    hide Group, IsGroup;
  }

  function AddGroup(addresses: map<nat, Address>, g: GroupedSubmit): Address {
    var a := if g.senderId in addresses then addresses[g.senderId] else Address(g.senderId, "", 0, 0, 0, 0);
    Address(g.senderId, a.address, a.dataSize + g.dataSize, a.storageFee + g.storageFee, a.txs + g.txs,
            a.files + g.files)
  }

  /** The rows a batch over positions lo..hi-1 writes. */
  function UpdatedAddresses(addresses: map<nat, Address>, events: seq<Event>, lo: nat, hi: nat): map<nat, Address> {
    map id | id in Owners(events, lo, hi) :: AddGroup(addresses, Group(events, id, lo, hi))
  }

  function AddGroups(addresses: map<nat, Address>, groups: map<nat, GroupedSubmit>): map<nat, Address> {
    map id | id in groups :: AddGroup(addresses, groups[id])
  }

  lemma AddOneMore(addresses: map<nat, Address>, groups: map<nat, GroupedSubmit>, g: GroupedSubmit)
    ensures AddGroups(addresses, groups[g.senderId := g]) ==
            AddGroups(addresses, groups)[g.senderId := AddGroup(addresses, g)]
  {
  }

  lemma AddedOneMore(addresses: map<nat, Address>, groups: seq<GroupedSubmit>, i: nat, updates: seq<Address>)
    requires i < |groups|
    requires ById(AddressId(), updates) == AddGroups(addresses, ById(SenderId(), groups[..i]))
    ensures ById(AddressId(), updates + [AddGroup(addresses, groups[i])]) ==
            AddGroups(addresses, ById(SenderId(), groups[..i + 1]))
  {
    hide AddGroup, AddGroups, ById;
    AddGroupKeepsId(addresses, groups[i]);
    assert groups[..i + 1] == groups[..i] + [groups[i]];
    ByIdAppend(AddressId(), updates, AddGroup(addresses, groups[i]));
    ByIdAppend(SenderId(), groups[..i], groups[i]);
    AddOneMore(addresses, ById(SenderId(), groups[..i]), groups[i]);
  }

  lemma AddedGroups(addresses: map<nat, Address>, events: seq<Event>, lo: nat, hi: nat)
    ensures AddGroups(addresses, Groups(events, lo, hi)) == UpdatedAddresses(addresses, events, lo, hi)
  {
  }

  lemma UpdatesKeepIds(addresses: map<nat, Address>, events: seq<Event>, lo: nat, hi: nat)
    requires KeyedById(AddressId(), addresses)
    ensures KeyedById(AddressId(), addresses + UpdatedAddresses(addresses, events, lo, hi))
  {
  }

  lemma AddGroupKeepsId(addresses: map<nat, Address>, g: GroupedSubmit)
    ensures AddGroup(addresses, g).id == g.senderId
  {
  }

  /** A batch changes no address. */
  lemma BatchKeepsAddress(addresses: map<nat, Address>, events: seq<Event>, lo: nat, hi: nat, id: nat)
    requires id in addresses
    ensures (addresses + UpdatedAddresses(addresses, events, lo, hi))[id].address == addresses[id].address
  {
  }

  lemma UpdatedColumn(f: Field, addresses: map<nat, Address>, events: seq<Event>, id: nat, lo: nat, hi: nat)
    ensures Column(f, AddGroup(addresses, Group(events, id, lo, hi))) ==
            ValueIn(KeysOf(KeyOf(f), addresses))(id) + Gain(f, events, id, lo, hi)
  {
  }

  /** The updated rows carry, in every column, the updates of that column's state machine. */
  lemma UpdatesMatch(c: Config, s: State, addresses: map<nat, Address>, end: nat)
    requires s.table == KeysOf(KeyOf(c.field), addresses)
    ensures KeysOf(KeyOf(c.field), UpdatedAddresses(addresses, s.chain.events, s.pos, end)) == Updated(c, s, end)
    ensures KeysOf(KeyOf(c.field), addresses + UpdatedAddresses(addresses, s.chain.events, s.pos, end)) ==
            s.table + Updated(c, s, end)
  {
    hide AddGroup, Group, Gain;
    var u := UpdatedAddresses(addresses, s.chain.events, s.pos, end);
    var k := KeysOf(KeyOf(c.field), u);
    assert k.Keys == Updated(c, s, end).Keys;
    forall id | id in k ensures k[id] == Updated(c, s, end)[id] {
      UpdatedColumn(c.field, addresses, s.chain.events, id, s.pos, end);
    }
    KeysOfMerge(KeyOf(c.field), addresses, u);
  }

  function StoredList(f: Field, lists: Lists): Option<seq<Entry>> {
    if f in lists then Some(Ranked(AddressId(), KeyOf(f), lists[f])) else None
  }

  /** What the collected updates do to one column. */
  lemma BatchEffect(c: Config, s: State, addresses: map<nat, Address>, updates: seq<Address>, end: Positive)
    requires s.table == KeysOf(KeyOf(c.field), addresses)
    requires ById(AddressId(), updates) == UpdatedAddresses(addresses, s.chain.events, s.pos, end)
    ensures KeysOf(KeyOf(c.field), addresses + ById(AddressId(), updates)) == s.table + Updated(c, s, end)
    ensures updates == [] <==> Updated(c, s, end) == map[]
    ensures EntriesOf(Ranked(AddressId(), KeyOf(c.field), updates)) == Updated(c, s, end)
  {
    hide AddGroup, Group, Gain;
    UpdatesMatch(c, s, addresses, end);
    RankedById(AddressId(), KeyOf(c.field), updates);
    if updates != [] {
      assert updates[0] in updates;
      assert updates[0].id in Updated(c, s, end);
    }
  }

  lemma BatchIsStaged(c: Config, s: State, addresses: map<nat, Address>, updates: seq<Address>, s1: State,
                      lists: Lists, end: Positive)
    requires s.table == KeysOf(KeyOf(c.field), addresses)
    requires ById(AddressId(), updates) == UpdatedAddresses(addresses, s.chain.events, s.pos, end)
    requires s1 == s.(heap := s1.heap)
    requires updates == [] ==> s1.heap == s.heap && StoredList(c.field, lists) == s.snap
    requires updates != [] ==> StoredList(c.field, lists) == Some(s1.heap)
    requires updates != [] ==> Resorted(c.n, s.heap, EntriesOf(Ranked(AddressId(), KeyOf(c.field), updates)), s1.heap)
    ensures Staged(c, s, s1, KeysOf(KeyOf(c.field), addresses + ById(AddressId(), updates)), StoredList(c.field, lists),
                   end)
  {
    hide Resorted, Updated, UpdatedAddresses;
    BatchEffect(c, s, addresses, updates, end);
  }

  /** The tables and config entries of the statistics task. */
  class Database {
    var chain: Chain
    var addresses: map<nat, Address>
    var heapConfigs: Lists
    var submitIdConfig: Option<nat>

    ghost predicate Valid()
      reads this
    {
      KeyedById(AddressId(), addresses)
    }

    /** One row per sender with a submit at positions lo..hi-1, in no particular order. */
    method GroupBySender(lo: nat, hi: nat) returns (groups: seq<GroupedSubmit>)
      ensures ById(SenderId(), groups) == Groups(chain.events, lo, hi)
      ensures |groups| == |Owners(chain.events, lo, hi)|
      ensures forall g | g in groups :: IsGroup(g, chain.events, lo, hi)
    {
      hide Grouped, Group, IsGroup;
      groups := [];
      ghost var done: set<nat> := {};
      var todo := Owners(chain.events, lo, hi);
      NothingGrouped(chain.events, lo, hi);
      while todo != {}
        invariant todo <= Owners(chain.events, lo, hi) && done == Owners(chain.events, lo, hi) - todo
        invariant Grouped(groups, chain.events, lo, hi, done)
        decreases todo
      {
        var id :| id in todo;
        GroupedOneMore(groups, chain.events, lo, hi, done, id);
        groups, todo := groups + [Group(chain.events, id, lo, hi)], todo - {id};
        done := done + {id};
      }
      assert done == Owners(chain.events, lo, hi);
      AllGrouped(groups, chain.events, lo, hi);
    }
  }

  function TaskConfig(f: Field): Config {
    Config(MAX_SUBMITS, BATCH_IN_SUBMIT_IDS, 0, f)
  }

  ghost function StateOf(f: Field, db: Database, pos: nat, rows: seq<Address>): State
    reads db
  {
    State(db.chain, KeysOf(KeyOf(f), db.addresses), db.submitIdConfig, StoredList(f, db.heapConfigs),
          pos, Ranked(AddressId(), KeyOf(f), rows))
  }

  /** The list is a ranked top-n of one column of the address table, largest first. */
  ghost predicate IsColumnTopn(f: Field, addresses: map<nat, Address>, list: seq<Address>) {
    && IsTopn(MAX_SUBMITS, ValueIn(KeysOf(KeyOf(f), addresses)), Ranked(AddressId(), KeyOf(f), list))
    && DescendingKeys(Ranked(AddressId(), KeyOf(f), list))
  }

  // ------------------------------------------------- the four heaps

  ghost predicate IsColumnHeap(h: BoundedHeap<Address>, f: Field)
    reads h, h.heap
  {
    h.Valid() && h.n == MAX_SUBMITS && h.id == AddressId() && h.key == KeyOf(f)
  }

  /** `topnSubmitHeap`: one bounded heap per column. */
  class HeapSet {
    const dataSizeHeap: BoundedHeap<Address>
    const storageFeeHeap: BoundedHeap<Address>
    const txsHeap: BoundedHeap<Address>
    const filesHeap: BoundedHeap<Address>

    constructor ()
      ensures Valid() && Apart()
      ensures forall f: Field :: Empty(f)
      ensures fresh(Boxes()) && fresh(Heaps()) && fresh(Items())
      ensures fresh(dataSizeHeap.heap) && fresh(storageFeeHeap.heap) && fresh(txsHeap.heap) && fresh(filesHeap.heap)
    {
      dataSizeHeap := new BoundedHeap<Address>(MAX_SUBMITS, AddressId(), KeyOf(Size));
      storageFeeHeap := new BoundedHeap<Address>(MAX_SUBMITS, AddressId(), KeyOf(Amount));
      txsHeap := new BoundedHeap<Address>(MAX_SUBMITS, AddressId(), KeyOf(Txs));
      filesHeap := new BoundedHeap<Address>(MAX_SUBMITS, AddressId(), KeyOf(Files));
    }

    /** The four bounded heaps. */
    ghost function Boxes(): set<BoundedHeap<Address>> {
      {dataSizeHeap, storageFeeHeap, txsHeap, filesHeap}
    }

    /** The entries of the four heaps. */
    ghost function Items(): set<Item<Address>>
      reads dataSizeHeap, dataSizeHeap.heap, storageFeeHeap, storageFeeHeap.heap
      reads txsHeap, txsHeap.heap, filesHeap, filesHeap.heap
    {
      Pointers(dataSizeHeap.heap.items) + Pointers(storageFeeHeap.heap.items) +
      Pointers(txsHeap.heap.items) + Pointers(filesHeap.heap.items)
    }

    /** The heaps inside the boxes. */
    ghost function Heaps(): set<Heap<Address>>
      reads dataSizeHeap, storageFeeHeap, txsHeap, filesHeap
    {
      {dataSizeHeap.heap, storageFeeHeap.heap, txsHeap.heap, filesHeap.heap}
    }

    function Of(f: Field): BoundedHeap<Address> {
      match f
      case Size => dataSizeHeap
      case Amount => storageFeeHeap
      case Txs => txsHeap
      case Files => filesHeap
    }

    ghost predicate Valid()
      reads dataSizeHeap, dataSizeHeap.heap, storageFeeHeap, storageFeeHeap.heap
      reads txsHeap, txsHeap.heap, filesHeap, filesHeap.heap
    {
      && IsColumnHeap(dataSizeHeap, Size) && IsColumnHeap(storageFeeHeap, Amount)
      && IsColumnHeap(txsHeap, Txs) && IsColumnHeap(filesHeap, Files)
      && dataSizeHeap != storageFeeHeap && dataSizeHeap != txsHeap && dataSizeHeap != filesHeap
      && storageFeeHeap != txsHeap && storageFeeHeap != filesHeap && txsHeap != filesHeap
    }

    ghost predicate Apart()
      reads dataSizeHeap, storageFeeHeap, txsHeap, filesHeap
    {
      forall f: Field, g: Field | f != g :: Of(f).heap != Of(g).heap
    }

    ghost predicate Empty(f: Field)
      reads Of(f), Of(f).heap
    {
      Of(f).heap.items == []
    }

    /** The heap holds the rows of a stored list. */
    ghost predicate Loaded(f: Field, lists: Lists)
      reads Of(f), Of(f).heap
    {
      && f in lists
      && multiset(Ranked(AddressId(), KeyOf(f), Of(f).Rows())) == multiset(Ranked(AddressId(), KeyOf(f), lists[f]))
    }

    /** The heap and its list hold the n largest rows of the table, largest first. */
    ghost predicate Initialized(f: Field, addresses: map<nat, Address>, list: seq<Address>)
      reads Of(f), Of(f).heap
    {
      && list == Of(f).Rows()
      && IsColumnTopn(f, addresses, list)
    }

    /** The heap of a column after a re-sort: new slice, new entries, the list it holds. */
    twostate predicate Refilled(f: Field, before: seq<Entry>, rows: seq<Address>, list: seq<Address>)
      reads Of(f), Of(f).heap
    {
      && fresh(Of(f).heap) && fresh(Pointers(Of(f).heap.items))
      && list == Of(f).Rows()
      && Resorted(MAX_SUBMITS, before, EntriesOf(Ranked(AddressId(), KeyOf(f), rows)), Of(f).Entries())
    }

    method ResortVolumes(rows: seq<Address>) returns (ds: seq<Address>, sf: seq<Address>)
      requires Valid()
      modifies dataSizeHeap`heap, Pointers(dataSizeHeap.heap.items)`index
      modifies storageFeeHeap`heap, Pointers(storageFeeHeap.heap.items)`index
      ensures Valid()
      ensures Refilled(Size, old(Of(Size).Entries()), rows, ds)
      ensures Refilled(Amount, old(Of(Amount).Entries()), rows, sf)
    {
      hide Resorted, EntriesOf, Ranked, KeyOf;
      ds := dataSizeHeap.Resort(rows);
      sf := storageFeeHeap.Resort(rows);
    }

    method ResortCounts(rows: seq<Address>) returns (tx: seq<Address>, fs: seq<Address>)
      requires Valid()
      modifies txsHeap`heap, Pointers(txsHeap.heap.items)`index
      modifies filesHeap`heap, Pointers(filesHeap.heap.items)`index
      ensures Valid()
      ensures Refilled(Txs, old(Of(Txs).Entries()), rows, tx)
      ensures Refilled(Files, old(Of(Files).Entries()), rows, fs)
    {
      hide Resorted, EntriesOf, Ranked, KeyOf;
      tx := txsHeap.Resort(rows);
      fs := filesHeap.Resort(rows);
    }

    /** `sort` and `snapshot` of the four heaps. */
    method Resort(rows: seq<Address>) returns (lists: Lists)
      requires Valid()
      modifies dataSizeHeap`heap, Pointers(dataSizeHeap.heap.items)`index
      modifies storageFeeHeap`heap, Pointers(storageFeeHeap.heap.items)`index
      modifies txsHeap`heap, Pointers(txsHeap.heap.items)`index
      modifies filesHeap`heap, Pointers(filesHeap.heap.items)`index
      ensures Valid()
      ensures lists.Keys == FIELDS && fresh(Heaps()) && fresh(Items())
      ensures forall f: Field :: f in lists && Refilled(f, old(Of(f).Entries()), rows, lists[f])
    {
      hide Resorted, EntriesOf, Ranked, KeyOf, IsColumnHeap, Heaps, Items;
      var ds, sf := ResortVolumes(rows);
      var tx, fs := ResortCounts(rows);
      lists := map[Size := ds, Amount := sf, Txs := tx, Files := fs];
      forall f: Field ensures f in lists && Refilled(f, old(Of(f).Entries()), rows, lists[f]) {
        match f case Size => case Amount => case Txs => case Files =>
      }
      assert fresh(Heaps()) && fresh(Items()) by {
        AllNew(rows, lists);
      }
    }

    twostate lemma AllNew(new rows: seq<Address>, new lists: Lists)
      requires forall f: Field :: f in lists && Refilled(f, old(Of(f).Entries()), rows, lists[f])
      ensures fresh(Heaps()) && fresh(Items())
    {
      hide Resorted, EntriesOf, Ranked, KeyOf;
      assert forall f: Field :: f in lists && fresh(Of(f).heap) && fresh(Pointers(Of(f).heap.items));
      assert fresh(Of(Size).heap) && fresh(Of(Amount).heap) && fresh(Of(Txs).heap) && fresh(Of(Files).heap);
    }

    /** `loadFromDB`, past its checks: each heap rebuilt from its stored list. */
    method Load(lists: Lists)
      requires Valid() && Apart() && lists.Keys == FIELDS
      requires forall f: Field :: Empty(f)
      modifies dataSizeHeap.heap`items, storageFeeHeap.heap`items, txsHeap.heap`items, filesHeap.heap`items
      ensures Valid()
      ensures forall f: Field :: Loaded(f, lists) && fresh(Pointers(Of(f).heap.items))
      ensures Heaps() == old(Heaps()) && forall x | x in Items() && x !in old(Items()) :: fresh(x)
    {
      hide Loaded, IsColumnHeap;
      LoadColumn(Size, lists);
      LoadColumn(Amount, lists);
      LoadColumn(Txs, lists);
      LoadColumn(Files, lists);
      forall f: Field ensures Loaded(f, lists) && fresh(Pointers(Of(f).heap.items)) {
        match f case Size => case Amount => case Txs => case Files =>
      }
    }

    /** `init`: each heap and its first snapshot from a query of the whole table. */
    method Init(addresses: map<nat, Address>) returns (lists: Lists)
      requires Valid() && Apart() && KeyedById(AddressId(), addresses)
      requires forall f: Field :: Empty(f)
      modifies dataSizeHeap.heap`items, storageFeeHeap.heap`items, txsHeap.heap`items, filesHeap.heap`items
      ensures Valid()
      ensures forall f: Field :: f in lists && Initialized(f, addresses, lists[f]) && fresh(Pointers(Of(f).heap.items))
      ensures Heaps() == old(Heaps()) && forall x | x in Items() && x !in old(Items()) :: fresh(x)
    {
      hide IsColumnHeap, Initialized;
      var ds := InitColumn(Size, addresses);
      var sf := InitColumn(Amount, addresses);
      var tx := InitColumn(Txs, addresses);
      var fs := InitColumn(Files, addresses);
      lists := map[Size := ds, Amount := sf, Txs := tx, Files := fs];
      forall f: Field ensures f in lists && Initialized(f, addresses, lists[f]) && fresh(Pointers(Of(f).heap.items)) {
        match f case Size => case Amount => case Txs => case Files =>
      }
    }

    method LoadColumn(f: Field, lists: Lists)
      requires Valid() && Empty(f) && f in lists
      modifies Of(f).heap`items
      ensures Valid()
      ensures Loaded(f, lists) && fresh(Pointers(Of(f).heap.items))
    {
      Of(f).Load(lists[f]);
      RankedPermuted(AddressId(), KeyOf(f), Of(f).Rows(), lists[f]);
    }

    method InitColumn(f: Field, addresses: map<nat, Address>) returns (list: seq<Address>)
      requires Valid() && KeyedById(AddressId(), addresses) && Empty(f)
      modifies Of(f).heap`items
      ensures Valid()
      ensures Initialized(f, addresses, list) && fresh(Pointers(Of(f).heap.items))
    {
      var rows := QueryTopn(MAX_SUBMITS, AddressId(), KeyOf(f), addresses);
      Of(f).Load(rows);
      list := Of(f).Snapshot();
      InitIsTopn(f, addresses, rows, list);
    }
  }

  lemma InitIsTopn(f: Field, addresses: map<nat, Address>, rows: seq<Address>, list: seq<Address>)
    requires IsTopn(MAX_SUBMITS, ValueIn(KeysOf(KeyOf(f), addresses)), Ranked(AddressId(), KeyOf(f), rows))
    requires multiset(list) == multiset(rows)
    requires Descending(KeyOf(f), list)
    ensures IsTopn(MAX_SUBMITS, ValueIn(KeysOf(KeyOf(f), addresses)), Ranked(AddressId(), KeyOf(f), list))
    ensures DescendingKeys(Ranked(AddressId(), KeyOf(f), list))
  {
    RankedPermuted(AddressId(), KeyOf(f), rows, list);
    PermutedTopn(MAX_SUBMITS, ValueIn(KeysOf(KeyOf(f), addresses)),
                 Ranked(AddressId(), KeyOf(f), rows), Ranked(AddressId(), KeyOf(f), list));
  }

  /** Every column's state machine makes a step. */
  ghost predicate AllStep(before: map<Field, State>, after: map<Field, State>) {
    forall f: Field :: f in before && f in after && Step(TaskConfig(f), before[f], after[f])
  }

  /** A round in every column. */
  ghost predicate AllAttempted(before: map<Field, State>, after: map<Field, State>, fault: Fault) {
    forall f: Field :: f in before && f in after && Attempted(TaskConfig(f), before[f], after[f], fault)
  }

  ghost predicate AllBooted(before: map<Field, State>, after: map<Field, State>) {
    forall f: Field :: f in before && f in after && BootStep(TaskConfig(f), before[f], after[f])
  }

  ghost predicate AllRegistered(before: map<Field, State>, after: map<Field, State>, id: nat) {
    forall f: Field :: f in before && f in after && Registered(before[f], after[f], id)
  }

  ghost predicate AllSynced(before: map<Field, State>, after: map<Field, State>, chain: Chain) {
    forall f: Field :: f in before && f in after && after[f] == before[f].(chain := chain)
  }

  // ------------------------------------------------- the statistics task

  class TopnSubmit {
    const db: Database
    const heaps: HeapSet
    var currentPos: nat

    ghost predicate Valid()
      reads db, heaps.dataSizeHeap, heaps.dataSizeHeap.heap, heaps.storageFeeHeap, heaps.storageFeeHeap.heap
      reads heaps.txsHeap, heaps.txsHeap.heap, heaps.filesHeap, heaps.filesHeap.heap
    {
      db.Valid() && heaps.Valid()
    }

    /** The state of one column: its heap and list, with the shared table and cursor. */
    ghost function Current(f: Field): State
      reads this, db, heaps.Of(f), heaps.Of(f).heap
    {
      StateOf(f, db, currentPos, heaps.Of(f).Rows())
    }

    ghost function States(): map<Field, State>
      reads this, db, heaps.dataSizeHeap, heaps.dataSizeHeap.heap, heaps.storageFeeHeap, heaps.storageFeeHeap.heap
      reads heaps.txsHeap, heaps.txsHeap.heap, heaps.filesHeap, heaps.filesHeap.heap
    {
      map f | f in FIELDS :: Current(f)
    }

    /** The batch is staged in every column. */
    ghost predicate AllStaged(before: map<Field, State>, addresses: map<nat, Address>, lists: Lists, end: Positive)
      reads this, db, heaps.dataSizeHeap, heaps.dataSizeHeap.heap, heaps.storageFeeHeap, heaps.storageFeeHeap.heap
      reads heaps.txsHeap, heaps.txsHeap.heap, heaps.filesHeap, heaps.filesHeap.heap
    {
      forall f: Field ::
        && f in before
        && Staged(TaskConfig(f), before[f], Current(f), KeysOf(KeyOf(f), addresses), StoredList(f, lists), end)
    }

    /** Every column's state machine has committed the batch. */
    ghost predicate AllCommitted(before: map<Field, State>, end: Positive)
      reads this, db, heaps.dataSizeHeap, heaps.dataSizeHeap.heap, heaps.storageFeeHeap, heaps.storageFeeHeap.heap
      reads heaps.txsHeap, heaps.txsHeap.heap, heaps.filesHeap, heaps.filesHeap.heap
    {
      forall f: Field :: f in before && Committed(TaskConfig(f), before[f], Current(f), end)
    }

    /** In every column the batch has failed after the re-sort. */
    ghost predicate AllFailed(before: map<Field, State>, end: Positive)
      reads this, db, heaps.dataSizeHeap, heaps.dataSizeHeap.heap, heaps.storageFeeHeap, heaps.storageFeeHeap.heap
      reads heaps.txsHeap, heaps.txsHeap.heap, heaps.filesHeap, heaps.filesHeap.heap
    {
      forall f: Field :: f in before && Failed(TaskConfig(f), before[f], Current(f), end)
    }

    lemma SharedByAll()
      ensures forall f: Field ::
                f in States() && States()[f].chain == db.chain && States()[f].pos == currentPos
    {
      AllFields();
    }

    lemma FailedInAll(before: map<Field, State>, addresses: map<nat, Address>, lists: Lists, end: Positive)
      requires AllStaged(before, addresses, lists, end)
      ensures AllFailed(before, end)
    {
    }

    lemma BatchIsAttemptOfAll(before: map<Field, State>, end: Positive, fault: Fault)
      requires forall f: Field ::
                 f in before && NextEnd(before[f].chain, before[f].pos, BATCH_IN_SUBMIT_IDS) == Some(end)
      requires fault == NoFault ==> AllCommitted(before, end)
      requires fault == LateFault ==> AllFailed(before, end)
      requires fault == ReadFault || fault == EarlyFault ==> before == States()
      ensures AllAttempted(before, States(), fault)
    {
      hide Committed, Failed, Attempted, NextEnd, StateOf;
      AllFields();
      forall f: Field ensures f in before && f in States() && Attempted(TaskConfig(f), before[f], States()[f], fault) {
        BatchIsAttempt(TaskConfig(f), before[f], Current(f), end, fault);
      }
    }

    lemma NothingIsAttemptOfAll(fault: Fault)
      requires SettledEnd(db.chain) <= currentPos
      ensures AllAttempted(States(), States(), fault)
    {
      hide Attempted, SettledEnd;
      AllFields();
      forall f: Field ensures Attempted(TaskConfig(f), Current(f), Current(f), fault) {
        NothingIsAttempt(TaskConfig(f), Current(f), fault);
      }
    }

    lemma CommitMovesCursorOfAll(before: map<Field, State>, end: Positive)
      ensures AllCommitted(before, end) ==> currentPos == end
      ensures AllFailed(before, end) ==> Size in before && currentPos == before[Size].pos
    {
      hide Updated, Aborted;
      if AllCommitted(before, end) {
        assert Size in before && Committed(TaskConfig(Size), before[Size], Current(Size), end);
      }
      if AllFailed(before, end) {
        assert Size in before && Failed(TaskConfig(Size), before[Size], Current(Size), end);
        CommitMovesCursor(TaskConfig(Size), before[Size], Current(Size), end);
      }
    }

    /** `mustLoadLastPos`. */
    constructor (db: Database, heaps: HeapSet)
      ensures this.db == db && this.heaps == heaps
      ensures currentPos == Resume(0, db.submitIdConfig)
      ensures currentPos == if db.submitIdConfig.Some? then db.submitIdConfig.value + 1 else 0
    {
      this.db, this.heaps := db, heaps;
      currentPos := Resume(0, db.submitIdConfig);
    }

    method NextStatRange() returns (r: Result<StatRange, Error>)
      ensures match NextEnd(db.chain, currentPos, BATCH_IN_SUBMIT_IDS)
              case Some(end) => r == Ok(StatRange(currentPos, end - 1))
              case None => r == Err(if LastFinalized(db.chain).None? then FinalizedPosNotSynced else MinPosNotFinalized)
      ensures r.Ok? <==> currentPos < SettledEnd(db.chain)
      ensures r.Ok? ==> r.value.minPos == currentPos
      ensures r.Ok? ==> r.value.maxPos + 1 == if SettledEnd(db.chain) < currentPos + BATCH_IN_SUBMIT_IDS
                                              then SettledEnd(db.chain) else currentPos + BATCH_IN_SUBMIT_IDS
      ensures r == Err(FinalizedPosNotSynced) <==> SettledEnd(db.chain) == 0
    {
      var minPos, maxPos := currentPos, currentPos + BATCH_IN_SUBMIT_IDS - 1;
      var finalizedPos := LastFinalized(db.chain);
      if finalizedPos.None? {
        return Err(FinalizedPosNotSynced);
      }
      if finalizedPos.value < minPos {
        return Err(MinPosNotFinalized);
      }
      maxPos := if finalizedPos.value < maxPos then finalizedPos.value else maxPos;
      return Ok(StatRange(minPos, maxPos));
    }

    /** The rows to write: the stored ones plus the grouped submits. */
    method CollectUpdates(r: StatRange) returns (updates: seq<Address>)
      ensures ById(AddressId(), updates) == UpdatedAddresses(db.addresses, db.chain.events, r.minPos, r.maxPos + 1)
    {
      hide AddGroup, Group, Gain, UpdatedAddresses, Groups;
      var groups := db.GroupBySender(r.minPos, r.maxPos + 1);
      updates := [];
      for i := 0 to |groups|
        invariant ById(AddressId(), updates) == AddGroups(db.addresses, ById(SenderId(), groups[..i]))
      {
        AddedOneMore(db.addresses, groups, i, updates);
        updates := updates + [AddGroup(db.addresses, groups[i])];
      }
      assert groups[..|groups|] == groups;
      AddedGroups(db.addresses, db.chain.events, r.minPos, r.maxPos + 1);
    }

    /** A column whose heap has been re-sorted, or left alone by an empty batch. */
    twostate lemma ColumnStaged(new f: Field, new updates: seq<Address>, new lists: Lists, new end: Positive)
      requires Valid() && old(heaps.Valid())
      requires db.addresses == old(db.addresses) && Current(f) == old(Current(f)).(heap := Current(f).heap)
      requires ById(AddressId(), updates) == UpdatedAddresses(db.addresses, db.chain.events, currentPos, end)
      requires updates == [] ==> heaps.Of(f).Rows() == old(heaps.Of(f).Rows())
      requires updates == [] ==> lists == db.heapConfigs
      requires updates != [] ==> f in lists && heaps.Refilled(f, old(heaps.Of(f).Entries()), updates, lists[f])
      ensures Staged(TaskConfig(f), old(Current(f)), Current(f),
                     KeysOf(KeyOf(f), db.addresses + ById(AddressId(), updates)), StoredList(f, lists), end)
    {
      hide UpdatedAddresses, Resorted, Staged, Updated, EntriesOf;
      BatchIsStaged(TaskConfig(f), old(Current(f)), db.addresses, updates, Current(f), lists, end);
    }

    twostate lemma EveryColumnStaged(new addresses: map<nat, Address>, new lists: Lists, new end: Positive)
      requires forall f: Field ::
                 Staged(TaskConfig(f), old(Current(f)), Current(f), KeysOf(KeyOf(f), addresses), StoredList(f, lists),
                        end)
      ensures AllStaged(old(States()), addresses, lists, end)
    {
      hide Staged, KeysOf, StoredList;
      AllFields();
    }

    /** The heap part of the transaction: nothing to do when no row changed. */
    method StageHeaps(updates: seq<Address>, ghost end: Positive) returns (lists: Lists)
      requires Valid()
      requires ById(AddressId(), updates) == UpdatedAddresses(db.addresses, db.chain.events, currentPos, end)
      modifies heaps.dataSizeHeap`heap, Pointers(heaps.dataSizeHeap.heap.items)`index
      modifies heaps.storageFeeHeap`heap, Pointers(heaps.storageFeeHeap.heap.items)`index
      modifies heaps.txsHeap`heap, Pointers(heaps.txsHeap.heap.items)`index
      modifies heaps.filesHeap`heap, Pointers(heaps.filesHeap.heap.items)`index
      ensures Valid()
      ensures forall h | h in heaps.Heaps() && h !in old(heaps.Heaps()) :: fresh(h)
      ensures forall x | x in heaps.Items() && x !in old(heaps.Items()) :: fresh(x)
      ensures AllStaged(old(States()), db.addresses + ById(AddressId(), updates), lists, end)
      ensures updates == [] ==> States() == old(States())
    {
      hide UpdatedAddresses, Updated, Staged, Resorted, ById, EntriesOf, Ranked, KeysOf, States, AllStaged;
      hide IsColumnHeap, HeapSet.Refilled, HeapSet.Heaps, HeapSet.Items;
      lists := db.heapConfigs;
      if |updates| > 0 {
        var snapshots := heaps.Resort(updates);
        lists := lists + snapshots;
      }
      forall f: Field
        ensures Staged(TaskConfig(f), old(Current(f)), Current(f),
                       KeysOf(KeyOf(f), db.addresses + ById(AddressId(), updates)), StoredList(f, lists), end)
      {
        ColumnStaged(f, updates, lists, end);
      }
      EveryColumnStaged(db.addresses + ById(AddressId(), updates), lists, end);
    }

    /** The row writes of the transaction: what the tables would hold, with the four heaps
        re-sorted on the way. Nothing is in the database yet. */
    method Stage(updates: seq<Address>, ghost end: Positive) returns (addresses: map<nat, Address>, lists: Lists)
      requires Valid()
      requires ById(AddressId(), updates) == UpdatedAddresses(db.addresses, db.chain.events, currentPos, end)
      modifies heaps.dataSizeHeap`heap, Pointers(heaps.dataSizeHeap.heap.items)`index
      modifies heaps.storageFeeHeap`heap, Pointers(heaps.storageFeeHeap.heap.items)`index
      modifies heaps.txsHeap`heap, Pointers(heaps.txsHeap.heap.items)`index
      modifies heaps.filesHeap`heap, Pointers(heaps.filesHeap.heap.items)`index
      ensures Valid()
      ensures forall h | h in heaps.Heaps() && h !in old(heaps.Heaps()) :: fresh(h)
      ensures forall x | x in heaps.Items() && x !in old(heaps.Items()) :: fresh(x)
      ensures addresses == db.addresses + UpdatedAddresses(db.addresses, db.chain.events, currentPos, end)
      ensures KeyedById(AddressId(), addresses)
      ensures AllStaged(old(States()), addresses, lists, end)
      ensures updates == [] ==> States() == old(States())
    {
      hide UpdatedAddresses, ById, AllStaged, States, Current, IsColumnHeap, HeapSet.Heaps, HeapSet.Items;
      UpdatesKeepIds(db.addresses, db.chain.events, currentPos, end);
      addresses := db.addresses + ById(AddressId(), updates);
      lists := StageHeaps(updates, end);
    }

    twostate lemma EveryColumnCommitted(new before: map<Field, State>, new addresses: map<nat, Address>,
                                        new lists: Lists, new maxPos: nat)
      requires old(AllStaged(before, addresses, lists, maxPos + 1))
      requires db.chain == old(db.chain) && forall f: Field :: heaps.Of(f).Rows() == old(heaps.Of(f).Rows())
      requires db.addresses == addresses && db.heapConfigs == lists && db.submitIdConfig == Some(maxPos)
      requires currentPos == maxPos + 1
      ensures AllCommitted(before, maxPos + 1)
    {
      hide Staged, Committed, KeysOf, Ranked;
      forall f: Field ensures f in before && Committed(TaskConfig(f), before[f], Current(f), maxPos + 1) {
        StagedCommits(TaskConfig(f), before[f], old(Current(f)), Current(f), maxPos + 1);
      }
    }

    /** The commit: the staged rows, the snapshots and the cursor reach the database together. */
    method Commit(addresses: map<nat, Address>, lists: Lists, maxPos: nat, ghost before: map<Field, State>)
      requires Valid() && KeyedById(AddressId(), addresses)
      requires AllStaged(before, addresses, lists, maxPos + 1)
      modifies this`currentPos, db`addresses, db`heapConfigs, db`submitIdConfig
      ensures Valid() && db.addresses == addresses && db.heapConfigs == lists
      ensures db.submitIdConfig == Some(maxPos) && currentPos == maxPos + 1
      ensures AllCommitted(before, maxPos + 1)
    {
      hide AllCommitted, AllStaged, KeyedById, IsColumnHeap, Current;
      db.addresses, db.heapConfigs, db.submitIdConfig := addresses, lists, Some(maxPos);
      currentPos := maxPos + 1;
      EveryColumnCommitted(before, addresses, lists, maxPos);
    }

    /** The transaction: its writes reach the tables at the end or not at all. */
    method Transact(r: StatRange, updates: seq<Address>, fault: Fault, ghost before: map<Field, State>)
      returns (ok: bool)
      requires Valid() && before == States()
      requires r.minPos == currentPos
      requires ById(AddressId(), updates) == UpdatedAddresses(db.addresses, db.chain.events, r.minPos, r.maxPos + 1)
      modifies this`currentPos, db`addresses, db`heapConfigs, db`submitIdConfig
      modifies heaps.dataSizeHeap`heap, Pointers(heaps.dataSizeHeap.heap.items)`index
      modifies heaps.storageFeeHeap`heap, Pointers(heaps.storageFeeHeap.heap.items)`index
      modifies heaps.txsHeap`heap, Pointers(heaps.txsHeap.heap.items)`index
      modifies heaps.filesHeap`heap, Pointers(heaps.filesHeap.heap.items)`index
      ensures Valid()
      ensures forall h | h in heaps.Heaps() && h !in old(heaps.Heaps()) :: fresh(h)
      ensures forall x | x in heaps.Items() && x !in old(heaps.Items()) :: fresh(x)
      ensures ok <==> fault == NoFault
      ensures ok ==> db.addresses ==
                     old(db.addresses) + UpdatedAddresses(old(db.addresses), db.chain.events, r.minPos, r.maxPos + 1)
      ensures !ok ==> db.addresses == old(db.addresses)
      ensures ok ==> AllCommitted(before, r.maxPos + 1)
      ensures !ok ==> AllFailed(before, r.maxPos + 1)
      ensures !ok && updates == [] ==> States() == before
    {
      hide UpdatedAddresses, ById, AllStaged, AllCommitted, AllFailed, States, Current;
      hide IsColumnHeap, HeapSet.Heaps, HeapSet.Items;
      var addresses, lists := Stage(updates, r.maxPos + 1);
      ok := fault == NoFault;
      if ok {
        Commit(addresses, lists, r.maxPos, before);
      } else {
        FailedInAll(before, addresses, lists, r.maxPos + 1);
      }
    }

    method CalculateStat(r: StatRange, fault: Fault) returns (ok: bool)
      requires Valid()
      requires r.minPos == currentPos
      modifies this`currentPos, db`addresses, db`heapConfigs, db`submitIdConfig
      modifies heaps.dataSizeHeap`heap, Pointers(heaps.dataSizeHeap.heap.items)`index
      modifies heaps.storageFeeHeap`heap, Pointers(heaps.storageFeeHeap.heap.items)`index
      modifies heaps.txsHeap`heap, Pointers(heaps.txsHeap.heap.items)`index
      modifies heaps.filesHeap`heap, Pointers(heaps.filesHeap.heap.items)`index
      ensures Valid()
      ensures forall h | h in heaps.Heaps() && h !in old(heaps.Heaps()) :: fresh(h)
      ensures forall x | x in heaps.Items() && x !in old(heaps.Items()) :: fresh(x)
      ensures ok <==> fault == NoFault
      ensures ok ==> db.addresses ==
                     old(db.addresses) + UpdatedAddresses(old(db.addresses), db.chain.events, r.minPos, r.maxPos + 1)
      ensures !ok ==> db.addresses == old(db.addresses)
      ensures ok ==> AllCommitted(old(States()), r.maxPos + 1)
      ensures fault == LateFault ==> AllFailed(old(States()), r.maxPos + 1)
      ensures fault == ReadFault || fault == EarlyFault ==> States() == old(States())
    {
      hide UpdatedAddresses, ById, AllStep, AllCommitted, AllFailed, States, Current;
      hide IsColumnHeap, HeapSet.Heaps, HeapSet.Items;
      if fault == ReadFault {
        return false;
      }
      var updates := CollectUpdates(r);
      if updates != [] && fault == EarlyFault {
          return false;
      }
      ok := Transact(r, updates, fault, States());
    }

    /** One round of `AbsTopn.DoStat`: a round of every column's state machine. */
    method Attempt(fault: Fault) returns (ok: bool)
      requires Valid()
      modifies this`currentPos, db`addresses, db`heapConfigs, db`submitIdConfig
      modifies heaps.dataSizeHeap`heap, Pointers(heaps.dataSizeHeap.heap.items)`index
      modifies heaps.storageFeeHeap`heap, Pointers(heaps.storageFeeHeap.heap.items)`index
      modifies heaps.txsHeap`heap, Pointers(heaps.txsHeap.heap.items)`index
      modifies heaps.filesHeap`heap, Pointers(heaps.filesHeap.heap.items)`index
      ensures Valid()
      ensures forall h | h in heaps.Heaps() && h !in old(heaps.Heaps()) :: fresh(h)
      ensures forall x | x in heaps.Items() && x !in old(heaps.Items()) :: fresh(x)
      ensures ok <==> fault == NoFault && old(currentPos) < SettledEnd(db.chain)
      ensures old(currentPos) <= currentPos && (ok <==> old(currentPos) != currentPos)
      ensures db.addresses ==
              if !ok then old(db.addresses) else
              old(db.addresses) + UpdatedAddresses(old(db.addresses), db.chain.events, old(currentPos), currentPos)
      ensures AllAttempted(old(States()), States(), fault)
    {
      hide AllCommitted, AllFailed, AllAttempted, NextEnd, UpdatedAddresses, States, Current, SettledEnd;
      hide IsColumnHeap, HeapSet.Heaps, HeapSet.Items;
      SharedByAll();
      var r := NextStatRange();
      ok := r.Ok?;
      if ok {
        ok := CalculateStat(r.value, fault);
        CommitMovesCursorOfAll(old(States()), r.value.maxPos + 1);
        SharedByAll();
        assert States()[Size].pos == currentPos;
        BatchIsAttemptOfAll(old(States()), r.value.maxPos + 1, fault);
      } else {
        NothingIsAttemptOfAll(fault);
      }
    }

    /** Another task registers an address that has no row yet. */
    method Register(id: nat, address: string)
      requires Valid()
      modifies db`addresses
      ensures Valid()
      ensures db.addresses == if id in old(db.addresses) then old(db.addresses)
                              else old(db.addresses)[id := Address(id, address, 0, 0, 0, 0)]
      ensures AllRegistered(old(States()), States(), id)
    {
      hide Registered, IsColumnHeap;
      AllFields();
      if id !in db.addresses {
        db.addresses := db.addresses[id := Address(id, address, 0, 0, 0, 0)];
      }
      forall f: Field ensures Registered(old(Current(f)), Current(f), id) {
        RegisteredColumn(f, id);
      }
    }

    twostate lemma RegisteredColumn(new f: Field, new id: nat)
      requires db.chain == old(db.chain) && db.submitIdConfig == old(db.submitIdConfig)
      requires db.heapConfigs == old(db.heapConfigs) && currentPos == old(currentPos)
      requires heaps.Of(f).Rows() == old(heaps.Of(f).Rows())
      requires if id in old(db.addresses) then db.addresses == old(db.addresses)
               else exists address :: db.addresses == old(db.addresses)[id := Address(id, address, 0, 0, 0, 0)]
      ensures Registered(old(Current(f)), Current(f), id)
    {
    }
  }

  /** A heap that was loaded from its list, or set up from the table, boots its column. */
  lemma ColumnIsBooted(f: Field, db: Database, heaps: HeapSet, before: State)
    requires heaps.Valid()
    requires before == State(db.chain, KeysOf(KeyOf(f), db.addresses), db.submitIdConfig, before.snap, before.pos,
                             before.heap)
    requires f in db.heapConfigs
    requires || (before.snap == None && heaps.Initialized(f, db.addresses, db.heapConfigs[f]))
             || (before.snap == StoredList(f, db.heapConfigs) && heaps.Loaded(f, db.heapConfigs))
    ensures BootStep(TaskConfig(f), before, StateOf(f, db, Resume(0, db.submitIdConfig), heaps.Of(f).Rows()))
  {
  }

  /** Once every column has a stored list, as in every state of a run, a restart finds them all. */
  lemma RestartSucceeds(lists: Lists)
    requires forall f: Field :: StoredList(f, lists).Some?
    ensures lists.Keys == FIELDS
  {
    AllFields();
    forall f: Field ensures f in lists {
      assert StoredList(f, lists).Some?;
    }
  }

  lemma AllStored(lists: Lists)
    requires |lists| == |FIELDS|
    ensures lists.Keys == FIELDS
  {
    AllFields();
    assert |lists.Keys| == |lists|;
    SubsetSize(lists.Keys, FIELDS);
  }

  /** `MustNewTopnSubmit`: no stored lists means a first start, all four a restart, anything
      else is fatal. */
  method Boot(db: Database) returns (task: Option<TopnSubmit>)
    requires db.Valid()
    modifies db`heapConfigs
    ensures task.Some? <==> old(db.heapConfigs) == map[] || old(db.heapConfigs).Keys == FIELDS
    ensures task.None? ==> db.heapConfigs == old(db.heapConfigs)
    ensures task.Some? ==> task.value.Valid() && task.value.db == db
    ensures task.Some? ==> fresh(task.value) && fresh(task.value.heaps.Boxes())
    ensures task.Some? ==> fresh(task.value.heaps.Heaps()) && fresh(task.value.heaps.Items())
    ensures task.Some? ==> forall f: Field, pos, rows ::
              BootStep(TaskConfig(f), old(StateOf(f, db, pos, rows)), task.value.Current(f))
  {
    hide IsColumnHeap, HeapSet.Loaded, HeapSet.Initialized, BootStep, KeysOf, Ranked, HeapSet.Heaps, HeapSet.Items;
    var heaps := new HeapSet();
    if |db.heapConfigs| == 0 {
      var lists := heaps.Init(db.addresses);
      db.heapConfigs := lists;
    } else if |db.heapConfigs| != |FIELDS| {
      return None;
    } else {
      AllStored(db.heapConfigs);
      heaps.Load(db.heapConfigs);
    }
    var t := new TopnSubmit(db, heaps);
    task := Some(t);
    AllFields();
    forall f: Field, pos, rows ensures BootStep(TaskConfig(f), old(StateOf(f, db, pos, rows)), t.Current(f)) {
      ColumnIsBooted(f, db, heaps, old(StateOf(f, db, pos, rows)));
    }
  }

  // ------------------------------------------------- runs of the statistics task

  /** One column of a history of the four state machines. */
  ghost function ColumnOf(history: seq<map<Field, State>>, f: Field): seq<State>
    requires forall m | m in history :: f in m
  {
    seq(|history|, i requires 0 <= i < |history| => history[i][f])
  }

  /** Every column of the history is a run of its state machine. */
  ghost predicate AreRuns(history: seq<map<Field, State>>) {
    && (forall m, f: Field | m in history :: f in m)
    && forall f: Field :: IsRun(TaskConfig(f), ColumnOf(history, f))
  }

  lemma RunsContinue(history: seq<map<Field, State>>, after: map<Field, State>)
    requires AreRuns(history) && history != []
    requires AllStep(history[|history| - 1], after)
    ensures AreRuns(history + [after])
  {
    hide Step, IsRun;
    var longer := history + [after];
    forall m, f: Field | m in longer ensures f in m {
      assert AllStep(history[|history| - 1], after);
    }
    forall f: Field ensures IsRun(TaskConfig(f), ColumnOf(longer, f)) {
      assert ColumnOf(longer, f) == ColumnOf(history, f) + [after[f]];
      RunContinues(TaskConfig(f), ColumnOf(history, f), after[f]);
    }
  }

  lemma RunsBegin(before: map<Field, State>, after: map<Field, State>)
    requires forall f: Field :: f in before && f in after && BootStep(TaskConfig(f), before[f], after[f])
    requires forall f: Field :: before[f].stored == None && before[f].snap == None && WellFormed(before[f].chain)
    ensures AreRuns([after])
  {
    hide BootStep, IsRun, WellFormed;
    forall f: Field ensures IsRun(TaskConfig(f), ColumnOf([after], f)) {
      assert ColumnOf([after], f) == [after[f]];
      FirstRun(TaskConfig(f), before[f], after[f]);
    }
  }

  /** At every moment every column has a stored list, and it is a ranked top-n of the table:
      no restart is fatal. */
  lemma EveryListIsTopn(history: seq<map<Field, State>>, i: nat, f: Field)
    requires AreRuns(history) && i < |history|
    ensures f in history[i] && history[i][f].snap.Some?
    ensures IsTopn(MAX_SUBMITS, ValueIn(history[i][f].table), history[i][f].snap.value)
    ensures DescendingKeys(history[i][f].snap.value)
  {
    assert history[i] in history;
    StoredListIsTopn(TaskConfig(f), ColumnOf(history, f), i);
  }

  /** One round of `AbsTopn.DoStat`, and what can happen between rounds. */
  datatype Action = Attempt(fault: Fault) | Restart | Register(id: nat, address: string)

  /** What an action does to the states of the four machines. */
  ghost predicate AllDid(before: map<Field, State>, after: map<Field, State>, action: Action) {
    match action
    case Attempt(fault) => AllAttempted(before, after, fault)
    case Restart => AllBooted(before, after)
    case Register(id, _) => AllRegistered(before, after, id)
  }

  lemma AllDidIsStep(before: map<Field, State>, after: map<Field, State>, action: Action)
    requires AllDid(before, after, action)
    ensures AllStep(before, after)
  {
    hide Attempted, BootStep, Registered, Step;
    forall f: Field ensures f in before && f in after && Step(TaskConfig(f), before[f], after[f]) {
      match action {
        case Attempt(fault) => AttemptIsStep(TaskConfig(f), before[f], after[f], fault);
        case Restart => BootIsStep(TaskConfig(f), before[f], after[f]);
        case Register(id, _) => RegisteredIsStep(TaskConfig(f), before[f], after[f], id);
      }
    }
  }

  lemma AllSyncedIsStep(before: map<Field, State>, after: map<Field, State>, chain: Chain)
    requires AllSynced(before, after, chain)
    requires forall f | f in before :: ChainStep(before[f].chain, chain)
    ensures AllStep(before, after)
  {
    hide ChainStep, Step;
    forall f: Field ensures f in before && f in after && Step(TaskConfig(f), before[f], after[f]) {
      SyncIsStep(TaskConfig(f), before[f], after[f]);
    }
  }

  /** Round i of the history: the chain becomes the i-th, then the i-th action happens. */
  ghost predicate FollowsAt(history: seq<map<Field, State>>, script: seq<Action>, chains: seq<Chain>, i: nat)
    requires i < |script| == |chains| && 2 * i + 2 < |history|
  {
    && AllSynced(history[2 * i], history[2 * i + 1], chains[i])
    && AllDid(history[2 * i + 1], history[2 * i + 2], script[i])
  }

  lemma FollowsLonger(history: seq<map<Field, State>>, more: seq<map<Field, State>>, script: seq<Action>,
                      chains: seq<Chain>, i: nat)
    requires i < |script| == |chains| && |history| == 2 * i + 1
    requires forall j | 0 <= j < i :: FollowsAt(history, script, chains, j)
    requires |more| == 2 * i + 3 && more == history + [more[2 * i + 1], more[2 * i + 2]]
    requires AllSynced(more[2 * i], more[2 * i + 1], chains[i]) && AllDid(more[2 * i + 1], more[2 * i + 2], script[i])
    ensures forall j | 0 <= j < i + 1 :: FollowsAt(more, script, chains, j)
  {
    hide AllDid, AllSynced;
    forall j | 0 <= j < i + 1 ensures FollowsAt(more, script, chains, j) {
      if j < i {
        assert FollowsAt(history, script, chains, j);
      }
    }
  }

  // ------------------------------------------------- the rows

  function RowOf(addresses: map<nat, Address>, id: nat): Address {
    if id in addresses then addresses[id] else Address(id, "", 0, 0, 0, 0)
  }

  /** The row is the one before, plus its sender's submits at positions below `pos`: sizes, fees
      and files counted once, transactions once more for each repeat. */
  ghost predicate RowCounts(before: Address, after: Address, events: seq<Event>, id: nat, pos: nat, repeats: nat) {
    && after.dataSize == before.dataSize + Gain(Size, events, id, 0, pos)
    && after.storageFee == before.storageFee + Gain(Amount, events, id, 0, pos)
    && after.files == before.files + Gain(Files, events, id, 0, pos)
    && after.txs == before.txs + Gain(Txs, events, id, 0, pos) + repeats
  }

  /** The columns of the table the history began with. */
  ghost predicate BeganWith(history: seq<map<Field, State>>, before: map<nat, Address>) {
    history != [] && forall f: Field :: f in history[0] && history[0][f].table == KeysOf(KeyOf(f), before)
  }

  /** How often a transaction of the sender was counted again. */
  ghost function RepeatsOf(history: seq<map<Field, State>>, id: nat): nat
    requires AreRuns(history) && history != []
  {
    Repeats(TaskConfig(Txs), ColumnOf(history, Txs), |history| - 1, id)
  }

  lemma ColumnValue(f: Field, addresses: map<nat, Address>, id: nat)
    ensures ValueIn(KeysOf(KeyOf(f), addresses))(id) == Column(f, RowOf(addresses, id))
  {
  }

  lemma ColumnRun(task: TopnSubmit, history: seq<map<Field, State>>, before: map<nat, Address>, f: Field)
    requires AreRuns(history) && BeganWith(history, before) && history[|history| - 1] == task.States()
    ensures forall m | m in history :: f in m
    ensures var run := ColumnOf(history, f);
            && IsRun(TaskConfig(f), run) && |run| == |history|
            && run[0].table == KeysOf(KeyOf(f), before) && run[|run| - 1] == task.Current(f)
  {
    hide IsRun, KeysOf, StateOf;
    AllFields();
    assert history[0] in history && history[|history| - 1] in history;
  }

  /** In every column what the row has gained since the history began. */
  lemma ColumnCounts(task: TopnSubmit, history: seq<map<Field, State>>, before: map<nat, Address>, f: Field, id: nat)
    requires AreRuns(history) && BeganWith(history, before) && history[|history| - 1] == task.States()
    ensures Column(f, RowOf(task.db.addresses, id)) ==
            Column(f, RowOf(before, id)) + Gain(f, task.db.chain.events, id, 0, task.currentPos) +
            if f == Txs then RepeatsOf(history, id) else 0
    ensures task.currentPos == Resume(0, task.db.submitIdConfig)
  {
    ColumnRun(task, history, before, f);
    hide Gain, IsRun, Repeats, AreRuns, BeganWith, ColumnOf, TopnSubmit.States, RowOf, KeysOf;
    var run := ColumnOf(history, f);
    RunIsSound(TaskConfig(f), run, |run| - 1);
    ColumnValue(f, before, id);
    ColumnValue(f, task.db.addresses, id);
    if f == Txs {
      TxsExceedByRepeats(TaskConfig(f), run, |run| - 1, id);
    } else {
      RowsCountEventsOnce(TaskConfig(f), run, |run| - 1, id);
    }
  }

  /** Every row is right, up to the stored position. */
  ghost predicate AllRowsCount(db: Database, before: map<nat, Address>, history: seq<map<Field, State>>)
    requires AreRuns(history) && history != []
    reads db
  {
    forall id: nat ::
      RowCounts(RowOf(before, id), RowOf(db.addresses, id), db.chain.events, id, Resume(0, db.submitIdConfig),
                RepeatsOf(history, id))
  }

  lemma RowsCount(task: TopnSubmit, history: seq<map<Field, State>>, before: map<nat, Address>)
    requires AreRuns(history) && BeganWith(history, before) && history[|history| - 1] == task.States()
    ensures AllRowsCount(task.db, before, history)
  {
    forall id: nat
      ensures RowCounts(RowOf(before, id), RowOf(task.db.addresses, id), task.db.chain.events, id,
                        Resume(0, task.db.submitIdConfig), RepeatsOf(history, id))
    {
      hide RowCounts, RowOf, RepeatsOf;
      OneRowCounts(task, history, before, id);
    }
  }

  lemma OneRowCounts(task: TopnSubmit, history: seq<map<Field, State>>, before: map<nat, Address>, id: nat)
    requires AreRuns(history) && BeganWith(history, before) && history[|history| - 1] == task.States()
    ensures RowCounts(RowOf(before, id), RowOf(task.db.addresses, id), task.db.chain.events, id,
                      Resume(0, task.db.submitIdConfig), RepeatsOf(history, id))
  {
    hide Gain, AreRuns, BeganWith, RepeatsOf, TopnSubmit.States, RowOf;
    ColumnCounts(task, history, before, Size, id);
    ColumnCounts(task, history, before, Amount, id);
    ColumnCounts(task, history, before, Txs, id);
    ColumnCounts(task, history, before, Files, id);
  }

  /** Once the cursor is at the settled end, every settled submit is in the row of its sender. */
  lemma CaughtUpRow(task: TopnSubmit, history: seq<map<Field, State>>, before: map<nat, Address>, id: nat)
    requires AreRuns(history) && BeganWith(history, before) && history[|history| - 1] == task.States()
    requires SettledEnd(task.db.chain) <= task.currentPos
    ensures RowCounts(RowOf(before, id), RowOf(task.db.addresses, id), Settled(task.db.chain), id,
                      SettledEnd(task.db.chain), RepeatsOf(history, id))
  {
    hide Gain, AreRuns, BeganWith, RepeatsOf, TopnSubmit.States, RowOf, SettledEnd, Settled, WellFormed;
    var chain := task.db.chain;
    EndOfSettled(task, history, before);
    OneRowCounts(task, history, before, id);
    QueryIsSettled(Size, chain, id, 0, SettledEnd(chain));
    QueryIsSettled(Amount, chain, id, 0, SettledEnd(chain));
    QueryIsSettled(Files, chain, id, 0, SettledEnd(chain));
    QueryIsSettled(Txs, chain, id, 0, SettledEnd(chain));
  }

  lemma EndOfSettled(task: TopnSubmit, history: seq<map<Field, State>>, before: map<nat, Address>)
    requires AreRuns(history) && BeganWith(history, before) && history[|history| - 1] == task.States()
    requires SettledEnd(task.db.chain) <= task.currentPos
    ensures WellFormed(task.db.chain)
    ensures SettledEnd(task.db.chain) == task.currentPos == Resume(0, task.db.submitIdConfig)
  {
    ColumnRun(task, history, before, Size);
    hide AreRuns, BeganWith, TopnSubmit.States, SettledEnd, IsRun, IsTopn, Reflects, WellFormed;
    RunIsSound(TaskConfig(Size), ColumnOf(history, Size), |history| - 1);
  }

  /** No row vanishes, and no address text changes. */
  ghost predicate KeepsAddresses(before: map<nat, Address>, after: map<nat, Address>) {
    forall id | id in before :: id in after && after[id].address == before[id].address
  }

  lemma BatchKeepsAddresses(before: map<nat, Address>, addresses: map<nat, Address>, events: seq<Event>, lo: nat,
                            hi: nat)
    requires KeepsAddresses(before, addresses)
    ensures KeepsAddresses(before, addresses + UpdatedAddresses(addresses, events, lo, hi))
  {
    forall id | id in before
      ensures (addresses + UpdatedAddresses(addresses, events, lo, hi))[id].address == before[id].address
    {
      BatchKeepsAddress(addresses, events, lo, hi, id);
    }
  }

  // ------------------------------------------------- the whole operation

  /** With all lists stored a restart yields a task again. */
  method Reboot(task: TopnSubmit) returns (task': TopnSubmit)
    requires task.Valid() && task.db.heapConfigs.Keys == FIELDS
    modifies task.db`heapConfigs
    ensures task'.Valid() && task'.db == task.db && fresh(task')
    ensures fresh(task'.heaps.Boxes()) && fresh(task'.heaps.Heaps()) && fresh(task'.heaps.Items())
    ensures AllBooted(old(task.States()), task'.States())
  {
    hide HeapSet.Heaps, HeapSet.Items, HeapSet.Boxes, BootStep, IsColumnHeap;
    var booted := Boot(task.db);
    task' := booted.value;
    AllFields();
    forall f: Field ensures BootStep(TaskConfig(f), old(task.Current(f)), task'.Current(f)) {
      ghost var s := old(StateOf(f, task.db, task.currentPos, task.heaps.Of(f).Rows()));
      assert BootStep(TaskConfig(f), s, task'.Current(f));
    }
  }

  method Act(task: TopnSubmit, action: Action) returns (task': TopnSubmit)
    requires task.Valid() && task.db.heapConfigs.Keys == FIELDS
    modifies task`currentPos, task.db`addresses, task.db`heapConfigs, task.db`submitIdConfig
    modifies task.heaps.Boxes()`heap, task.heaps.Items()`index
    ensures task'.Valid() && task'.db == task.db && (task' == task || fresh(task'))
    ensures forall b | b in task'.heaps.Boxes() && b !in task.heaps.Boxes() :: fresh(b)
    ensures forall h | h in task'.heaps.Heaps() && h !in old(task.heaps.Heaps()) :: fresh(h)
    ensures forall x | x in task'.heaps.Items() && x !in old(task.heaps.Items()) :: fresh(x)
    ensures AllDid(old(task.States()), task'.States(), action)
    ensures KeepsAddresses(old(task.db.addresses), task.db.addresses)
  {
    hide HeapSet.Heaps, AllAttempted, AllBooted, AllRegistered, IsColumnHeap, TopnSubmit.States, UpdatedAddresses;
    task' := task;
    match action {
      case Attempt(fault) =>
        var ok := task.Attempt(fault);
        BatchKeepsAddresses(old(task.db.addresses), old(task.db.addresses), task.db.chain.events,
                            old(task.currentPos), task.currentPos);
      case Restart =>
        task' := Reboot(task);
      case Register(id, address) =>
        task.Register(id, address);
    }
  }

  lemma AllListsStored(task: TopnSubmit, history: seq<map<Field, State>>)
    requires AreRuns(history) && history != [] && history[|history| - 1] == task.States()
    ensures task.db.heapConfigs.Keys == FIELDS
  {
    hide AreRuns, IsTopn, DescendingKeys;
    forall f: Field ensures StoredList(f, task.db.heapConfigs).Some? {
      EveryListIsTopn(history, |history| - 1, f);
    }
    RestartSucceeds(task.db.heapConfigs);
  }

  /** The table's columns and the stored lists, as the last state of the history has them. */
  lemma ListsAreTopn(task: TopnSubmit, history: seq<map<Field, State>>, f: Field)
    requires AreRuns(history) && history != [] && history[|history| - 1] == task.States()
    ensures f in task.db.heapConfigs && IsColumnTopn(f, task.db.addresses, task.db.heapConfigs[f])
  {
    hide AreRuns, IsTopn, DescendingKeys, KeysOf, Ranked;
    AllFields();
    AllListsStored(task, history);
    EveryListIsTopn(history, |history| - 1, f);
  }

  /** The synced chain moves under the running process. */
  method Sync(task: TopnSubmit, chain: Chain)
    requires task.Valid()
    modifies task.db`chain
    ensures task.Valid() && task.db.chain == chain
    ensures AllSynced(old(task.States()), task.States(), chain)
  {
    hide IsColumnHeap;
    task.db.chain := chain;
    AllFields();
  }

  /** The chain moves, then something happens to the task: the history goes on, with the states
      that the chain and the action say. */
  method Round(task: TopnSubmit, chain: Chain, action: Action, ghost history: seq<map<Field, State>>)
    returns (task': TopnSubmit, ghost history': seq<map<Field, State>>)
    requires task.Valid() && ChainStep(task.db.chain, chain)
    requires AreRuns(history) && history != [] && history[|history| - 1] == task.States()
    modifies task`currentPos, task.db`chain, task.db`addresses, task.db`heapConfigs, task.db`submitIdConfig
    modifies task.heaps.Boxes()`heap, task.heaps.Items()`index
    ensures task'.Valid() && task'.db == task.db && (task' == task || fresh(task'))
    ensures task'.db.chain == chain
    ensures forall b | b in task'.heaps.Boxes() && b !in task.heaps.Boxes() :: fresh(b)
    ensures forall h | h in task'.heaps.Heaps() && h !in old(task.heaps.Heaps()) :: fresh(h)
    ensures forall x | x in task'.heaps.Items() && x !in old(task.heaps.Items()) :: fresh(x)
    ensures AreRuns(history') && |history'| == |history| + 2 && history < history'
    ensures history'[|history| + 1] == task'.States()
    ensures AllSynced(history'[|history| - 1], history'[|history|], chain)
    ensures AllDid(history'[|history|], history'[|history| + 1], action)
    ensures KeepsAddresses(old(task.db.addresses), task.db.addresses)
  {
    hide HeapSet.Heaps, HeapSet.Items, HeapSet.Boxes, AllStep, AreRuns, IsColumnHeap, ChainStep, TopnSubmit.States;
    hide AllDid, AllSynced, KeepsAddresses;
    AllListsStored(task, history);
    task.SharedByAll();
    Sync(task, chain);
    AllSyncedIsStep(history[|history| - 1], task.States(), chain);
    RunsContinue(history, task.States());
    history' := history + [task.States()];
    ghost var synced := task.States();
    task' := Act(task, action);
    AllDidIsStep(synced, task'.States(), action);
    RunsContinue(history', task'.States());
    history' := history' + [task'.States()];
  }

  /** The first start, on an empty database. */
  method Start(db: Database) returns (task: TopnSubmit, ghost history: seq<map<Field, State>>)
    requires db.Valid() && WellFormed(db.chain)
    requires db.heapConfigs == map[] && db.submitIdConfig == None
    modifies db`heapConfigs
    ensures task.Valid() && task.db == db && fresh(task)
    ensures fresh(task.heaps.Boxes()) && fresh(task.heaps.Heaps()) && fresh(task.heaps.Items())
    ensures AreRuns(history) && history == [task.States()] && BeganWith(history, db.addresses)
  {
    hide HeapSet.Heaps, HeapSet.Items, HeapSet.Boxes, IsColumnHeap, AreRuns, BootStep, WellFormed, KeysOf, Ranked;
    ghost var before: map<Field, State> := map f | f in FIELDS :: StateOf(f, db, 0, []);
    var booted := Boot(db);
    task := booted.value;
    history := [task.States()];
    AllFields();
    RunsBegin(before, task.States());
  }

  /** The task from its first start through any script of attempts, failures, restarts and
      registered addresses, while the synced chain moves under it: runs of the four state
      machines that do what the script says. No restart fails, every submit up to the stored
      position is in the rows, and each stored list is a ranked top-n of its column. */
  method Operate(db: Database, script: seq<Action>, chains: seq<Chain>) returns (ghost history: seq<map<Field, State>>)
    requires db.Valid() && WellFormed(db.chain)
    requires db.heapConfigs == map[] && db.submitIdConfig == None
    requires |chains| == |script| && ChainHistory(db.chain, chains)
    modifies db
    ensures AreRuns(history) && |history| == 2 * |script| + 1
    ensures forall i | 0 <= i < |script| :: FollowsAt(history, script, chains, i)
    ensures KeepsAddresses(old(db.addresses), db.addresses)
    ensures AllRowsCount(db, old(db.addresses), history)
    ensures forall f: Field :: f in db.heapConfigs && IsColumnTopn(f, db.addresses, db.heapConfigs[f])
  {
    hide AreRuns, IsColumnHeap, ChainStep, WellFormed, IsColumnTopn, TopnSubmit.States, FollowsAt, AllSynced, AllDid;
    hide HeapSet.Boxes, HeapSet.Heaps, HeapSet.Items, BeganWith, KeepsAddresses, AllRowsCount;
    ghost var chain0, before := db.chain, db.addresses;
    var task;
    task, history := Start(db);
    KeepsAddressesAtFirst(before);
    for i := 0 to |script|
      invariant task.Valid() && task.db == db
      invariant fresh(task) && fresh(task.heaps.Boxes()) && fresh(task.heaps.Heaps()) && fresh(task.heaps.Items())
      invariant AreRuns(history) && |history| == 2 * i + 1 && history[2 * i] == task.States()
      invariant BeganWith(history, before) && KeepsAddresses(before, db.addresses)
      invariant forall j | 0 <= j < i :: FollowsAt(history, script, chains, j)
      invariant db.chain == if i == 0 then chain0 else chains[i - 1]
    {
      ChainMoves(chain0, chains, i);
      ghost var shorter, addresses := history, db.addresses;
      task, history := Round(task, chains[i], script[i], history);
      FollowsLonger(shorter, history, script, chains, i);
      StillBegan(shorter, history, before);
      StillKept(before, addresses, db.addresses);
    }
    RowsCount(task, history, before);
    forall f: Field
      ensures f in db.heapConfigs && IsColumnTopn(f, db.addresses, db.heapConfigs[f])
    {
      ListsAreTopn(task, history, f);
    }
  }

  lemma KeepsAddressesAtFirst(before: map<nat, Address>)
    ensures KeepsAddresses(before, before)
  {
  }

  lemma StillKept(before: map<nat, Address>, addresses: map<nat, Address>, after: map<nat, Address>)
    requires KeepsAddresses(before, addresses) && KeepsAddresses(addresses, after)
    ensures KeepsAddresses(before, after)
  {
  }

  lemma StillBegan(history: seq<map<Field, State>>, more: seq<map<Field, State>>, before: map<nat, Address>)
    requires BeganWith(history, before) && history < more
    ensures BeganWith(more, before)
  {
  }

  /** One round of the loop without a failure. */
  method Turn(task: TopnSubmit) returns (ok: bool)
    requires task.Valid()
    modifies task`currentPos, task.db`addresses, task.db`heapConfigs, task.db`submitIdConfig
    modifies task.heaps.Boxes()`heap, task.heaps.Items()`index
    ensures task.Valid()
    ensures forall h | h in task.heaps.Heaps() && h !in old(task.heaps.Heaps()) :: fresh(h)
    ensures forall x | x in task.heaps.Items() && x !in old(task.heaps.Items()) :: fresh(x)
    ensures !ok ==> SettledEnd(task.db.chain) <= task.currentPos
    ensures !ok ==> task.currentPos == old(task.currentPos)
    ensures ok ==> old(task.currentPos) < task.currentPos && old(task.currentPos) < SettledEnd(task.db.chain)
    ensures AllAttempted(old(task.States()), task.States(), NoFault)
  {
    hide HeapSet.Heaps, AllAttempted, IsColumnHeap, TopnSubmit.States, UpdatedAddresses, SettledEnd;
    ok := task.Attempt(NoFault);
  }

  /** The loop of `AbsTopn.DoStat` while nothing fails and the chain stands still, up to its first
      pause: undisturbed rounds of the four machines, after which every settled submit is counted. */
  method CatchUp(task: TopnSubmit, ghost history: seq<map<Field, State>>) returns (ghost rounds: seq<map<Field, State>>)
    requires task.Valid()
    requires AreRuns(history) && history != [] && history[|history| - 1] == task.States()
    modifies task`currentPos, task.db`addresses, task.db`heapConfigs, task.db`submitIdConfig
    modifies task.heaps.Boxes()`heap, task.heaps.Items()`index
    ensures task.Valid() && SettledEnd(task.db.chain) <= task.currentPos
    ensures AreRuns(history + rounds) && (history + rounds)[|history + rounds| - 1] == task.States()
    ensures forall i | |history| <= i < |history + rounds| ::
              AllAttempted((history + rounds)[i - 1], (history + rounds)[i], NoFault)
  {
    hide AreRuns, AllAttempted, IsColumnHeap, TopnSubmit.States, SettledEnd;
    hide HeapSet.Boxes, HeapSet.Heaps, HeapSet.Items;
    rounds := [];
    assert history + rounds == history;
    var ok := true;
    while ok
      invariant task.Valid()
      invariant forall h | h in task.heaps.Heaps() && h !in old(task.heaps.Heaps()) :: fresh(h)
      invariant forall x | x in task.heaps.Items() && x !in old(task.heaps.Items()) :: fresh(x)
      invariant AreRuns(history + rounds) && (history + rounds)[|history + rounds| - 1] == task.States()
      invariant forall i | |history| <= i < |history + rounds| ::
                  AllAttempted((history + rounds)[i - 1], (history + rounds)[i], NoFault)
      invariant !ok ==> SettledEnd(task.db.chain) <= task.currentPos
      decreases SettledEnd(task.db.chain) - task.currentPos, ok
    {
      ghost var all := history + rounds;
      ok := Turn(task);
      AllDidIsStep(all[|all| - 1], task.States(), Attempt(NoFault));
      RunsContinue(all, task.States());
      assert history + (rounds + [task.States()]) == all + [task.States()];
      rounds := rounds + [task.States()];
    }
  }
}
