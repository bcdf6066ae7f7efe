/** The synced chain data: the event tables (flow submits or rewards) and the block
    table, written by the syncer and only read by the statistics. */
module Ledger {
  import opened Wrappers

  /** One stored event. `pos` is the paging position of its table: the submission
      index of a submit, the block number of a reward. */
  datatype Event = Event(pos: nat, block: nat, time: nat, owner: nat, size: nat, amount: nat, tx: nat)

  /** `next` is the first block that is not synced, `finalized` the chain's finalized head. */
  datatype Chain = Chain(events: seq<Event>, blocks: map<nat, nat>, next: nat, finalized: nat)

  /** Blocks, positions and times never go back; a block has one time and a transaction one block. */
  ghost predicate Follows(a: Event, b: Event) {
    && a.block <= b.block && a.pos <= b.pos && a.time <= b.time
    && (a.pos == b.pos ==> a.block == b.block)
    && (a.block == b.block ==> a.time == b.time)
    && (a.tx == b.tx ==> a.block == b.block)
  }

  ghost predicate Ascending(events: seq<Event>) {
    forall i, j | 0 <= i < j < |events| :: Follows(events[i], events[j])
  }

  ghost predicate BlockTimesFit(c: Chain) {
    && (forall b, d | b in c.blocks && d in c.blocks && b <= d :: c.blocks[b] <= c.blocks[d])
    && (forall b, i | b in c.blocks && 0 <= i < |c.events| ::
          && (c.events[i].block <= b ==> c.events[i].time <= c.blocks[b])
          && (b <= c.events[i].block ==> c.blocks[b] <= c.events[i].time))
  }

  ghost predicate WellFormed(c: Chain) {
    && Ascending(c.events)
    && BlockTimesFit(c)
    && (forall b | b in c.blocks :: b < c.next)
    && (forall i | 0 <= i < |c.events| :: c.events[i].block < c.next)
  }

  /** The events in blocks below b. */
  function Before(events: seq<Event>, b: nat): (r: seq<Event>)
    ensures r <= events
  {
    if events == [] || events[|events| - 1].block < b then events
    else Before(events[..|events| - 1], b)
  }

  lemma {:induction false} BeforeSelects(events: seq<Event>, b: nat)
    requires Ascending(events)
    ensures forall e | e in Before(events, b) :: e.block < b
    ensures forall i | |Before(events, b)| <= i < |events| :: b <= events[i].block
  {
    if events == [] || events[|events| - 1].block < b {
      forall i | 0 <= i < |events| ensures events[i].block < b {
        assert i < |events| - 1 ==> Follows(events[i], events[|events| - 1]);
      }
    } else {
      BeforeSelects(events[..|events| - 1], b);
    }
  }

  /** `MysqlStore.Push`: one block row together with the events since the last one. */
  ghost predicate Pushed(c: Chain, c': Chain, block: nat, time: nat, more: seq<Event>) {
    && c.next <= block
    && (forall e | e in more :: c.next <= e.block <= block)
    && c' == Chain(c.events + more, c.blocks[block := time], block + 1, c.finalized)
    && WellFormed(c')
  }

  /** `MysqlStore.Pop`: a re-org, never at or below the finalized head. */
  ghost predicate Popped(c: Chain, c': Chain, block: nat) {
    && c.finalized < block < c.next
    && c' == Chain(Before(c.events, block), map b | b in c.blocks && b < block :: c.blocks[b], block, c.finalized)
  }

  ghost predicate Finalized(c: Chain, c': Chain) {
    && c.finalized <= c'.finalized
    && c' == c.(finalized := c'.finalized)
  }

  ghost predicate ChainStep(c: Chain, c': Chain) {
    || (exists block, time, more :: Pushed(c, c', block, time, more))
    || (exists block :: Popped(c, c', block))
    || Finalized(c, c')
  }

  /** The synced events at or below the finalized head. */
  function Settled(c: Chain): (r: seq<Event>) {
    Before(c.events, c.finalized + 1)
  }

  lemma PopKeepsWellFormed(c: Chain, c': Chain, block: nat)
    requires WellFormed(c)
    requires Popped(c, c', block)
    ensures WellFormed(c')
  {
    BeforeSelects(c.events, block);
  }

  lemma {:induction false} BeforeIsMonotone(events: seq<Event>, b: nat, d: nat)
    requires b <= d
    ensures Before(events, b) <= Before(events, d)
    ensures Before(Before(events, d), b) == Before(events, b)
  {
    if events == [] || events[|events| - 1].block < b {
    } else {
      BeforeIsMonotone(events[..|events| - 1], b, d);
    }
  }

  lemma {:induction false} BeforeExtended(events: seq<Event>, more: seq<Event>, b: nat)
    ensures Before(events, b) <= Before(events + more, b)
  {
    if more == [] {
      assert events + more == events;
    } else {
      var all := events + more;
      assert all[..|all| - 1] == events + more[..|more| - 1];
      BeforeExtended(events, more[..|more| - 1], b);
    }
  }

  lemma PushKeepsSettled(c: Chain, c': Chain, block: nat, time: nat, more: seq<Event>)
    requires WellFormed(c)
    requires Pushed(c, c', block, time, more)
    ensures WellFormed(c')
    ensures Settled(c) <= Settled(c')
  {
    BeforeExtended(c.events, more, c.finalized + 1);
  }

  lemma PopKeepsSettled(c: Chain, c': Chain, block: nat)
    requires WellFormed(c)
    requires Popped(c, c', block)
    ensures WellFormed(c')
    ensures Settled(c) == Settled(c')
  {
    PopKeepsWellFormed(c, c', block);
    BeforeIsMonotone(c.events, c.finalized + 1, block);
  }

  /** `MaxSubmissionIndexFinalized` and `RewardStore.MaxBlockFinalized`: the position of
      the last event at or below the finalized head. */
  function LastFinalized(c: Chain): (r: Option<nat>) {
    var s := Settled(c);
    if s == [] then None else Some(s[|s| - 1].pos)
  }

  // ---------------------------------------------------------------- aggregates

  datatype Field = Size | Amount | Txs | Files

  predicate Hits(e: Event, id: nat, lo: nat, hi: nat) {
    e.owner == id && lo <= e.pos < hi
  }

  function Measure(f: Field, e: Event): nat {
    match f
    case Size => e.size
    case Amount => e.amount
    case _ => 1
  }

  /** sum(length), sum(fee) or count(*) over one owner's events at positions lo..hi-1. */
  function Sum(f: Field, events: seq<Event>, id: nat, lo: nat, hi: nat): nat {
    if events == [] then 0
    else
      var e := events[|events| - 1];
      Sum(f, events[..|events| - 1], id, lo, hi) + if Hits(e, id, lo, hi) then Measure(f, e) else 0
  }

  function TxSet(events: seq<Event>, id: nat, lo: nat, hi: nat): set<nat> {
    set e | e in events && Hits(e, id, lo, hi) :: e.tx
  }

  /** One aggregate column of the grouped query, for one owner. */
  function Gain(f: Field, events: seq<Event>, id: nat, lo: nat, hi: nat): nat {
    if f == Txs then |TxSet(events, id, lo, hi)| else Sum(f, events, id, lo, hi)
  }

  /** The groups of the grouped query. */
  function Owners(events: seq<Event>, lo: nat, hi: nat): set<nat> {
    set e | e in events && lo <= e.pos < hi :: e.owner
  }

  /** The aggregates of a single event, column by column. */
  lemma OneEventGains(e: Event, id: nat, lo: nat, hi: nat)
    ensures Gain(Size, [e], id, lo, hi) == if e.owner == id && lo <= e.pos < hi then e.size else 0
    ensures Gain(Amount, [e], id, lo, hi) == if e.owner == id && lo <= e.pos < hi then e.amount else 0
    ensures Gain(Files, [e], id, lo, hi) == if e.owner == id && lo <= e.pos < hi then 1 else 0
    ensures TxSet([e], id, lo, hi) == if e.owner == id && lo <= e.pos < hi then {e.tx} else {}
    ensures Gain(Txs, [e], id, lo, hi) == if e.owner == id && lo <= e.pos < hi then 1 else 0
    ensures Owners([e], lo, hi) == if lo <= e.pos < hi then {e.owner} else {}
  {
    OneEventSum(Size, e, id, lo, hi);
    OneEventSum(Amount, e, id, lo, hi);
    OneEventSum(Files, e, id, lo, hi);
    assert TxSet([e], id, lo, hi) == if e.owner == id && lo <= e.pos < hi then {e.tx} else {};
  }

  lemma OneEventSum(f: Field, e: Event, id: nat, lo: nat, hi: nat)
    ensures Sum(f, [e], id, lo, hi) == if Hits(e, id, lo, hi) then Measure(f, e) else 0
  {
    assert [e][..|[e]| - 1] == [];
    assert Sum(f, [], id, lo, hi) == 0;
  }

  /** The sums of two lists of events add up, the sets of transactions and of owners unite: with
      the single event this fixes every aggregate of every list. */
  lemma {:induction false} GainsAppend(f: Field, events: seq<Event>, more: seq<Event>, id: nat, lo: nat, hi: nat)
    ensures Sum(f, events + more, id, lo, hi) == Sum(f, events, id, lo, hi) + Sum(f, more, id, lo, hi)
    ensures f != Txs ==>
              Gain(f, events + more, id, lo, hi) == Gain(f, events, id, lo, hi) + Gain(f, more, id, lo, hi)
    ensures TxSet(events + more, id, lo, hi) == TxSet(events, id, lo, hi) + TxSet(more, id, lo, hi)
    ensures Owners(events + more, lo, hi) == Owners(events, lo, hi) + Owners(more, lo, hi)
  {
    if more == [] {
      assert events + more == events;
    } else {
      var all, k := events + more, |more| - 1;
      assert all[..|all| - 1] == events + more[..k];
      GainsAppend(f, events, more[..k], id, lo, hi);
    }
  }

  /** Where the owner's events of the range are. */
  ghost function Places(events: seq<Event>, id: nat, lo: nat, hi: nat): set<int> {
    set i | 0 <= i < |events| && events[i].owner == id && lo <= events[i].pos < hi
  }

  /** The file count is the number of the owner's events in the range, the transaction count the
      number of distinct transactions among them; an owner has a group exactly if it has events. */
  lemma CountsAreNumbers(events: seq<Event>, id: nat, lo: nat, hi: nat)
    ensures Gain(Files, events, id, lo, hi) == |Places(events, id, lo, hi)|
    ensures Gain(Txs, events, id, lo, hi) == |set i | i in Places(events, id, lo, hi) :: events[i].tx|
    ensures Gain(Txs, events, id, lo, hi) <= Gain(Files, events, id, lo, hi)
    ensures id in Owners(events, lo, hi) <==> Gain(Files, events, id, lo, hi) > 0
    ensures id in Owners(events, lo, hi) <==> Gain(Txs, events, id, lo, hi) > 0
  {
    FilesAreNumber(events, id, lo, hi);
    TxsOfPlaces(events, id, lo, hi);
  }

  lemma {:induction false} FilesAreNumber(events: seq<Event>, id: nat, lo: nat, hi: nat)
    ensures Sum(Files, events, id, lo, hi) == |Places(events, id, lo, hi)|
    ensures |TxSet(events, id, lo, hi)| <= Sum(Files, events, id, lo, hi)
  {
    if events != [] {
      var init, e := events[..|events| - 1], events[|events| - 1];
      assert events == init + [e];
      FilesAreNumber(init, id, lo, hi);
      PlacesGrow(init, e, id, lo, hi);
      TxsGrow(init, e, id, lo, hi);
    }
  }

  lemma TxsOfPlaces(events: seq<Event>, id: nat, lo: nat, hi: nat)
    ensures TxSet(events, id, lo, hi) == set i | i in Places(events, id, lo, hi) :: events[i].tx
    ensures id in Owners(events, lo, hi) <==> Places(events, id, lo, hi) != {}
    ensures id in Owners(events, lo, hi) <==> TxSet(events, id, lo, hi) != {}
  {
    forall e | e in events && Hits(e, id, lo, hi)
      ensures e.tx in TxSet(events, id, lo, hi) && id in Owners(events, lo, hi)
      ensures exists i :: i in Places(events, id, lo, hi) && events[i] == e
    {
      var i :| 0 <= i < |events| && events[i] == e;
      assert i in Places(events, id, lo, hi);
    }
  }

  lemma PlacesGrow(events: seq<Event>, e: Event, id: nat, lo: nat, hi: nat)
    ensures |Places(events + [e], id, lo, hi)| ==
            |Places(events, id, lo, hi)| + if Hits(e, id, lo, hi) then 1 else 0
  {
    assert Places(events + [e], id, lo, hi) ==
           Places(events, id, lo, hi) + if Hits(e, id, lo, hi) then {|events|} else {};
  }

  lemma TxsGrow(events: seq<Event>, e: Event, id: nat, lo: nat, hi: nat)
    ensures |TxSet(events + [e], id, lo, hi)| <=
            |TxSet(events, id, lo, hi)| + if Hits(e, id, lo, hi) then 1 else 0
  {
    assert TxSet(events + [e], id, lo, hi) ==
           TxSet(events, id, lo, hi) + if Hits(e, id, lo, hi) then {e.tx} else {};
  }

  // ------------------------------------------------- sums of a value

  /** The sum of a value over the events that meet a condition. */
  function Total(value: Event -> nat, events: seq<Event>, keep: Event -> bool): nat {
    if events == [] then 0
    else (if keep(events[0]) then value(events[0]) else 0) + Total(value, events[1..], keep)
  }

  function SizeOf(): Event -> nat { (e: Event) => e.size }

  function AmountOf(): Event -> nat { (e: Event) => e.amount }

  function OwnedWithin(id: nat, lo: nat, hi: nat): Event -> bool {
    (e: Event) => e.owner == id && lo <= e.pos < hi
  }

  lemma {:induction false} TotalAppend(value: Event -> nat, events: seq<Event>, last: Event, keep: Event -> bool)
    ensures Total(value, events + [last], keep) == Total(value, events, keep) + if keep(last) then value(last) else 0
  {
    if events == [] {
      assert [last][1..] == [] && [] + [last] == [last];
    } else {
      assert (events + [last])[1..] == events[1..] + [last];
      TotalAppend(value, events[1..], last, keep);
    }
  }

  /** The size column is the sum of the sizes, the amount column that of the amounts. */
  lemma {:induction false} SumsAreTotals(events: seq<Event>, id: nat, lo: nat, hi: nat)
    ensures Gain(Size, events, id, lo, hi) == Total(SizeOf(), events, OwnedWithin(id, lo, hi))
    ensures Gain(Amount, events, id, lo, hi) == Total(AmountOf(), events, OwnedWithin(id, lo, hi))
  {
    if events != [] {
      var init, e := events[..|events| - 1], events[|events| - 1];
      assert events == init + [e];
      SumsAreTotals(init, id, lo, hi);
      TotalAppend(SizeOf(), init, e, OwnedWithin(id, lo, hi));
      TotalAppend(AmountOf(), init, e, OwnedWithin(id, lo, hi));
    }
  }

  lemma {:induction false} SumIsZero(f: Field, events: seq<Event>, id: nat, lo: nat, hi: nat)
    requires id !in Owners(events, lo, hi)
    ensures Sum(f, events, id, lo, hi) == 0
  {
    if events != [] {
      var e := events[|events| - 1];
      assert e in events;
      forall x | x in events[..|events| - 1] ensures x in events {}
      assert Owners(events[..|events| - 1], lo, hi) <= Owners(events, lo, hi);
      SumIsZero(f, events[..|events| - 1], id, lo, hi);
    }
  }

  /** Owners without a group gain nothing. */
  lemma GainIsZero(f: Field, events: seq<Event>, id: nat, lo: nat, hi: nat)
    requires id !in Owners(events, lo, hi)
    ensures Gain(f, events, id, lo, hi) == 0
  {
    if f == Txs {
      assert TxSet(events, id, lo, hi) == {};
    } else {
      SumIsZero(f, events, id, lo, hi);
    }
  }

  lemma {:induction false} SumSplits(f: Field, events: seq<Event>, id: nat, lo: nat, mid: nat, hi: nat)
    requires lo <= mid <= hi
    ensures Sum(f, events, id, lo, mid) + Sum(f, events, id, mid, hi) == Sum(f, events, id, lo, hi)
  {
    if events != [] {
      SumSplits(f, events[..|events| - 1], id, lo, mid, hi);
    }
  }

  lemma SubsetSize<T>(a: set<T>, b: set<T>)
    requires a <= b
    ensures |a| <= |b|
    ensures |a| == |b| ==> a == b
  {
    assert |b - a| == |b| - |a|;
    if |a| == |b| {
      assert b - a == {};
    }
  }

  /** Distinct transactions of adjacent ranges add up exactly when none is in both. */
  lemma TxsSplit(events: seq<Event>, id: nat, lo: nat, mid: nat, hi: nat)
    requires lo <= mid <= hi
    ensures TxSet(events, id, lo, hi) == TxSet(events, id, lo, mid) + TxSet(events, id, mid, hi)
    ensures Gain(Txs, events, id, lo, mid) + Gain(Txs, events, id, mid, hi) ==
            Gain(Txs, events, id, lo, hi) + |TxSet(events, id, lo, mid) * TxSet(events, id, mid, hi)|
  {
  }

  /** A longer range gains at least as much. */
  lemma GainGrows(f: Field, events: seq<Event>, id: nat, lo: nat, mid: nat, hi: nat)
    requires lo <= mid <= hi
    ensures Gain(f, events, id, lo, mid) <= Gain(f, events, id, lo, hi)
  {
    if f == Txs {
      assert TxSet(events, id, lo, mid) <= TxSet(events, id, lo, hi);
      SubsetSize(TxSet(events, id, lo, mid), TxSet(events, id, lo, hi));
    } else {
      SumSplits(f, events, id, lo, mid, hi);
    }
  }

  lemma {:induction false} SumIgnoresLater(f: Field, events: seq<Event>, more: seq<Event>, id: nat, lo: nat, hi: nat)
    requires forall e | e in more :: hi <= e.pos
    ensures Sum(f, events + more, id, lo, hi) == Sum(f, events, id, lo, hi)
  {
    if more == [] {
      assert events + more == events;
    } else {
      var all := events + more;
      assert all[..|all| - 1] == events + more[..|more| - 1];
      assert all[|all| - 1] == more[|more| - 1];
      assert more[|more| - 1] in more;
      SumIgnoresLater(f, events, more[..|more| - 1], id, lo, hi);
    }
  }

  /** Events at or above hi do not show in a query that ends below hi. */
  lemma QueryIgnoresLater(f: Field, events: seq<Event>, more: seq<Event>, id: nat, lo: nat, hi: nat)
    requires forall e | e in more :: hi <= e.pos
    ensures Gain(f, events + more, id, lo, hi) == Gain(f, events, id, lo, hi)
    ensures Owners(events + more, lo, hi) == Owners(events, lo, hi)
    ensures TxSet(events + more, id, lo, hi) == TxSet(events, id, lo, hi)
  {
    SumIgnoresLater(f, events, more, id, lo, hi);
    assert TxSet(events + more, id, lo, hi) == TxSet(events, id, lo, hi);
  }

  // ------------------------------------------------- queries below the settled end

  /** One past the position of the last settled event; 0 when there is none. */
  function SettledEnd(c: Chain): nat {
    var s := Settled(c);
    if s == [] then 0 else s[|s| - 1].pos + 1
  }

  /** Exactly the synced events at or below the finalized head are settled, and the settled end
      is the position behind the last of them. */
  lemma SettledIsFinalized(c: Chain)
    requires WellFormed(c)
    ensures forall e :: e in Settled(c) <==> e in c.events && e.block <= c.finalized
    ensures forall e | e in c.events && e.block <= c.finalized :: e.pos < SettledEnd(c)
    ensures SettledEnd(c) > 0 ==>
              exists e :: e in c.events && e.block <= c.finalized && e.pos + 1 == SettledEnd(c)
    ensures LastFinalized(c) == if SettledEnd(c) == 0 then None else Some(SettledEnd(c) - 1)
  {
    SettledMembers(c);
    hide WellFormed;
    var s := Settled(c);
    if s != [] {
      assert s[|s| - 1] in s;
    }
  }

  lemma SettledMembers(c: Chain)
    requires WellFormed(c)
    ensures forall e :: e in Settled(c) <==> e in c.events && e.block <= c.finalized
    ensures forall e | e in c.events && e.block <= c.finalized :: e.pos < SettledEnd(c)
  {
    hide BlockTimesFit;
    BeforeSelects(c.events, c.finalized + 1);
    var s := Settled(c);
    forall e | e in c.events && e.block <= c.finalized ensures e in s && e.pos < SettledEnd(c) {
      var i :| 0 <= i < |c.events| && c.events[i] == e;
      assert i < |s|;
      assert i < |s| - 1 ==> Follows(c.events[i], c.events[|s| - 1]);
    }
  }

  /** `rest` holds the events that are not settled: they lie at or above the settled end. */
  lemma UnsettledIsLater(c: Chain)
    requires WellFormed(c)
    ensures c.events == Settled(c) + c.events[|Settled(c)|..]
    ensures forall e | e in c.events[|Settled(c)|..] :: SettledEnd(c) <= e.pos
  {
    BeforeSelects(c.events, c.finalized + 1);
    var k := |Settled(c)|;
    if k > 0 {
      forall i | k <= i < |c.events| ensures SettledEnd(c) <= c.events[i].pos {
        assert Follows(c.events[k - 1], c.events[i]);
        assert Settled(c)[k - 1] in Settled(c);
      }
    }
  }

  /** A settled query reads the settled events only. */
  lemma QueryIsSettled(f: Field, c: Chain, id: nat, lo: nat, hi: nat)
    requires WellFormed(c)
    requires hi <= SettledEnd(c)
    ensures Gain(f, c.events, id, lo, hi) == Gain(f, Settled(c), id, lo, hi)
    ensures Owners(c.events, lo, hi) == Owners(Settled(c), lo, hi)
    ensures TxSet(c.events, id, lo, hi) == TxSet(Settled(c), id, lo, hi)
  {
    UnsettledIsLater(c);
    QueryIgnoresLater(f, Settled(c), c.events[|Settled(c)|..], id, lo, hi);
  }

  /** The settled events of c' are those of c followed by events at or above c's settled end. */
  ghost predicate Continues(c: Chain, c': Chain) {
    && Settled(c) <= Settled(c')
    && (forall e | e in Settled(c')[|Settled(c)|..] :: SettledEnd(c) <= e.pos)
  }

  lemma NewEventsAreLater(c: Chain, c': Chain)
    requires WellFormed(c) && WellFormed(c')
    requires Settled(c) <= Settled(c')
    requires forall i | |Settled(c)| <= i < |c'.events| ::
               (i < |c.events| && c'.events[i] == c.events[i]) || c.next <= c'.events[i].block
    ensures Continues(c, c')
  {
    UnsettledIsLater(c);
    var k := |Settled(c)|;
    forall i | k <= i < |Settled(c')| ensures SettledEnd(c) <= c'.events[i].pos {
      if i < |c.events| && c'.events[i] == c.events[i] {
        assert c.events[k..][i - k] == c.events[i];
      } else if k > 0 {
        assert c.events[k - 1] == c'.events[k - 1];
        assert Follows(c'.events[k - 1], c'.events[i]);
      }
    }
  }

  lemma PushContinues(c: Chain, c': Chain, block: nat, time: nat, more: seq<Event>)
    requires WellFormed(c)
    requires Pushed(c, c', block, time, more)
    ensures WellFormed(c') && Continues(c, c')
  {
    PushKeepsSettled(c, c', block, time, more);
    forall i | |c.events| <= i < |c'.events| ensures c.next <= c'.events[i].block {
      assert c'.events[i] in more;
    }
    NewEventsAreLater(c, c');
  }

  lemma PopContinues(c: Chain, c': Chain, block: nat)
    requires WellFormed(c)
    requires Popped(c, c', block)
    ensures WellFormed(c') && Continues(c, c')
  {
    PopKeepsSettled(c, c', block);
    NewEventsAreLater(c, c');
  }

  lemma FinalizedContinues(c: Chain, c': Chain)
    requires WellFormed(c)
    requires Finalized(c, c')
    ensures WellFormed(c') && Continues(c, c')
  {
    BeforeIsMonotone(c.events, c.finalized + 1, c'.finalized + 1);
    NewEventsAreLater(c, c');
  }

  /** Settled events are final: whatever the syncer does next, they stay, in place,
      and what settles later lies behind them. */
  lemma SettledIsFinal(c: Chain, c': Chain)
    requires WellFormed(c)
    requires ChainStep(c, c')
    ensures WellFormed(c')
    ensures Continues(c, c')
  {
    hide WellFormed, Continues, Pushed, Popped, Finalized;
    if block, time, more :| Pushed(c, c', block, time, more) {
      PushContinues(c, c', block, time, more);
    } else if block :| Popped(c, c', block) {
      PopContinues(c, c', block);
    } else {
      FinalizedContinues(c, c');
    }
  }

  lemma SettledEndGrows(c: Chain, c': Chain)
    requires WellFormed(c')
    requires Continues(c, c')
    ensures SettledEnd(c) <= SettledEnd(c')
  {
  }

  lemma ContinuesIsTransitive(c0: Chain, c1: Chain, c2: Chain)
    requires WellFormed(c1)
    requires Continues(c0, c1) && Continues(c1, c2)
    ensures Continues(c0, c2)
  {
  }

  ghost predicate IsHistory(chains: seq<Chain>) {
    && chains != [] && WellFormed(chains[0])
    && forall i | 0 < i < |chains| :: ChainStep(chains[i - 1], chains[i])
  }

  /** Each chain follows from the one before, the first of them from `first`. */
  ghost predicate ChainHistory(first: Chain, chains: seq<Chain>) {
    forall i | 0 <= i < |chains| :: ChainStep(if i == 0 then first else chains[i - 1], chains[i])
  }

  lemma ChainMoves(first: Chain, chains: seq<Chain>, i: nat)
    requires i < |chains| && ChainHistory(first, chains)
    ensures ChainStep(if i == 0 then first else chains[i - 1], chains[i])
  {
  }

  /** Over any history of the chain: what is settled once stays settled, in place. */
  lemma {:induction false} SettledForever(chains: seq<Chain>, i: nat, j: nat)
    requires IsHistory(chains) && i <= j < |chains|
    ensures WellFormed(chains[i]) && WellFormed(chains[j])
    ensures Continues(chains[i], chains[j])
  {
    hide WellFormed, Continues, ChainStep;
    if j == 0 {
      ContinuesItself(chains[0]);
    } else if i == j {
      SettledForever(chains, i - 1, j - 1);
      SettledIsFinal(chains[j - 1], chains[j]);
      ContinuesItself(chains[j]);
    } else {
      SettledForever(chains, i, j - 1);
      SettledIsFinal(chains[j - 1], chains[j]);
      ContinuesIsTransitive(chains[i], chains[j - 1], chains[j]);
    }
  }

  lemma ContinuesItself(c: Chain)
    ensures Continues(c, c)
  {
  }

  /** A settled query is answered alike at every later time. */
  lemma SettledQueryIsFinal(f: Field, c: Chain, c': Chain, id: nat, lo: nat, hi: nat)
    requires WellFormed(c) && WellFormed(c')
    requires Continues(c, c')
    requires hi <= SettledEnd(c)
    ensures SettledEnd(c) <= SettledEnd(c')
    ensures Gain(f, c'.events, id, lo, hi) == Gain(f, c.events, id, lo, hi)
    ensures TxSet(c'.events, id, lo, hi) == TxSet(c.events, id, lo, hi)
  {
    SettledEndGrows(c, c');
    QueryIsSettled(f, c, id, lo, hi);
    QueryIsSettled(f, c', id, lo, hi);
    var more := Settled(c')[|Settled(c)|..];
    assert Settled(c') == Settled(c) + more;
    QueryIgnoresLater(f, Settled(c), more, id, lo, hi);
  }
}
