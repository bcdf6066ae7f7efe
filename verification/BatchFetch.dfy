/** Batched retrieval of chain data with cross-checks for re-orgs, against a fixed view of
    what the node answers. */
module BatchFetch {
  import Ledger
  import opened Wrappers

  datatype Tx = Tx(hash: nat, index: nat)

  datatype Block = Block(number: nat, hash: nat, txs: seq<Tx>)

  datatype Log = Log(blockNumber: nat, blockHash: nat, txIndex: nat, txHash: nat, data: string)

  datatype Receipt = Receipt(blockNumber: nat, blockHash: nat, txHash: nat, status: nat)

  datatype EthData = EthData(number: nat, block: Block, receipts: map<nat, Receipt>, logs: seq<Log>)

  datatype Error = NoBlockNumbers | FetchFailed | BlockNotFound | ChainReorged | ReceiptsMismatch

  /** What the node answers: a block, or an error where there is none; all logs that match the
      filter, or an error for a range that touches `logsFail`; the receipts of a block, which
      may be nil, or an error. */
  datatype View = View(blocks: map<nat, Block>, logs: seq<Log>, logsFail: set<nat>,
                       receipts: map<nat, Option<seq<Receipt>>>)

  /** Asked for a number of the range, the node answers with the block of that number. */
  ghost predicate Honest(view: View, from: nat, to: nat) {
    forall n | from <= n <= to && n in view.blocks :: view.blocks[n].number == n
  }

  function Elements<T>(s: seq<T>): set<T> {
    set x | x in s
  }

  ghost predicate NoRepeats<T>(s: seq<T>) {
    forall i, j | 0 <= i < j < |s| :: s[i] != s[j]
  }

  // ------------------------------------------------- blocks

  /** The blocks for the numbers of a list, filed under the numbers they carry. */
  function Fetched(view: View, numbers: seq<nat>): map<nat, Block>
    requires Elements(numbers) <= view.blocks.Keys
  {
    if numbers == [] then map[]
    else
      var init, n := numbers[..|numbers| - 1], numbers[|numbers| - 1];
      assert n in Elements(numbers);
      assert forall x | x in Elements(init) :: x in Elements(numbers);
      Fetched(view, init)[view.blocks[n].number := view.blocks[n]]
  }

  /** The numbers carried by the blocks the node answers with. */
  function CarriedBy(view: View, numbers: set<nat>): set<nat>
    requires numbers <= view.blocks.Keys
  {
    set n | n in numbers :: view.blocks[n].number
  }

  lemma FetchedKeys(view: View, numbers: seq<nat>)
    requires Elements(numbers) <= view.blocks.Keys
    ensures Fetched(view, numbers).Keys == CarriedBy(view, Elements(numbers))
  {
  }

  /** Asked for some of the numbers, the node answers with this block, numbered k. */
  ghost predicate Answers(view: View, numbers: set<nat>, k: nat, block: Block)
    requires numbers <= view.blocks.Keys
  {
    exists n :: n in numbers && view.blocks[n] == block && block.number == k
  }

  lemma PrefixElements(numbers: seq<nat>)
    requires numbers != []
    ensures Elements(numbers) == Elements(numbers[..|numbers| - 1]) + {numbers[|numbers| - 1]}
  {
  }

  lemma {:induction false} FetchedBlocks(view: View, numbers: seq<nat>)
    requires Elements(numbers) <= view.blocks.Keys
    ensures forall n | n in Elements(numbers) :: view.blocks[n].number in Fetched(view, numbers)
    ensures forall k | k in Fetched(view, numbers) :: Answers(view, Elements(numbers), k, Fetched(view, numbers)[k])
  {
    if numbers != [] {
      PrefixElements(numbers);
      var init, last := numbers[..|numbers| - 1], numbers[|numbers| - 1];
      FetchedBlocks(view, init);
      forall k | k in Fetched(view, numbers) ensures Answers(view, Elements(numbers), k, Fetched(view, numbers)[k]) {
        if k != view.blocks[last].number {
          assert Answers(view, Elements(init), k, Fetched(view, init)[k]);
        }
      }
    }
  }

  method ToSlice(s: set<nat>) returns (slice: seq<nat>)
    ensures Elements(slice) == s && NoRepeats(slice)
  {
    slice := [];
    var todo := s;
    while todo != {}
      invariant todo <= s && Elements(slice) == s - todo && NoRepeats(slice)
      decreases todo
    {
      var x :| x in todo;
      assert forall y | y in slice :: y in Elements(slice);
      assert Elements(slice + [x]) == Elements(slice) + {x};
      slice, todo := slice + [x], todo - {x};
    }
  }

  function Flat(chunks: seq<seq<nat>>): seq<nat> {
    if chunks == [] then [] else Flat(chunks[..|chunks| - 1]) + chunks[|chunks| - 1]
  }

  /** One batch call: its elements in order; the first one without a block ends it. */
  method GetChunk(view: View, chunk: seq<nat>, ghost before: seq<nat>, blocks: map<nat, Block>)
    returns (r: Result<map<nat, Block>, Error>)
    requires Elements(before) <= view.blocks.Keys && blocks == Fetched(view, before)
    ensures r.Ok? <==> Elements(chunk) <= view.blocks.Keys
    ensures r.Ok? ==> Elements(before + chunk) <= view.blocks.Keys && r.value == Fetched(view, before + chunk)
    ensures r.Err? ==> r.error == FetchFailed
  {
    var found := blocks;
    assert before + chunk[..0] == before;
    for i := 0 to |chunk|
      invariant Elements(before + chunk[..i]) <= view.blocks.Keys
      invariant found == Fetched(view, before + chunk[..i])
    {
      if chunk[i] !in view.blocks {
        assert chunk[i] in Elements(chunk);
        return Err(FetchFailed);
      }
      var more := before + chunk[..i + 1];
      assert more[..|more| - 1] == before + chunk[..i];
      assert Elements(more) == Elements(before + chunk[..i]) + {chunk[i]};
      found := found[view.blocks[chunk[i]].number := view.blocks[chunk[i]]];
    }
    assert chunk[..|chunk|] == chunk;
    assert forall x | x in Elements(chunk) :: x in Elements(before + chunk);
    return Ok(found);
  }

  /** The chunks cut the list in order into pieces of `batchSize`, the last one possibly shorter. */
  ghost predicate Cuts(chunks: seq<seq<nat>>, numbers: seq<nat>, batchSize: nat) {
    && Flat(chunks) == numbers
    && (forall j | 0 <= j < |chunks| :: 0 < |chunks[j]| <= batchSize)
    && (forall j | 0 <= j < |chunks| - 1 :: |chunks[j]| == batchSize)
  }

  ghost predicate AllFull(chunks: seq<seq<nat>>, batchSize: nat) {
    forall j | 0 <= j < |chunks| :: |chunks[j]| == batchSize
  }

  lemma CutOnce(chunks: seq<seq<nat>>, numbers: seq<nat>, i: nat, end: nat, batchSize: nat)
    requires i < end <= |numbers| && end - i <= batchSize
    requires Cuts(chunks, numbers[..i], batchSize) && AllFull(chunks, batchSize)
    ensures end - i == batchSize ==> AllFull(chunks + [numbers[i..end]], batchSize)
    ensures Cuts(chunks + [numbers[i..end]], numbers[..end], batchSize)
    ensures numbers[..i] + numbers[i..end] == numbers[..end]
  {
  }

  lemma NothingCut(view: View, numbers: seq<nat>, batchSize: nat)
    ensures Elements(numbers[..0]) <= view.blocks.Keys
    ensures Fetched(view, numbers[..0]) == map[] && Cuts([], numbers[..0], batchSize)
  {
  }

  lemma NothingFull(batchSize: nat)
    ensures AllFull([], batchSize)
  {
  }

  /** The chunk loop. */
  method GetChunks(view: View, slice: seq<nat>, batchSize: Positive)
    returns (r: Result<map<nat, Block>, Error>, ghost chunks: seq<seq<nat>>)
    ensures r.Ok? <==> Elements(slice) <= view.blocks.Keys
    ensures r.Ok? ==> r.value == Fetched(view, slice) && Cuts(chunks, slice, batchSize)
    ensures r.Err? ==> r.error == FetchFailed
  {
    hide Fetched, Cuts, AllFull;
    chunks := [];
    NothingFull(batchSize);
    var blocks: map<nat, Block> := map[];
    NothingCut(view, slice, batchSize);
    var i := 0;
    while i < |slice|
      invariant 0 <= i
      invariant Elements(slice[..Min(i, |slice|)]) <= view.blocks.Keys
      invariant blocks == Fetched(view, slice[..Min(i, |slice|)]) && Cuts(chunks, slice[..Min(i, |slice|)], batchSize)
      invariant i < |slice| ==> AllFull(chunks, batchSize)
      decreases |slice| - i
    {
      var end := if i + batchSize > |slice| then |slice| else i + batchSize;
      CutOnce(chunks, slice, i, end, batchSize);
      var more := GetChunk(view, slice[i..end], slice[..i], blocks);
      if more.Err? {
        assert exists n :: n in slice[i..end] && n !in view.blocks;
        return Err(more.error), chunks;
      }
      blocks := more.value;
      chunks := chunks + [slice[i..end]];
      i := i + batchSize;
    }
    assert slice[..|slice|] == slice;
    return Ok(blocks), chunks;
  }

  function Min(a: nat, b: nat): nat {
    if a < b then a else b
  }

  /** `BatchGetBlocks`: the distinct numbers, in chunks of `batchSize`. */
  method BatchGetBlocks(view: View, blkNums: seq<nat>, batchSize: Positive)
    returns (r: Result<map<nat, Block>, Error>, ghost slice: seq<nat>, ghost chunks: seq<seq<nat>>)
    ensures blkNums == [] ==> r == Err(NoBlockNumbers)
    ensures blkNums != [] && !(Elements(blkNums) <= view.blocks.Keys) ==> r == Err(FetchFailed)
    ensures r.Ok? ==> NoRepeats(slice) && Elements(slice) == Elements(blkNums) && Cuts(chunks, slice, batchSize)
    ensures r.Ok? ==> Elements(slice) <= view.blocks.Keys && r.value == Fetched(view, slice)
    ensures r.Ok? <==> blkNums != [] && Elements(blkNums) <= view.blocks.Keys &&
                       Elements(blkNums) <= CarriedBy(view, Elements(blkNums))
    ensures r.Err? && blkNums != [] && Elements(blkNums) <= view.blocks.Keys ==> r.error == BlockNotFound
  {
    hide Fetched, Cuts;
    slice, chunks := [], [];
    if |blkNums| == 0 {
      return Err(NoBlockNumbers), slice, chunks;
    }
    var numbers := ToSlice(Elements(blkNums));
    slice := numbers;
    r, chunks := GetChunks(view, numbers, batchSize);
    if r.Err? {
      return r, slice, chunks;
    }
    FetchedKeys(view, numbers);
    for k := 0 to |blkNums|
      invariant forall j | 0 <= j < k :: blkNums[j] in r.value
    {
      assert blkNums[k] in Elements(blkNums);
      if blkNums[k] !in r.value {
        return Err(BlockNotFound), slice, chunks;
      }
    }
  }

  /** At most as many numbers are carried as were asked for. */
  lemma {:induction false} CarriedSize(view: View, numbers: set<nat>)
    requires numbers <= view.blocks.Keys
    ensures |CarriedBy(view, numbers)| <= |numbers|
  {
    if numbers != {} {
      var n :| n in numbers;
      CarriedSize(view, numbers - {n});
      assert CarriedBy(view, numbers) == CarriedBy(view, numbers - {n}) + {view.blocks[n].number};
    }
  }

  lemma CarriedTwice(view: View, numbers: set<nat>, m: nat, n: nat)
    requires numbers <= view.blocks.Keys
    requires m in numbers && n in numbers && m != n && view.blocks[m].number == view.blocks[n].number
    ensures |CarriedBy(view, numbers)| < |numbers|
  {
    forall k | k in CarriedBy(view, numbers) ensures k in CarriedBy(view, numbers - {m}) {
      var x :| x in numbers && view.blocks[x].number == k;
      assert (if x == m then n else x) in numbers - {m};
    }
    CarriedSize(view, numbers - {m});
    Ledger.SubsetSize(CarriedBy(view, numbers), CarriedBy(view, numbers - {m}));
  }

  /** When every number comes back, no two answers carry the same one. */
  lemma AnswerIsUnique(view: View, numbers: set<nat>, k: nat, a: Block, b: Block)
    requires numbers <= view.blocks.Keys && numbers <= CarriedBy(view, numbers)
    requires Answers(view, numbers, k, a) && Answers(view, numbers, k, b)
    ensures a == b
  {
    hide CarriedBy;
    var m :| m in numbers && view.blocks[m] == a && a.number == k;
    var n :| n in numbers && view.blocks[n] == b && b.number == k;
    if m != n {
      CarriedTwice(view, numbers, m, n);
      Ledger.SubsetSize(numbers, CarriedBy(view, numbers));
    }
  }

  /** The answer that carries number k. */
  ghost function Filed(view: View, numbers: set<nat>, k: nat): (block: Block)
    requires numbers <= view.blocks.Keys && k in CarriedBy(view, numbers)
    ensures Answers(view, numbers, k, block)
  {
    var n :| n in numbers && view.blocks[n].number == k;
    view.blocks[n]
  }

  /** When every number comes back, what is filed does not depend on the order of arrival. */
  lemma FetchedIsFiled(view: View, numbers: seq<nat>, k: nat)
    requires Elements(numbers) <= view.blocks.Keys && Elements(numbers) <= CarriedBy(view, Elements(numbers))
    requires k in Elements(numbers)
    ensures k in Fetched(view, numbers) && Fetched(view, numbers)[k] == Filed(view, Elements(numbers), k)
  {
    hide Fetched, Filed, CarriedBy, Answers, Elements;
    FetchedKeys(view, numbers);
    FetchedBlocks(view, numbers);
    AnswerIsUnique(view, Elements(numbers), k, Fetched(view, numbers)[k], Filed(view, Elements(numbers), k));
  }

  // ------------------------------------------------- the blocks of a range

  function Span(from: nat, to: nat): (r: set<nat>)
    ensures forall n: nat :: n in r <==> from <= n <= to
  {
    if from > to then {}
    else if to == 0 then {0}
    else Span(from, to - 1) + {to}
  }

  /** Every number of the range has an answer, and comes back as the number of some answer. */
  ghost predicate BlocksArrive(view: View, from: nat, to: nat) {
    from <= to && Span(from, to) <= view.blocks.Keys && Span(from, to) <= CarriedBy(view, Span(from, to))
  }

  /** The block a batch over the range works with at number n. */
  ghost function BlockAt(view: View, from: nat, to: nat, n: nat): Block
    requires BlocksArrive(view, from, to) && from <= n <= to
  {
    Filed(view, Span(from, to), n)
  }

  ghost function BlocksError(view: View, from: nat, to: nat): Error {
    if from > to then NoBlockNumbers
    else if Span(from, to) <= view.blocks.Keys then BlockNotFound
    else FetchFailed
  }

  const BATCH_SIZE: Positive := 16

  method BlockNumbers(from: nat, to: nat) returns (numbers: seq<nat>)
    ensures Elements(numbers) == Span(from, to)
    ensures numbers == [] <==> from > to
  {
    numbers := [];
    if from > to {
      return;
    }
    for n := from to to + 1
      invariant Elements(numbers) == if n == from then {} else Span(from, n - 1)
    {
      ghost var before := Elements(numbers);
      numbers := numbers + [n];
      assert Elements(numbers) == before + {n};
    }
    assert from in Elements(numbers);
  }

  /** Both assemblers get their blocks this way. */
  method BlocksOfRange(view: View, from: nat, to: nat) returns (r: Result<map<nat, Block>, Error>)
    ensures r.Ok? <==> BlocksArrive(view, from, to)
    ensures r.Ok? ==> forall n | from <= n <= to :: n in r.value && r.value[n] == BlockAt(view, from, to, n)
    ensures r.Err? ==> r.error == BlocksError(view, from, to)
  {
    hide Fetched, Cuts, CarriedBy, NoRepeats, Filed, Elements;
    var numbers := BlockNumbers(from, to);
    ghost var slice;
    var blocks, s, _ := BatchGetBlocks(view, numbers, BATCH_SIZE);
    slice := s;
    if blocks.Ok? {
      forall n | from <= n <= to ensures n in blocks.value && blocks.value[n] == BlockAt(view, from, to, n) {
        FetchedIsFiled(view, slice, n);
      }
    }
    r := blocks;
  }

  /** Answers that come back under their own numbers are filed there. */
  lemma HonestBlockAt(view: View, from: nat, to: nat, n: nat)
    requires Honest(view, from, to) && from <= n <= to && Span(from, to) <= view.blocks.Keys
    ensures BlocksArrive(view, from, to) && BlockAt(view, from, to, n) == view.blocks[n]
  {
    forall k | k in Span(from, to) ensures k in CarriedBy(view, Span(from, to)) {
      assert view.blocks[k].number == k;
    }
  }

  /** The whole range, when every number is answered with its own block. */
  lemma OwnBlocksArrive(view: View, from: nat, to: nat)
    requires from <= to
    requires forall n | from <= n <= to :: n in view.blocks && view.blocks[n].number == n
    ensures Honest(view, from, to) && BlocksArrive(view, from, to)
    ensures forall n | from <= n <= to :: BlockAt(view, from, to, n) == view.blocks[n]
  {
    hide BlockAt, BlocksArrive;
    HonestBlockAt(view, from, to, from);
    forall n | from <= n <= to ensures BlockAt(view, from, to, n) == view.blocks[n] {
      HonestBlockAt(view, from, to, n);
    }
  }

  /** A range of one number arrives exactly if its answer carries that number. */
  lemma OneArrives(view: View, n: nat)
    ensures BlocksArrive(view, n, n) <==> n in view.blocks && view.blocks[n].number == n
    ensures BlocksArrive(view, n, n) ==> BlockAt(view, n, n, n) == view.blocks[n]
    ensures BlocksError(view, n, n) == if n in view.blocks then BlockNotFound else FetchFailed
  {
    assert Span(n, n) == {n};
    if n in view.blocks {
      assert CarriedBy(view, {n}) == {view.blocks[n].number};
    }
  }

  // ------------------------------------------------- one block by logs

  /** The transactions by index; of equal indices the last one counts. */
  function TxByIndex(txs: seq<Tx>): map<nat, Tx> {
    if txs == [] then map[]
    else TxByIndex(txs[..|txs| - 1])[txs[|txs| - 1].index := txs[|txs| - 1]]
  }

  /** The transaction at place i is the last one with this index. */
  ghost predicate IsTxAt(txs: seq<Tx>, index: nat, i: int) {
    0 <= i < |txs| && txs[i].index == index && forall j | i < j < |txs| :: txs[j].index != index
  }

  lemma {:induction false} TxByIndexIsLast(txs: seq<Tx>, index: nat)
    ensures index in TxByIndex(txs) <==> exists i :: 0 <= i < |txs| && txs[i].index == index
    ensures forall i | IsTxAt(txs, index, i) :: index in TxByIndex(txs) && TxByIndex(txs)[index] == txs[i]
    ensures index in TxByIndex(txs) ==> exists i :: IsTxAt(txs, index, i)
  {
    if txs != [] {
      var k := |txs| - 1;
      TxByIndexIsLast(txs[..k], index);
      if txs[k].index == index {
        assert IsTxAt(txs, index, k);
      } else {
        forall i ensures IsTxAt(txs, index, i) <==> IsTxAt(txs[..k], index, i) {}
      }
    }
  }

  /** The log names a transaction of the block. */
  predicate Present(block: Block, log: Log) {
    log.txIndex in TxByIndex(block.txs)
  }

  predicate Agrees(block: Block, n: nat, log: Log)
    requires Present(block, log)
  {
    && log.blockHash == block.hash
    && log.blockNumber == n
    && log.txHash == TxByIndex(block.txs)[log.txIndex].hash
    && log.txIndex == TxByIndex(block.txs)[log.txIndex].index
  }

  /** The logs of one block, in the order they came. */
  function LogsOf(logs: seq<Log>, n: nat): seq<Log> {
    if logs == [] then []
    else
      var log := logs[|logs| - 1];
      LogsOf(logs[..|logs| - 1], n) + if log.blockNumber == n then [log] else []
  }

  /** The logs that name a transaction of the block, in order. */
  function PresentLogs(block: Block, logs: seq<Log>): seq<Log> {
    if logs == [] then []
    else
      var log := logs[|logs| - 1];
      PresentLogs(block, logs[..|logs| - 1]) + if Present(block, log) then [log] else []
  }

  ghost predicate AllAgree(block: Block, n: nat, logs: seq<Log>) {
    forall log | log in logs && Present(block, log) :: Agrees(block, n, log)
  }

  /** Fetching block n alone succeeds. */
  ghost predicate SingleSucceeds(view: View, n: nat) {
    && n !in view.logsFail
    && n in view.blocks && view.blocks[n].number == n
    && AllAgree(view.blocks[n], n, LogsOf(view.logs, n))
  }

  /** What a fetch that works with this block yields for number n. */
  function LogData(view: View, block: Block, n: nat): EthData {
    EthData(n, block, map[], PresentLogs(block, LogsOf(view.logs, n)))
  }

  /** Why block n alone cannot be fetched. */
  ghost function SingleError(view: View, n: nat): Error {
    if n in view.logsFail || n !in view.blocks then FetchFailed
    else if view.blocks[n].number != n then BlockNotFound
    else ChainReorged
  }

  /** The node's answer for the logs of a range. */
  function LogsIn(logs: seq<Log>, from: nat, to: nat): seq<Log> {
    if logs == [] then []
    else
      var log := logs[|logs| - 1];
      LogsIn(logs[..|logs| - 1], from, to) + if from <= log.blockNumber <= to then [log] else []
  }

  lemma LogsOfAppend(logs: seq<Log>, log: Log, n: nat)
    ensures LogsOf(logs + [log], n) == LogsOf(logs, n) + if log.blockNumber == n then [log] else []
  {
  }

  /** Grouping a range's logs by block loses none and keeps their order. */
  lemma {:induction false} RangeKeepsLogs(logs: seq<Log>, from: nat, to: nat, n: nat)
    requires from <= n <= to
    ensures LogsOf(LogsIn(logs, from, to), n) == LogsOf(logs, n)
  {
    if logs != [] {
      var init, log := logs[..|logs| - 1], logs[|logs| - 1];
      RangeKeepsLogs(init, from, to, n);
      if from <= log.blockNumber <= to {
        LogsOfAppend(LogsIn(init, from, to), log, n);
      } else {
        assert LogsIn(logs, from, to) == LogsIn(init, from, to);
        assert LogsOf(logs, n) == LogsOf(init, n);
      }
    }
  }

  lemma {:induction false} LogsInMembers(logs: seq<Log>, from: nat, to: nat, log: Log)
    ensures log in LogsIn(logs, from, to) <==> log in logs && from <= log.blockNumber <= to
  {
    if logs != [] {
      LogsInMembers(logs[..|logs| - 1], from, to, log);
    }
  }

  method BatchGetLogs(view: View, from: nat, to: nat) returns (r: Result<seq<Log>, Error>)
    ensures r == if exists n :: from <= n <= to && n in view.logsFail then Err(FetchFailed)
                 else Ok(LogsIn(view.logs, from, to))
  {
    if exists n :: from <= n <= to && n in view.logsFail {
      return Err(FetchFailed);
    }
    return Ok(LogsIn(view.logs, from, to));
  }

  method GroupByBlock(logs: seq<Log>) returns (blockLogs: map<nat, seq<Log>>)
    ensures forall n: nat :: (if n in blockLogs then blockLogs[n] else []) == LogsOf(logs, n)
  {
    blockLogs := map[];
    for i := 0 to |logs|
      invariant forall n: nat :: (if n in blockLogs then blockLogs[n] else []) == LogsOf(logs[..i], n)
    {
      var log := logs[i];
      assert logs[..i + 1][..i] == logs[..i];
      blockLogs := blockLogs[log.blockNumber :=
        (if log.blockNumber in blockLogs then blockLogs[log.blockNumber] else []) + [log]];
    }
    assert logs[..|logs|] == logs;
  }

  method IndexTxs(txs: seq<Tx>) returns (txIndex2Tx: map<nat, Tx>)
    ensures txIndex2Tx == TxByIndex(txs)
  {
    txIndex2Tx := map[];
    for i := 0 to |txs|
      invariant txIndex2Tx == TxByIndex(txs[..i])
    {
      assert txs[..i + 1][..i] == txs[..i];
      txIndex2Tx := txIndex2Tx[txs[i].index := txs[i]];
    }
    assert txs[..|txs|] == txs;
  }

  lemma {:induction false} LogsOfOne(logs: seq<Log>, n: nat)
    ensures (forall log | log in logs :: log.blockNumber == n) ==> LogsOf(logs, n) == logs
  {
    if logs != [] {
      var init, log := logs[..|logs| - 1], logs[|logs| - 1];
      assert logs == init + [log];
      LogsOfOne(init, n);
    }
  }

  /** The logs that name a transaction of the block, unless one of them disagrees with it. */
  method ValidateLogs(block: Block, n: nat, logs: seq<Log>) returns (r: Result<seq<Log>, Error>)
    ensures AllAgree(block, n, logs) ==> r == Ok(PresentLogs(block, logs))
    ensures r.Ok? && (forall log | log in logs :: log.blockNumber == n) ==> PicksInOrder(logs, block, n, r.value)
    ensures !AllAgree(block, n, logs) ==> r == Err(ChainReorged)
  {
    var validLogs: seq<Log> := [];
    var txIndex2Tx := IndexTxs(block.txs);
    for i := 0 to |logs|
      invariant validLogs == PresentLogs(block, logs[..i])
      invariant AllAgree(block, n, logs[..i])
    {
      var log := logs[i];
      assert logs[..i + 1][..i] == logs[..i];
      if log.txIndex in txIndex2Tx {
        var tx := txIndex2Tx[log.txIndex];
        if log.blockHash != block.hash || log.blockNumber != n || log.txHash != tx.hash || log.txIndex != tx.index {
          assert log in logs && Present(block, log) && !Agrees(block, n, log);
          return Err(ChainReorged);
        }
        validLogs := validLogs + [log];
      }
    }
    assert logs[..|logs|] == logs;
    LogsOfOne(logs, n);
    LogsKeepOrder(logs, block, n);
    return Ok(validLogs);
  }

  /** The range touches logs that the node does not give. */
  ghost predicate LogsMissing(view: View, from: nat, to: nat) {
    exists n :: from <= n <= to && n in view.logsFail
  }

  /** The blocks from `from` up to below `n` agree with their logs, as far as a batch over
      from..to files them. */
  ghost predicate LogsAgree(view: View, from: nat, to: nat, n: nat)
    requires BlocksArrive(view, from, to)
  {
    forall k | from <= k < n && k <= to :: AllAgree(BlockAt(view, from, to, k), k, LogsOf(view.logs, k))
  }

  /** When a batch by logs succeeds: logs and blocks are there, and they agree. */
  ghost predicate BatchSucceeds(view: View, from: nat, to: nat) {
    !LogsMissing(view, from, to) && BlocksArrive(view, from, to) && LogsAgree(view, from, to, to + 1)
  }

  /** Why a batch by logs fails: a failed fetch first, then a missing block, and a re-org only
      when all is there and some block disagrees with its logs. */
  ghost function BatchError(view: View, from: nat, to: nat): Error {
    if LogsMissing(view, from, to) then FetchFailed
    else if !BlocksArrive(view, from, to) then BlocksError(view, from, to)
    else ChainReorged
  }

  /** What the batch yields from `from` on. */
  ghost predicate IsBatch(view: View, from: nat, to: nat, data: seq<EthData>)
    requires BlocksArrive(view, from, to) && from + |data| <= to + 1
  {
    forall i | 0 <= i < |data| :: data[i] == LogData(view, BlockAt(view, from, to, from + i), from + i)
  }

  /** `getEthDataBatchByLogs`. */
  method GetEthDataBatchByLogs(view: View, from: nat, to: nat) returns (r: Result<seq<EthData>, Error>)
    ensures r.Ok? <==> BatchSucceeds(view, from, to)
    ensures r.Ok? ==> |r.value| == to - from + 1 && IsBatch(view, from, to, r.value)
    ensures r.Ok? ==> forall i | 0 <= i < |r.value| ::
              && r.value[i].number == from + i && r.value[i].block == BlockAt(view, from, to, from + i)
              && PicksInOrder(view.logs, r.value[i].block, from + i, r.value[i].logs)
    ensures r.Err? ==> r.error == BatchError(view, from, to)
  {
    hide PicksInOrder;
    hide LogsOf, LogsIn, AllAgree, PresentLogs, BlocksArrive, BlockAt, BlocksError;
    var logs := BatchGetLogs(view, from, to);
    if logs.Err? {
      return Err(logs.error);
    }
    var blockLogs := GroupByBlock(logs.value);
    var blocks := BlocksOfRange(view, from, to);
    if blocks.Err? {
      return Err(blocks.error);
    }
    ArrivesInOrder(view, from, to);
    var result: seq<EthData> := [];
    for n := from to to + 1
      invariant |result| == n - from && IsBatch(view, from, to, result)
      invariant LogsAgree(view, from, to, n)
    {
      RangeKeepsLogs(view.logs, from, to, n);
      var validLogs := ValidateLogs(blocks.value[n], n, if n in blockLogs then blockLogs[n] else []);
      if validLogs.Err? {
        return Err(validLogs.error);
      }
      result := result + [EthData(n, blocks.value[n], map[], validLogs.value)];
    }
    forall i | 0 <= i < |result| ensures PicksInOrder(view.logs, result[i].block, from + i, result[i].logs) {
      LogsKeepOrder(view.logs, result[i].block, from + i);
    }
    return Ok(result);
  }

  lemma ArrivesInOrder(view: View, from: nat, to: nat)
    requires BlocksArrive(view, from, to)
    ensures from <= to
  {
  }

  /** `getEthDataByLogs`: a batch of one. */
  method GetEthDataByLogs(view: View, n: nat) returns (r: Result<EthData, Error>)
    ensures r.Ok? <==> SingleSucceeds(view, n)
    ensures r.Ok? ==> r.value == LogData(view, view.blocks[n], n)
    ensures r.Ok? ==> r.value.number == n && r.value.block == view.blocks[n]
    ensures r.Ok? ==> PicksInOrder(view.logs, view.blocks[n], n, r.value.logs)
    ensures r.Err? ==> r.error == SingleError(view, n)
  {
    hide PicksInOrder;
    hide LogsOf, AllAgree, PresentLogs, BlocksArrive, BlockAt, BlocksError;
    OneArrives(view, n);
    var batch := GetEthDataBatchByLogs(view, n, n);
    if batch.Err? {
      return Err(batch.error);
    }
    return Ok(batch.value[0]);
  }

  /** Every block of the range could be fetched alone. */
  ghost predicate AllSucceed(view: View, from: nat, to: nat) {
    from <= to && forall n | from <= n <= to :: SingleSucceeds(view, n)
  }

  /** All single fetches succeed exactly when the batch does and the node answers every number
      of the range with its own block: batch and single fetches part only over answers that
      carry another number. */
  lemma AllSucceedIff(view: View, from: nat, to: nat)
    ensures AllSucceed(view, from, to) <==> BatchSucceeds(view, from, to) && Honest(view, from, to)
    ensures AllSucceed(view, from, to) ==> forall n | from <= n <= to :: BlockAt(view, from, to, n) == view.blocks[n]
  {
    hide AllAgree, LogsOf, BlockAt, CarriedBy, Span;
    if from <= to && forall n | from <= n <= to :: n in view.blocks && view.blocks[n].number == n {
      OwnBlocksArrive(view, from, to);
      if BatchSucceeds(view, from, to) {
        forall n | from <= n <= to ensures SingleSucceeds(view, n) {}
      }
      if AllSucceed(view, from, to) {
        forall n | from <= n <= to ensures n !in view.logsFail && AllAgree(view.blocks[n], n, LogsOf(view.logs, n)) {
          assert SingleSucceeds(view, n);
        }
      }
    } else {
      NotAllOwn(view, from, to);
      if AllSucceed(view, from, to) {
        forall n | from <= n <= to ensures n in view.blocks && view.blocks[n].number == n {
          assert SingleSucceeds(view, n);
        }
      }
    }
  }

  lemma NotAllOwn(view: View, from: nat, to: nat)
    requires !(from <= to && forall n | from <= n <= to :: n in view.blocks && view.blocks[n].number == n)
    ensures !(BlocksArrive(view, from, to) && Honest(view, from, to))
  {
    hide CarriedBy;
    if from <= to {
      var n :| from <= n <= to && !(n in view.blocks && view.blocks[n].number == n);
      assert n in Span(from, to);
    }
  }

  lemma {:induction false} LogsOfMembers(logs: seq<Log>, n: nat, log: Log)
    ensures log in LogsOf(logs, n) <==> log in logs && log.blockNumber == n
  {
    if logs != [] {
      LogsOfMembers(logs[..|logs| - 1], n, log);
    }
  }

  lemma {:induction false} PresentLogsMembers(block: Block, logs: seq<Log>, log: Log)
    ensures log in PresentLogs(block, logs) <==> log in logs && Present(block, log)
  {
    if logs != [] {
      PresentLogsMembers(block, logs[..|logs| - 1], log);
    }
  }

  /** What a successful fetch returns for a block is every log of that block that names one
      of its transactions, and each of them agrees with the block. */
  lemma SuccessIsConsistent(view: View, block: Block, n: nat, log: Log)
    requires AllAgree(block, n, LogsOf(view.logs, n))
    ensures log in LogData(view, block, n).logs <==> log in view.logs && log.blockNumber == n && Present(block, log)
    ensures log in LogData(view, block, n).logs ==>
            log.blockHash == block.hash && log.txHash == TxByIndex(block.txs)[log.txIndex].hash
  {
    LogsOfMembers(view.logs, n, log);
    PresentLogsMembers(block, LogsOf(view.logs, n), log);
  }

  // ------------------------------------------------- what the logs of a block are

  /** The places of the logs that carry this block number and name a transaction of the block,
      in ascending order. */
  ghost predicate IsPlaces(logs: seq<Log>, block: Block, n: nat, places: seq<int>) {
    && (forall j, k | 0 <= j < k < |places| :: places[j] < places[k])
    && (forall i | i in places :: 0 <= i < |logs|)
    && (forall i | 0 <= i < |logs| :: i in places <==> IsWanted(logs[i], block, n))
  }

  ghost predicate IsWanted(log: Log, block: Block, n: nat) {
    log.blockNumber == n && exists i :: 0 <= i < |block.txs| && block.txs[i].index == log.txIndex
  }

  /** The logs at these places, in the order in which they came. */
  ghost predicate PicksInOrder(logs: seq<Log>, block: Block, n: nat, picked: seq<Log>) {
    exists places :: IsPlaces(logs, block, n, places) && IsPicked(logs, places, picked)
  }

  ghost predicate IsPicked(logs: seq<Log>, places: seq<int>, picked: seq<Log>) {
    && |picked| == |places|
    && forall j | 0 <= j < |places| :: 0 <= places[j] < |logs| && picked[j] == logs[places[j]]
  }

  lemma PresentAppend(block: Block, logs: seq<Log>, log: Log)
    ensures PresentLogs(block, logs + [log]) == PresentLogs(block, logs) + if Present(block, log) then [log] else []
  {
    assert (logs + [log])[..|logs|] == logs;
  }

  lemma WantedIsPresent(block: Block, n: nat, log: Log)
    ensures IsWanted(log, block, n) <==> log.blockNumber == n && Present(block, log)
  {
    TxByIndexIsLast(block.txs, log.txIndex);
  }

  lemma OnePlaceMore(logs: seq<Log>, log: Log, block: Block, n: nat, places: seq<int>, picked: seq<Log>)
    requires IsPlaces(logs, block, n, places) && IsPicked(logs, places, picked)
    ensures var k := |logs|;
            if IsWanted(log, block, n)
            then IsPlaces(logs + [log], block, n, places + [k]) && IsPicked(logs + [log], places + [k], picked + [log])
            else IsPlaces(logs + [log], block, n, places) && IsPicked(logs + [log], places, picked)
  {
    hide IsWanted;
    assert forall j | 0 <= j < |places| :: places[j] in places;
  }

  lemma OneLogMore(logs: seq<Log>, log: Log, block: Block, n: nat, picked: seq<Log>)
    requires PicksInOrder(logs, block, n, picked)
    ensures PicksInOrder(logs + [log], block, n, if IsWanted(log, block, n) then picked + [log] else picked)
  {
    hide IsPlaces, IsPicked, IsWanted;
    var places :| IsPlaces(logs, block, n, places) && IsPicked(logs, places, picked);
    OnePlaceMore(logs, log, block, n, places, picked);
  }

  /** The logs a fetch returns for a block are those of the block's transactions, each once and
      in the order the node gave them. */
  lemma {:induction false} LogsKeepOrder(logs: seq<Log>, block: Block, n: nat)
    ensures PicksInOrder(logs, block, n, PresentLogs(block, LogsOf(logs, n)))
  {
    hide PicksInOrder, Present, IsWanted;
    if logs == [] {
      NoPlaces(block, n);
    } else {
      hide LogsOf, PresentLogs;
      var init, log := logs[..|logs| - 1], logs[|logs| - 1];
      assert logs == init + [log];
      LogsKeepOrder(init, block, n);
      OneLogMore(init, log, block, n, PresentLogs(block, LogsOf(init, n)));
      WantedIsPresent(block, n, log);
      PickedGrow(init, log, block, n);
    }
  }

  lemma PickedGrow(logs: seq<Log>, log: Log, block: Block, n: nat)
    ensures PresentLogs(block, LogsOf(logs + [log], n)) ==
            var picked := PresentLogs(block, LogsOf(logs, n));
            if log.blockNumber == n && Present(block, log) then picked + [log] else picked
  {
    hide LogsOf, PresentLogs, Present;
    LogsOfAppend(logs, log, n);
    if log.blockNumber == n {
      PresentAppend(block, LogsOf(logs, n), log);
    } else {
      assert LogsOf(logs + [log], n) == LogsOf(logs, n);
    }
  }

  lemma NoPlaces(block: Block, n: nat)
    ensures PicksInOrder([], block, n, [])
  {
    assert IsPlaces([], block, n, []) && IsPicked([], [], []);
  }

  /** All logs agree exactly if each log of the block that names one of its transactions carries
      the hashes of the block and of the last transaction with that index. */
  lemma AgreementMeans(logs: seq<Log>, block: Block, n: nat)
    ensures AllAgree(block, n, LogsOf(logs, n)) <==>
            forall log, i | log in logs && log.blockNumber == n && IsTxAt(block.txs, log.txIndex, i) ::
              log.blockHash == block.hash && log.txHash == block.txs[i].hash
  {
    forall log | log in logs && log.blockNumber == n
      ensures log in LogsOf(logs, n)
      ensures Present(block, log) ==> exists i :: IsTxAt(block.txs, log.txIndex, i)
      ensures forall i | IsTxAt(block.txs, log.txIndex, i) ::
                Present(block, log) &&
                (Agrees(block, n, log) <==> log.blockHash == block.hash && log.txHash == block.txs[i].hash)
    {
      LogsOfMembers(logs, n, log);
      TxByIndexIsLast(block.txs, log.txIndex);
    }
    forall log | log in LogsOf(logs, n) ensures log in logs && log.blockNumber == n {
      LogsOfMembers(logs, n, log);
    }
  }

  const SWAPPED := View(map[1 := Block(2, 20, []), 2 := Block(1, 10, [])], [], {}, map[])

  lemma SwappedBlocksArrive()
    ensures BatchSucceeds(SWAPPED, 1, 2) && !Honest(SWAPPED, 1, 2)
  {
    assert Span(1, 2) == {1, 2};
    assert SWAPPED.blocks[1].number == 2 && SWAPPED.blocks[2].number == 1;
    assert {1, 2} <= CarriedBy(SWAPPED, {1, 2});
    assert LogsOf([], 1) == [] == LogsOf([], 2);
  }

  /** Two blocks swapped by the node: the batch returns them, each number alone is refused. */
  method FetchSwapped()
    returns (batch: Result<seq<EthData>, Error>, one: Result<EthData, Error>, two: Result<EthData, Error>)
    ensures batch.Ok? && |batch.value| == 2
    ensures one == Err(BlockNotFound) && two == Err(BlockNotFound)
  {
    SwappedBlocksArrive();
    batch := GetEthDataBatchByLogs(SWAPPED, 1, 2);
    one := GetEthDataByLogs(SWAPPED, 1);
    two := GetEthDataByLogs(SWAPPED, 2);
  }

  // ------------------------------------------------- one block by receipts

  predicate ReceiptAgrees(block: Block, n: nat, tx: Tx, receipt: Receipt) {
    receipt.blockHash == block.hash && receipt.blockNumber == n && receipt.txHash == tx.hash
  }

  ghost predicate ReceiptsAgree(block: Block, n: nat, receipts: seq<Receipt>) {
    && |receipts| == |block.txs|
    && forall i | 0 <= i < |receipts| :: ReceiptAgrees(block, n, block.txs[i], receipts[i])
  }

  function ReceiptsByTx(txs: seq<Tx>, receipts: seq<Receipt>): map<nat, Receipt>
    requires |txs| == |receipts|
  {
    if txs == [] then map[]
    else
      var k := |txs| - 1;
      ReceiptsByTx(txs[..k], receipts[..k])[txs[k].hash := receipts[k]]
  }

  /** The transaction at place i is the last one with this hash. */
  ghost predicate IsHashAt(txs: seq<Tx>, hash: nat, i: int) {
    0 <= i < |txs| && txs[i].hash == hash && forall j | i < j < |txs| :: txs[j].hash != hash
  }

  /** Each transaction's hash is filed, with the receipt at the last transaction with that hash. */
  ghost predicate FilesReceipts(txs: seq<Tx>, receipts: seq<Receipt>, byTx: map<nat, Receipt>)
    requires |txs| == |receipts|
  {
    && (forall hash :: hash in byTx <==> exists i :: 0 <= i < |txs| && txs[i].hash == hash)
    && (forall hash, i | IsHashAt(txs, hash, i) :: hash in byTx && byTx[hash] == receipts[i])
  }

  lemma {:induction false} ReceiptsAreFiled(txs: seq<Tx>, receipts: seq<Receipt>)
    requires |txs| == |receipts|
    ensures FilesReceipts(txs, receipts, ReceiptsByTx(txs, receipts))
  {
    if txs != [] {
      var k := |txs| - 1;
      ReceiptsAreFiled(txs[..k], receipts[..k]);
      forall hash, i | IsHashAt(txs, hash, i) ensures i == k || IsHashAt(txs[..k], hash, i) {}
    }
  }

  /** The receipts that come for number n fit this block. */
  ghost predicate ReceiptsFit(view: View, block: Block, n: nat) {
    n in view.receipts && view.receipts[n].Some? && ReceiptsAgree(block, n, view.receipts[n].value)
  }

  /** What a fetch that works with this block yields for number n. */
  function ReceiptsData(view: View, block: Block, n: nat): EthData
    requires n in view.receipts && view.receipts[n].Some? && |block.txs| == |view.receipts[n].value|
  {
    EthData(n, block, ReceiptsByTx(block.txs, view.receipts[n].value), [])
  }

  /** They fit exactly if there is one for each transaction, in order, and each carries the
      number asked for and the hashes of the block and of its transaction. */
  lemma FittingMeans(view: View, block: Block, n: nat)
    ensures ReceiptsFit(view, block, n) <==>
            && n in view.receipts && view.receipts[n].Some? && |view.receipts[n].value| == |block.txs|
            && forall i | 0 <= i < |block.txs| ::
                 var receipt := view.receipts[n].value[i];
                 receipt.blockHash == block.hash && receipt.blockNumber == n && receipt.txHash == block.txs[i].hash
  {
  }

  /** Why the receipts do not fit. */
  ghost function ReceiptsError(view: View, block: Block, n: nat): Error {
    if n !in view.receipts then FetchFailed
    else if view.receipts[n].Some? && |view.receipts[n].value| != |block.txs| then ReceiptsMismatch
    else ChainReorged
  }

  /** The block, with the receipts of its transactions filed by hash. */
  ghost predicate IsReceiptsData(view: View, block: Block, n: nat, data: EthData) {
    && ReceiptsFit(view, block, n) && data == ReceiptsData(view, block, n)
    && data.number == n && data.block == block && data.logs == []
    && FilesReceipts(block.txs, view.receipts[n].value, data.receipts)
  }

  /** One block of a batch. */
  method AssembleByReceipts(view: View, n: nat, block: Block) returns (r: Result<EthData, Error>)
    ensures r.Ok? <==> ReceiptsFit(view, block, n)
    ensures r.Ok? ==> IsReceiptsData(view, block, n, r.value)
    ensures r.Err? ==> r.error == ReceiptsError(view, block, n)
    ensures r == Err(FetchFailed) <==> n !in view.receipts
    ensures r == Err(ReceiptsMismatch) <==>
              n in view.receipts && view.receipts[n].Some? && |view.receipts[n].value| != |block.txs|
  {
    hide FilesReceipts;
    if n !in view.receipts {
      return Err(FetchFailed);
    }
    var blockReceipts := view.receipts[n];
    if blockReceipts.None? {
      return Err(ChainReorged);
    }
    var receipts, txs := blockReceipts.value, block.txs;
    if |txs| != |receipts| {
      return Err(ReceiptsMismatch);
    }
    var txReceipts: map<nat, Receipt> := map[];
    for i := 0 to |txs|
      invariant txReceipts == ReceiptsByTx(txs[..i], receipts[..i])
      invariant forall j | 0 <= j < i :: ReceiptAgrees(block, n, txs[j], receipts[j])
    {
      assert txs[..i + 1][..i] == txs[..i] && receipts[..i + 1][..i] == receipts[..i];
      if !ReceiptAgrees(block, n, txs[i], receipts[i]) {
        return Err(ChainReorged);
      }
      txReceipts := txReceipts[txs[i].hash := receipts[i]];
    }
    assert txs[..|txs|] == txs && receipts[..|txs|] == receipts;
    ReceiptsAreFiled(txs, receipts);
    return Ok(EthData(n, block, txReceipts, []));
  }

  /** The blocks from `from` up to below `n` fit their receipts, as far as a batch over
      from..to files them. */
  ghost predicate ReceiptsFitUpTo(view: View, from: nat, to: nat, n: nat)
    requires BlocksArrive(view, from, to)
  {
    forall k | from <= k < n && k <= to :: ReceiptsFit(view, BlockAt(view, from, to, k), k)
  }

  ghost predicate ReceiptsBatchSucceeds(view: View, from: nat, to: nat) {
    BlocksArrive(view, from, to) && ReceiptsFitUpTo(view, from, to, to + 1)
  }

  /** Number n is the first whose receipts do not fit. */
  ghost predicate FailsFirst(view: View, from: nat, to: nat, n: nat)
    requires BlocksArrive(view, from, to)
  {
    from <= n <= to && ReceiptsFitUpTo(view, from, to, n) && !ReceiptsFit(view, BlockAt(view, from, to, n), n)
  }

  ghost predicate IsReceiptsBatch(view: View, from: nat, to: nat, data: seq<EthData>)
    requires BlocksArrive(view, from, to) && from + |data| <= to + 1
  {
    forall i | 0 <= i < |data| :: IsReceiptsData(view, BlockAt(view, from, to, from + i), from + i, data[i])
  }

  /** `getEthDataBatchByReceipts`. */
  method GetEthDataBatchByReceipts(view: View, from: nat, to: nat) returns (r: Result<seq<EthData>, Error>)
    ensures r.Ok? <==> ReceiptsBatchSucceeds(view, from, to)
    ensures r.Ok? ==> |r.value| == to - from + 1 && IsReceiptsBatch(view, from, to, r.value)
    ensures !BlocksArrive(view, from, to) ==> r == Err(BlocksError(view, from, to))
    ensures BlocksArrive(view, from, to) && r.Err? ==>
              exists n :: FailsFirst(view, from, to, n) && r.error == ReceiptsError(view, BlockAt(view, from, to, n), n)
  {
    hide ReceiptsAgree, ReceiptsByTx, FilesReceipts, BlocksArrive, BlockAt, BlocksError, ReceiptsError;
    var blocks := BlocksOfRange(view, from, to);
    if blocks.Err? {
      return Err(blocks.error);
    }
    ArrivesInOrder(view, from, to);
    var result: seq<EthData> := [];
    for n := from to to + 1
      invariant |result| == n - from
      invariant ReceiptsFitUpTo(view, from, to, n) && IsReceiptsBatch(view, from, to, result)
    {
      var data := AssembleByReceipts(view, n, blocks.value[n]);
      if data.Err? {
        assert FailsFirst(view, from, to, n);
        return Err(data.error);
      }
      result := result + [data.value];
    }
    return Ok(result);
  }

  /** Fetching block n alone, with its receipts, succeeds. */
  ghost predicate SingleReceiptsSucceed(view: View, n: nat) {
    n in view.blocks && view.blocks[n].number == n && ReceiptsFit(view, view.blocks[n], n)
  }

  /** Why block n alone cannot be fetched with its receipts. */
  ghost function SingleReceiptsError(view: View, n: nat): Error {
    if n !in view.blocks then FetchFailed
    else if view.blocks[n].number != n then BlockNotFound
    else ReceiptsError(view, view.blocks[n], n)
  }

  /** `getEthDataByReceipts`: a batch of one. */
  method GetEthDataByReceipts(view: View, n: nat) returns (r: Result<EthData, Error>)
    ensures r.Ok? <==> SingleReceiptsSucceed(view, n)
    ensures r.Ok? ==> IsReceiptsData(view, view.blocks[n], n, r.value)
    ensures r.Err? ==> r.error == SingleReceiptsError(view, n)
  {
    hide ReceiptsAgree, ReceiptsByTx, FilesReceipts, BlocksArrive, BlockAt, BlocksError, ReceiptsError;
    OneArrives(view, n);
    var batch := GetEthDataBatchByReceipts(view, n, n);
    if batch.Err? {
      return Err(batch.error);
    }
    return Ok(batch.value[0]);
  }

  ghost predicate AllReceiptsSucceed(view: View, from: nat, to: nat) {
    from <= to && forall n | from <= n <= to :: SingleReceiptsSucceed(view, n)
  }

  /** The same for receipts: all single fetches succeed exactly when the batch does and the
      node answers every number of the range with its own block. */
  lemma AllReceiptsSucceedIff(view: View, from: nat, to: nat)
    ensures AllReceiptsSucceed(view, from, to) <==> ReceiptsBatchSucceeds(view, from, to) && Honest(view, from, to)
    ensures AllReceiptsSucceed(view, from, to) ==>
              forall n | from <= n <= to :: BlockAt(view, from, to, n) == view.blocks[n]
  {
    hide ReceiptsAgree, BlockAt, CarriedBy, Span;
    if from <= to && forall n | from <= n <= to :: n in view.blocks && view.blocks[n].number == n {
      OwnBlocksArrive(view, from, to);
      if AllReceiptsSucceed(view, from, to) {
        forall n | from <= n <= to ensures ReceiptsFit(view, view.blocks[n], n) {
          assert SingleReceiptsSucceed(view, n);
        }
      }
    } else {
      NotAllOwn(view, from, to);
      if AllReceiptsSucceed(view, from, to) {
        forall n | from <= n <= to ensures n in view.blocks && view.blocks[n].number == n {
          assert SingleReceiptsSucceed(view, n);
        }
      }
    }
  }
}
