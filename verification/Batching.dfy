/** Loading the transactions and block headers behind a window's logs, in bounded batches. */
module Batching {
  import opened Chain
  import opened Rules
  import opened Numerals

  type Hash = string

  const ZERO_ADDRESS: string := "0x0000000000000000000000000000000000000000"

  datatype RawLog = RawLog(tx: Hash, block: Hash, number: nat, index: nat, txIndex: nat, address: string)

  /** A transaction as the node gives it; the sender is recovered from its signature, if it can be. */
  datatype Tx = Tx(hash: Hash, sender: Option<string>, chain: nat, recipient: Option<string>)

  datatype StoredLog = StoredLog(
    id: string, source: nat, number: nat, index: nat, timestamp: nat,
    tx: Hash, from: string, txIndex: nat, block: Hash, address: string)

  datatype StoredTx = StoredTx(
    id: string, source: nat, number: nat, timestamp: nat, hash: Hash, from: string, recipient: string, txIndex: nat)

  datatype Result<T> = Ok(value: T) | Err

  /** What the node answers; a batch fails as a whole when it holds a request that fails. */
  datatype Node = Node(transactions: map<Hash, Tx>, times: map<Hash, nat>, failing: set<Hash>)
  {
    function TxAt(h: Hash): Option<Tx> {
      if h in transactions then Some(transactions[h]) else None
    }

    function TimeAt(h: Hash): Option<nat> {
      if h in times then Some(times[h]) else None
    }
  }

  /** The connection to the node, with the batches it has been sent. */
  class Client {
    const node: Node
    var calls: seq<seq<Hash>>

    constructor (node: Node)
      ensures this.node == node && calls == []
    {
      this.node, this.calls := node, [];
    }

    method Call(batch: seq<Hash>) returns (ok: bool)
      modifies this
      ensures calls == old(calls) + [batch]
      ensures ok <==> forall h | h in batch :: h !in node.failing
    {
      calls := calls + [batch];
      ok := forall h | h in batch :: h !in node.failing;
    }
  }

  // ---- distinct hashes ---------------------------------------------------------------------

  /** First occurrences, in order. */
  function Distinct(hs: seq<Hash>): seq<Hash> {
    if hs == [] then []
    else
      var front, last := Distinct(hs[..|hs| - 1]), hs[|hs| - 1];
      if last in front then front else front + [last]
  }

  lemma {:induction false} DistinctFacts(hs: seq<Hash>)
    ensures forall h :: h in Distinct(hs) <==> h in hs
    ensures forall i, j | 0 <= i < j < |Distinct(hs)| :: Distinct(hs)[i] != Distinct(hs)[j]
  {
    if hs != [] {
      DistinctFacts(hs[..|hs| - 1]);
      assert hs == hs[..|hs| - 1] + [hs[|hs| - 1]];
    }
  }

  /** A hash has its place by its first use: behind the distinct ones used before. */
  lemma {:induction false} PlaceByFirstUse(hs: seq<Hash>, n: nat)
    requires n < |hs| && hs[n] !in hs[..n]
    ensures var place := |Distinct(hs[..n])|;
            place < |Distinct(hs)| && Distinct(hs)[place] == hs[n]
    decreases |hs|
  {
    var last := |hs| - 1;
    if n < last {
      assert hs[..last][..n] == hs[..n];
      PlaceByFirstUse(hs[..last], n);
    } else {
      DistinctFacts(hs[..n]);
    }
  }

  function TxHashes(logs: seq<RawLog>): (hs: seq<Hash>)
    ensures |hs| == |logs| && forall i | 0 <= i < |logs| :: hs[i] == logs[i].tx
  {
    seq(|logs|, i requires 0 <= i < |logs| => logs[i].tx)
  }

  function BlockHashes(logs: seq<RawLog>): (hs: seq<Hash>)
    ensures |hs| == |logs| && forall i | 0 <= i < |logs| :: hs[i] == logs[i].block
  {
    seq(|logs|, i requires 0 <= i < |logs| => logs[i].block)
  }

  method HashesToLoad(logs: seq<RawLog>) returns (txs: seq<Hash>, blocks: seq<Hash>)
    ensures txs == Distinct(TxHashes(logs)) && blocks == Distinct(BlockHashes(logs))
  {
    txs, blocks := [], [];
    var seenTx: set<Hash>, seenBlock: set<Hash> := {}, {};
    for i := 0 to |logs|
      invariant txs == Distinct(TxHashes(logs)[..i]) && blocks == Distinct(BlockHashes(logs)[..i])
      invariant (forall h :: h in seenTx <==> h in txs) && (forall h :: h in seenBlock <==> h in blocks)
    {
      var l := logs[i];
      assert TxHashes(logs)[..i + 1][..i] == TxHashes(logs)[..i] && BlockHashes(logs)[..i + 1][..i] == BlockHashes(logs)[..i];
      if l.tx !in seenTx {
        txs, seenTx := txs + [l.tx], seenTx + {l.tx};
      }
      if l.block !in seenBlock {
        blocks, seenBlock := blocks + [l.block], seenBlock + {l.block};
      }
    }
    assert TxHashes(logs)[..|logs|] == TxHashes(logs) && BlockHashes(logs)[..|logs|] == BlockHashes(logs);
  }

  // ---- batches -----------------------------------------------------------------------------

  /** Full batches and then what is left. */
  function Cut(hs: seq<Hash>, size: nat): seq<seq<Hash>>
    requires size >= 1
  {
    if |hs| <= size then [hs] else [hs[..size]] + Cut(hs[size..], size)
  }

  function Flat(batches: seq<seq<Hash>>): seq<Hash> {
    if batches == [] then [] else batches[0] + Flat(batches[1..])
  }

  /** The batches hold every hash once, in order; none exceeds the limit and only the last can
      fall short of it. */
  lemma {:induction false} CutIsExact(hs: seq<Hash>, size: nat)
    requires size >= 1
    ensures Flat(Cut(hs, size)) == hs
    ensures forall b | b in Cut(hs, size) :: |b| <= size
    ensures forall i | 0 <= i < |Cut(hs, size)| - 1 :: |Cut(hs, size)[i]| == size
  {
    if |hs| > size {
      CutIsExact(hs[size..], size);
      assert hs == hs[..size] + hs[size..];
    }
  }

  /** How far the transaction loop gets in one turn. */
  function NextStart(at: nat, total: nat, limit: nat): nat
    requires at <= total
  {
    at + (if total - at > limit then limit else total - at)
  }

  /** The loop gets on, as long as something is left, if and only if the limit is not 0. */
  lemma LimitMustNotBeZero(limit: nat)
    ensures (forall at: nat, total: nat | at < total :: NextStart(at, total, limit) > at) <==> limit >= 1
  {
    if limit == 0 {
      assert NextStart(0, 1, limit) == 0;
    }
  }

  predicate AllAnswered(node: Node, hs: seq<Hash>) {
    forall h | h in hs :: h !in node.failing
  }

  method LoadTransactions(client: Client, hs: seq<Hash>, limit: nat) returns (r: Result<seq<Option<Tx>>>)
    requires limit >= 1
    modifies client
    ensures r.Ok? <==> AllAnswered(client.node, hs)
    ensures r.Ok? ==> client.calls == old(client.calls) + Cut(hs, limit)
    ensures r.Ok? ==> |r.value| == |hs| && forall i | 0 <= i < |hs| :: r.value[i] == client.node.TxAt(hs[i])
  {
    var transactions := new Option<Tx>[|hs|](_ => None);
    var at, ended := 0, false;
    ghost var before := client.calls;
    while !ended
      invariant at <= |hs| && (ended ==> at == |hs|)
      invariant AllAnswered(client.node, hs[..at])
      invariant forall k | 0 <= k < at :: transactions[k] == client.node.TxAt(hs[k])
      invariant Sending(before + Cut(hs, limit), client.calls, if ended then [] else Cut(hs[at..], limit))
      decreases !ended, |hs| - at
    {
      var end := NextStart(at, |hs|, limit);
      ghost var sent := client.calls;
      CutStep(hs, at, end, limit);
      AnsweredSplits(client.node, hs, at, end);
      var ok := RequestTransactions(client, hs, at, end, transactions);
      if !ok {
        return Err;
      }
      ended := end == |hs|;
      Sent(before + Cut(hs, limit), sent, hs[at..end], if ended then [] else Cut(hs[end..], limit));
      at := end;
    }
    assert hs[..|hs|] == hs;
    return Ok(transactions[..]);
  }

  /** One batch, its answers in place. */
  method RequestTransactions(client: Client, hs: seq<Hash>, lo: nat, hi: nat, transactions: array<Option<Tx>>) returns (ok: bool)
    requires lo <= hi <= |hs| && transactions.Length == |hs|
    modifies client, transactions
    ensures client.calls == old(client.calls) + [hs[lo..hi]]
    ensures ok <==> AllAnswered(client.node, hs[lo..hi])
    ensures forall k | 0 <= k < |hs| :: transactions[k] == if lo <= k < hi then client.node.TxAt(hs[k]) else old(transactions[k])
  {
    for i := lo to hi
      invariant client.calls == old(client.calls)
      invariant forall k | 0 <= k < |hs| :: transactions[k] == if lo <= k < i then client.node.TxAt(hs[k]) else old(transactions[k])
    {
      transactions[i] := client.node.TxAt(hs[i]);
    }
    ok := client.Call(hs[lo..hi]);
  }

  /** What has been sent and what is still to be sent make up what is to be sent in all. */
  ghost predicate Sending(all: seq<seq<Hash>>, sent: seq<seq<Hash>>, rest: seq<seq<Hash>>) {
    all == sent + rest
  }

  lemma Sent(all: seq<seq<Hash>>, sent: seq<seq<Hash>>, batch: seq<Hash>, rest: seq<seq<Hash>>)
    requires Sending(all, sent, [batch] + rest)
    ensures Sending(all, sent + [batch], rest)
  {
  }

  lemma CutStep(hs: seq<Hash>, at: nat, end: nat, limit: nat)
    requires limit >= 1 && at <= |hs| && end == NextStart(at, |hs|, limit)
    ensures Cut(hs[at..], limit) == [hs[at..end]] + if end == |hs| then [] else Cut(hs[end..], limit)
  {
    if |hs| - at > limit {
      assert hs[at..][..limit] == hs[at..at + limit] && hs[at..][limit..] == hs[at + limit..];
    } else {
      assert hs[at..] == hs[at..end];
    }
  }

  lemma AnsweredSplits(node: Node, hs: seq<Hash>, at: nat, next: nat)
    requires at <= next <= |hs|
    ensures AllAnswered(node, hs[..next]) <==> AllAnswered(node, hs[..at]) && AllAnswered(node, hs[at..next])
    ensures AllAnswered(node, hs) ==> AllAnswered(node, hs[..next])
  {
    assert hs[..next] == hs[..at] + hs[at..next];
    assert hs == hs[..next] + hs[next..];
  }

  /** Headers are asked for all at once when the limit is 0, and not at all when there are none. */
  function HeaderBatches(hs: seq<Hash>, limit: nat): seq<seq<Hash>> {
    if hs == [] then [] else Cut(hs, if limit == 0 then |hs| else limit)
  }

  /** Whatever hashes the logs hold, each distinct one is in exactly one batch, once, and no batch
      exceeds the limit; without a limit there is one batch. */
  lemma EachHashIsAskedOnce(hs: seq<Hash>, limit: nat)
    ensures var batches := HeaderBatches(Distinct(hs), limit);
            && (forall b | b in batches :: 1 <= |b|)
            && (if limit == 0 then |batches| <= 1 else forall b | b in batches :: |b| <= limit)
            && (forall h :: h in Flat(batches) <==> h in hs)
            && (forall i, j | 0 <= i < j < |Flat(batches)| :: Flat(batches)[i] != Flat(batches)[j])
  {
    DistinctFacts(hs);
    if hs != [] {
      assert hs[0] in Distinct(hs);
      var size := if limit == 0 then |Distinct(hs)| else limit;
      CutIsExact(Distinct(hs), size);
      CutHasNoEmpty(Distinct(hs), size);
    }
  }

  lemma {:induction false} CutHasNoEmpty(hs: seq<Hash>, size: nat)
    requires size >= 1 && hs != []
    ensures forall b | b in Cut(hs, size) :: b != []
  {
    if |hs| > size {
      CutHasNoEmpty(hs[size..], size);
    }
  }

  method LoadBlockTimestamps(client: Client, hs: seq<Hash>, limit: nat) returns (r: Result<map<Hash, nat>>)
    modifies client
    ensures r.Ok? <==> AllAnswered(client.node, hs) && forall h | h in hs :: client.node.TimeAt(h).Some?
    ensures r.Ok? ==> client.calls == old(client.calls) + HeaderBatches(hs, limit)
    ensures r.Ok? ==> forall h :: h in r.value <==> h in hs
    ensures r.Ok? ==> forall h | h in hs :: client.node.TimeAt(h) == Some(r.value[h])
  {
    if |hs| == 0 {
      return Ok(map[]);
    }
    var size := if limit == 0 then |hs| else limit;
    var headers := new Option<nat>[|hs|](_ => None);
    var start := 0;
    ghost var before := client.calls;
    while start < |hs|
      invariant AllAnswered(client.node, hs[..if start < |hs| then start else |hs|])
      invariant forall i | 0 <= i < start && i < |hs| :: headers[i] == client.node.TimeAt(hs[i])
      invariant Sending(before + Cut(hs, size), client.calls, if start < |hs| then Cut(hs[start..], size) else [])
    {
      ghost var sent := client.calls;
      var end := if start + size > |hs| then |hs| else start + size;
      CutStep(hs, start, end, size);
      AnsweredSplits(client.node, hs, start, end);
      var ok := RequestHeaders(client, hs, start, end, headers);
      if !ok {
        return Err;
      }
      Sent(before + Cut(hs, size), sent, hs[start..end], if end == |hs| then [] else Cut(hs[end..], size));
      start := start + size;
      assert start < |hs| ==> start == end;
    }
    assert hs[..|hs|] == hs;
    r := TimesOf(client.node, hs, headers[..]);
  }

  method RequestHeaders(client: Client, hs: seq<Hash>, lo: nat, hi: nat, headers: array<Option<nat>>) returns (ok: bool)
    requires lo <= hi <= |hs| && headers.Length == |hs|
    modifies client, headers
    ensures client.calls == old(client.calls) + [hs[lo..hi]]
    ensures ok <==> AllAnswered(client.node, hs[lo..hi])
    ensures forall k | 0 <= k < |hs| :: headers[k] == if lo <= k < hi then client.node.TimeAt(hs[k]) else old(headers[k])
  {
    for i := lo to hi
      invariant client.calls == old(client.calls)
      invariant forall k | 0 <= k < |hs| :: headers[k] == if lo <= k < i then client.node.TimeAt(hs[k]) else old(headers[k])
    {
      headers[i] := client.node.TimeAt(hs[i]);
    }
    ok := client.Call(hs[lo..hi]);
  }

  /** The times by hash; one missing header is an error. */
  method TimesOf(node: Node, hs: seq<Hash>, headers: seq<Option<nat>>) returns (r: Result<map<Hash, nat>>)
    requires |headers| == |hs| && forall i | 0 <= i < |hs| :: headers[i] == node.TimeAt(hs[i])
    ensures r.Ok? <==> forall h | h in hs :: node.TimeAt(h).Some?
    ensures r.Ok? ==> forall h :: h in r.value <==> h in hs
    ensures r.Ok? ==> forall h | h in hs :: node.TimeAt(h) == Some(r.value[h])
  {
    var timestamps: map<Hash, nat> := map[];
    for i := 0 to |hs|
      invariant forall h :: h in timestamps <==> h in hs[..i]
      invariant forall h | h in hs[..i] :: node.TimeAt(h) == Some(timestamps[h])
    {
      if headers[i].None? {
        return Err;
      }
      timestamps := timestamps[hs[i] := headers[i].value];
    }
    return Ok(timestamps);
  }

  // ---- putting logs and transactions together ----------------------------------------------

  /** Where a transaction stands in the list, the last one if it is there more than once. */
  method FindTx(transactions: seq<Option<Tx>>, h: Hash) returns (found: Option<Tx>, index: nat)
    ensures found.Some? <==> exists k :: 0 <= k < |transactions| && transactions[k].Some? && transactions[k].value.hash == h
    ensures found.Some? ==> index < |transactions| && transactions[index] == found && found.value.hash == h
  {
    found, index := None, 0;
    for k := 0 to |transactions|
      invariant found.Some? <==> exists j :: 0 <= j < k && transactions[j].Some? && transactions[j].value.hash == h
      invariant found.Some? ==> index < k && transactions[index] == found && found.value.hash == h
    {
      if transactions[k].Some? && transactions[k].value.hash == h {
        found, index := transactions[k], k;
      }
    }
  }

  /** A node that gives for every hash the transaction with that hash. */
  predicate Honest(node: Node) {
    forall h | h in node.transactions :: node.transactions[h].hash == h
  }

  /** Everything the logs need is there: no request fails, and each log's header and transaction
      exist and the transaction has a sender. */
  predicate Complete(node: Node, logs: seq<RawLog>) {
    forall l | l in logs ::
      && l.tx !in node.failing && l.block !in node.failing
      && node.TimeAt(l.block).Some?
      && node.TxAt(l.tx).Some? && node.transactions[l.tx].sender.Some?
  }

  /** What is stored for one log: its own transaction's sender, its own block's time. */
  predicate IsStored(node: Node, source: nat, l: RawLog, out: StoredLog) {
    && l.tx in node.transactions && l.block in node.times
    && var tx := node.transactions[l.tx];
       && tx.sender == Some(out.from)
       && out.timestamp == node.times[l.block]
       && out.id == LogId(tx.chain, l.number, l.index)
       && out.source == source && out.number == l.number && out.index == l.index
       && out.tx == l.tx && out.block == l.block && out.txIndex == l.txIndex && out.address == l.address
  }

  /** What is stored with it for its transaction. The index is the transaction's place among the
      distinct hashes of the window, not its place in the block. */
  predicate IsStoredTx(node: Node, source: nat, logs: seq<RawLog>, l: RawLog, out: StoredTx) {
    && l.tx in node.transactions && l.block in node.times
    && var tx := node.transactions[l.tx];
       var distinct := Distinct(TxHashes(logs));
       && tx.sender == Some(out.from)
       && out.recipient == (if tx.recipient.Some? then tx.recipient.value else ZERO_ADDRESS)
       && out.timestamp == node.times[l.block]
       && out.id == Digits(tx.chain, 10) + ":" + l.tx
       && out.source == source && out.number == l.number && out.hash == l.tx
       && out.txIndex < |distinct| && distinct[out.txIndex] == l.tx
  }

  /** A transaction that creates a contract is stored with the zero address as its recipient. */
  lemma CreationGoesToZero(node: Node, source: nat, logs: seq<RawLog>, l: RawLog, out: StoredTx)
    requires IsStoredTx(node, source, logs, l, out) && node.transactions[l.tx].recipient == None
    ensures out.recipient == "0x" + Zeros(40)
  {
  }

  /** The stored index is the transaction's index in its block if and only if that index happens to
      be its place among the distinct hashes of the window. */
  lemma TxIndexIsExact(node: Node, source: nat, logs: seq<RawLog>, l: RawLog, out: StoredTx)
    requires IsStoredTx(node, source, logs, l, out)
    ensures var distinct := Distinct(TxHashes(logs));
            out.txIndex == l.txIndex <==> l.txIndex < |distinct| && distinct[l.txIndex] == l.tx
  {
    DistinctFacts(TxHashes(logs));
  }

  /** A single log of the second transaction of its block is stored with index 0. */
  lemma SecondTransactionIsStoredAsFirst(node: Node, source: nat, l: RawLog, out: StoredTx)
    requires l.txIndex == 1 && IsStoredTx(node, source, [l], l, out)
    ensures out.txIndex == 0
  {
    assert TxHashes([l]) == [l.tx] && [l.tx][..0] == [];
    assert Distinct([l.tx]) == [l.tx];
  }

  /** One stored log and one stored transaction for every log, in order, or nothing at all; each
      distinct hash is asked for once, in batches within the limit, headers first. */
  method ComputeLogsAndTxs(client: Client, logs: seq<RawLog>, source: nat, limit: nat)
    returns (r: Result<(seq<StoredLog>, seq<StoredTx>)>)
    requires limit >= 1 && Honest(client.node)
    modifies client
    ensures r.Ok? <==> Complete(client.node, logs)
    ensures r.Ok? ==> |r.value.0| == |r.value.1| == |logs|
    ensures r.Ok? ==> forall i | 0 <= i < |logs| :: IsStored(client.node, source, logs[i], r.value.0[i])
    ensures r.Ok? ==> forall i | 0 <= i < |logs| :: IsStoredTx(client.node, source, logs, logs[i], r.value.1[i])
    ensures r.Ok? ==>
              client.calls == old(client.calls)
                + HeaderBatches(Distinct(BlockHashes(logs)), limit) + HeaderBatches(Distinct(TxHashes(logs)), limit)
  {
    if |logs| == 0 {
      return Ok(([], []));
    }
    var txHashes, blockHashes := HashesToLoad(logs);
    DistinctFacts(TxHashes(logs));
    DistinctFacts(BlockHashes(logs));
    AllHashes(logs);

    var times := LoadBlockTimestamps(client, blockHashes, limit);
    if times.Err? {
      return Err;
    }
    var loaded := LoadTransactions(client, txHashes, limit);
    if loaded.Err? {
      return Err;
    }
    assert txHashes != [] && blockHashes != [];
    r := Assemble(client.node, logs, source, times.value, loaded.value);
  }

  method Assemble(node: Node, logs: seq<RawLog>, source: nat, times: map<Hash, nat>, transactions: seq<Option<Tx>>)
    returns (r: Result<(seq<StoredLog>, seq<StoredTx>)>)
    requires Honest(node) && Loaded(node, logs, transactions)
    requires forall l | l in logs :: l.block in times && node.TimeAt(l.block) == Some(times[l.block])
    ensures r.Ok? <==> forall l | l in logs :: node.TxAt(l.tx).Some? && node.transactions[l.tx].sender.Some?
    ensures r.Ok? ==> Stored(node, source, logs, |logs|, r.value.0, r.value.1)
  {
    var dbLogs: seq<StoredLog>, dbTxs: seq<StoredTx> := [], [];
    for i := 0 to |logs|
      invariant forall l | l in logs[..i] :: node.TxAt(l.tx).Some? && node.transactions[l.tx].sender.Some?
      invariant Stored(node, source, logs, i, dbLogs, dbTxs)
    {
      var l := logs[i];
      var tx, index := FindTx(transactions, l.tx);
      FoundIsOwn(node, logs, transactions, i);
      if tx.None? || tx.value.sender.None? {
        return Err;
      }
      var dbLog, dbTx := ToRows(node, logs, l, source, tx.value, index, times[l.block]);
      StoredStep(node, source, logs, i, dbLogs, dbTxs, dbLog, dbTx);
      dbLogs, dbTxs := dbLogs + [dbLog], dbTxs + [dbTx];
    }
    return Ok((dbLogs, dbTxs));
  }

  predicate Stored(node: Node, source: nat, logs: seq<RawLog>, n: nat, dbLogs: seq<StoredLog>, dbTxs: seq<StoredTx>)
    requires n <= |logs|
  {
    && |dbLogs| == |dbTxs| == n
    && (forall i | 0 <= i < n :: IsStored(node, source, logs[i], dbLogs[i]))
    && (forall i | 0 <= i < n :: IsStoredTx(node, source, logs, logs[i], dbTxs[i]))
  }

  lemma StoredStep(node: Node, source: nat, logs: seq<RawLog>, n: nat, dbLogs: seq<StoredLog>, dbTxs: seq<StoredTx>, dbLog: StoredLog, dbTx: StoredTx)
    requires n < |logs| && Stored(node, source, logs, n, dbLogs, dbTxs)
    requires IsStored(node, source, logs[n], dbLog) && IsStoredTx(node, source, logs, logs[n], dbTx)
    ensures Stored(node, source, logs, n + 1, dbLogs + [dbLog], dbTxs + [dbTx])
  {
    var ls, ts := dbLogs + [dbLog], dbTxs + [dbTx];
    forall i | 0 <= i < n + 1
      ensures IsStored(node, source, logs[i], ls[i]) && IsStoredTx(node, source, logs, logs[i], ts[i])
    {
      assert i < n ==> ls[i] == dbLogs[i] && ts[i] == dbTxs[i];
    }
  }

  method ToRows(node: Node, ghost logs: seq<RawLog>, l: RawLog, source: nat, tx: Tx, index: nat, time: nat)
    returns (dbLog: StoredLog, dbTx: StoredTx)
    requires node.TxAt(l.tx) == Some(tx) && node.TimeAt(l.block) == Some(time) && tx.sender.Some?
    requires index < |Distinct(TxHashes(logs))| && Distinct(TxHashes(logs))[index] == l.tx
    ensures IsStored(node, source, l, dbLog) && IsStoredTx(node, source, logs, l, dbTx)
  {
    var from := tx.sender.value;
    dbTx := StoredTx(Digits(tx.chain, 10) + ":" + l.tx, source, l.number, time, l.tx, from,
                     if tx.recipient.Some? then tx.recipient.value else ZERO_ADDRESS, index);
    dbLog := StoredLog(LogId(tx.chain, l.number, l.index), source, l.number, l.index, time,
                       l.tx, from, l.txIndex, l.block, l.address);
  }

  /** The answers for the distinct hashes, in their order. */
  predicate Loaded(node: Node, logs: seq<RawLog>, transactions: seq<Option<Tx>>) {
    var distinct := Distinct(TxHashes(logs));
    |transactions| == |distinct| && forall k | 0 <= k < |distinct| :: transactions[k] == node.TxAt(distinct[k])
  }

  lemma AllHashes(logs: seq<RawLog>)
    ensures forall h :: h in TxHashes(logs) <==> exists l :: l in logs && l.tx == h
    ensures forall h :: h in BlockHashes(logs) <==> exists l :: l in logs && l.block == h
  {
    forall l | l in logs
      ensures l.tx in TxHashes(logs) && l.block in BlockHashes(logs)
    {
      var i :| 0 <= i < |logs| && logs[i] == l;
      assert TxHashes(logs)[i] == l.tx && BlockHashes(logs)[i] == l.block;
    }
  }

  /** With an honest node the transaction found for a log is the one asked for on its behalf. */
  lemma FoundIsOwn(node: Node, logs: seq<RawLog>, transactions: seq<Option<Tx>>, i: nat)
    requires Honest(node) && i < |logs| && Loaded(node, logs, transactions)
    ensures forall k | 0 <= k < |transactions| && transactions[k].Some? && transactions[k].value.hash == logs[i].tx ::
              transactions[k] == node.TxAt(logs[i].tx) && Distinct(TxHashes(logs))[k] == logs[i].tx
    ensures node.TxAt(logs[i].tx).Some? ==>
              exists k :: 0 <= k < |transactions| && transactions[k].Some? && transactions[k].value.hash == logs[i].tx
  {
    DistinctFacts(TxHashes(logs));
    assert TxHashes(logs)[i] in Distinct(TxHashes(logs));
    if node.TxAt(logs[i].tx).Some? {
      var k :| 0 <= k < |transactions| && Distinct(TxHashes(logs))[k] == logs[i].tx;
      assert transactions[k].Some? && transactions[k].value.hash == logs[i].tx;
    }
  }
}
