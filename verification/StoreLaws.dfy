/** Why replaying batches by overwriting loses and repeats nothing, and what range queries add up to. */
module StoreLaws {
  import opened Positions
  import opened Chain
  import opened ParquetStore
  import opened Sequences

  function Stamp(source: nat, logs: seq<Log>): (rows: seq<Row>)
    ensures |rows| == |logs| && forall i | 0 <= i < |logs| :: rows[i] == Row(source, logs[i])
  {
    seq(|logs|, i requires 0 <= i < |logs| => Row(source, logs[i]))
  }

  /** A data file holds all of the source's logs between its first and last block, under the
      name made of these two blocks. */
  ghost predicate GoodFile(chain: seq<Log>, f: Filter, source: nat, name: string, rows: seq<Row>) {
    && rows != []
    && var lo, hi := rows[0].log.block, rows[|rows| - 1].log.block;
       name == FileName(lo, hi) && rows == Stamp(source, Fetch(chain, f, lo, hi))
  }

  ghost predicate DirOk(chain: seq<Log>, f: Filter, source: nat, dir: Dir) {
    forall name | name in dir && IsDataFile(name) :: GoodFile(chain, f, source, name, dir[name])
  }

  ghost predicate InDir(dir: Dir, r: Row) {
    exists name :: name in dir && IsDataFile(name) && r in dir[name]
  }

  lemma {:induction false} BlockRangeOfOrdered(rows: seq<Row>)
    requires rows != []
    requires forall i, j | 0 <= i < j < |rows| :: rows[i].log.block <= rows[j].log.block
    ensures MinBlock(rows) == rows[0].log.block && MaxBlock(rows) == rows[|rows| - 1].log.block
  {
    if |rows| > 1 {
      BlockRangeOfOrdered(rows[..|rows| - 1]);
    }
  }

  lemma OnePerPosition(chain: seq<Log>, a: Log, b: Log)
    requires IsChain(chain) && a in chain && b in chain && a.At() == b.At()
    ensures a == b
  {
    var i :| 0 <= i < |chain| && chain[i] == a;
    var j :| 0 <= j < |chain| && chain[j] == b;
  }

  /** The rows of one window. */
  function Window(chain: seq<Log>, f: Filter, source: nat, lo: nat, hi: nat): seq<Row> {
    Stamp(source, Fetch(chain, f, lo, hi))
  }

  lemma WindowIsGoodFile(chain: seq<Log>, f: Filter, source: nat, lo: nat, hi: nat)
    requires IsChain(chain) && Fetch(chain, f, lo, hi) != []
    ensures var rows := Window(chain, f, source, lo, hi);
            GoodFile(chain, f, source, FileName(MinBlock(rows), MaxBlock(rows)), rows)
    ensures var rows := Window(chain, f, source, lo, hi);
            MinBlock(rows) < TWO64 && MaxBlock(rows) < TWO64
  {
    var logs := Fetch(chain, f, lo, hi);
    FetchTight(chain, f, lo, hi);
    FetchOrdered(chain, f, lo, hi);
    FetchMembers(chain, f, lo, hi);
    assert logs[0] in logs && logs[|logs| - 1] in logs;
    BlockRangeOfOrdered(Window(chain, f, source, lo, hi));
  }

  /** Writing a window adds exactly its rows; if its file name is taken, the file already holds
      the same rows and nothing changes. */
  lemma OverwriteIsLossless(chain: seq<Log>, f: Filter, source: nat, dir: Dir, lo: nat, hi: nat)
    requires IsChain(chain) && DirOk(chain, f, source, dir) && Fetch(chain, f, lo, hi) != []
    ensures var rows := Window(chain, f, source, lo, hi);
            var dir' := WriteBatch(dir, rows);
            && DirOk(chain, f, source, dir')
            && (forall r :: InDir(dir', r) <==> InDir(dir, r) || r in rows)
            && (FileName(MinBlock(rows), MaxBlock(rows)) in dir ==> dir' == dir)
  {
    var rows := Window(chain, f, source, lo, hi);
    WindowIsGoodFile(chain, f, source, lo, hi);
    FileKinds(MinBlock(rows), MaxBlock(rows));
    PutGoodFile(chain, f, source, dir, FileName(MinBlock(rows), MaxBlock(rows)), rows);
  }

  lemma PutGoodFile(chain: seq<Log>, f: Filter, source: nat, dir: Dir, name: string, rows: seq<Row>)
    requires IsChain(chain) && DirOk(chain, f, source, dir)
    requires IsDataFile(name) && GoodFile(chain, f, source, name, rows)
    ensures var dir' := dir[name := rows];
            && DirOk(chain, f, source, dir')
            && (forall r :: InDir(dir', r) <==> InDir(dir, r) || r in rows)
            && (name in dir ==> dir' == dir)
  {
    if name in dir {
      SameNameSameRows(chain, f, source, name, rows, dir[name]);
      assert dir[name := rows] == dir;
    }
    InDirAfterPut(dir, name, rows);
  }

  lemma InDirAfterPut(dir: Dir, name: string, rows: seq<Row>)
    requires IsDataFile(name) && (name in dir ==> dir[name] == rows)
    ensures forall r :: InDir(dir[name := rows], r) <==> InDir(dir, r) || r in rows
  {
    var dir' := dir[name := rows];
    forall r
      ensures InDir(dir', r) <==> InDir(dir, r) || r in rows
    {
      if InDir(dir, r) {
        var n :| n in dir && IsDataFile(n) && r in dir[n];
        assert n in dir' && r in dir'[n];
      }
      if r in rows {
        assert name in dir' && r in dir'[name];
      }
    }
  }

  lemma SameNameSameRows(chain: seq<Log>, f: Filter, source: nat, name: string, a: seq<Row>, b: seq<Row>)
    requires IsChain(chain)
    requires GoodFile(chain, f, source, name, a) && GoodFile(chain, f, source, name, b)
    ensures a == b
  {
    FetchMembers(chain, f, a[0].log.block, a[|a| - 1].log.block);
    FetchMembers(chain, f, b[0].log.block, b[|b| - 1].log.block);
    ChainBlock(chain, f, source, a);
    ChainBlock(chain, f, source, b);
    FileNameInjective(a[0].log.block, a[|a| - 1].log.block, b[0].log.block, b[|b| - 1].log.block);
  }

  lemma ChainBlock(chain: seq<Log>, f: Filter, source: nat, rows: seq<Row>)
    requires IsChain(chain) && rows != []
    requires rows == Stamp(source, Fetch(chain, f, rows[0].log.block, rows[|rows| - 1].log.block))
    ensures rows[0].log.block < TWO64 && rows[|rows| - 1].log.block < TWO64
  {
    var logs := Fetch(chain, f, rows[0].log.block, rows[|rows| - 1].log.block);
    FetchMembers(chain, f, rows[0].log.block, rows[|rows| - 1].log.block);
    assert logs[0] in logs && logs[|logs| - 1] in logs;
  }

  // ---- reading back ------------------------------------------------------------------------

  lemma {:induction false} ConcatMembers(dir: Dir, files: seq<string>, r: Row)
    ensures r in Concat(dir, files) <==> exists f :: f in files && r in RowsOf(dir, f)
  {
    if files != [] {
      var front, last := files[..|files| - 1], files[|files| - 1];
      ConcatMembers(dir, front, r);
      assert files == front + [last];
      if r in Concat(dir, files) && r !in Concat(dir, front) {
        assert last in files && r in RowsOf(dir, last);
      }
    }
  }

  lemma {:induction false} DedupFacts(rows: seq<Row>)
    ensures forall r | r in Dedup(rows) :: r in rows
    ensures Ids(Dedup(rows)) == Ids(rows)
    ensures forall i, j | 0 <= i < j < |Dedup(rows)| :: Dedup(rows)[i].log.id != Dedup(rows)[j].log.id
  {
    if rows != [] {
      var front, last := rows[..|rows| - 1], rows[|rows| - 1];
      DedupFacts(front);
      assert rows == front + [last];
      IdsStep(front, last);
      IdsStep(Dedup(front), last);
      forall i | 0 <= i < |Dedup(front)|
        ensures Dedup(front)[i].log.id in Ids(Dedup(front))
      {
        assert Dedup(front)[i] in Dedup(front);
      }
    }
  }

  /** Of the rows with one id the first is kept, behind what is kept of the rows before it. */
  lemma {:induction false} FirstIsKept(rows: seq<Row>, n: nat)
    requires n < |rows| && rows[n].log.id !in Ids(rows[..n])
    ensures var place := |Dedup(rows[..n])|;
            place < |Dedup(rows)| && Dedup(rows)[place] == rows[n]
    decreases |rows|
  {
    var last := |rows| - 1;
    if n < last {
      assert rows[..last][..n] == rows[..n];
      FirstIsKept(rows[..last], n);
    } else {
      DedupFacts(rows[..n]);
    }
  }

  /** Reading a directory returns each visible row exactly once, whatever the listing order. */
  lemma ReadReturnsEachOnce(chain: seq<Log>, f: Filter, source: nat, dir: Dir, files: seq<string>)
    requires IsChain(chain) && DirOk(chain, f, source, dir) && IsListing(dir, files)
    ensures var out := Dedup(Concat(dir, files));
            && (forall r :: r in out <==> InDir(dir, r)) && EachOnce(out)
            && (forall i, j | 0 <= i < j < |out| :: out[i].log.At() != out[j].log.At())
  {
    var all := Concat(dir, files);
    var out := Dedup(all);
    DedupFacts(all);
    forall r
      ensures r in all <==> InDir(dir, r)
    {
      ConcatMembers(dir, files, r);
      if r in all {
        var n :| n in files && r in RowsOf(dir, n);
        assert n in dir && IsDataFile(n) && r in dir[n];
      }
      if InDir(dir, r) {
        var n :| n in dir && IsDataFile(n) && r in dir[n];
        assert n in files && r in RowsOf(dir, n);
      }
    }
    forall r | r in all
      ensures r in out
    {
      assert r.log.id in Ids(all);
      var q :| q in out && q.log.id == r.log.id;
      RowsAreChainLogs(chain, f, source, dir, r);
      RowsAreChainLogs(chain, f, source, dir, q);
      LogIdInjective(q.log, r.log);
      OnePerPosition(chain, q.log, r.log);
    }
    forall i, j | 0 <= i < j < |out|
      ensures out[i].log.At() != out[j].log.At()
    {
      assert out[i] in out && out[j] in out;
      RowsAreChainLogs(chain, f, source, dir, out[i]);
      RowsAreChainLogs(chain, f, source, dir, out[j]);
      if out[i].log.At() == out[j].log.At() {
        OnePerPosition(chain, out[i].log, out[j].log);
      }
    }
  }

  lemma RowsAreChainLogs(chain: seq<Log>, f: Filter, source: nat, dir: Dir, r: Row)
    requires IsChain(chain) && DirOk(chain, f, source, dir) && InDir(dir, r)
    ensures r.source == source && r.log in chain && Matches(f, r.log)
  {
    var n :| n in dir && IsDataFile(n) && r in dir[n];
    GoodFileRow(chain, f, source, n, dir[n], r);
  }

  lemma GoodFileRow(chain: seq<Log>, f: Filter, source: nat, name: string, rows: seq<Row>, r: Row)
    requires GoodFile(chain, f, source, name, rows) && r in rows
    ensures r.source == source && r.log in chain && Matches(f, r.log)
  {
    WindowMember(chain, f, source, rows[0].log.block, rows[|rows| - 1].log.block, r);
  }

  // ---- replayed windows --------------------------------------------------------------------

  /** A window is written; or its writer reports a failure and clears up; or it dies, or fails
      to rename, and leaves some temporary file behind. */
  datatype WriteOp =
    | Written(lo: nat, hi: nat)
    | Failed(lo: nat, hi: nat)
    | Interrupted(lo: nat, hi: nat, partial: seq<Row>)

  function ApplyWrite(chain: seq<Log>, f: Filter, source: nat, dir: Dir, op: WriteOp): Dir {
    var rows := Window(chain, f, source, op.lo, op.hi);
    if rows == [] then dir
    else if op.Written? then AfterWrite(dir, MinBlock(rows), MaxBlock(rows), rows, Renamed)
    else if op.Failed? then AfterWrite(dir, MinBlock(rows), MaxBlock(rows), rows, NotWritten)
    else dir[FileName(MinBlock(rows), MaxBlock(rows)) + ".tmp" := op.partial]
  }

  function ApplyWrites(chain: seq<Log>, f: Filter, source: nat, ops: seq<WriteOp>): Dir {
    if ops == [] then map[]
    else ApplyWrite(chain, f, source, ApplyWrites(chain, f, source, ops[..|ops| - 1]), ops[|ops| - 1])
  }

  ghost predicate Covered(ops: seq<WriteOp>, block: nat) {
    exists op :: op in ops && op.Written? && op.lo <= block <= op.hi
  }

  lemma SameVisible(chain: seq<Log>, f: Filter, source: nat, a: Dir, b: Dir)
    requires Visible(a) == Visible(b)
    ensures DirOk(chain, f, source, a) ==> DirOk(chain, f, source, b)
    ensures forall r :: InDir(a, r) ==> InDir(b, r)
  {
    forall n | n in b && IsDataFile(n)
      ensures n in a && a[n] == b[n]
    {
      assert n in Visible(b);
    }
    forall n | n in a && IsDataFile(n)
      ensures n in b && a[n] == b[n]
    {
      assert n in Visible(a);
    }
    forall r | InDir(a, r)
      ensures InDir(b, r)
    {
      var n :| n in a && IsDataFile(n) && r in a[n];
      assert n in b && r in b[n];
    }
  }

  /** One write, finished or not, in terms of rows. */
  lemma WriteEffect(chain: seq<Log>, f: Filter, source: nat, dir: Dir, op: WriteOp)
    requires IsChain(chain) && DirOk(chain, f, source, dir)
    ensures var dir' := ApplyWrite(chain, f, source, dir, op);
            && DirOk(chain, f, source, dir')
            && (forall r :: InDir(dir', r) <==> InDir(dir, r) || (op.Written? && r in Window(chain, f, source, op.lo, op.hi)))
  {
    var rows := Window(chain, f, source, op.lo, op.hi);
    if rows != [] {
      var lo, hi := MinBlock(rows), MaxBlock(rows);
      var dir' := ApplyWrite(chain, f, source, dir, op);
      if op.Written? {
        OverwriteIsLossless(chain, f, source, dir, op.lo, op.hi);
        TmpIsInvisible(dir, lo, hi, rows);
        SameVisible(chain, f, source, WriteBatch(dir, rows), dir');
        SameVisible(chain, f, source, dir', WriteBatch(dir, rows));
      } else {
        TmpIsInvisible(dir, lo, hi, if op.Interrupted? then op.partial else rows);
        SameVisible(chain, f, source, dir, dir');
        SameVisible(chain, f, source, dir', dir);
      }
    }
  }

  /** After any sequence of windows, cut differently each time, interrupted and replayed, reading
      returns each matching log of the written windows exactly once, and nothing else. */
  lemma {:induction false} ReplayIsLossless(chain: seq<Log>, f: Filter, source: nat, ops: seq<WriteOp>, files: seq<string>)
    requires IsChain(chain)
    requires IsListing(ApplyWrites(chain, f, source, ops), files)
    ensures var out := Dedup(Concat(ApplyWrites(chain, f, source, ops), files));
            && (forall r :: r in out <==>
                  r.source == source && r.log in chain && Matches(f, r.log) && Covered(ops, r.log.block))
            && (forall i, j | 0 <= i < j < |out| :: out[i].log.At() != out[j].log.At())
  {
    WritesCover(chain, f, source, ops);
    ReadReturnsEachOnce(chain, f, source, ApplyWrites(chain, f, source, ops), files);
  }

  lemma {:induction false} WritesCover(chain: seq<Log>, f: Filter, source: nat, ops: seq<WriteOp>)
    requires IsChain(chain)
    ensures var dir := ApplyWrites(chain, f, source, ops);
            && DirOk(chain, f, source, dir)
            && (forall r :: InDir(dir, r) <==>
                  r.source == source && r.log in chain && Matches(f, r.log) && Covered(ops, r.log.block))
  {
    if ops != [] {
      var front, op := ops[..|ops| - 1], ops[|ops| - 1];
      WritesCover(chain, f, source, front);
      var before := ApplyWrites(chain, f, source, front);
      WriteEffect(chain, f, source, before, op);
      FetchMembers(chain, f, op.lo, op.hi);
      forall r: Row
        ensures r in Window(chain, f, source, op.lo, op.hi) <==>
                  r.source == source && r.log in chain && Matches(f, r.log) && op.lo <= r.log.block <= op.hi
      {
        WindowMember(chain, f, source, op.lo, op.hi, r);
      }
      forall b: nat
        ensures Covered(ops, b) <==> Covered(front, b) || (op.Written? && op.lo <= b <= op.hi)
      {
        assert forall o :: o in ops <==> o in front || o == op;
      }
    }
  }

  lemma WindowMember(chain: seq<Log>, f: Filter, source: nat, lo: nat, hi: nat, r: Row)
    ensures r in Window(chain, f, source, lo, hi) <==>
              r.source == source && r.log in chain && Matches(f, r.log) && lo <= r.log.block <= hi
  {
    FetchMembers(chain, f, lo, hi);
    var logs, rows := Fetch(chain, f, lo, hi), Window(chain, f, source, lo, hi);
    if r in rows {
      var i :| 0 <= i < |rows| && rows[i] == r;
      assert logs[i] in logs;
    }
    if r.source == source && r.log in logs {
      var i :| 0 <= i < |logs| && logs[i] == r.log;
      assert rows[i] == r;
    }
  }

  // ---- ranges ------------------------------------------------------------------------------

  /** A store's answer: the wanted rows in position order. */
  ghost predicate IsAnswer(out: seq<Row>, all: seq<Row>, bound: Position, to: nat) {
    SortedRows(out) && multiset(out) == multiset(Select(all, bound, to))
  }

  function AllRows(dirs: map<nat, Dir>, listing: map<nat, seq<string>>, sources: seq<nat>): seq<Row> {
    if sources == [] then []
    else AllRows(dirs, listing, sources[..|sources| - 1]) + SourceRows(dirs, listing, sources[|sources| - 1])
  }

  lemma {:induction false} SelectConcat(a: seq<Row>, b: seq<Row>, bound: Position, to: nat)
    ensures Select(a + b, bound, to) == Select(a, bound, to) + Select(b, bound, to)
  {
    if b == [] {
      assert a + b == a;
    } else {
      assert (a + b)[..|a + b| - 1] == a + b[..|b| - 1];
      SelectConcat(a, b[..|b| - 1], bound, to);
    }
  }

  /** The query's loop over sources selects from all their rows together. */
  lemma {:induction false} WantedIsSelect(dirs: map<nat, Dir>, listing: map<nat, seq<string>>, sources: seq<nat>, bound: Position, to: nat)
    ensures Wanted(dirs, listing, sources, bound, to) == Select(AllRows(dirs, listing, sources), bound, to)
  {
    if sources != [] {
      var front, last := sources[..|sources| - 1], sources[|sources| - 1];
      WantedIsSelect(dirs, listing, front, bound, to);
      SelectConcat(AllRows(dirs, listing, front), SourceRows(dirs, listing, last), bound, to);
    }
  }

  lemma {:induction false} SelectMembers(rows: seq<Row>, bound: Position, to: nat, r: Row)
    ensures r in Select(rows, bound, to) <==> r in rows && r.log.block <= to && Less(bound, r.log.At())
  {
    if rows != [] {
      SelectMembers(rows[..|rows| - 1], bound, to, r);
      assert rows == rows[..|rows| - 1] + [rows[|rows| - 1]];
    }
  }

  lemma {:induction false} SelectOnce(rows: seq<Row>, bound: Position, to: nat)
    requires EachOnce(rows)
    ensures EachOnce(Select(rows, bound, to))
  {
    if rows != [] {
      var front, last := rows[..|rows| - 1], rows[|rows| - 1];
      SelectOnce(front, bound, to);
      SelectMembers(front, bound, to, last);
      assert last !in front;
    }
  }

  /** An answer holds exactly the rows after the bound and up to the block. */
  lemma AnswerMembers(out: seq<Row>, all: seq<Row>, bound: Position, to: nat, r: Row)
    requires IsAnswer(out, all, bound, to)
    ensures r in out <==> r in all && r.log.block <= to && Less(bound, r.log.At())
  {
    SelectMembers(all, bound, to, r);
    assert r in out <==> r in multiset(out);
    assert r in Select(all, bound, to) <==> r in multiset(Select(all, bound, to));
  }

  lemma {:induction false} SelectSplits(rows: seq<Row>, a: Position, m: nat, n: nat)
    requires a.block <= m <= n && forall r | r in rows :: r.log.index < MAX_UINT64
    ensures multiset(Select(rows, a, n))
         == multiset(Select(rows, a, m)) + multiset(Select(rows, Position(m, MAX_UINT64), n))
  {
    if rows != [] {
      assert rows[|rows| - 1] in rows;
      SelectSplits(rows[..|rows| - 1], a, m, n);
    }
  }

  /** Whether a position belongs to one row only. */
  ghost predicate PositionsIdentify(rows: seq<Row>) {
    forall r, q | r in rows && q in rows && r.log.At() == q.log.At() :: r == q
  }

  lemma LastIsGreatest(a: seq<Row>, b: seq<Row>)
    requires a != [] && b != [] && SortedRows(b) && a[|a| - 1] in multiset(b)
    ensures AtMost(a[|a| - 1].log.At(), b[|b| - 1].log.At())
  {
    var i :| 0 <= i < |b| && b[i] == a[|a| - 1];
  }

  lemma SameLast(a: seq<Row>, b: seq<Row>)
    requires SortedRows(a) && SortedRows(b) && multiset(a) == multiset(b) && PositionsIdentify(a) && a != []
    ensures |a| == |b| && a[|a| - 1] == b[|b| - 1]
  {
    assert |a| == |multiset(a)| && |b| == |multiset(b)|;
    assert a[|a| - 1] in multiset(a) && b[|b| - 1] in multiset(b);
    LastIsGreatest(a, b);
    LastIsGreatest(b, a);
    assert b[|b| - 1] in a;
  }

  lemma {:induction false} SortedOnce(a: seq<Row>, b: seq<Row>)
    requires SortedRows(a) && SortedRows(b) && multiset(a) == multiset(b) && PositionsIdentify(a)
    ensures a == b
  {
    if a == [] {
      assert |b| == |multiset(b)| == 0;
    } else {
      SameLast(a, b);
      SameFronts(a, b);
      SortedOnce(a[..|a| - 1], b[..|b| - 1]);
      Rejoin(a, b);
    }
  }

  lemma Rejoin(a: seq<Row>, b: seq<Row>)
    requires a != [] && b != [] && a[|a| - 1] == b[|b| - 1] && a[..|a| - 1] == b[..|b| - 1]
    ensures a == b
  {
    assert a == a[..|a| - 1] + [a[|a| - 1]] && b == b[..|b| - 1] + [b[|b| - 1]];
  }

  lemma SameFronts(a: seq<Row>, b: seq<Row>)
    requires SortedRows(a) && SortedRows(b) && multiset(a) == multiset(b) && PositionsIdentify(a)
    requires a != [] && |a| == |b| && a[|a| - 1] == b[|b| - 1]
    ensures var a', b' := a[..|a| - 1], b[..|b| - 1];
            SortedRows(a') && SortedRows(b') && multiset(a') == multiset(b') && PositionsIdentify(a')
  {
    WithoutLast(a);
    WithoutLast(b);
  }

  lemma WithoutLast(a: seq<Row>)
    requires a != []
    ensures multiset(a[..|a| - 1]) == multiset(a) - multiset{a[|a| - 1]}
    ensures SortedRows(a) ==> SortedRows(a[..|a| - 1])
    ensures PositionsIdentify(a) ==> PositionsIdentify(a[..|a| - 1])
  {
    assert a == a[..|a| - 1] + [a[|a| - 1]];
    assert forall r | r in a[..|a| - 1] :: r in a;
  }

  /** Consecutive ranges add up: the two answers put together are an answer for the whole range,
      and the only one when no two rows share a position. */
  lemma RangesConcatenate(all: seq<Row>, a: Position, m: nat, n: nat, first: seq<Row>, second: seq<Row>, whole: seq<Row>)
    requires a.block <= m <= n && forall r | r in all :: r.log.index < MAX_UINT64
    requires IsAnswer(first, all, a, m)
    requires IsAnswer(second, all, Position(m, MAX_UINT64), n)
    requires IsAnswer(whole, all, a, n)
    ensures IsAnswer(first + second, all, a, n)
    ensures PositionsIdentify(all) ==> first + second == whole
  {
    SelectSplits(all, a, m, n);
    forall i, j | 0 <= i < j < |first + second|
      ensures AtMost((first + second)[i].log.At(), (first + second)[j].log.At())
    {
      if i < |first| <= j {
        AnswerMembers(first, all, a, m, first[i]);
        AnswerMembers(second, all, Position(m, MAX_UINT64), n, second[j - |first|]);
      }
    }
    if PositionsIdentify(all) {
      forall r | r in first + second
        ensures r in all
      {
        AnswerMembers(first + second, all, a, n, r);
      }
      SortedOnce(first + second, whole);
    }
  }

  // ---- what consecutive queries give -------------------------------------------------------

  /** The directories are what indexing these filters leaves, and listing names their files. */
  ghost predicate HoldsSources(chain: seq<Log>, filters: map<nat, Filter>, dirs: map<nat, Dir>, listing: map<nat, seq<string>>, sources: seq<nat>) {
    forall s | s in sources ::
      && s in filters && DirOk(chain, filters[s], s, DirOf(dirs, s))
      && IsListing(DirOf(dirs, s), ListingOf(listing, s))
  }

  /** No two of the sources hold a log at the same position. */
  ghost predicate NoneShared(dirs: map<nat, Dir>, sources: seq<nat>) {
    forall s, t, r, q | s in sources && t in sources && InDir(DirOf(dirs, s), r) && InDir(DirOf(dirs, t), q)
                        && r.log.At() == q.log.At() :: s == t
  }

  lemma {:induction false} AllRowsMembers(dirs: map<nat, Dir>, listing: map<nat, seq<string>>, sources: seq<nat>, r: Row)
    ensures r in AllRows(dirs, listing, sources) <==> exists s :: s in sources && r in SourceRows(dirs, listing, s)
  {
    if sources != [] {
      var front, last := sources[..|sources| - 1], sources[|sources| - 1];
      AllRowsMembers(dirs, listing, front, r);
      assert sources == front + [last];
    }
  }

  /** The rows of all sources are logs of the chain, each at the one source that holds it. */
  lemma RowOfSource(chain: seq<Log>, filters: map<nat, Filter>, dirs: map<nat, Dir>, listing: map<nat, seq<string>>, sources: seq<nat>, r: Row)
    returns (s: nat)
    requires IsChain(chain) && HoldsSources(chain, filters, dirs, listing, sources) && r in AllRows(dirs, listing, sources)
    ensures s in sources && InDir(DirOf(dirs, s), r) && r.source == s && r.log in chain
  {
    AllRowsMembers(dirs, listing, sources, r);
    s :| s in sources && r in SourceRows(dirs, listing, s);
    ReadReturnsEachOnce(chain, filters[s], s, DirOf(dirs, s), ListingOf(listing, s));
    RowsAreChainLogs(chain, filters[s], s, DirOf(dirs, s), r);
  }

  lemma SameRow(chain: seq<Log>, dirs: map<nat, Dir>, sources: seq<nat>, s: nat, t: nat, r: Row, q: Row)
    requires IsChain(chain) && NoneShared(dirs, sources) && s in sources && t in sources && r.log.At() == q.log.At()
    requires InDir(DirOf(dirs, s), r) && r.source == s && r.log in chain
    requires InDir(DirOf(dirs, t), q) && q.source == t && q.log in chain
    ensures r == q
  {
    OneOrder(chain, r.log, q.log);
  }

  lemma UnsharedPositionsIdentify(chain: seq<Log>, filters: map<nat, Filter>, dirs: map<nat, Dir>, listing: map<nat, seq<string>>, sources: seq<nat>)
    requires IsChain(chain) && HoldsSources(chain, filters, dirs, listing, sources) && NoneShared(dirs, sources)
    ensures PositionsIdentify(AllRows(dirs, listing, sources))
  {
    forall r, q | r in AllRows(dirs, listing, sources) && q in AllRows(dirs, listing, sources) && r.log.At() == q.log.At()
      ensures r == q
    {
      var s := RowOfSource(chain, filters, dirs, listing, sources, r);
      var t := RowOfSource(chain, filters, dirs, listing, sources, q);
      SameRow(chain, dirs, sources, s, t, r, q);
    }
  }

  lemma AnswerOfQuery(dirs: map<nat, Dir>, listing: map<nat, seq<string>>, sources: seq<nat>, bound: Position, to: nat, out: seq<Row>)
    ensures Answers(dirs, listing, sources, bound, to, out) <==> IsAnswer(out, AllRows(dirs, listing, sources), bound, to)
  {
    WantedIsSelect(dirs, listing, sources, bound, to);
  }

  lemma SourceOnce(chain: seq<Log>, filters: map<nat, Filter>, dirs: map<nat, Dir>, listing: map<nat, seq<string>>,
      sources: seq<nat>, s: nat, bound: Position, to: nat)
    requires IsChain(chain) && HoldsSources(chain, filters, dirs, listing, sources) && s in sources
    ensures var rows := Select(SourceRows(dirs, listing, s), bound, to);
            && EachOnce(rows)
            && forall r :: r in rows <==> r.source == s && InDir(DirOf(dirs, s), r) && r.log.block <= to && Less(bound, r.log.At())
  {
    var rows := SourceRows(dirs, listing, s);
    ReadReturnsEachOnce(chain, filters[s], s, DirOf(dirs, s), ListingOf(listing, s));
    SelectOnce(rows, bound, to);
    forall r
      ensures r in Select(rows, bound, to) <==>
                r.source == s && InDir(DirOf(dirs, s), r) && r.log.block <= to && Less(bound, r.log.At())
    {
      SelectMembers(rows, bound, to, r);
      if InDir(DirOf(dirs, s), r) {
        RowsAreChainLogs(chain, filters[s], s, DirOf(dirs, s), r);
      }
    }
  }

  /** What the store reads from one source after another repeats nothing. */
  lemma {:induction false} WantedOnce(chain: seq<Log>, filters: map<nat, Filter>, dirs: map<nat, Dir>, listing: map<nat, seq<string>>,
      sources: seq<nat>, bound: Position, to: nat)
    requires IsChain(chain) && HoldsSources(chain, filters, dirs, listing, sources) && EachOnce(sources)
    ensures var got := Wanted(dirs, listing, sources, bound, to);
            && EachOnce(got)
            && forall r :: r in got <==>
                 r.source in sources && InDir(DirOf(dirs, r.source), r) && r.log.block <= to && Less(bound, r.log.At())
  {
    if sources != [] {
      var front, last := sources[..|sources| - 1], sources[|sources| - 1];
      assert sources == front + [last] && last !in front;
      WantedOnce(chain, filters, dirs, listing, front, bound, to);
      SourceOnce(chain, filters, dirs, listing, sources, last, bound, to);
      EachOnceConcat(Wanted(dirs, listing, front, bound, to), Select(SourceRows(dirs, listing, last), bound, to));
    }
  }

  /** An answer for sources that are each asked once: every log they hold in the range, once. */
  lemma AnswersHoldEachOnce(chain: seq<Log>, filters: map<nat, Filter>, dirs: map<nat, Dir>, listing: map<nat, seq<string>>,
      sources: seq<nat>, bound: Position, to: nat, out: seq<Row>)
    requires IsChain(chain) && HoldsSources(chain, filters, dirs, listing, sources) && EachOnce(sources)
    requires Answers(dirs, listing, sources, bound, to, out)
    ensures EachOnce(out)
    ensures forall r :: r in out <==>
              r.source in sources && InDir(DirOf(dirs, r.source), r) && r.log.block <= to && Less(bound, r.log.At())
  {
    var got := Wanted(dirs, listing, sources, bound, to);
    WantedOnce(chain, filters, dirs, listing, sources, bound, to);
    RearrangedOnce(got, out);
    forall r
      ensures r in out <==> r in got
    {
      assert r in out <==> r in multiset(out);
      assert r in got <==> r in multiset(got);
    }
  }

  /** What the store answers for two ranges, the second asked with the cursor behind the first, put
      together is an answer for both at once; and if no two of the sources hold the same log it is
      just what the store answers then. */
  lemma QueriesConcatenate(chain: seq<Log>, filters: map<nat, Filter>, dirs: map<nat, Dir>, listing: map<nat, seq<string>>,
      sources: seq<nat>, a: Position, m: nat, n: nat, first: seq<Row>, second: seq<Row>, whole: seq<Row>)
    requires IsChain(chain) && HoldsSources(chain, filters, dirs, listing, sources) && a.block <= m <= n
    requires Answers(dirs, listing, sources, a, m, first)
    requires Answers(dirs, listing, sources, CursorBound(CursorAfterRange(m)), n, second)
    requires Answers(dirs, listing, sources, a, n, whole)
    ensures Answers(dirs, listing, sources, a, n, first + second)
    ensures NoneShared(dirs, sources) ==> first + second == whole
  {
    var all := AllRows(dirs, listing, sources);
    forall r | r in all
      ensures r.log.index < MAX_UINT64
    {
      var s := RowOfSource(chain, filters, dirs, listing, sources, r);
    }
    AnswerOfQuery(dirs, listing, sources, a, m, first);
    AnswerOfQuery(dirs, listing, sources, CursorBound(CursorAfterRange(m)), n, second);
    AnswerOfQuery(dirs, listing, sources, a, n, whole);
    RangesConcatenate(all, a, m, n, first, second, whole);
    AnswerOfQuery(dirs, listing, sources, a, n, first + second);
    if NoneShared(dirs, sources) {
      UnsharedPositionsIdentify(chain, filters, dirs, listing, sources);
    }
  }
}
