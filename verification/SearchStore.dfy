/** What the search engine holds of the rows written to it, against what the file store holds. */
module SearchStore {
  import opened Positions
  import opened Chain
  import opened ParquetStore
  import opened StoreLaws
  import opened Sequences
  import Pagination

  /** A document is kept under the id of its log, which says nothing of the source: of two rows
      with one id the later one is kept. */
  function Index(rows: seq<Row>): map<string, Row> {
    if rows == [] then map[]
    else
      var last := rows[|rows| - 1];
      Index(rows[..|rows| - 1])[last.log.id := last]
  }

  function DocOf(r: Row): Pagination.Doc {
    Pagination.Doc(r.log.id, r.source, r.log.block, r.log.index)
  }

  function DocsOf(rows: seq<Row>): (docs: seq<Pagination.Doc>)
    ensures |docs| == |rows| && forall i | 0 <= i < |rows| :: docs[i] == DocOf(rows[i])
  {
    seq(|rows|, i requires 0 <= i < |rows| => DocOf(rows[i]))
  }

  /** The documents of the index, in no particular order. */
  ghost predicate Holds(docs: seq<Pagination.Doc>, rows: seq<Row>) {
    && Pagination.UniqueIds(docs)
    && forall d :: d in docs <==> d.id in Index(rows) && d == DocOf(Index(rows)[d.id])
  }

  lemma {:induction false} IndexedWereWritten(rows: seq<Row>, id: string)
    requires id in Index(rows)
    ensures Index(rows)[id] in rows && Index(rows)[id].log.id == id
  {
    var front, last := rows[..|rows| - 1], rows[|rows| - 1];
    if last.log.id != id {
      IndexedWereWritten(front, id);
    }
  }

  lemma {:induction false} WrittenIsIndexed(rows: seq<Row>, r: Row)
    requires r in rows
    ensures r.log.id in Index(rows)
  {
    if r != rows[|rows| - 1] {
      WrittenIsIndexed(rows[..|rows| - 1], r);
    }
  }

  ghost predicate OfChain(chain: seq<Log>, rows: seq<Row>) {
    IsChain(chain) && forall r | r in rows :: r.log in chain
  }

  /** Logs of a chain with one id are one log. */
  lemma SameLog(chain: seq<Log>, a: Log, b: Log)
    requires IsChain(chain) && a in chain && b in chain && a.id == b.id
    ensures a == b
  {
    LogIdInjective(a, b);
    OneOrder(chain, a, b);
  }

  /** A row that has been written is among the documents if and only if no row of another source
      has been written for the same log since. */
  lemma IndexedAgain(chain: seq<Log>, rows: seq<Row>, docs: seq<Pagination.Doc>, r: Row)
    requires OfChain(chain, rows) && Holds(docs, rows) && r in rows
    ensures r.log.id in Index(rows)
    ensures DocOf(r) in docs <==> Index(rows)[r.log.id].source == r.source
  {
    WrittenIsIndexed(rows, r);
    IndexedWereWritten(rows, r.log.id);
    SameLog(chain, Index(rows)[r.log.id].log, r.log);
  }

  /** The exporter's query gives a row that has been written if and only if its source is asked for,
      it lies behind the bound and up to the block, and no other source has written the same log
      since. It gives nothing else. */
  lemma FoundExactly(chain: seq<Log>, rows: seq<Row>, docs: seq<Pagination.Doc>, sources: seq<nat>, bound: Position, to: nat)
    requires OfChain(chain, rows) && Holds(docs, rows)
    ensures forall r | r in rows ::
              DocOf(r) in Pagination.Hits(Pagination.LogsAfter(sources, bound, to), docs) <==>
                && r.source in sources && Less(bound, r.log.At()) && r.log.block <= to
                && r.log.id in Index(rows) && Index(rows)[r.log.id].source == r.source
    ensures forall d | d in Pagination.Hits(Pagination.LogsAfter(sources, bound, to), docs) :: exists r :: r in rows && d == DocOf(r)
  {
    var q := Pagination.LogsAfter(sources, bound, to);
    forall r | r in rows
      ensures r.log.id in Index(rows)
      ensures DocOf(r) in Pagination.Hits(q, docs) <==>
                && r.source in sources && Less(bound, r.log.At()) && r.log.block <= to
                && Index(rows)[r.log.id].source == r.source
    {
      Pagination.HitMembers(q, docs, DocOf(r));
      IndexedAgain(chain, rows, docs, r);
    }
    forall d | d in Pagination.Hits(q, docs)
      ensures exists r :: r in rows && d == DocOf(r)
    {
      Pagination.HitMembers(q, docs, d);
      IndexedWereWritten(rows, d.id);
    }
  }

  // ---- against the file store --------------------------------------------------------------

  /** The file store's directories hold the same rows. */
  ghost predicate SameRows(rows: seq<Row>, dirs: map<nat, Dir>, stored: seq<nat>) {
    forall r :: r in rows <==> exists s :: s in stored && InDir(DirOf(dirs, s), r)
  }

  /** When no two sources hold the same log, whatever was written in whatever order and however
      often, each row is in the index. */
  lemma NothingIsOverwritten(chain: seq<Log>, filters: map<nat, Filter>, dirs: map<nat, Dir>, listing: map<nat, seq<string>>,
      stored: seq<nat>, rows: seq<Row>, r: Row)
    requires OfChain(chain, rows) && HoldsSources(chain, filters, dirs, listing, stored) && SameRows(rows, dirs, stored)
    requires NoneShared(dirs, stored) && r in rows
    ensures r.log.id in Index(rows) && Index(rows)[r.log.id] == r
  {
    WrittenIsIndexed(rows, r);
    IndexedWereWritten(rows, r.log.id);
    var q := Index(rows)[r.log.id];
    SameLog(chain, q.log, r.log);
    hide OfChain, HoldsSources, SameRows, InDir, NoneShared;
    var s := HolderOf(chain, filters, dirs, listing, stored, rows, r);
    var t := HolderOf(chain, filters, dirs, listing, stored, rows, q);
    OneHolder(dirs, stored, s, t, r, q);
  }

  lemma OneHolder(dirs: map<nat, Dir>, stored: seq<nat>, s: nat, t: nat, r: Row, q: Row)
    requires NoneShared(dirs, stored) && s in stored && t in stored && r.log == q.log
    requires InDir(DirOf(dirs, s), r) && r.source == s && InDir(DirOf(dirs, t), q) && q.source == t
    ensures r == q
  {
  }

  lemma HolderOf(chain: seq<Log>, filters: map<nat, Filter>, dirs: map<nat, Dir>, listing: map<nat, seq<string>>,
      stored: seq<nat>, rows: seq<Row>, r: Row) returns (s: nat)
    requires OfChain(chain, rows) && HoldsSources(chain, filters, dirs, listing, stored) && SameRows(rows, dirs, stored) && r in rows
    ensures s in stored && InDir(DirOf(dirs, s), r) && r.source == s
  {
    s :| s in stored && InDir(DirOf(dirs, s), r);
    RowsAreChainLogs(chain, filters[s], s, DirOf(dirs, s), r);
  }

  /** Then both stores give the same logs in the same order for every query of the exporter. */
  lemma StoresAgree(chain: seq<Log>, filters: map<nat, Filter>, dirs: map<nat, Dir>, listing: map<nat, seq<string>>,
      stored: seq<nat>, rows: seq<Row>, docs: seq<Pagination.Doc>, sources: seq<nat>, bound: Position, to: nat, out: seq<Row>)
    requires OfChain(chain, rows) && HoldsSources(chain, filters, dirs, listing, stored) && SameRows(rows, dirs, stored)
    requires NoneShared(dirs, stored) && Holds(docs, rows)
    requires EachOnce(sources) && forall s | s in sources :: s in stored
    requires Answers(dirs, listing, sources, bound, to, out)
    ensures Pagination.Hits(Pagination.LogsAfter(sources, bound, to), docs) == DocsOf(out)
  {
    var q := Pagination.LogsAfter(sources, bound, to);
    AnswersHoldEachOnce(chain, filters, dirs, listing, sources, bound, to, out);
    SameDocs(chain, filters, dirs, listing, stored, rows, docs, sources, bound, to, out);
    DocsAreStrict(chain, filters, dirs, listing, stored, sources, q, out);
    Pagination.HitsAreStrict(q, docs);
    StrictIsOnce(q, DocsOf(out));
    StrictIsOnce(q, Pagination.Hits(q, docs));
    SameOnce(Pagination.Hits(q, docs), DocsOf(out));
    Pagination.ArrangedOnce(q, Pagination.Hits(q, docs), DocsOf(out));
  }

  lemma StrictIsOnce(q: Pagination.Query, docs: seq<Pagination.Doc>)
    requires Pagination.StrictlySorted(q, docs)
    ensures EachOnce(docs)
  {
    forall i, j | 0 <= i < j < |docs|
      ensures docs[i] != docs[j]
    {
      Pagination.KeysAreTotallyOrdered(q, docs[i], docs[j]);
    }
  }

  lemma SameDocs(chain: seq<Log>, filters: map<nat, Filter>, dirs: map<nat, Dir>, listing: map<nat, seq<string>>,
      stored: seq<nat>, rows: seq<Row>, docs: seq<Pagination.Doc>, sources: seq<nat>, bound: Position, to: nat, out: seq<Row>)
    requires OfChain(chain, rows) && HoldsSources(chain, filters, dirs, listing, stored) && SameRows(rows, dirs, stored)
    requires NoneShared(dirs, stored) && Holds(docs, rows) && forall s | s in sources :: s in stored
    requires forall r :: r in out <==>
               r.source in sources && InDir(DirOf(dirs, r.source), r) && r.log.block <= to && Less(bound, r.log.At())
    ensures forall d :: d in Pagination.Hits(Pagination.LogsAfter(sources, bound, to), docs) <==> d in DocsOf(out)
  {
    var q := Pagination.LogsAfter(sources, bound, to);
    FoundExactly(chain, rows, docs, sources, bound, to);
    forall r
      ensures r in out <==> r in rows && DocOf(r) in Pagination.Hits(q, docs)
    {
      WantedIsFound(chain, filters, dirs, listing, stored, rows, docs, sources, bound, to, r);
    }
    hide *;
    SameImage(rows, out, Pagination.Hits(q, docs));
  }

  lemma WantedIsFound(chain: seq<Log>, filters: map<nat, Filter>, dirs: map<nat, Dir>, listing: map<nat, seq<string>>,
      stored: seq<nat>, rows: seq<Row>, docs: seq<Pagination.Doc>, sources: seq<nat>, bound: Position, to: nat, r: Row)
    requires OfChain(chain, rows) && HoldsSources(chain, filters, dirs, listing, stored) && SameRows(rows, dirs, stored)
    requires NoneShared(dirs, stored) && Holds(docs, rows) && forall s | s in sources :: s in stored
    ensures r in rows && DocOf(r) in Pagination.Hits(Pagination.LogsAfter(sources, bound, to), docs) <==>
              r.source in sources && InDir(DirOf(dirs, r.source), r) && r.log.block <= to && Less(bound, r.log.At())
  {
    HeldIsWritten(dirs, stored, rows, sources, r);
    if r in rows {
      FoundExactly(chain, rows, docs, sources, bound, to);
      NothingIsOverwritten(chain, filters, dirs, listing, stored, rows, r);
      hide OfChain, HoldsSources, SameRows, InDir, NoneShared, Holds, Index;
      var s := HolderOf(chain, filters, dirs, listing, stored, rows, r);
    }
  }

  lemma HeldIsWritten(dirs: map<nat, Dir>, stored: seq<nat>, rows: seq<Row>, sources: seq<nat>, r: Row)
    requires SameRows(rows, dirs, stored) && forall s | s in sources :: s in stored
    ensures r.source in sources && InDir(DirOf(dirs, r.source), r) ==> r in rows
  {
  }

  /** Documents of rows of which the same are wanted are the same. */
  lemma SameImage(rows: seq<Row>, out: seq<Row>, hits: seq<Pagination.Doc>)
    requires forall r :: r in out <==> r in rows && DocOf(r) in hits
    requires forall d | d in hits :: exists r :: r in rows && d == DocOf(r)
    ensures forall d :: d in hits <==> d in DocsOf(out)
  {
    forall d
      ensures d in hits <==> d in DocsOf(out)
    {
      if d in DocsOf(out) {
        var i :| 0 <= i < |out| && DocsOf(out)[i] == d;
        assert out[i] in out;
      }
      if d in hits {
        var r :| r in rows && d == DocOf(r);
        var i :| 0 <= i < |out| && out[i] == r;
        assert DocsOf(out)[i] == d;
      }
    }
  }

  lemma DocsAreStrict(chain: seq<Log>, filters: map<nat, Filter>, dirs: map<nat, Dir>, listing: map<nat, seq<string>>,
      stored: seq<nat>, sources: seq<nat>, q: Pagination.Query, out: seq<Row>)
    requires IsChain(chain) && HoldsSources(chain, filters, dirs, listing, stored) && NoneShared(dirs, stored)
    requires SortedRows(out) && EachOnce(out) && q.LogsAfter? && forall s | s in sources :: s in stored
    requires forall r | r in out :: r.source in sources && InDir(DirOf(dirs, r.source), r)
    ensures Pagination.StrictlySorted(q, DocsOf(out))
  {
    forall i, j | 0 <= i < j < |out|
      ensures Pagination.Before(q, DocOf(out[i]), DocOf(out[j]))
    {
      var a, b := out[i], out[j];
      assert a in out && b in out;
      RowsAreChainLogs(chain, filters[a.source], a.source, DirOf(dirs, a.source), a);
      RowsAreChainLogs(chain, filters[b.source], b.source, DirOf(dirs, b.source), b);
      OneOrder(chain, a.log, b.log);
    }
  }

  /** A log that two sources hold is kept for the one that wrote it last: the file store gives it
      for the other too, the search engine does not, whatever is asked for. */
  lemma SharedLogIsKeptOnce(chain: seq<Log>, rows: seq<Row>, docs: seq<Pagination.Doc>, sources: seq<nat>, bound: Position, to: nat, r: Row, s: nat)
    requires OfChain(chain, rows + [Row(s, r.log)]) && Holds(docs, rows + [Row(s, r.log)]) && r in rows && s != r.source
    ensures DocOf(r) !in Pagination.Hits(Pagination.LogsAfter(sources, bound, to), docs)
  {
    var all := rows + [Row(s, r.log)];
    assert all[..|all| - 1] == rows;
    assert Index(all)[r.log.id] == Row(s, r.log);
    FoundExactly(chain, all, docs, sources, bound, to);
    assert r in all;
  }
}
