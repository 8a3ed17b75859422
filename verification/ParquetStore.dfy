/** The file store: one directory a source, one file a batch, named after the batch's blocks. */
module ParquetStore {
  import opened Positions
  import opened Chain
  import opened Numerals

  /** A stored log carries the source it was fetched for. */
  datatype Row = Row(source: nat, log: Log)

  /** File name to rows; a directory also holds the temporary files of interrupted writes. */
  type Dir = map<string, seq<Row>>

  datatype Result<T> = Ok(value: T) | Err

  const EXT: string := ".parquet"

  function FileName(lo: nat, hi: nat): string {
    PadLeft(Digits(lo, 10), 20) + "-" + PadLeft(Digits(hi, 10), 20) + EXT
  }

  predicate IsDataFile(name: string) {
    |name| >= |EXT| && name[|name| - |EXT|..] == EXT
  }

  // ---- names ---------------------------------------------------------------------------

  lemma Width20(n: nat)
    requires n < TWO64
    ensures |PadLeft(Digits(n, 10), 20)| == 20 && Value(PadLeft(Digits(n, 10), 20), 10) == n
  {
    assert TWO64 < Power(10, 20) by {
      assert Power(10, 4) == 10000;
      assert Power(10, 8) == 10000_0000;
      assert Power(10, 12) == 10000_0000_0000;
      assert Power(10, 16) == 10000_0000_0000_0000;
      assert Power(10, 20) == 10000_0000_0000_0000_0000;
    }
    DigitsFit(n, 10, 20);
    ValueOfDigits(n, 10);
    ValueOfPadded(Digits(n, 10), 20, 10);
  }

  /** Over the whole uint64 range a file name stands for one pair of bounds. */
  lemma FileNameInjective(lo: nat, hi: nat, lo': nat, hi': nat)
    requires lo < TWO64 && hi < TWO64 && lo' < TWO64 && hi' < TWO64
    ensures FileName(lo, hi) == FileName(lo', hi') <==> lo == lo' && hi == hi'
  {
    Width20(lo);
    Width20(hi);
    Width20(lo');
    Width20(hi');
    NameParts(PadLeft(Digits(lo, 10), 20), PadLeft(Digits(hi, 10), 20), PadLeft(Digits(lo', 10), 20), PadLeft(Digits(hi', 10), 20));
  }

  lemma NameParts(x: string, y: string, x': string, y': string)
    requires |x| == |y| == |x'| == |y'| == 20
    ensures x + "-" + y + EXT == x' + "-" + y' + EXT <==> x == x' && y == y'
  {
    var a, b := x + "-" + y + EXT, x' + "-" + y' + EXT;
    assert a[..20] == x && a[21..41] == y;
    assert b[..20] == x' && b[21..41] == y';
  }

  lemma FileKinds(lo: nat, hi: nat)
    ensures IsDataFile(FileName(lo, hi)) && !IsDataFile(FileName(lo, hi) + ".tmp")
  {
    var a := PadLeft(Digits(lo, 10), 20) + "-" + PadLeft(Digits(hi, 10), 20);
    var t := a + EXT + ".tmp";
    assert (a + EXT)[|a|..] == EXT;
    assert t[|t| - |EXT|..][0] == 'q' != EXT[0];
  }

  // ---- writing -----------------------------------------------------------------------------

  function MinBlock(rows: seq<Row>): nat
    requires rows != []
  {
    if |rows| == 1 then rows[0].log.block
    else
      var m, b := MinBlock(rows[..|rows| - 1]), rows[|rows| - 1].log.block;
      if b < m then b else m
  }

  function MaxBlock(rows: seq<Row>): nat
    requires rows != []
  {
    if |rows| == 1 then rows[0].log.block
    else
      var m, b := MaxBlock(rows[..|rows| - 1]), rows[|rows| - 1].log.block;
      if b > m then b else m
  }

  /** The rows of one source, in the order given. */
  function GroupOf(rows: seq<Row>, source: nat): seq<Row> {
    if rows == [] then []
    else
      var front, last := GroupOf(rows[..|rows| - 1], source), rows[|rows| - 1];
      if last.source == source then front + [last] else front
  }

  function SourcesOf(rows: seq<Row>): set<nat> {
    set r | r in rows :: r.source
  }

  function WriteBatch(dir: Dir, rows: seq<Row>): Dir
    requires rows != []
  {
    dir[FileName(MinBlock(rows), MaxBlock(rows)) := rows]
  }

  function DirOf(dirs: map<nat, Dir>, source: nat): Dir {
    if source in dirs then dirs[source] else map[]
  }

  /** What becomes of a write: done; stopped while writing the temporary file, which is then
      removed; or stopped at the rename, which leaves it. */
  datatype Fate = Renamed | NotWritten | NotRenamed

  function FateOf(fates: map<nat, Fate>, source: nat): Fate {
    if source in fates then fates[source] else Renamed
  }

  /** A directory once a write has returned. */
  function AfterWrite(dir: Dir, lo: nat, hi: nat, rows: seq<Row>, fate: Fate): Dir {
    var tmp := FileName(lo, hi) + ".tmp";
    match fate
    case Renamed => (dir - {tmp})[FileName(lo, hi) := rows]
    case NotWritten => dir - {tmp}
    case NotRenamed => dir[tmp := rows]
  }

  class Store {
    var dirs: map<nat, Dir>

    constructor ()
      ensures dirs == map[]
    {
      dirs := map[];
    }

    /** A temporary file first, then the rename that makes it visible. */
    method WriteBatchFile(source: nat, lo: nat, hi: nat, rows: seq<Row>, fate: Fate) returns (ok: bool)
      modifies this
      ensures ok == fate.Renamed?
      ensures dirs == old(dirs)[source := AfterWrite(DirOf(old(dirs), source), lo, hi, rows, fate)]
    {
      var final := FileName(lo, hi);
      var tmp := final + ".tmp";
      var dir := DirOf(dirs, source);
      if fate.NotWritten? {
        dirs := dirs[source := dir - {tmp}];
        return false;
      }
      dirs := dirs[source := dir[tmp := rows]];
      if fate.NotRenamed? {
        return false;
      }
      dirs := dirs[source := (dirs[source] - {tmp})[final := rows]];
      assert dir[tmp := rows] - {tmp} == dir - {tmp};
      return true;
    }

    static method GroupBySource(rows: seq<Row>) returns (bySource: map<nat, seq<Row>>)
      ensures Grouped(rows, bySource)
    {
      bySource := map[];
      for i := 0 to |rows|
        invariant Grouped(rows[..i], bySource)
      {
        GroupedStep(rows, i, bySource);
        var r := rows[i];
        bySource := bySource[r.source := (if r.source in bySource then bySource[r.source] else []) + [r]];
      }
      assert rows[..|rows|] == rows;
    }

    /** Groups a batch by source and writes one file a source, in no particular order; the
        first file that cannot be written ends the call, and the files not yet reached are left
        out. */
    method InsertLogs(rows: seq<Row>, fates: map<nat, Fate>) returns (ok: bool)
      modifies this
      ensures ok <==> forall s | s in SourcesOf(rows) :: FateOf(fates, s).Renamed?
      ensures forall s | s !in SourcesOf(rows) :: DirOf(dirs, s) == DirOf(old(dirs), s)
      ensures forall s | s in SourcesOf(rows) ::
                || Put(DirOf(old(dirs), s), DirOf(dirs, s), GroupOf(rows, s), FateOf(fates, s))
                || (!ok && DirOf(dirs, s) == DirOf(old(dirs), s))
      ensures !ok ==> exists s :: s in SourcesOf(rows) && !FateOf(fates, s).Renamed?
                                 && Put(DirOf(old(dirs), s), DirOf(dirs, s), GroupOf(rows, s), FateOf(fates, s))
    {
      var bySource := GroupBySource(rows);
      var todo := bySource.Keys;
      while todo != {}
        invariant todo <= bySource.Keys && forall s | s in bySource && s !in todo :: FateOf(fates, s).Renamed?
        invariant Inserting(old(dirs), dirs, bySource, todo, fates)
        decreases |todo|
      {
        var source :| source in todo;
        var batch := bySource[source];
        var lo, hi := BlockRangeOf(batch);
        InsertingStep(old(dirs), dirs, bySource, todo, source, fates);
        var done := WriteBatchFile(source, lo, hi, batch, FateOf(fates, source));
        if !done {
          return false;
        }
        todo := todo - {source};
      }
      assert bySource.Keys - todo == bySource.Keys;
      return true;
    }

    method DeleteSourceData(source: nat)
      modifies this
      ensures dirs == old(dirs) - {source}
    {
      dirs := dirs - {source};
    }

    /** Reads every data file of a source in listing order, dropping rows whose id was seen. */
    method ReadSourceLogs(source: nat, files: seq<string>, unreadable: set<string>) returns (r: Result<seq<Row>>)
      ensures r.Ok? <==> forall f | f in files :: f !in unreadable
      ensures r.Ok? ==> r.value == Dedup(Concat(DirOf(dirs, source), files))
    {
      var dir := DirOf(dirs, source);
      var out: seq<Row> := [];
      var seen: set<string> := {};
      for i := 0 to |files|
        invariant ReadSoFar(Concat(dir, files[..i]), out, seen)
        invariant forall f | f in files[..i] :: f !in unreadable
      {
        if files[i] in unreadable {
          return Err;
        }
        var rows := RowsOf(dir, files[i]);
        ghost var before := Concat(dir, files[..i]);
        ConcatStep(dir, files, i);
        for j := 0 to |rows|
          invariant ReadSoFar(before + rows[..j], out, seen)
        {
          DedupStep(before, rows, j, out, seen);
          var id := rows[j].log.id;
          if id !in seen {
            seen := seen + {id};
            out := out + [rows[j]];
          }
        }
        assert rows[..|rows|] == rows;
      }
      assert files[..|files|] == files;
      return Ok(out);
    }

    /** The logs of several sources strictly after a bound, up to a block, in position order. */
    method GetLogsAfter(sources: seq<nat>, listing: map<nat, seq<string>>, unreadable: set<string>,
        bound: Position, to: nat)
      returns (r: Result<seq<Row>>)
      ensures r.Ok? <==> forall s, f | s in sources && f in ListingOf(listing, s) :: f !in unreadable
      ensures r.Ok? ==> Answers(dirs, listing, sources, bound, to, r.value)
    {
      var out: seq<Row> := [];
      for i := 0 to |sources|
        invariant out == Wanted(dirs, listing, sources[..i], bound, to)
        invariant forall s, f | s in sources[..i] && f in ListingOf(listing, s) :: f !in unreadable
      {
        var read := ReadSourceLogs(sources[i], ListingOf(listing, sources[i]), unreadable);
        if read.Err? {
          return Err;
        }
        WantedStep(dirs, listing, sources, i, bound, to);
        out := AppendWanted(out, read.value, bound, to);
      }
      assert sources[..|sources|] == sources;
      SortKeeps(out);
      return Ok(Sort(out));
    }

    /** Appends the rows of one source that lie in the range. */
    static method AppendWanted(before: seq<Row>, rows: seq<Row>, bound: Position, to: nat) returns (out: seq<Row>)
      ensures out == before + Select(rows, bound, to)
    {
      out := before;
      for j := 0 to |rows|
        invariant out == before + Select(rows[..j], bound, to)
      {
        SelectStep(rows, j, bound, to);
        if rows[j].log.block <= to && Less(bound, rows[j].log.At()) {
          out := out + [rows[j]];
        }
      }
      assert rows[..|rows|] == rows;
    }
  }

  predicate Put(before: Dir, after: Dir, batch: seq<Row>, fate: Fate) {
    batch != [] && after == AfterWrite(before, MinBlock(batch), MaxBlock(batch), batch, fate)
  }

  /** Readers see a batch as one more file once its write is done, and until then nothing of it. */
  lemma PutIsAtomic(before: Dir, after: Dir, batch: seq<Row>, fate: Fate)
    requires Put(before, after, batch, fate)
    ensures Visible(after) == if fate.Renamed? then Visible(WriteBatch(before, batch)) else Visible(before)
  {
    TmpIsInvisible(before, MinBlock(batch), MaxBlock(batch), batch);
  }

  ghost predicate Inserting(before: map<nat, Dir>, now: map<nat, Dir>, bySource: map<nat, seq<Row>>, todo: set<nat>, fates: map<nat, Fate>) {
    && (forall s | s !in bySource || s in todo :: DirOf(now, s) == DirOf(before, s))
    && (forall s | s in bySource && s !in todo :: Put(DirOf(before, s), DirOf(now, s), bySource[s], FateOf(fates, s)))
  }

  lemma InsertingStep(before: map<nat, Dir>, now: map<nat, Dir>, bySource: map<nat, seq<Row>>, todo: set<nat>, s: nat, fates: map<nat, Fate>)
    requires Inserting(before, now, bySource, todo, fates) && s in todo && s in bySource
    requires bySource[s] != []
    ensures var batch := bySource[s];
            Inserting(before,
                      now[s := AfterWrite(DirOf(now, s), MinBlock(batch), MaxBlock(batch), batch, FateOf(fates, s))],
                      bySource, todo - {s}, fates)
  {
    var batch := bySource[s];
    var put := AfterWrite(DirOf(now, s), MinBlock(batch), MaxBlock(batch), batch, FateOf(fates, s));
    assert DirOf(now, s) == DirOf(before, s) && Put(DirOf(before, s), put, batch, FateOf(fates, s));
    forall x
      ensures DirOf(now[s := put], x) == if x == s then put else DirOf(now, x)
    {
    }
  }

  ghost predicate Grouped(rows: seq<Row>, bySource: map<nat, seq<Row>>) {
    && bySource.Keys == SourcesOf(rows)
    && (forall s | s in bySource :: bySource[s] == GroupOf(rows, s) && bySource[s] != [])
    && (forall s | s !in bySource :: GroupOf(rows, s) == [])
  }

  lemma GroupedStep(rows: seq<Row>, i: nat, bySource: map<nat, seq<Row>>)
    requires i < |rows| && Grouped(rows[..i], bySource)
    ensures var r := rows[i];
            Grouped(rows[..i + 1], bySource[r.source := (if r.source in bySource then bySource[r.source] else []) + [r]])
  {
    assert rows[..i + 1][..i] == rows[..i] && rows[..i + 1][i] == rows[i];
    assert rows[..i + 1] == rows[..i] + [rows[i]];
    assert SourcesOf(rows[..i + 1]) == SourcesOf(rows[..i]) + {rows[i].source};
  }

  method BlockRangeOf(rows: seq<Row>) returns (lo: nat, hi: nat)
    requires rows != []
    ensures lo == MinBlock(rows) && hi == MaxBlock(rows)
  {
    lo, hi := 0, 0;
    for i := 0 to |rows|
      invariant i == 0 ==> hi == 0
      invariant i > 0 ==> lo == MinBlock(rows[..i]) && hi == MaxBlock(rows[..i])
    {
      assert rows[..i + 1][..i] == rows[..i] && rows[..i + 1][i] == rows[i];
      if i == 0 || rows[i].log.block < lo {
        lo := rows[i].log.block;
      }
      if rows[i].log.block > hi {
        hi := rows[i].log.block;
      }
    }
    assert rows[..|rows|] == rows;
  }

  /** What readers list: the data files. */
  function Visible(dir: Dir): Dir {
    map f | f in dir && IsDataFile(f) :: dir[f]
  }

  lemma TmpIsInvisible(dir: Dir, lo: nat, hi: nat, rows: seq<Row>)
    ensures var f, t := FileName(lo, hi), FileName(lo, hi) + ".tmp";
            && Visible(dir - {t}) == Visible(dir)
            && Visible((dir - {t})[f := rows]) == Visible(dir[f := rows])
            && Visible(dir[t := rows]) == Visible(dir)
  {
    var f, t := FileName(lo, hi), FileName(lo, hi) + ".tmp";
    FileKinds(lo, hi);
    Hidden(dir, t, rows);
    assert f != t;
    assert (dir - {t})[f := rows] == dir[f := rows] - {t};
    Hidden(dir[f := rows], t, rows);
  }

  lemma Hidden(dir: Dir, name: string, rows: seq<Row>)
    requires !IsDataFile(name)
    ensures Visible(dir - {name}) == Visible(dir) && Visible(dir[name := rows]) == Visible(dir)
  {
  }

  // ---- reading -----------------------------------------------------------------------------

  ghost predicate IsListing(dir: Dir, files: seq<string>) {
    && (forall f :: f in files <==> f in dir && IsDataFile(f))
    && (forall i, j | 0 <= i < j < |files| :: files[i] != files[j])
  }

  function RowsOf(dir: Dir, file: string): seq<Row> {
    if file in dir then dir[file] else []
  }

  function Concat(dir: Dir, files: seq<string>): seq<Row> {
    if files == [] then [] else Concat(dir, files[..|files| - 1]) + RowsOf(dir, files[|files| - 1])
  }

  lemma ConcatStep(dir: Dir, files: seq<string>, i: nat)
    requires i < |files|
    ensures Concat(dir, files[..i + 1]) == Concat(dir, files[..i]) + RowsOf(dir, files[i])
    ensures Concat(dir, files[..i]) + RowsOf(dir, files[i])[..0] == Concat(dir, files[..i])
  {
    assert files[..i + 1][..i] == files[..i] && files[..i + 1][i] == files[i];
  }

  function Ids(rows: seq<Row>): set<string> {
    set r | r in rows :: r.log.id
  }

  /** First occurrences by id. */
  function Dedup(rows: seq<Row>): seq<Row> {
    if rows == [] then []
    else
      var front, last := Dedup(rows[..|rows| - 1]), rows[|rows| - 1];
      if last.log.id in Ids(front) then front else front + [last]
  }

  ghost predicate ReadSoFar(rows: seq<Row>, out: seq<Row>, seen: set<string>) {
    seen == Ids(out) && out == Dedup(rows)
  }

  lemma DedupStep(before: seq<Row>, rows: seq<Row>, j: nat, out: seq<Row>, seen: set<string>)
    requires j < |rows| && ReadSoFar(before + rows[..j], out, seen)
    ensures var id := rows[j].log.id;
            if id in seen then ReadSoFar(before + rows[..j + 1], out, seen)
            else ReadSoFar(before + rows[..j + 1], out + [rows[j]], seen + {id})
  {
    var all := before + rows[..j + 1];
    assert all[..|all| - 1] == before + rows[..j] && all[|all| - 1] == rows[j];
    IdsStep(Dedup(before + rows[..j]), rows[j]);
  }

  lemma IdsStep(rows: seq<Row>, r: Row)
    ensures Ids(rows + [r]) == Ids(rows) + {r.log.id}
  {
    assert forall x :: x in rows + [r] <==> x in rows || x == r;
  }

  function Select(rows: seq<Row>, bound: Position, to: nat): seq<Row> {
    if rows == [] then []
    else
      var front, last := Select(rows[..|rows| - 1], bound, to), rows[|rows| - 1];
      if last.log.block <= to && Less(bound, last.log.At()) then front + [last] else front
  }

  lemma SelectStep(rows: seq<Row>, j: nat, bound: Position, to: nat)
    requires j < |rows|
    ensures Select(rows[..j + 1], bound, to)
         == Select(rows[..j], bound, to)
            + (if rows[j].log.block <= to && Less(bound, rows[j].log.At()) then [rows[j]] else [])
  {
    assert rows[..j + 1][..j] == rows[..j] && rows[..j + 1][j] == rows[j];
  }

  function ListingOf(listing: map<nat, seq<string>>, source: nat): seq<string> {
    if source in listing then listing[source] else []
  }

  function SourceRows(dirs: map<nat, Dir>, listing: map<nat, seq<string>>, source: nat): seq<Row> {
    Dedup(Concat(DirOf(dirs, source), ListingOf(listing, source)))
  }

  function Wanted(dirs: map<nat, Dir>, listing: map<nat, seq<string>>, sources: seq<nat>, bound: Position, to: nat): seq<Row> {
    if sources == [] then []
    else
      Wanted(dirs, listing, sources[..|sources| - 1], bound, to)
      + Select(SourceRows(dirs, listing, sources[|sources| - 1]), bound, to)
  }

  lemma WantedStep(dirs: map<nat, Dir>, listing: map<nat, seq<string>>, sources: seq<nat>, i: nat, bound: Position, to: nat)
    requires i < |sources|
    ensures Wanted(dirs, listing, sources[..i + 1], bound, to)
         == Wanted(dirs, listing, sources[..i], bound, to) + Select(SourceRows(dirs, listing, sources[i]), bound, to)
  {
    assert sources[..i + 1][..i] == sources[..i] && sources[..i + 1][i] == sources[i];
  }

  // ---- sorting -----------------------------------------------------------------------------

  ghost predicate SortedRows(rows: seq<Row>) {
    forall i, j | 0 <= i < j < |rows| :: AtMost(rows[i].log.At(), rows[j].log.At())
  }

  /** A sorted arrangement of what the sources hold behind a bound up to a block. */
  ghost predicate Answers(dirs: map<nat, Dir>, listing: map<nat, seq<string>>, sources: seq<nat>, bound: Position, to: nat, logs: seq<Row>) {
    SortedRows(logs) && multiset(logs) == multiset(Wanted(dirs, listing, sources, bound, to))
  }

  function InsertSorted(rows: seq<Row>, r: Row): seq<Row> {
    if rows == [] || !Less(r.log.At(), rows[|rows| - 1].log.At()) then rows + [r]
    else InsertSorted(rows[..|rows| - 1], r) + [rows[|rows| - 1]]
  }

  /** Some sorted arrangement, as a library sort yields one. */
  function Sort(rows: seq<Row>): seq<Row> {
    if rows == [] then [] else InsertSorted(Sort(rows[..|rows| - 1]), rows[|rows| - 1])
  }

  lemma {:induction false} InsertSortedMembers(rows: seq<Row>, r: Row)
    ensures multiset(InsertSorted(rows, r)) == multiset(rows) + multiset{r}
  {
    if rows != [] && Less(r.log.At(), rows[|rows| - 1].log.At()) {
      InsertSortedMembers(rows[..|rows| - 1], r);
      assert rows == rows[..|rows| - 1] + [rows[|rows| - 1]];
    }
  }

  lemma {:induction false} InsertSortedKeeps(rows: seq<Row>, r: Row)
    requires SortedRows(rows)
    ensures SortedRows(InsertSorted(rows, r))
  {
    if rows != [] && Less(r.log.At(), rows[|rows| - 1].log.At()) {
      var front, last := rows[..|rows| - 1], rows[|rows| - 1];
      InsertSortedKeeps(front, r);
      InsertSortedMembers(front, r);
      var s := InsertSorted(front, r);
      forall i | 0 <= i < |s|
        ensures AtMost(s[i].log.At(), last.log.At())
      {
        assert s[i] in multiset(s);
        assert s[i] in multiset(front) || s[i] == r;
      }
    }
  }

  lemma {:induction false} SortKeeps(rows: seq<Row>)
    ensures SortedRows(Sort(rows)) && multiset(Sort(rows)) == multiset(rows)
  {
    if rows != [] {
      hide AtMost;
      SortKeeps(rows[..|rows| - 1]);
      InsertSortedKeeps(Sort(rows[..|rows| - 1]), rows[|rows| - 1]);
      InsertSortedMembers(Sort(rows[..|rows| - 1]), rows[|rows| - 1]);
      assert rows == rows[..|rows| - 1] + [rows[|rows| - 1]];
    }
  }
}
