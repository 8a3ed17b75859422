/** What every step keeps of the exporter: nothing behind its cursor is undelivered, and it has
    delivered at most one position ahead of it. */
module DeliveryInvariant {
  import opened Positions
  import opened Chain
  import opened ParquetStore
  import opened StoreLaws
  import opened Sequences
  import opened Pipeline
  import opened PipelineInvariant

  /** Everything owed after the start bound and up to p has been delivered. */
  ghost predicate Covered(env: Env, st: State, p: Position) {
    forall r | IsOwed(env, st.sources, r) && Less(StartBound(env, st.exp), r.log.At()) && AtMost(r.log.At(), p) ::
      DeliveredAt(st.exp, r.log.At())
  }

  /** p has not overtaken any source, unless it is where the exporter began. */
  ghost predicate Behind(env: Env, st: State, p: Position) {
    AtMost(p, StartBound(env, st.exp)) || forall id | id in st.sources :: p.block <= st.sources[id].sync
  }

  /** How a cursor's bound may lag behind the furthest bound written: only while a restart below
      the start block replays that block. */
  predicate Lags(env: Env, p: Position, high: Position) {
    p == high
    || (AtMost(p, high) && env.exporterStart > 0 && high.block <= env.exporterStart && high.index <= MAX_UINT64)
  }

  ghost predicate CursorOk(env: Env, st: State, c: Cursor) {
    && IsCursor(c) && c.completed < MAX_UINT64
    && Covered(env, st, CursorBound(c)) && Behind(env, st, CursorBound(c))
    && AtMost(StartBound(env, st.exp), CursorBound(c)) && Lags(env, CursorBound(c), st.exp.high)
  }

  /** Wanted by the current round: owed, after its bound and up to its last block. */
  ghost predicate InRange(env: Env, st: State, r: Row, mem: Cursor, to: nat) {
    IsOwed(env, st.sources, r) && AfterBound(r, mem, to)
  }

  ghost predicate RangeOk(env: Env, st: State, mem: Cursor, to: nat) {
    && CursorOk(env, st, mem) && mem.completed < to < MAX_UINT64
    && forall id | id in st.sources :: to <= st.sources[id].sync
  }

  ghost predicate PullOk(env: Env, st: State, mem: Cursor, to: nat, ids: seq<nat>, read: nat, got: seq<Row>) {
    && RangeOk(env, st, mem, to) && read <= |ids|
    && (forall id | id in st.sources :: id in ids || to <= st.sources[id].origin)
    && EachOnce(ids) && (forall id | id in ids :: id in st.sources)
    && EachOnce(got) && (forall r | r in got :: InRange(env, st, r, mem, to) && r.source in ids[..read])
    && (forall r | InRange(env, st, r, mem, to) && r.source in ids[..read] :: r in got)
  }

  ghost predicate PendingOk(env: Env, st: State, mem: Cursor, to: nat, pending: seq<Row>) {
    && RangeOk(env, st, mem, to) && SortedRows(pending) && EachOnce(pending)
    && (forall r | r in pending ::
          && IsOwed(env, st.sources, r) && Less(StartBound(env, st.exp), r.log.At())
          && AtMost(CursorBound(mem), r.log.At()) && r.log.block <= to)
    && (forall r | InRange(env, st, r, mem, to) :: exists q :: q in pending && q.log.At() == r.log.At())
  }

  ghost predicate PhaseOk(env: Env, st: State) {
    match st.exp.phase
    case Stopped => true
    case Idle(mem) => CursorOk(env, st, mem)
    case Pulling(mem, to, ids, read, got) => PullOk(env, st, mem, to, ids, read, got)
    case Delivering(mem, to, pending) => PendingOk(env, st, mem, to, pending)
    case Handed(mem, to, pending) =>
      PendingOk(env, st, mem, to, pending) && pending != [] && pending[0] in st.exp.delivered
  }

  /** A row given to the plugin was owed, lies behind the start bound and in blocks every source
      has passed, and lies at or behind the furthest bound or directly after it. */
  ghost predicate GivenOk(env: Env, st: State, d: Row) {
    && IsOwed(env, st.sources, d) && Less(StartBound(env, st.exp), d.log.At())
    && (forall id | id in st.sources :: d.log.block <= st.sources[id].sync)
    && (AtMost(d.log.At(), st.exp.high)
        || forall r | IsOwed(env, st.sources, r) && Less(st.exp.high, r.log.At()) :: AtMost(d.log.At(), r.log.At()))
  }

  /** The row either is as created or has been written by this exporter. */
  ghost predicate RowOk(env: Env, st: State) {
    var e := st.exp;
    (e.row == e.first && e.high == StartBound(env, e)) || CursorOk(env, st, e.row)
  }

  ghost predicate ExporterOk(env: Env, st: State) {
    && IsCursor(st.exp.first) && st.exp.first.completed < MAX_UINT64
    && RowOk(env, st) && PhaseOk(env, st)
    && forall d | WasGiven(st.exp, d) :: GivenOk(env, st, d)
  }

  // ---- steps of workers --------------------------------------------------------------------

  /** A row that becomes owed lies above every block that all old sources had passed. */
  lemma NewlyOwed(env: Env, before: map<nat, Source>, after: map<nat, Source>, r: Row) returns (f: nat)
    requires Grows(before, after) && IsOwed(env, after, r) && !IsOwed(env, before, r)
    ensures f in before && before[f].sync < r.log.block
  {
    f :| f in before && before[f].sync <= after[r.source].origin;
  }

  lemma StillOwed(env: Env, before: map<nat, Source>, after: map<nat, Source>, r: Row)
    requires Grows(before, after) && IsOwed(env, before, r)
    ensures IsOwed(env, after, r)
  {
    assert before[r.source].SameAs(after[r.source]);
  }

  /** A block that every old source has passed, every new one starts at or above. */
  lemma StaysPassed(before: map<nat, Source>, after: map<nat, Source>, b: nat)
    requires Grows(before, after) && forall id | id in before :: b <= before[id].sync
    ensures forall id | id in after :: b <= after[id].sync
    ensures forall id | id in after && id !in before :: b <= after[id].origin
  {
    forall id | id in after && id !in before
      ensures b <= after[id].origin && b <= after[id].sync
    {
      var f :| f in before && before[f].sync <= after[id].origin;
    }
  }

  lemma CursorStays(env: Env, st: State, st': State, c: Cursor)
    requires Grows(st.sources, st'.sources) && st'.exp.first == st.exp.first && st'.exp.high == st.exp.high
    requires forall d | d in st.exp.delivered :: d in st'.exp.delivered
    requires CursorOk(env, st, c)
    ensures CursorOk(env, st', c)
  {
    var p := CursorBound(c);
    if !AtMost(p, StartBound(env, st.exp)) {
      StaysPassed(st.sources, st'.sources, p.block);
    }
    forall r | IsOwed(env, st'.sources, r) && Less(StartBound(env, st'.exp), r.log.At()) && AtMost(r.log.At(), p)
      ensures DeliveredAt(st'.exp, r.log.At())
    {
      if !IsOwed(env, st.sources, r) {
        var f := NewlyOwed(env, st.sources, st'.sources, r);
      }
      assert DeliveredAt(st.exp, r.log.At());
      var d :| d in st.exp.delivered && d.log.At() == r.log.At();
    }
  }

  /** Nothing new falls into the range of a round under way. */
  lemma RangeStays(env: Env, st: State, st': State, mem: Cursor, to: nat)
    requires Grows(st.sources, st'.sources) && st'.exp == st.exp && RangeOk(env, st, mem, to)
    ensures RangeOk(env, st', mem, to)
    ensures forall r | InRange(env, st', r, mem, to) :: InRange(env, st, r, mem, to)
  {
    CursorStays(env, st, st', mem);
    StaysPassed(st.sources, st'.sources, to);
    forall r | InRange(env, st', r, mem, to)
      ensures IsOwed(env, st.sources, r)
    {
      if !IsOwed(env, st.sources, r) {
        var f := NewlyOwed(env, st.sources, st'.sources, r);
      }
    }
  }

  lemma PullStays(env: Env, st: State, st': State, mem: Cursor, to: nat, ids: seq<nat>, read: nat, got: seq<Row>)
    requires Grows(st.sources, st'.sources) && st'.exp == st.exp && PullOk(env, st, mem, to, ids, read, got)
    ensures PullOk(env, st', mem, to, ids, read, got)
  {
    RangeStays(env, st, st', mem, to);
    StaysPassed(st.sources, st'.sources, to);
    forall r | r in got
      ensures InRange(env, st', r, mem, to)
    {
      StillOwed(env, st.sources, st'.sources, r);
    }
  }

  lemma PendingStays(env: Env, st: State, st': State, mem: Cursor, to: nat, pending: seq<Row>)
    requires Grows(st.sources, st'.sources) && st'.exp == st.exp && PendingOk(env, st, mem, to, pending)
    ensures PendingOk(env, st', mem, to, pending)
  {
    RangeStays(env, st, st', mem, to);
    forall r | r in pending
      ensures IsOwed(env, st'.sources, r)
    {
      StillOwed(env, st.sources, st'.sources, r);
    }
  }

  lemma GivenStays(env: Env, st: State, st': State, d: Row)
    requires Grows(st.sources, st'.sources) && st'.exp.high == st.exp.high && st'.exp.first == st.exp.first
    requires GivenOk(env, st, d)
    ensures GivenOk(env, st', d)
  {
    StillOwed(env, st.sources, st'.sources, d);
    StaysPassed(st.sources, st'.sources, d.log.block);
    if !AtMost(d.log.At(), st.exp.high) {
      forall r | IsOwed(env, st'.sources, r) && Less(st'.exp.high, r.log.At())
        ensures AtMost(d.log.At(), r.log.At())
      {
        if !IsOwed(env, st.sources, r) {
          var f := NewlyOwed(env, st.sources, st'.sources, r);
        }
      }
    }
  }

  /** Whatever the workers do, the exporter's claims stay true. */
  lemma GrowthKeeps(env: Env, st: State, st': State)
    requires Grows(st.sources, st'.sources) && ExporterOk(env, st)
    requires st'.exp == st.exp || st'.exp == st.exp.(phase := Stopped)
    ensures ExporterOk(env, st')
  {
    if CursorOk(env, st, st.exp.row) {
      CursorStays(env, st, st', st.exp.row);
    }
    forall d | WasGiven(st'.exp, d)
      ensures GivenOk(env, st', d)
    {
      GivenStays(env, st, st', d);
    }
    if st'.exp == st.exp {
      match st.exp.phase
      case Stopped =>
      case Idle(mem) => CursorStays(env, st, st', mem);
      case Pulling(mem, to, ids, read, got) => PullStays(env, st, st', mem, to, ids, read, got);
      case Delivering(mem, to, pending) => PendingStays(env, st, st', mem, to, pending);
      case Handed(mem, to, pending) => PendingStays(env, st, st', mem, to, pending);
    }
  }

  // ---- steps of the exporter ---------------------------------------------------------------

  lemma StartKeeps(env: Env, st: State, e': Exporter)
    requires env.Ok() && ExporterOk(env, st) && ExporterStep(env, st, ExporterStarts, e')
    ensures ExporterOk(env, st.(exp := e'))
  {
    var st' := st.(exp := e');
    var mem := Resume(st.exp.row, env.exporterStart);
    SameDeliveries(env, st, st');
    if mem == st.exp.row && CursorOk(env, st, mem) {
    } else {
      assert AtMost(CursorBound(mem), StartBound(env, st.exp));
      ClampedStart(env, st, mem);
    }
  }

  /** Starting at or below the start bound owes nothing yet. */
  lemma ClampedStart(env: Env, st: State, mem: Cursor)
    requires env.Ok() && IsCursor(st.exp.first) && st.exp.first.completed < MAX_UINT64
    requires RowOk(env, st) && mem == Resume(st.exp.row, env.exporterStart)
    requires mem != st.exp.row || !CursorOk(env, st, mem)
    ensures CursorOk(env, st, mem)
  {
    ClampIsStartBound(env, st, mem);
    assert forall p | Less(StartBound(env, st.exp), p) :: !AtMost(p, CursorBound(mem));
  }

  lemma ClampIsStartBound(env: Env, st: State, mem: Cursor)
    requires env.Ok() && IsCursor(st.exp.first) && st.exp.first.completed < MAX_UINT64
    requires RowOk(env, st) && mem == Resume(st.exp.row, env.exporterStart)
    requires mem != st.exp.row || !CursorOk(env, st, mem)
    ensures IsCursor(mem) && mem.completed < MAX_UINT64
    ensures CursorBound(mem) == StartBound(env, st.exp) && Lags(env, CursorBound(mem), st.exp.high)
  {
    hide Covered, Behind;
    var e := st.exp;
    if e.row == e.first && e.high == StartBound(env, e) {
    } else {
      assert CursorOk(env, st, e.row) && e.row.completed < env.exporterStart;
    }
  }

  lemma SameDeliveries(env: Env, st: State, st': State)
    requires st'.sources == st.sources && st'.exp == st.exp.(phase := st'.exp.phase)
    ensures RowOk(env, st) ==> RowOk(env, st')
    ensures forall d | GivenOk(env, st, d) :: GivenOk(env, st', d)
    ensures forall c | CursorOk(env, st, c) :: CursorOk(env, st', c)
  {
  }

  lemma PlanKeeps(env: Env, st: State, head: nat, ids: seq<nat>, e': Exporter)
    requires env.Ok() && EachOk(env, st.headSeen, st.sources) && ExporterOk(env, st)
    requires ExporterStep(env, st, RangePlanned(head, ids), e')
    ensures ExporterOk(env, st.(exp := e'))
  {
    var st' := st.(exp := e');
    SameDeliveries(env, st, st');
    var id :| id in st.sources && st.sources[id].sync == head;
    assert SourceOk(env, st.headSeen, id, st.sources[id]);
  }

  /** What one source's directory answers is what that source owes in the range. */
  lemma ReadIsOwed(env: Env, st: State, id: nat, mem: Cursor, to: nat, r: Row)
    requires env.Ok() && id in st.sources && SourceOk(env, st.headSeen, id, st.sources[id])
    requires to <= st.sources[id].sync
    ensures InDir(st.sources[id].dir, r) && AfterBound(r, mem, to) <==> InRange(env, st, r, mem, to) && r.source == id
  {
    var s := st.sources[id];
    if InDir(s.dir, r) {
      RowsAreChainLogs(env.chain, s.filter, id, s.dir, r);
    }
    if InRange(env, st, r, mem, to) && r.source == id {
      assert r == Row(id, r.log);
    }
  }

  /** One source more has been read, which none of the rows read so far came from. */
  lemma PulledMore(env: Env, st: State, mem: Cursor, to: nat, ids: seq<nat>, read: nat, got: seq<Row>, rows: seq<Row>)
    requires PullOk(env, st, mem, to, ids, read, got) && read < |ids| && EachOnce(rows)
    requires forall r :: r in rows <==> InRange(env, st, r, mem, to) && r.source == ids[read]
    ensures PullOk(env, st, mem, to, ids, read + 1, got + rows)
  {
    hide InRange, RangeOk;
    var id := ids[read];
    assert ids[..read + 1] == ids[..read] + [id] && id !in ids[..read];
    EachOnceConcat(got, rows);
  }

  lemma ReadKeeps(env: Env, st: State, rows: seq<Row>, e': Exporter)
    requires env.Ok() && EachOk(env, st.headSeen, st.sources) && ExporterOk(env, st)
    requires ExporterStep(env, st, SourceRead(rows), e')
    ensures ExporterOk(env, st.(exp := e'))
  {
    var st' := st.(exp := e');
    var p := st.exp.phase;
    SameDeliveries(env, st, st');
    var id := p.ids[p.read];
    assert SourceOk(env, st.headSeen, id, st.sources[id]);
    forall r
      ensures r in rows <==> InRange(env, st, r, p.mem, p.to) && r.source == id
    {
      ReadIsOwed(env, st, id, p.mem, p.to, r);
    }
    PulledMore(env, st, p.mem, p.to, p.ids, p.read, p.got, rows);
    SamePull(env, st, st', p.mem, p.to, p.ids, p.read + 1, p.got + rows);
  }

  lemma SamePull(env: Env, st: State, st': State, mem: Cursor, to: nat, ids: seq<nat>, read: nat, got: seq<Row>)
    requires st'.sources == st.sources && PullOk(env, st, mem, to, ids, read, got) && CursorOk(env, st', mem)
    ensures PullOk(env, st', mem, to, ids, read, got)
  {
    hide CursorOk;
    assert forall r | InRange(env, st', r, mem, to) :: InRange(env, st, r, mem, to);
    assert forall r | InRange(env, st, r, mem, to) :: InRange(env, st', r, mem, to);
  }

  /** When all sources have been read, all that is wanted has been. */
  lemma AllRead(env: Env, st: State, mem: Cursor, to: nat, ids: seq<nat>, got: seq<Row>, r: Row)
    requires PullOk(env, st, mem, to, ids, |ids|, got) && InRange(env, st, r, mem, to)
    ensures r in got
  {
    hide CursorOk;
    assert ids[..|ids|] == ids;
  }

  lemma WantedFacts(env: Env, st: State, mem: Cursor, to: nat, r: Row)
    requires CursorOk(env, st, mem) && InRange(env, st, r, mem, to)
    ensures IsOwed(env, st.sources, r) && Less(StartBound(env, st.exp), r.log.At())
    ensures AtMost(CursorBound(mem), r.log.At()) && r.log.block <= to
  {
  }

  lemma SameRows(a: seq<Row>, b: seq<Row>)
    requires multiset(a) == multiset(b)
    ensures forall r :: r in a <==> r in b
  {
    forall r
      ensures r in a <==> r in b
    {
      assert r in a <==> r in multiset(a);
      assert r in b <==> r in multiset(b);
    }
  }

  /** What has been read of all sources, sorted, is what is to be delivered. */
  lemma SortedIsPending(env: Env, st: State, mem: Cursor, to: nat, ids: seq<nat>, got: seq<Row>, rows: seq<Row>)
    requires PullOk(env, st, mem, to, ids, |ids|, got) && SortedRows(rows) && multiset(rows) == multiset(got)
    ensures PendingOk(env, st, mem, to, rows)
  {
    RearrangedOnce(got, rows);
    SameRows(got, rows);
    hide CursorOk, SortedRows, InRange;
    forall r | r in rows
      ensures IsOwed(env, st.sources, r) && Less(StartBound(env, st.exp), r.log.At())
      ensures AtMost(CursorBound(mem), r.log.At()) && r.log.block <= to
    {
      WantedFacts(env, st, mem, to, r);
    }
    forall r | InRange(env, st, r, mem, to)
      ensures exists q :: q in rows && q.log.At() == r.log.At()
    {
      AllRead(env, st, mem, to, ids, got, r);
      assert r in rows;
    }
  }

  lemma SortKeepsOk(env: Env, st: State, rows: seq<Row>, e': Exporter)
    requires env.Ok() && ExporterOk(env, st) && ExporterStep(env, st, RowsSorted(rows), e')
    ensures ExporterOk(env, st.(exp := e'))
  {
    var st' := st.(exp := e');
    var p := st.exp.phase;
    SortedIsPending(env, st, p.mem, p.to, p.ids, p.got, rows);
    SameDeliveries(env, st, st');
    PendingMoved(env, st, st', p.mem, p.to, rows);
  }

  lemma FirstPending(env: Env, st: State, mem: Cursor, to: nat, pending: seq<Row>)
    requires PendingOk(env, st, mem, to, pending) && pending != []
    ensures forall r | InRange(env, st, r, mem, to) :: AtMost(pending[0].log.At(), r.log.At())
  {
    forall r | InRange(env, st, r, mem, to)
      ensures AtMost(pending[0].log.At(), r.log.At())
    {
      var q :| q in pending && q.log.At() == r.log.At();
      var i :| 0 <= i < |pending| && pending[i] == q;
    }
  }

  /** The first pending row is the next position after the furthest bound, or lies behind it. */
  lemma FirstPendingOk(env: Env, st: State, mem: Cursor, to: nat, pending: seq<Row>)
    requires PendingOk(env, st, mem, to, pending) && pending != []
    ensures GivenOk(env, st, pending[0])
  {
    var d := pending[0];
    assert d in pending;
    FirstPending(env, st, mem, to, pending);
    forall r | IsOwed(env, st.sources, r) && Less(st.exp.high, r.log.At()) && !AtMost(d.log.At(), st.exp.high)
      ensures AtMost(d.log.At(), r.log.At())
    {
      if r.log.block <= to {
        BehindHigh(env, st, mem, r.log.At());
        assert InRange(env, st, r, mem, to);
      }
    }
  }

  lemma HandKeeps(env: Env, st: State, e': Exporter)
    requires env.Ok() && ExporterOk(env, st) && ExporterStep(env, st, LogHanded, e')
    ensures ExporterOk(env, st.(exp := e'))
  {
    var st' := st.(exp := e');
    var p := st.exp.phase;
    FirstPendingOk(env, st, p.mem, p.to, p.pending);
    MoreDelivered(env, st, st');
    PendingMoved(env, st, st', p.mem, p.to, p.pending);
  }

  lemma RefuseKeeps(env: Env, st: State, e': Exporter)
    requires env.Ok() && ExporterOk(env, st) && ExporterStep(env, st, LogRefused, e')
    ensures ExporterOk(env, st.(exp := e'))
  {
    var st' := st.(exp := e');
    var p := st.exp.phase;
    FirstPendingOk(env, st, p.mem, p.to, p.pending);
    MoreDelivered(env, st, st');
  }

  lemma PendingMoved(env: Env, st: State, st': State, mem: Cursor, to: nat, pending: seq<Row>)
    requires PendingOk(env, st, mem, to, pending) && st'.sources == st.sources && st'.exp.first == st.exp.first
    requires CursorOk(env, st', mem)
    ensures PendingOk(env, st', mem, to, pending)
  {
    forall r | InRange(env, st', r, mem, to)
      ensures exists q :: q in pending && q.log.At() == r.log.At()
    {
      assert InRange(env, st, r, mem, to);
    }
  }

  lemma BehindHigh(env: Env, st: State, c: Cursor, p: Position)
    requires CursorOk(env, st, c) && Less(st.exp.high, p)
    ensures Less(CursorBound(c), p)
  {
  }

  lemma MoreDelivered(env: Env, st: State, st': State)
    requires st'.sources == st.sources
    requires st'.exp.first == st.exp.first && st'.exp.row == st.exp.row && st'.exp.high == st.exp.high
    requires forall d | d in st.exp.delivered :: d in st'.exp.delivered
    ensures RowOk(env, st) ==> RowOk(env, st')
    ensures forall d | GivenOk(env, st, d) :: GivenOk(env, st', d)
    ensures forall c | CursorOk(env, st, c) :: CursorOk(env, st', c)
  {
    forall c | CursorOk(env, st, c)
      ensures CursorOk(env, st', c)
    {
      GrowsSelf(st.sources);
      CursorStays(env, st, st', c);
    }
  }

  lemma GrowsSelf(sources: map<nat, Source>)
    ensures Grows(sources, sources)
  {
  }

  /** Moving the cursor to c, having delivered all that lies between. */
  lemma CursorAdvances(env: Env, st: State, st': State, mem: Cursor, to: nat, c: Cursor)
    requires env.Ok() && RangeOk(env, st, mem, to) && IsCursor(c) && c.completed < MAX_UINT64
    requires st'.sources == st.sources && st'.exp.first == st.exp.first && st'.exp.delivered == st.exp.delivered
    requires st'.exp.high == Later(st.exp.high, CursorBound(c))
    requires AtMost(CursorBound(mem), CursorBound(c)) && CursorBound(c).block <= to
    requires forall r | InRange(env, st, r, mem, to) && AtMost(r.log.At(), CursorBound(c)) :: DeliveredAt(st.exp, r.log.At())
    ensures CursorOk(env, st', c)
  {
    forall r | IsOwed(env, st'.sources, r) && Less(StartBound(env, st'.exp), r.log.At()) && AtMost(r.log.At(), CursorBound(c))
      ensures DeliveredAt(st'.exp, r.log.At())
    {
      if !AtMost(r.log.At(), CursorBound(mem)) {
        assert InRange(env, st, r, mem, to);
      }
      assert DeliveredAt(st.exp, r.log.At());
      var d :| d in st.exp.delivered && d.log.At() == r.log.At();
      assert d in st'.exp.delivered;
    }
  }

  lemma HigherKeepsGiven(env: Env, st: State, st': State, d: Row)
    requires GivenOk(env, st, d) && st'.sources == st.sources && AtMost(st.exp.high, st'.exp.high)
    requires st'.exp.first == st.exp.first
    ensures GivenOk(env, st', d)
  {
    if !AtMost(d.log.At(), st'.exp.high) {
      forall r | IsOwed(env, st'.sources, r) && Less(st'.exp.high, r.log.At())
        ensures AtMost(d.log.At(), r.log.At())
      {
        assert Less(st.exp.high, r.log.At());
      }
    }
  }

  lemma PersistKeeps(env: Env, st: State, e': Exporter)
    requires env.Ok() && ExporterOk(env, st) && ExporterStep(env, st, CursorPersisted, e')
    ensures ExporterOk(env, st.(exp := e'))
  {
    var st' := st.(exp := e');
    var p := st.exp.phase;
    var c := CursorAfterLog(p.pending[0].log.At());
    PersistedCursorOk(env, st, st', p.mem, p.to, p.pending);
    forall d | WasGiven(e', d)
      ensures GivenOk(env, st', d)
    {
      HigherKeepsGiven(env, st, st', d);
    }
    RestPending(env, st, st', p.mem, c, p.to, p.pending);
  }

  /** The cursor written behind the first pending log, once the plugin has taken it. */
  lemma PersistedCursorOk(env: Env, st: State, st': State, mem: Cursor, to: nat, pending: seq<Row>)
    requires env.Ok() && PendingOk(env, st, mem, to, pending) && pending != [] && pending[0] in st.exp.delivered
    requires st'.sources == st.sources && st'.exp.first == st.exp.first && st'.exp.delivered == st.exp.delivered
    requires st'.exp.high == Later(st.exp.high, CursorBound(CursorAfterLog(pending[0].log.At())))
    ensures var c := CursorAfterLog(pending[0].log.At());
            && CursorOk(env, st', c) && CursorBound(c) == pending[0].log.At() && c.completed < to
  {
    var at := pending[0].log.At();
    assert pending[0] in pending && IsOwed(env, st.sources, pending[0]);
    assert at.index < TWO63 && at.block >= 1;
    BoundUndoesDelivery(at);
    FirstPending(env, st, mem, to, pending);
    assert DeliveredAt(st.exp, at);
    CursorAdvances(env, st, st', mem, to, CursorAfterLog(at));
  }

  lemma RestPending(env: Env, st: State, st': State, mem: Cursor, c: Cursor, to: nat, pending: seq<Row>)
    requires PendingOk(env, st, mem, to, pending) && pending != [] && st'.sources == st.sources && st'.exp.first == st.exp.first
    requires CursorOk(env, st', c) && CursorBound(c) == pending[0].log.At() && c.completed < to
    requires AtMost(CursorBound(mem), CursorBound(c))
    ensures PendingOk(env, st', c, to, pending[1..])
  {
    forall r | r in pending[1..]
      ensures r in pending && AtMost(CursorBound(c), r.log.At())
    {
      var i :| 0 <= i < |pending[1..]| && pending[1..][i] == r;
      assert pending[i + 1] == r;
    }
    forall r | InRange(env, st', r, c, to)
      ensures exists q :: q in pending[1..] && q.log.At() == r.log.At()
    {
      assert InRange(env, st, r, mem, to);
      var q :| q in pending && q.log.At() == r.log.At();
      assert q in pending[1..];
    }
  }

  lemma FinishKeeps(env: Env, st: State, e': Exporter)
    requires env.Ok() && ExporterOk(env, st) && ExporterStep(env, st, RangeFinished, e')
    ensures ExporterOk(env, st.(exp := e'))
  {
    var st' := st.(exp := e');
    var p := st.exp.phase;
    CursorAdvances(env, st, st', p.mem, p.to, CursorAfterRange(p.to));
    forall d | WasGiven(e', d)
      ensures GivenOk(env, st', d)
    {
      HigherKeepsGiven(env, st, st', d);
    }
  }

  lemma FailKeeps(env: Env, st: State, e': Exporter)
    requires ExporterOk(env, st) && ExporterStep(env, st, ExporterFails, e')
    ensures ExporterOk(env, st.(exp := e'))
  {
    SameDeliveries(env, st, st.(exp := e'));
  }

  // ---- all steps ---------------------------------------------------------------------------

  ghost predicate Invariant(env: Env, st: State) {
    env.Ok() && SourcesOk(env, st) && ExporterOk(env, st)
  }

  lemma OnlySources(env: Env, st: State)
    requires SourcesOk(env, st)
    ensures EachOk(env, st.headSeen, st.sources)
  {
  }

  lemma ExporterStepKeeps(env: Env, st: State, a: Action, e': Exporter)
    requires Invariant(env, st) && ExporterStep(env, st, a, e')
    ensures ExporterOk(env, st.(exp := e'))
  {
    hide ExporterOk, SourcesOk;
    OnlySources(env, st);
    match a
    case ExporterStarts => StartKeeps(env, st, e');
    case RangePlanned(head, ids) => PlanKeeps(env, st, head, ids, e');
    case SourceRead(rows) => ReadKeeps(env, st, rows, e');
    case RowsSorted(rows) => SortKeepsOk(env, st, rows, e');
    case LogHanded => HandKeeps(env, st, e');
    case LogRefused => RefuseKeeps(env, st, e');
    case CursorPersisted => PersistKeeps(env, st, e');
    case RangeFinished => FinishKeeps(env, st, e');
    case ExporterFails => FailKeeps(env, st, e');
    case _ =>
  }

  lemma StepKeeps(env: Env, st: State, a: Action, st': State)
    requires Invariant(env, st) && Step(env, st, a, st')
    ensures Invariant(env, st')
  {
    if IsSourceStep(a) {
      WorkerStepKeeps(env, st, a, st');
      GrowthKeeps(env, st, st');
    } else if a.PairHandled? {
      PairStepKeeps(env, st, a.id, a.copied, st');
      GrowthKeeps(env, st, st');
    } else if a.ProcessDies? {
      RestartKeeps(env, st);
      GrowthKeeps(env, st, st');
    } else {
      ExporterStepKeeps(env, st, a, st'.exp);
    }
  }

  lemma InitialHolds(env: Env, st: State)
    requires env.Ok() && Initial(env, st)
    ensures Invariant(env, st)
  {
    forall id | id in st.sources
      ensures SourceOk(env, st.headSeen, id, st.sources[id])
      ensures Found(env, st.sources, id) && FoundInWindow(env, st.sources, id)
      ensures ChildStartsFirst(env, st.sources, id)
    {
    }
  }

  lemma {:induction false} InvariantHolds(env: Env, states: seq<State>, actions: seq<Action>)
    requires env.Ok() && IsRun(env, states, actions)
    ensures Invariant(env, states[|states| - 1])
  {
    if actions == [] {
      InitialHolds(env, states[0]);
    } else {
      var n := |actions| - 1;
      RunSplits(env, states, actions);
      InvariantHolds(env, states[..n + 1], actions[..n]);
      StepKeeps(env, states[n], actions[n], states[n + 1]);
    }
  }
}
