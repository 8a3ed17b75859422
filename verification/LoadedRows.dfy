/** Where indexing and exporting begin after a configuration has been loaded. */
module LoadedRows {
  import opened Positions
  import opened Chain
  import opened Rules
  import opened RuleTables
  import opened Metadata
  import opened Autoloader
  import opened StoreLaws
  import ConfigExport
  import Texts
  import P = Pipeline

  const FULL: string := "FULL"

  // ---- exporters ---------------------------------------------------------------------------

  function CursorOf(r: ExporterRow): Cursor {
    Cursor(r.sync, r.lastIndex)
  }

  /** A new exporter asks for every log of the blocks behind this one, and for none up to it. */
  ghost predicate BeginsBehind(r: ExporterRow, block: nat) {
    forall p: Position | p.index < TWO64 ::
      Less(CursorBound(Resume(CursorOf(r), r.start)), p) <==> p.block > block
  }

  predicate MadeFor(r: ExporterRow, x: ConfigExporter) {
    r.name == x.name && r.enabled == x.enabled && r.start == x.start && r.config == x.config
  }

  ghost predicate ExporterBegins(xs: seq<ConfigExporter>, r: ExporterRow) {
    exists x :: x in xs && MadeFor(r, x) && BeginsBehind(r, x.start) && (x.start < MAX_UINT64 ==> P.FreshRow(CursorOf(r)))
  }

  lemma MoreExporters(xs: seq<ConfigExporter>, more: seq<ConfigExporter>, r: ExporterRow)
    requires ExporterBegins(xs, r) && xs <= more
    ensures ExporterBegins(more, r)
  {
    var x :| x in xs && MadeFor(r, x) && BeginsBehind(r, x.start) && (x.start < MAX_UINT64 ==> P.FreshRow(CursorOf(r)));
    assert x in more;
  }

  lemma NewExporter(db: Db, instance: nat, x: ConfigExporter)
    ensures var rows, rows' := db.exporters.rows, EnsureExporter(db, instance, x).exporters.rows;
            rows' == rows || (|rows'| == |rows| + 1 && rows <= rows' && ExporterBegins([x], rows'[|rows|].1))
  {
    var rows, rows' := db.exporters.rows, EnsureExporter(db, instance, x).exporters.rows;
    if rows' != rows {
      assert x in [x] && MadeFor(rows'[|rows|].1, x) && BeginsBehind(rows'[|rows|].1, x.start);
    }
  }

  lemma {:induction false} NewExporters(db: Db, instance: nat, xs: seq<ConfigExporter>)
    ensures var rows, rows' := db.exporters.rows, LoadExporters(db, instance, xs).exporters.rows;
            rows <= rows' && forall i | |rows| <= i < |rows'| :: ExporterBegins(xs, rows'[i].1)
  {
    if xs != [] {
      var front, last := xs[..|xs| - 1], xs[|xs| - 1];
      var rows, mid := db.exporters.rows, LoadExporters(db, instance, front).exporters.rows;
      var rows' := LoadExporters(db, instance, xs).exporters.rows;
      NewExporters(db, instance, front);
      NewExporter(LoadExporters(db, instance, front), instance, last);
      forall i | |rows| <= i < |rows'|
        ensures ExporterBegins(xs, rows'[i].1)
      {
        if i < |mid| {
          MoreExporters(front, xs, rows'[i].1);
        } else {
          LastExporter(xs, rows'[i].1);
        }
      }
    }
  }

  lemma LastExporter(xs: seq<ConfigExporter>, r: ExporterRow)
    requires xs != [] && ExporterBegins([xs[|xs| - 1]], r)
    ensures ExporterBegins(xs, r)
  {
  }

  /** Every exporter that a load creates begins right behind its start block, whose own logs it does
      not ask for, with a row from which runs of the pipeline may begin. */
  lemma LoadedExportersBegin(db: Db, instance: nat, res: Resources, i: nat)
    requires |db.exporters.rows| <= i < |LoadAll(db, instance, res).exporters.rows|
    ensures db.exporters.rows <= LoadAll(db, instance, res).exporters.rows
    ensures ExporterBegins(res.exporters, LoadAll(db, instance, res).exporters.rows[i].1)
  {
    var base := LoadBase(db, instance, res);
    BasePart(db, instance, res);
    SourcesFrame(base, instance, res.sources);
    NewExporters(LoadSources(base, instance, res.sources), instance, res.exporters);
  }

  /** The base leaves sources and exporters alone. */
  lemma BasePart(db: Db, instance: nat, res: Resources)
    ensures var base := LoadBase(db, instance, res);
            base.exporters == db.exporters && base.sources == db.sources && base.rules == db.rules
  {
    LoadPipelinesFacts(
      db.(chains := LoadNamed(db.chains, res.blockchains), abis := LoadNamed(db.abis, res.abis),
          stores := LoadNamed(db.stores, res.stores)),
      instance, res.pipelines);
  }

  // ---- sources -----------------------------------------------------------------------------

  /** What a worker asks its node for, by the type of its source; a worker of another type ends. */
  function FilterOf(r: SourceRow): Option<Filter> {
    if r.kind == CONTRACT || r.kind == FACTORY then Some(ByAddress(ConfigExport.TextOf(r.address)))
    else if r.kind == TOPIC then Some(ByTopics(ConfigExport.TextOf(r.topic0), r.topicFilters))
    else if r.kind == FULL then Some(Everything)
    else None
  }

  /** What an entry of the configuration asks for. */
  function FilterFor(s: ConfigSource): Option<Filter> {
    match Texts.Upper(s.kind)
    case "CONTRACT" => Some(ByAddress(s.address))
    case "FACTORY" => Some(ByAddress(s.address))
    case "TOPIC" => Some(ByTopics(s.topic0, s.topicFilters))
    case "FULL" => Some(Everything)
    case _ => None
  }

  /** What the kinds of an entry ask for, in upper or lower case. */
  lemma AskedByKind(s: ConfigSource, l: Log)
    ensures Texts.Upper(s.kind) in {CONTRACT, FACTORY} ==>
              FilterFor(s).Some? && (Matches(FilterFor(s).value, l) <==> l.address == s.address)
    ensures Texts.Upper(s.kind) == TOPIC && s.topicFilters == [] ==>
              FilterFor(s).Some? && (Matches(FilterFor(s).value, l) <==> l.topics != [] && l.topics[0] == s.topic0)
    ensures Texts.Upper(s.kind) == FULL ==> FilterFor(s).Some? && Matches(FilterFor(s).value, l)
  {
  }

  /** The source of the pipeline that a row stands for as long as nothing has been indexed. */
  function AsSource(r: SourceRow, rules: seq<Rule>): P.Source
    requires FilterOf(r).Some?
  {
    P.Source(FilterOf(r).value, r.abi, r.kind == FACTORY, rules, r.parent, r.start,
             if r.sync < r.start then r.start else r.sync, r.sync, r.sync, map[], P.Down)
  }

  /** The first window of a source begins right behind this block: whatever head its worker sees
      first, it waits or scans from there. */
  ghost predicate ScansBehind(src: P.Source, block: nat) {
    forall env: P.Env, id: nat, head: nat, polling, next |
      P.SourceStep(env, id, src, P.WorkerStarts(id), polling) && P.SourceStep(env, id, polling, P.HeadSeen(id, head), next) ::
      if head <= block || head - block < env.blockSlice then next == polling
      else next.worker == P.Scanning(block + 1, head)
  }

  ghost predicate SourceBegins(ss: seq<ConfigSource>, r: SourceRow) {
    exists s :: s in ss && r.start == s.start && r.enabled == s.enabled && r.kind == Texts.Upper(s.kind) && FilterOf(r) == FilterFor(s)
      && forall rules | FilterOf(r).Some? ::
           var src := AsSource(r, rules);
           && ScansBehind(src, s.start) && src.origin == s.start && (s.start < MAX_UINT64 ==> P.FreshSource(src))
  }

  lemma MoreSources(ss: seq<ConfigSource>, more: seq<ConfigSource>, r: SourceRow)
    requires SourceBegins(ss, r) && forall s | s in ss :: s in more
    ensures SourceBegins(more, r)
  {
  }

  lemma ScanStart(env: P.Env, id: nat, src: P.Source, head: nat, polling: P.Source, next: P.Source)
    requires P.SourceStep(env, id, src, P.WorkerStarts(id), polling) && P.SourceStep(env, id, polling, P.HeadSeen(id, head), next)
    ensures if head <= src.Cur() || head - src.Cur() < env.blockSlice then next == polling
            else next.worker == P.Scanning(src.Cur() + 1, head)
  {
  }

  /** Any row's worker begins behind its start block or behind its cursor, whichever is later. */
  lemma WorkersBeginBehindStart(r: SourceRow, rules: seq<Rule>)
    requires FilterOf(r).Some?
    ensures ScansBehind(AsSource(r, rules), if r.sync < r.start then r.start else r.sync)
  {
    var src, block := AsSource(r, rules), if r.sync < r.start then r.start else r.sync;
    forall env: P.Env, id: nat, head: nat, polling, next |
      P.SourceStep(env, id, src, P.WorkerStarts(id), polling) && P.SourceStep(env, id, polling, P.HeadSeen(id, head), next)
      ensures if head <= block || head - block < env.blockSlice then next == polling
              else next.worker == P.Scanning(block + 1, head)
    {
      ScanStart(env, id, src, head, polling, next);
    }
    assert ScansBehind(src, block);
  }

  lemma RowBegins(refs: Refs, s: ConfigSource)
    ensures SourceBegins([s], RowOf(refs, s))
  {
    var r := RowOf(refs, s);
    assert s in [s];
    forall rules | FilterOf(r).Some?
      ensures ScansBehind(AsSource(r, rules), s.start)
    {
      WorkersBeginBehindStart(r, rules);
    }
  }

  lemma NewSource(db: Db, instance: nat, s: ConfigSource)
    ensures var rows, rows' := db.sources.rows, EnsureSource(db, instance, s).sources.rows;
            rows' == rows || (|rows'| == |rows| + 1 && rows <= rows' && SourceBegins([s], rows'[|rows|].1))
  {
    var refs := SourceRefs(db, instance, s);
    if refs.Some? {
      RowBegins(refs.value, s);
    }
  }

  lemma {:induction false} NewSources(db: Db, instance: nat, ss: seq<ConfigSource>)
    ensures var rows, rows' := db.sources.rows, LoadSources(db, instance, ss).sources.rows;
            rows <= rows' && forall i | |rows| <= i < |rows'| :: SourceBegins(ss, rows'[i].1)
  {
    if ss != [] {
      hide SourceBegins, EnsureSource;
      var front, last := ss[..|ss| - 1], ss[|ss| - 1];
      var rows, mid := db.sources.rows, LoadSources(db, instance, front).sources.rows;
      var rows' := LoadSources(db, instance, ss).sources.rows;
      NewSources(db, instance, front);
      NewSource(LoadSources(db, instance, front), instance, last);
      forall i | |rows| <= i < |rows'|
        ensures SourceBegins(ss, rows'[i].1)
      {
        MoreSources(if i < |mid| then front else [last], ss, rows'[i].1);
      }
    }
  }

  /** Every source that a load creates begins right behind its start block, with the filter of its
      entry and in a state from which runs of the pipeline may begin. */
  lemma LoadedSourcesBegin(db: Db, instance: nat, res: Resources, i: nat)
    requires |db.sources.rows| <= i < |LoadAll(db, instance, res).sources.rows|
    ensures db.sources.rows <= LoadAll(db, instance, res).sources.rows
    ensures SourceBegins(res.sources, LoadAll(db, instance, res).sources.rows[i].1)
  {
    BasePart(db, instance, res);
    LoadKeepsBase(db, instance, res);
    NewSources(LoadBase(db, instance, res), instance, res.sources);
  }

  // ---- the pipeline as loaded --------------------------------------------------------------

  predicate Runs(r: Option<SourceRow>, pipeline: nat) {
    r.Some? && r.value.pipeline == pipeline && r.value.enabled && FilterOf(r.value).Some?
  }

  /** The sources of a pipeline that run, with their rules as the tables have them. */
  function SourcesOf(db: Db, pipeline: nat): map<nat, P.Source> {
    map id | 0 <= id < db.sources.next && Runs(Get(db.sources.rows, id), pipeline) ::
      AsSource(Get(db.sources.rows, id).value, Load(db.rules, OfSource(id)))
  }

  /** A pipeline and one of its exporters before anything has run. */
  function StateOf(db: Db, pipeline: nat, r: ExporterRow): P.State {
    P.State(SourcesOf(db, pipeline), db.sources.next, 0,
            P.Exporter(CursorOf(r), CursorOf(r), CursorBound(Resume(CursorOf(r), r.start)), [], [], P.Stopped))
  }

  lemma {:induction false} GetFound<R>(rows: seq<(nat, R)>, id: nat) returns (i: nat)
    requires Get(rows, id).Some?
    ensures i < |rows| && rows[i] == (id, Get(rows, id).value)
  {
    var n := |rows| - 1;
    if rows[n].0 == id {
      i := n;
    } else {
      i := GetFound(rows[..n], id);
    }
  }

  lemma {:induction false} LoadedTableOk(db: Db, instance: nat, ss: seq<ConfigSource>)
    requires TableOk(db.sources)
    ensures TableOk(LoadSources(db, instance, ss).sources)
  {
    if ss != [] {
      LoadedTableOk(db, instance, ss[..|ss| - 1]);
    }
  }

  lemma LoadedSourceIsFresh(ss: seq<ConfigSource>, r: SourceRow, rules: seq<Rule>)
    requires SourceBegins(ss, r) && FilterOf(r).Some? && forall s | s in ss :: s.start < MAX_UINT64
    ensures P.FreshSource(AsSource(r, rules))
  {
  }

  /** What a first load of a configuration makes is where runs of the pipeline begin: so all that is
      proved about runs holds of what has been loaded. */
  lemma LoadedIsInitial(db: Db, instance: nat, res: Resources, pipeline: nat, i: nat, env: P.Env)
    requires db.sources.rows == [] && db.sources.next >= 1
    requires |db.exporters.rows| <= i < |LoadAll(db, instance, res).exporters.rows|
    requires (forall s | s in res.sources :: s.start < MAX_UINT64) && (forall x | x in res.exporters :: x.start < MAX_UINT64)
    requires env.exporterStart == LoadAll(db, instance, res).exporters.rows[i].1.start
    ensures var db' := LoadAll(db, instance, res);
            P.Initial(env, StateOf(db', pipeline, db'.exporters.rows[i].1))
  {
    var db' := LoadAll(db, instance, res);
    var st := StateOf(db', pipeline, db'.exporters.rows[i].1);
    BasePart(db, instance, res);
    LoadKeepsBase(db, instance, res);
    LoadedTableOk(LoadBase(db, instance, res), instance, res.sources);
    LoadedExportersBegin(db, instance, res, i);
    forall id | id in st.sources
      ensures 1 <= id < st.nextId && P.FreshSource(st.sources[id])
    {
      var k := GetFound(db'.sources.rows, id);
      LoadedSourcesBegin(db, instance, res, k);
      LoadedSourceIsFresh(res.sources, db'.sources.rows[k].1, Load(db'.rules, OfSource(id)));
    }
  }
}
