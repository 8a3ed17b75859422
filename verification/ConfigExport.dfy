/** Writing the tables back as a configuration, and why loading that configuration restores them. */
module ConfigExport {
  import opened Rules
  import opened RuleTables
  import opened Metadata
  import opened Autoloader
  import Texts
  import RuleStore

  // ---- what is written ---------------------------------------------------------------------

  function Values<R>(rows: seq<(nat, R)>): (r: seq<R>)
    ensures |r| == |rows| && forall i | 0 <= i < |rows| :: r[i] == rows[i].1
  {
    seq(|rows|, i requires 0 <= i < |rows| => rows[i].1)
  }

  function TextOf(t: Option<string>): string {
    if t.Some? then t.value else ""
  }

  function FromRules(rules: seq<Rule>, abis: Table<Named<string>>): seq<ConfigRule>
    decreases rules
  {
    if rules == [] then []
    else
      var r := rules[0];
      [ConfigRule(r.event, r.addressArg, NameAt(abis, r.abi), r.childType, r.conditions, FromRules(r.children, abis))]
      + FromRules(rules[1..], abis)
  }

  function ExportPipeline(db: Db, p: PipelineRow): ConfigPipeline {
    ConfigPipeline(p.name, NameAt(db.chains, p.chain), NameAt(db.stores, p.store))
  }

  function ExportPipelines(db: Db): (r: seq<ConfigPipeline>)
    ensures |r| == |db.pipelines.rows| && forall i | 0 <= i < |r| :: r[i] == ExportPipeline(db, db.pipelines.rows[i].1)
  {
    seq(|db.pipelines.rows|, i requires 0 <= i < |db.pipelines.rows| => ExportPipeline(db, db.pipelines.rows[i].1))
  }

  function ExportSource(db: Db, id: nat, s: SourceRow): ConfigSource {
    ConfigSource(
      PipelineNameAt(db.pipelines, s.pipeline), NameAt(db.chains, s.chain), NameAt(db.abis, s.abi),
      s.kind, s.enabled, s.start, TextOf(s.address), TextOf(s.topic0), s.topicFilters,
      if s.kind == FACTORY then FromRules(Load(db.rules, OfSource(id)), db.abis) else [])
  }

  /** Sources that a factory created are left out: their factory finds them again. */
  function ExportSources(db: Db, rows: seq<(nat, SourceRow)>): seq<ConfigSource> {
    if rows == [] then []
    else
      var front, last := ExportSources(db, rows[..|rows| - 1]), rows[|rows| - 1];
      if last.1.parent == 0 then front + [ExportSource(db, last.0, last.1)] else front
  }

  function ExportExporter(db: Db, x: ExporterRow): ConfigExporter {
    ConfigExporter(x.name, PipelineNameAt(db.pipelines, x.pipeline), NameAt(db.plugins, x.plugin), x.enabled, x.start, x.config)
  }

  function ExportExporters(db: Db): (r: seq<ConfigExporter>)
    ensures |r| == |db.exporters.rows| && forall i | 0 <= i < |r| :: r[i] == ExportExporter(db, db.exporters.rows[i].1)
  {
    seq(|db.exporters.rows|, i requires 0 <= i < |db.exporters.rows| => ExportExporter(db, db.exporters.rows[i].1))
  }

  datatype Config = Config(plugins: seq<Named<string>>, resources: Resources)

  function Export(db: Db): Config {
    Config(
      Values(db.plugins.rows),
      Resources(Values(db.chains.rows), Values(db.abis.rows), Values(db.stores.rows),
                ExportPipelines(db), ExportSources(db, db.sources.rows), ExportExporters(db)))
  }

  // ---- complete configurations -------------------------------------------------------------

  predicate HasName<S>(es: seq<Named<S>>, name: string) {
    exists i :: 0 <= i < |es| && es[i].name == name
  }

  predicate NamesOk<S>(es: seq<Named<S>>) {
    && (forall i | 0 <= i < |es| :: es[i].name != "")
    && (forall i, j | 0 <= i < j < |es| :: es[i].name != es[j].name)
  }

  predicate HasPipeline(ps: seq<ConfigPipeline>, name: string) {
    exists i :: 0 <= i < |ps| && ps[i].name == name
  }

  predicate PipelinesOk(res: Resources) {
    && (forall i | 0 <= i < |res.pipelines| ::
          res.pipelines[i].name != "" && HasName(res.blockchains, res.pipelines[i].blockchain)
          && HasName(res.stores, res.pipelines[i].store))
    && (forall i, j | 0 <= i < j < |res.pipelines| :: res.pipelines[i].name != res.pipelines[j].name)
  }

  predicate RulesOk(rules: seq<ConfigRule>, abis: seq<Named<string>>)
    decreases rules
  {
    rules != [] ==>
      && (rules[0].childAbi == "" || HasName(abis, rules[0].childAbi)) && rules[0].childType != ""
      && RulesOk(rules[0].children, abis) && RulesOk(rules[1..], abis)
  }

  /** Two entries of which the second would be taken for the first. */
  predicate Clash(a: ConfigSource, b: ConfigSource) {
    && a.pipeline == b.pipeline && a.kind == b.kind
    && (a.kind == CONTRACT || a.kind == FACTORY ==> a.address == b.address != "")
    && (a.kind == TOPIC ==> a.topic0 == b.topic0 != "")
  }

  predicate SourceOk(res: Resources, s: ConfigSource) {
    && HasPipeline(res.pipelines, s.pipeline) && HasName(res.blockchains, s.blockchain)
    && (s.abi == "" || HasName(res.abis, s.abi))
    && Texts.Upper(s.kind) == s.kind
    && (if s.kind == FACTORY then RulesOk(s.rules, res.abis) else s.rules == [])
  }

  predicate SourcesOk(res: Resources) {
    && (forall i | 0 <= i < |res.sources| :: SourceOk(res, res.sources[i]))
    && (forall i, j | 0 <= i < j < |res.sources| :: !Clash(res.sources[i], res.sources[j]))
  }

  predicate ExportersOk(c: Config) {
    && (forall i | 0 <= i < |c.resources.exporters| ::
          var x := c.resources.exporters[i];
          x.name != "" && HasPipeline(c.resources.pipelines, x.pipeline) && HasName(c.plugins, x.plugin))
    && (forall i, j | 0 <= i < j < |c.resources.exporters| ::
          c.resources.exporters[i].name != c.resources.exporters[j].name
          || c.resources.exporters[i].pipeline != c.resources.exporters[j].pipeline)
  }

  /** Names are unique and not empty, references resolve, types are in upper case, rules name their
      child type, and no entry would be taken for another. */
  predicate Complete(c: Config) {
    && NamesOk(c.plugins) && NamesOk(c.resources.blockchains) && NamesOk(c.resources.abis) && NamesOk(c.resources.stores)
    && PipelinesOk(c.resources) && SourcesOk(c.resources) && ExportersOk(c)
  }

  /** A database with nothing but plugins. */
  function Fresh(plugins: Table<Named<string>>): Db {
    Db(Empty(), Empty(), Empty(), plugins, Empty(), Empty(), Empty(), Tables(map[], map[], 1, 1))
  }

  // ---- named rows --------------------------------------------------------------------------

  lemma {:induction false} LoadNamedFresh<S>(es: seq<Named<S>>)
    requires NamesOk(es)
    ensures var t := LoadNamed(Empty(), es);
            TableOk(t) && Values(t.rows) == es
  {
    if es != [] {
      var n := |es| - 1;
      LoadNamedFresh(es[..n]);
      var front := LoadNamed(Empty(), es[..n]);
      FindMeans(front.rows, es[n].name);
      forall i | 0 <= i < |front.rows|
        ensures front.rows[i].1.name != es[n].name
      {
        assert Values(front.rows)[i] == es[..n][i];
      }
    }
  }

  /** A name among the rows resolves, and the id it resolves to is written as that name. */
  lemma NameResolves<S>(t: Table<Named<S>>, name: string)
    requires TableOk(t) && HasName(Values(t.rows), name) && name != ""
    ensures Resolve(t, name).Some? && Find(t.rows, name) == Resolve(t, name)
    ensures NameAt(t, Resolve(t, name).value) == name && Resolve(t, name).value != 0
  {
    FindMeans(t.rows, name);
    var i :| 0 <= i < |Values(t.rows)| && Values(t.rows)[i].name == name;
    assert t.rows[i].1.name == name;
    NameOfFound(t, name);
  }

  lemma NamesAreNotEmpty<S>(es: seq<Named<S>>, name: string)
    requires NamesOk(es) && HasName(es, name)
    ensures name != ""
  {
  }

  lemma NoNameAtZero<S>(t: Table<Named<S>>)
    requires TableOk(t)
    ensures NameAt(t, 0) == ""
  {
    GetNone(t.rows, 0);
  }

  // ---- pipelines ---------------------------------------------------------------------------

  /** The rows of a first stretch of the pipelines. */
  ghost predicate PipelinesLoaded(base: Db, instance: nat, ps: seq<ConfigPipeline>, db: Db) {
    && db == base.(pipelines := db.pipelines) && TableOk(db.pipelines) && |db.pipelines.rows| == |ps|
    && forall i | 0 <= i < |ps| ::
         db.pipelines.rows[i].1.instance == instance && ExportPipeline(db, db.pipelines.rows[i].1) == ps[i]
  }

  ghost predicate PipelineRefs(base: Db, p: ConfigPipeline) {
    var chain, store := Resolve(base.chains, p.blockchain), Resolve(base.stores, p.store);
    && p.name != "" && chain.Some? && store.Some?
    && NameAt(base.chains, chain.value) == p.blockchain && NameAt(base.stores, store.value) == p.store
  }

  lemma PipelineStepLoaded(base: Db, instance: nat, ps: seq<ConfigPipeline>, db: Db, p: ConfigPipeline)
    requires PipelinesLoaded(base, instance, ps, db) && PipelineRefs(base, p)
    requires forall i | 0 <= i < |ps| :: ps[i].name != p.name
    ensures PipelinesLoaded(base, instance, ps + [p], EnsurePipeline(db, instance, p))
  {
    FindPipelineMeans(db.pipelines.rows, p.name, instance);
    forall i | 0 <= i < |ps|
      ensures db.pipelines.rows[i].1.name != p.name
    {
      assert ExportPipeline(db, db.pipelines.rows[i].1) == ps[i];
    }
    var db' := EnsurePipeline(db, instance, p);
    forall i | 0 <= i < |ps + [p]|
      ensures db'.pipelines.rows[i].1.instance == instance && ExportPipeline(db', db'.pipelines.rows[i].1) == (ps + [p])[i]
    {
      if i < |ps| {
        assert db'.pipelines.rows[i] == db.pipelines.rows[i];
        assert ExportPipeline(db, db.pipelines.rows[i].1) == ps[i];
      }
    }
  }

  lemma {:induction false} LoadPipelinesFresh(base: Db, instance: nat, ps: seq<ConfigPipeline>)
    requires base.pipelines == Empty() && forall i | 0 <= i < |ps| :: PipelineRefs(base, ps[i])
    requires forall i, j | 0 <= i < j < |ps| :: ps[i].name != ps[j].name
    ensures PipelinesLoaded(base, instance, ps, LoadPipelines(base, instance, ps))
  {
    if ps != [] {
      var n := |ps| - 1;
      LoadPipelinesFresh(base, instance, ps[..n]);
      PipelineStepLoaded(base, instance, ps[..n], LoadPipelines(base, instance, ps[..n]), ps[n]);
      assert ps[..n] + [ps[n]] == ps;
    }
  }

  lemma PipelineResolves(base: Db, instance: nat, ps: seq<ConfigPipeline>, db: Db, name: string)
    requires PipelinesLoaded(base, instance, ps, db) && HasPipeline(ps, name) && name != ""
    ensures ResolvePipeline(db.pipelines, name, instance).Some?
    ensures PipelineNameAt(db.pipelines, ResolvePipeline(db.pipelines, name, instance).value) == name
  {
    var i :| 0 <= i < |ps| && ps[i].name == name;
    assert ExportPipeline(db, db.pipelines.rows[i].1) == ps[i];
    FindPipelineMeans(db.pipelines.rows, name, instance);
    assert db.pipelines.rows[i].1.name == name && db.pipelines.rows[i].1.instance == instance;
    NameOfFoundPipeline(db.pipelines, name, instance);
  }

  // ---- rules -------------------------------------------------------------------------------

  /** Complete rules resolve, and what they are resolved to is written as the same rules. */
  lemma {:induction false} RulesRoundTrip(rules: seq<ConfigRule>, abis: Table<Named<string>>)
    requires TableOk(abis) && NamesOk(Values(abis.rows)) && RulesOk(rules, Values(abis.rows))
    ensures AllResolve(rules, abis) && FromRules(ToRules(rules, abis), abis) == rules
    decreases rules
  {
    if rules != [] {
      var r := rules[0];
      RulesRoundTrip(r.children, abis);
      RulesRoundTrip(rules[1..], abis);
      if r.childAbi == "" {
        NoNameAtZero(abis);
      } else {
        NameResolves(abis, r.childAbi);
      }
      var made := ToRules(rules, abis);
      assert made[1..] == ToRules(rules[1..], abis);
      assert FromRules(made, abis)[0] == r;
      assert [r] + rules[1..] == rules;
    }
  }

  // ---- sources -----------------------------------------------------------------------------

  /** The base a complete configuration loads. */
  ghost predicate BaseLoaded(c: Config, instance: nat, base: Db) {
    && TableOk(base.chains) && Values(base.chains.rows) == c.resources.blockchains
    && TableOk(base.abis) && Values(base.abis.rows) == c.resources.abis
    && TableOk(base.stores) && Values(base.stores.rows) == c.resources.stores
    && TableOk(base.plugins) && Values(base.plugins.rows) == c.plugins
    && TableOk(base.pipelines) && |base.pipelines.rows| == |c.resources.pipelines|
    && (forall i | 0 <= i < |base.pipelines.rows| ::
          base.pipelines.rows[i].1.instance == instance
          && ExportPipeline(base, base.pipelines.rows[i].1) == c.resources.pipelines[i])
    && base.sources == Empty() && base.exporters == Empty() && base.rules == Tables(map[], map[], 1, 1)
  }

  lemma PipelineOfBase(c: Config, instance: nat, base: Db, name: string)
    requires Complete(c) && BaseLoaded(c, instance, base) && HasPipeline(c.resources.pipelines, name)
    ensures name != ""
    ensures ResolvePipeline(base.pipelines, name, instance).Some?
    ensures PipelineNameAt(base.pipelines, ResolvePipeline(base.pipelines, name, instance).value) == name
  {
    PipelineResolves(base, instance, c.resources.pipelines, base, name);
  }

  /** The references of a complete source resolve, and are written as the same names. */
  lemma RefsResolve(c: Config, instance: nat, base: Db, s: ConfigSource)
    requires Complete(c) && BaseLoaded(c, instance, base) && SourceOk(c.resources, s)
    ensures var refs := SourceRefs(base, instance, s);
            && refs.Some?
            && PipelineNameAt(base.pipelines, refs.value.pipeline) == s.pipeline
            && NameAt(base.chains, refs.value.chain) == s.blockchain
            && NameAt(base.abis, refs.value.abi) == s.abi
  {
    PipelineOfBase(c, instance, base, s.pipeline);
    NamesAreNotEmpty(c.resources.blockchains, s.blockchain);
    NameResolves(base.chains, s.blockchain);
    if s.abi == "" {
      NoNameAtZero(base.abis);
    } else {
      NameResolves(base.abis, s.abi);
    }
  }

  /** A source's row as it was loaded, and its rules. */
  ghost predicate SourceLoaded(base: Db, instance: nat, s: ConfigSource, db: Db, id: nat, row: SourceRow) {
    && SourceRefs(base, instance, s).Some?
    && row == RowOf(SourceRefs(base, instance, s).value, s)
    && (s.kind == FACTORY ==> FromRules(Load(db.rules, OfSource(id)), base.abis) == s.rules)
  }

  ghost predicate SourcesLoaded(base: Db, instance: nat, ss: seq<ConfigSource>, db: Db) {
    && db == base.(sources := db.sources, rules := db.rules)
    && TableOk(db.sources) && |db.sources.rows| == |ss| && Ok(db.rules)
    && (forall k | k in db.rules.rules && db.rules.rules[k].source.Some? :: db.rules.rules[k].source.value < db.sources.next)
    && (forall i | 0 <= i < |ss| :: SourceLoaded(base, instance, ss[i], db, db.sources.rows[i].0, db.sources.rows[i].1))
  }

  /** Two entries whose rows match would clash. */
  lemma NoMatch(c: Config, instance: nat, base: Db, db: Db, n: nat)
    requires Complete(c) && BaseLoaded(c, instance, base) && n < |c.resources.sources|
    requires SourcesLoaded(base, instance, c.resources.sources[..n], db)
    ensures var s := c.resources.sources[n];
            var refs := SourceRefs(db, instance, s);
            refs.Some? && refs == SourceRefs(base, instance, s) && !Matched(db.sources, refs.value.pipeline, Texts.Upper(s.kind), s)
  {
    var ss, s := c.resources.sources, c.resources.sources[n];
    RefsResolve(c, instance, base, s);
    var refs := SourceRefs(db, instance, s);
    forall i | 0 <= i < |db.sources.rows|
      ensures !SameKey(db.sources.rows[i].1, refs.value.pipeline, Texts.Upper(s.kind), s)
    {
      assert ss[..n][i] == ss[i] && SourceOk(c.resources, ss[i]);
      assert SourceLoaded(base, instance, ss[..n][i], db, db.sources.rows[i].0, db.sources.rows[i].1);
      RefsResolve(c, instance, base, ss[i]);
      assert !Clash(ss[i], s);
    }
  }

  /** The rules of a newly created source. */
  lemma RulesLoaded(db: Db, s: ConfigSource)
    requires Ok(db.rules) && TableOk(db.abis) && NamesOk(Values(db.abis.rows)) && RulesOk(s.rules, Values(db.abis.rows))
    requires forall k | k in db.rules.rules && db.rules.rules[k].source.Some? :: db.rules.rules[k].source.value < db.sources.next
    ensures var id := db.sources.next;
            var t := InsertByName(db.rules, OfSource(id), s.rules, db.abis).0;
            && Ok(t)
            && FromRules(Load(t, OfSource(id)), db.abis) == s.rules
            && (forall x | x != id :: Load(t, OfSource(x)) == Load(db.rules, OfSource(x)))
            && (forall k | k in t.rules && t.rules[k].source.Some? :: t.rules[k].source.value < id + 1)
  {
    var id := db.sources.next;
    var t := InsertByName(db.rules, OfSource(id), s.rules, db.abis).0;
    RulesRoundTrip(s.rules, db.abis);
    InsertByNameIsInsert(db.rules, OfSource(id), s.rules, db.abis);
    InsertByNameKeeps(db.rules, OfSource(id), s.rules, db.abis);
    LoadAfterInsert(db.rules, OfSource(id), ToRules(s.rules, db.abis));
    LoadNone(db.rules, OfSource(id), 0);
    assert Load(t, OfSource(id)) == ToRules(s.rules, db.abis);
    forall x | x != id
      ensures Load(t, OfSource(x)) == Load(db.rules, OfSource(x))
    {
      OtherSourcesKeepTheirRules(db.rules, id, s.rules, db.abis, OfSource(x));
    }
    NewRulesAreBelow(db.rules, t, id);
  }

  lemma NewRulesAreBelow(t: Tables, t': Tables, id: nat)
    requires Ok(t) && Ok(t') && Agree(t, t', t.nextRule) && Sealed(t', t.nextRule, OfSource(id))
    requires forall k | k in t.rules && t.rules[k].source.Some? :: t.rules[k].source.value < id
    ensures forall k | k in t'.rules && t'.rules[k].source.Some? :: t'.rules[k].source.value < id + 1
  {
    forall k | k in t'.rules && t'.rules[k].source.Some?
      ensures t'.rules[k].source.value < id + 1
    {
      if k < t.nextRule {
        assert k in t.rules && t.rules[k] == t'.rules[k];
      } else {
        assert OwnedBy(t'.rules[k], OfSource(id));
      }
    }
  }

  lemma {:induction false} LoadSourcesFresh(c: Config, instance: nat, base: Db, n: nat)
    requires Complete(c) && BaseLoaded(c, instance, base) && n <= |c.resources.sources|
    ensures SourcesLoaded(base, instance, c.resources.sources[..n], LoadSources(base, instance, c.resources.sources[..n]))
  {
    if n > 0 {
      LoadSourcesFresh(c, instance, base, n - 1);
      SourceStepLoaded(c, instance, base, LoadSources(base, instance, c.resources.sources[..n - 1]), n - 1);
      LoadSourcesStep(base, instance, c.resources.sources, n - 1);
    }
  }

  lemma LoadSourcesStep(base: Db, instance: nat, ss: seq<ConfigSource>, n: nat)
    requires n < |ss|
    ensures LoadSources(base, instance, ss[..n + 1]) == EnsureSource(LoadSources(base, instance, ss[..n]), instance, ss[n])
    ensures ss[..n + 1] == ss[..n] + [ss[n]]
  {
    assert ss[..n + 1][..n] == ss[..n];
  }

  lemma SourceStepLoaded(c: Config, instance: nat, base: Db, db: Db, n: nat)
    requires Complete(c) && BaseLoaded(c, instance, base) && n < |c.resources.sources|
    requires SourcesLoaded(base, instance, c.resources.sources[..n], db)
    ensures SourcesLoaded(base, instance, c.resources.sources[..n] + [c.resources.sources[n]],
                          EnsureSource(db, instance, c.resources.sources[n]))
  {
    var front, s := c.resources.sources[..n], c.resources.sources[n];
    var ss, db' := front + [s], EnsureSource(db, instance, s);
    NoMatch(c, instance, base, db, n);
    assert SourceOk(c.resources, s);
    if s.kind == FACTORY {
      RulesLoaded(db, s);
    }
    forall i | 0 <= i < |ss|
      ensures SourceLoaded(base, instance, ss[i], db', db'.sources.rows[i].0, db'.sources.rows[i].1)
    {
      if i < n {
        assert SourceLoaded(base, instance, front[i], db, db.sources.rows[i].0, db.sources.rows[i].1);
        assert db'.sources.rows[i] == db.sources.rows[i] && db.sources.rows[i].0 != db.sources.next;
      }
    }
  }

  lemma {:induction false} WrittenOneByOne(db: Db, rows: seq<(nat, SourceRow)>, ss: seq<ConfigSource>)
    requires |rows| == |ss|
    requires forall i | 0 <= i < |ss| :: rows[i].1.parent == 0 && ExportSource(db, rows[i].0, rows[i].1) == ss[i]
    ensures ExportSources(db, rows) == ss
  {
    if ss != [] {
      WrittenOneByOne(db, rows[..|ss| - 1], ss[..|ss| - 1]);
      assert ss == ss[..|ss| - 1] + [ss[|ss| - 1]];
    }
  }

  lemma SourcesAreWritten(c: Config, instance: nat, base: Db, db: Db)
    requires Complete(c) && BaseLoaded(c, instance, base) && SourcesLoaded(base, instance, c.resources.sources, db)
    ensures ExportSources(db, db.sources.rows) == c.resources.sources
  {
    forall i | 0 <= i < |c.resources.sources|
      ensures db.sources.rows[i].1.parent == 0
      ensures ExportSource(db, db.sources.rows[i].0, db.sources.rows[i].1) == c.resources.sources[i]
    {
      SourceIsWritten(c, instance, base, db, i);
    }
    WrittenOneByOne(db, db.sources.rows, c.resources.sources);
  }

  lemma SourceIsWritten(c: Config, instance: nat, base: Db, db: Db, i: nat)
    requires Complete(c) && BaseLoaded(c, instance, base)
    requires SourcesLoaded(base, instance, c.resources.sources, db) && i < |c.resources.sources|
    ensures ExportSource(db, db.sources.rows[i].0, db.sources.rows[i].1) == c.resources.sources[i]
    ensures db.sources.rows[i].1.parent == 0
  {
    var s := c.resources.sources[i];
    assert SourceOk(c.resources, s) && SourceLoaded(base, instance, s, db, db.sources.rows[i].0, db.sources.rows[i].1);
    RefsResolve(c, instance, base, s);
  }

  // ---- exporters ---------------------------------------------------------------------------

  ghost predicate ExportersLoaded(base: Db, db: Db, xs: seq<ConfigExporter>) {
    && db == base.(exporters := db.exporters) && |db.exporters.rows| == |xs|
    && forall i | 0 <= i < |xs| :: ExportExporter(db, db.exporters.rows[i].1) == xs[i]
  }

  /** The references of an exporter, over the base with its sources. */
  ghost predicate ExporterRefs(db: Db, instance: nat, x: ConfigExporter) {
    var pipeline, plugin := ResolvePipeline(db.pipelines, x.pipeline, instance), Resolve(db.plugins, x.plugin);
    && x.name != "" && pipeline.Some? && plugin.Some?
    && PipelineNameAt(db.pipelines, pipeline.value) == x.pipeline && NameAt(db.plugins, plugin.value) == x.plugin
  }

  lemma ExporterStepLoaded(base: Db, instance: nat, xs: seq<ConfigExporter>, db: Db, x: ConfigExporter)
    requires ExportersLoaded(base, db, xs) && ExporterRefs(base, instance, x)
    requires forall i | 0 <= i < |xs| :: xs[i].name != x.name || xs[i].pipeline != x.pipeline
    ensures ExportersLoaded(base, EnsureExporter(db, instance, x), xs + [x])
  {
    var pipeline := ResolvePipeline(db.pipelines, x.pipeline, instance).value;
    forall i | 0 <= i < |db.exporters.rows|
      ensures !(db.exporters.rows[i].1.name == x.name && db.exporters.rows[i].1.pipeline == pipeline)
    {
      assert ExportExporter(db, db.exporters.rows[i].1) == xs[i];
    }
    var db' := EnsureExporter(db, instance, x);
    forall i | 0 <= i < |xs + [x]|
      ensures ExportExporter(db', db'.exporters.rows[i].1) == (xs + [x])[i]
    {
      if i < |xs| {
        assert ExportExporter(db, db.exporters.rows[i].1) == xs[i];
      }
    }
  }

  lemma {:induction false} LoadExportersFresh(base: Db, instance: nat, xs: seq<ConfigExporter>)
    requires base.exporters == Empty() && forall i | 0 <= i < |xs| :: ExporterRefs(base, instance, xs[i])
    requires forall i, j | 0 <= i < j < |xs| :: xs[i].name != xs[j].name || xs[i].pipeline != xs[j].pipeline
    ensures ExportersLoaded(base, LoadExporters(base, instance, xs), xs)
  {
    if xs != [] {
      var n := |xs| - 1;
      LoadExportersFresh(base, instance, xs[..n]);
      ExporterStepLoaded(base, instance, xs[..n], LoadExporters(base, instance, xs[..n]), xs[n]);
      assert xs[..n] + [xs[n]] == xs;
    }
  }

  // ---- the whole ---------------------------------------------------------------------------

  lemma BaseIsLoaded(c: Config, instance: nat, plugins: Table<Named<string>>)
    requires Complete(c) && TableOk(plugins) && Values(plugins.rows) == c.plugins
    ensures BaseLoaded(c, instance, LoadBase(Fresh(plugins), instance, c.resources))
  {
    var res, db := c.resources, Fresh(plugins);
    LoadNamedFresh(res.blockchains);
    LoadNamedFresh(res.abis);
    LoadNamedFresh(res.stores);
    var named := db.(chains := LoadNamed(db.chains, res.blockchains), abis := LoadNamed(db.abis, res.abis),
                     stores := LoadNamed(db.stores, res.stores));
    forall i | 0 <= i < |res.pipelines|
      ensures PipelineRefs(named, res.pipelines[i])
    {
      NamesAreNotEmpty(res.blockchains, res.pipelines[i].blockchain);
      NamesAreNotEmpty(res.stores, res.pipelines[i].store);
      NameResolves(named.chains, res.pipelines[i].blockchain);
      NameResolves(named.stores, res.pipelines[i].store);
    }
    LoadPipelinesFresh(named, instance, res.pipelines);
  }

  lemma ExportersResolve(c: Config, instance: nat, base: Db, db: Db, i: nat)
    requires Complete(c) && BaseLoaded(c, instance, base) && i < |c.resources.exporters|
    requires db == base.(sources := db.sources, rules := db.rules)
    ensures ExporterRefs(db, instance, c.resources.exporters[i])
  {
    var x := c.resources.exporters[i];
    PipelineOfBase(c, instance, base, x.pipeline);
    NamesAreNotEmpty(c.plugins, x.plugin);
    NameResolves(base.plugins, x.plugin);
  }

  /** Loading a complete configuration into a database that holds only the plugins, and writing it
      back, gives the same configuration: resources, rule trees and their order. */
  lemma LoadThenExport(c: Config, instance: nat, plugins: Table<Named<string>>)
    requires Complete(c) && TableOk(plugins) && Values(plugins.rows) == c.plugins
    ensures Export(LoadAll(Fresh(plugins), instance, c.resources)) == c
  {
    var res := c.resources;
    var base := LoadBase(Fresh(plugins), instance, res);
    BaseIsLoaded(c, instance, plugins);
    LoadSourcesFresh(c, instance, base, |res.sources|);
    assert res.sources[..|res.sources|] == res.sources;
    var sourced := LoadSources(base, instance, res.sources);
    SourcesAreWritten(c, instance, base, sourced);
    forall i | 0 <= i < |res.exporters|
      ensures ExporterRefs(sourced, instance, res.exporters[i])
    {
      ExportersResolve(c, instance, base, sourced, i);
    }
    LoadExportersFresh(sourced, instance, res.exporters);
    var db := LoadExporters(sourced, instance, res.exporters);
    SameSourcesWritten(sourced, db, sourced.sources.rows);
    PartsAgree(c, instance, base, db);
  }

  lemma {:induction false} SameSourcesWritten(a: Db, b: Db, rows: seq<(nat, SourceRow)>)
    requires b == a.(exporters := b.exporters)
    ensures ExportSources(b, rows) == ExportSources(a, rows)
  {
    if rows != [] {
      SameSourcesWritten(a, b, rows[..|rows| - 1]);
    }
  }

  lemma PartsAgree(c: Config, instance: nat, base: Db, db: Db)
    requires BaseLoaded(c, instance, base)
    requires db == base.(sources := db.sources, rules := db.rules, exporters := db.exporters)
    requires ExportSources(db, db.sources.rows) == c.resources.sources
    requires |db.exporters.rows| == |c.resources.exporters|
    requires forall i | 0 <= i < |db.exporters.rows| :: ExportExporter(db, db.exporters.rows[i].1) == c.resources.exporters[i]
    ensures Export(db) == c
  {
    forall i | 0 <= i < |db.pipelines.rows|
      ensures ExportPipeline(db, db.pipelines.rows[i].1) == c.resources.pipelines[i]
    {
      assert ExportPipeline(base, base.pipelines.rows[i].1) == c.resources.pipelines[i];
    }
    assert ExportPipelines(db) == c.resources.pipelines;
    assert ExportExporters(db) == c.resources.exporters;
  }

  // ---- tables that export completely -------------------------------------------------------

  predicate ChildTypesNamed(rules: seq<Rule>)
    decreases rules
  {
    rules != [] ==> rules[0].childType != "" && ChildTypesNamed(rules[0].children) && ChildTypesNamed(rules[1..])
  }

  predicate PipelineExportable(db: Db, p: PipelineRow) {
    p.name != "" && NameAt(db.chains, p.chain) != "" && NameAt(db.stores, p.store) != ""
  }

  predicate SourceExportable(db: Db, id: nat, s: SourceRow) {
    && PipelineNameAt(db.pipelines, s.pipeline) != "" && NameAt(db.chains, s.chain) != ""
    && Texts.Upper(s.kind) == s.kind
    && (s.kind == FACTORY ==> ChildTypesNamed(Load(db.rules, OfSource(id))))
  }

  predicate ExporterExportable(db: Db, x: ExporterRow) {
    x.name != "" && PipelineNameAt(db.pipelines, x.pipeline) != "" && NameAt(db.plugins, x.plugin) != ""
  }

  /** Natural keys are unique and not empty, and references resolve. */
  ghost predicate Exportable(db: Db) {
    && NamesOk(Values(db.plugins.rows)) && NamesOk(Values(db.chains.rows))
    && NamesOk(Values(db.abis.rows)) && NamesOk(Values(db.stores.rows))
    && (forall i | 0 <= i < |db.pipelines.rows| :: PipelineExportable(db, db.pipelines.rows[i].1))
    && (forall i, j | 0 <= i < j < |db.pipelines.rows| :: db.pipelines.rows[i].1.name != db.pipelines.rows[j].1.name)
    && (forall i | 0 <= i < |db.sources.rows| && db.sources.rows[i].1.parent == 0 ::
          SourceExportable(db, db.sources.rows[i].0, db.sources.rows[i].1))
    && (forall i, j | 0 <= i < j < |db.sources.rows| && db.sources.rows[i].1.parent == 0 && db.sources.rows[j].1.parent == 0 ::
          !Clash(ExportSource(db, db.sources.rows[i].0, db.sources.rows[i].1),
                 ExportSource(db, db.sources.rows[j].0, db.sources.rows[j].1)))
    && (forall i | 0 <= i < |db.exporters.rows| :: ExporterExportable(db, db.exporters.rows[i].1))
    && (forall i, j | 0 <= i < j < |db.exporters.rows| ::
          db.exporters.rows[i].1.name != db.exporters.rows[j].1.name
          || PipelineNameAt(db.pipelines, db.exporters.rows[i].1.pipeline) != PipelineNameAt(db.pipelines, db.exporters.rows[j].1.pipeline))
  }

  lemma {:induction false} GetIsARow<R>(rows: seq<(nat, R)>, id: nat)
    requires Get(rows, id).Some?
    ensures exists i :: 0 <= i < |rows| && rows[i].1 == Get(rows, id).value
  {
    var n := |rows| - 1;
    if rows[n].0 == id {
      assert rows[n].1 == Get(rows, id).value;
    } else {
      GetIsARow(rows[..n], id);
      var i :| 0 <= i < n && rows[..n][i].1 == Get(rows, id).value;
      assert rows[i].1 == Get(rows, id).value;
    }
  }

  /** A name that is written is a name that is there. */
  lemma WrittenNameExists<S>(t: Table<Named<S>>, id: nat)
    requires NameAt(t, id) != ""
    ensures HasName(Values(t.rows), NameAt(t, id))
  {
    GetIsARow(t.rows, id);
    var i :| 0 <= i < |t.rows| && t.rows[i].1 == Get(t.rows, id).value;
    assert Values(t.rows)[i].name == NameAt(t, id);
  }

  lemma WrittenPipelineExists(db: Db, id: nat)
    requires PipelineNameAt(db.pipelines, id) != ""
    ensures HasPipeline(ExportPipelines(db), PipelineNameAt(db.pipelines, id))
  {
    GetIsARow(db.pipelines.rows, id);
    var i :| 0 <= i < |db.pipelines.rows| && db.pipelines.rows[i].1 == Get(db.pipelines.rows, id).value;
    assert ExportPipelines(db)[i].name == PipelineNameAt(db.pipelines, id);
  }

  lemma {:induction false} WrittenRulesOk(rules: seq<Rule>, abis: Table<Named<string>>)
    requires ChildTypesNamed(rules)
    ensures RulesOk(FromRules(rules, abis), Values(abis.rows))
    decreases rules
  {
    if rules != [] {
      WrittenRulesOk(rules[0].children, abis);
      WrittenRulesOk(rules[1..], abis);
      if NameAt(abis, rules[0].abi) != "" {
        WrittenNameExists(abis, rules[0].abi);
      }
      assert FromRules(rules, abis)[1..] == FromRules(rules[1..], abis);
    }
  }

  lemma WrittenSourceOk(db: Db, id: nat, s: SourceRow)
    requires SourceExportable(db, id, s)
    ensures SourceOk(Export(db).resources, ExportSource(db, id, s))
  {
    WrittenPipelineExists(db, s.pipeline);
    WrittenNameExists(db.chains, s.chain);
    if NameAt(db.abis, s.abi) != "" {
      WrittenNameExists(db.abis, s.abi);
    }
    if s.kind == FACTORY {
      WrittenRulesOk(Load(db.rules, OfSource(id)), db.abis);
    }
  }

  /** Which rows the written sources come from. */
  lemma {:induction false} WrittenSourcesFrom(db: Db, rows: seq<(nat, SourceRow)>) returns (from: seq<nat>)
    ensures |from| == |ExportSources(db, rows)|
    ensures forall i | 0 <= i < |from| :: from[i] < |rows| && rows[from[i]].1.parent == 0
              && ExportSources(db, rows)[i] == ExportSource(db, rows[from[i]].0, rows[from[i]].1)
    ensures forall i, j | 0 <= i < j < |from| :: from[i] < from[j]
  {
    from := [];
    if rows != [] {
      var n := |rows| - 1;
      from := WrittenSourcesFrom(db, rows[..n]);
      assert forall k | 0 <= k < n :: rows[..n][k] == rows[k];
      if rows[n].1.parent == 0 {
        from := from + [n];
      }
    }
  }

  lemma ExportIsComplete(db: Db)
    requires Exportable(db)
    ensures Complete(Export(db))
  {
    var c := Export(db);
    forall i | 0 <= i < |c.resources.pipelines|
      ensures c.resources.pipelines[i].name != "" && HasName(c.resources.blockchains, c.resources.pipelines[i].blockchain)
              && HasName(c.resources.stores, c.resources.pipelines[i].store)
    {
      var p := db.pipelines.rows[i].1;
      assert PipelineExportable(db, p);
      WrittenNameExists(db.chains, p.chain);
      WrittenNameExists(db.stores, p.store);
    }
    ExportedSourcesOk(db);
    forall i | 0 <= i < |c.resources.exporters|
      ensures c.resources.exporters[i].name != "" && HasPipeline(c.resources.pipelines, c.resources.exporters[i].pipeline)
              && HasName(c.plugins, c.resources.exporters[i].plugin)
    {
      var x := db.exporters.rows[i].1;
      assert ExporterExportable(db, x);
      WrittenPipelineExists(db, x.pipeline);
      WrittenNameExists(db.plugins, x.plugin);
    }
  }

  lemma ExportedSourcesOk(db: Db)
    requires Exportable(db)
    ensures SourcesOk(Export(db).resources)
  {
    var rows, res := db.sources.rows, Export(db).resources;
    var from := WrittenSourcesFrom(db, rows);
    forall i | 0 <= i < |res.sources|
      ensures SourceOk(res, res.sources[i])
    {
      WrittenSourceOk(db, rows[from[i]].0, rows[from[i]].1);
    }
  }

  /** The export of a database, loaded where only the plugins are, exports as itself: nothing that
      was declared is lost, whatever the ids on either side. Factory children are not part of it. */
  lemma ExportIsAFixpoint(db: Db, instance: nat, plugins: Table<Named<string>>)
    requires Exportable(db) && TableOk(plugins) && Values(plugins.rows) == Values(db.plugins.rows)
    ensures Export(LoadAll(Fresh(plugins), instance, Export(db).resources)) == Export(db)
  {
    ExportIsComplete(db);
    LoadThenExport(Export(db), instance, plugins);
  }

  // ---- the code ----------------------------------------------------------------------------

  function NameIn(names: map<nat, string>, id: nat): string {
    if id in names then names[id] else ""
  }

  lemma GetStep<R>(rows: seq<(nat, R)>, i: nat, id: nat)
    requires i < |rows|
    ensures Get(rows[..i + 1], id) == if rows[i].0 == id then Some(rows[i].1) else Get(rows[..i], id)
  {
    assert rows[..i + 1][..i] == rows[..i];
  }

  /** The map from ids to names, built in one pass over the rows. */
  method NamesOf<S>(t: Table<Named<S>>) returns (names: map<nat, string>)
    ensures forall id :: NameIn(names, id) == NameAt(t, id)
  {
    names := map[];
    for i := 0 to |t.rows|
      invariant forall id :: NameIn(names, id) == NameAt(Table(t.rows[..i], t.next), id)
    {
      ghost var before := names;
      names := names[t.rows[i].0 := t.rows[i].1.name];
      forall id
        ensures NameIn(names, id) == NameAt(Table(t.rows[..i + 1], t.next), id)
      {
        GetStep(t.rows, i, id);
        assert NameIn(names, id) == if id == t.rows[i].0 then t.rows[i].1.name else NameIn(before, id);
      }
    }
    assert t.rows[..|t.rows|] == t.rows;
  }

  method PipelineNamesOf(t: Table<PipelineRow>) returns (names: map<nat, string>)
    ensures forall id :: NameIn(names, id) == PipelineNameAt(t, id)
  {
    names := map[];
    for i := 0 to |t.rows|
      invariant forall id :: NameIn(names, id) == PipelineNameAt(Table(t.rows[..i], t.next), id)
    {
      ghost var before := names;
      names := names[t.rows[i].0 := t.rows[i].1.name];
      forall id
        ensures NameIn(names, id) == PipelineNameAt(Table(t.rows[..i + 1], t.next), id)
      {
        GetStep(t.rows, i, id);
        assert NameIn(names, id) == if id == t.rows[i].0 then t.rows[i].1.name else NameIn(before, id);
      }
    }
    assert t.rows[..|t.rows|] == t.rows;
  }

  /** Reads an owner's rules, nested ones included, with their ABIs by name. */
  method ExportRulesAt(rules: RuleStore.Store, o: Owner, abis: Table<Named<string>>, names: map<nat, string>) returns (out: seq<ConfigRule>)
    requires Ok(rules.T()) && forall id :: NameIn(names, id) == NameAt(abis, id)
    ensures out == FromRules(Load(rules.T(), o), abis)
    decreases RuleStore.Height(rules.T(), o)
  {
    var t := rules.T();
    var ids := IdsFrom(t, o, 0);
    LoadReadsIds(t, o, 0);
    out := [];
    for i := 0 to |ids|
      invariant Written(out, FromRules(RulesAt(t, ids[i..]), abis), FromRules(Load(t, o), abis))
    {
      var k := ids[i];
      ExportStep(t, o, abis, ids, i);
      var children := ExportRulesAt(rules, OfRule(k), abis, names);
      var row := rules.rules[k];
      var entry := ConfigRule(row.event, row.addressArg, NameIn(names, row.abi), row.childType, ConditionsOf(t, k), children);
      WrittenStep(out, entry, FromRules(RulesAt(t, ids[i + 1..]), abis), FromRules(Load(t, o), abis));
      out := out + [entry];
    }
  }

  ghost predicate Written(out: seq<ConfigRule>, rest: seq<ConfigRule>, all: seq<ConfigRule>) {
    out + rest == all
  }

  lemma WrittenStep(out: seq<ConfigRule>, entry: ConfigRule, rest: seq<ConfigRule>, all: seq<ConfigRule>)
    requires Written(out, [entry] + rest, all)
    ensures Written(out + [entry], rest, all)
  {
  }

  lemma ExportStep(t: Tables, o: Owner, abis: Table<Named<string>>, ids: seq<nat>, i: nat)
    requires Ok(t) && ids == IdsFrom(t, o, 0) && i < |ids|
    ensures ids[i] in t.rules && RuleStore.Height(t, OfRule(ids[i])) < RuleStore.Height(t, o)
    ensures var row := t.rules[ids[i]];
            var first := ConfigRule(row.event, row.addressArg, NameAt(abis, row.abi), row.childType, ConditionsOf(t, ids[i]),
                                    FromRules(Load(t, OfRule(ids[i])), abis));
            FromRules(RulesAt(t, ids[i..]), abis) == [first] + FromRules(RulesAt(t, ids[i + 1..]), abis)
  {
    RuleStore.RulesAtStep(t, o, ids, i);
    var rest := RulesAt(t, ids[i + 1..]);
    assert ([RuleAt(t, ids[i])] + rest)[1..] == rest;
  }

  /** Goes over every table and writes what it finds, references by name. */
  method BuildExportedConfig(db: Database) returns (c: Config)
    requires Ok(db.rules.T())
    ensures c == Export(db.D())
  {
    var chainNames := NamesOf(db.chains);
    var storeNames := NamesOf(db.stores);
    var abiNames := NamesOf(db.abis);
    var pipelineNames := PipelineNamesOf(db.pipelines);
    var pluginNames := NamesOf(db.plugins);
    var pipelines := WritePipelines(db, chainNames, storeNames);
    var sources := WriteSources(db, chainNames, abiNames, pipelineNames);
    var exporters := WriteExporters(db, pipelineNames, pluginNames);
    c := Config(Values(db.plugins.rows),
                Resources(Values(db.chains.rows), Values(db.abis.rows), Values(db.stores.rows), pipelines, sources, exporters));
  }

  method WritePipelines(db: Database, chainNames: map<nat, string>, storeNames: map<nat, string>) returns (pipelines: seq<ConfigPipeline>)
    requires forall id :: NameIn(chainNames, id) == NameAt(db.chains, id)
    requires forall id :: NameIn(storeNames, id) == NameAt(db.stores, id)
    ensures pipelines == ExportPipelines(db.D())
  {
    pipelines := [];
    for i := 0 to |db.pipelines.rows|
      invariant |pipelines| == i
      invariant forall k | 0 <= k < i :: pipelines[k] == ExportPipeline(db.D(), db.pipelines.rows[k].1)
    {
      var p := db.pipelines.rows[i].1;
      pipelines := pipelines + [ConfigPipeline(p.name, NameIn(chainNames, p.chain), NameIn(storeNames, p.store))];
    }
  }

  method WriteExporters(db: Database, pipelineNames: map<nat, string>, pluginNames: map<nat, string>) returns (exporters: seq<ConfigExporter>)
    requires forall id :: NameIn(pipelineNames, id) == PipelineNameAt(db.pipelines, id)
    requires forall id :: NameIn(pluginNames, id) == NameAt(db.plugins, id)
    ensures exporters == ExportExporters(db.D())
  {
    exporters := [];
    for i := 0 to |db.exporters.rows|
      invariant |exporters| == i
      invariant forall k | 0 <= k < i :: exporters[k] == ExportExporter(db.D(), db.exporters.rows[k].1)
    {
      var x := db.exporters.rows[i].1;
      exporters := exporters
        + [ConfigExporter(x.name, NameIn(pipelineNames, x.pipeline), NameIn(pluginNames, x.plugin), x.enabled, x.start, x.config)];
    }
  }

  lemma ExportSourcesStep(db: Db, rows: seq<(nat, SourceRow)>, n: nat)
    requires n < |rows|
    ensures ExportSources(db, rows[..n + 1])
         == ExportSources(db, rows[..n]) + if rows[n].1.parent == 0 then [ExportSource(db, rows[n].0, rows[n].1)] else []
  {
    assert rows[..n + 1][..n] == rows[..n];
  }

  method WriteSources(db: Database, chainNames: map<nat, string>, abiNames: map<nat, string>, pipelineNames: map<nat, string>)
    returns (sources: seq<ConfigSource>)
    requires Ok(db.rules.T())
    requires forall id :: NameIn(chainNames, id) == NameAt(db.chains, id)
    requires forall id :: NameIn(abiNames, id) == NameAt(db.abis, id)
    requires forall id :: NameIn(pipelineNames, id) == PipelineNameAt(db.pipelines, id)
    ensures sources == ExportSources(db.D(), db.sources.rows)
  {
    var d := db.D();
    sources := [];
    for i := 0 to |db.sources.rows|
      invariant sources == ExportSources(d, db.sources.rows[..i])
    {
      ExportSourcesStep(d, db.sources.rows, i);
      var s := db.sources.rows[i].1;
      if s.parent == 0 {
        var rules: seq<ConfigRule> := [];
        if s.kind == FACTORY {
          rules := ExportRulesAt(db.rules, OfSource(db.sources.rows[i].0), db.abis, abiNames);
        }
        sources := sources
          + [ConfigSource(NameIn(pipelineNames, s.pipeline), NameIn(chainNames, s.chain), NameIn(abiNames, s.abi), s.kind,
                          s.enabled, s.start, TextOf(s.address), TextOf(s.topic0), s.topicFilters, rules)];
      }
    }
    assert db.sources.rows[..|db.sources.rows|] == db.sources.rows;
  }
}
