/** What any load leaves behind exports completely; so loading and exporting is the identity on
    exactly the complete configurations, and puts every other into a form that it then keeps. */
module ConfigNormalForm {
  import opened Rules
  import opened RuleTables
  import opened Metadata
  import opened Autoloader
  import opened ConfigExport
  import Texts

  // ---- named rows --------------------------------------------------------------------------

  lemma {:induction false} LoadedNames<S>(es: seq<Named<S>>)
    ensures var t := LoadNamed(Empty(), es);
            TableOk(t) && NamesOk(Values(t.rows))
  {
    if es != [] {
      var front, last := LoadNamed(Empty(), es[..|es| - 1]), es[|es| - 1];
      LoadedNames(es[..|es| - 1]);
      FindMeans(front.rows, last.name);
      var t := LoadNamed(Empty(), es);
      forall i, j | 0 <= i < j < |t.rows|
        ensures t.rows[i].1.name != t.rows[j].1.name
      {
        if j < |front.rows| {
          assert Values(front.rows)[i].name != Values(front.rows)[j].name;
        }
      }
      forall i | 0 <= i < |t.rows|
        ensures t.rows[i].1.name != ""
      {
        if i < |front.rows| {
          assert Values(front.rows)[i].name != "";
        }
      }
    }
  }

  lemma ResolvedNameIsNotEmpty<S>(t: Table<Named<S>>, name: string)
    requires TableOk(t) && Resolve(t, name).Some?
    ensures NameAt(t, Resolve(t, name).value) != ""
  {
    NameOfFound(t, name);
  }

  // ---- pipelines ---------------------------------------------------------------------------

  ghost predicate PipelineRowsOk(db: Db, instance: nat) {
    && TableOk(db.chains) && TableOk(db.stores) && TableOk(db.pipelines)
    && (forall i | 0 <= i < |db.pipelines.rows| ::
          db.pipelines.rows[i].1.instance == instance && PipelineExportable(db, db.pipelines.rows[i].1))
    && (forall i, j | 0 <= i < j < |db.pipelines.rows| :: db.pipelines.rows[i].1.name != db.pipelines.rows[j].1.name)
  }

  lemma {:induction false} LoadedPipelines(base: Db, instance: nat, ps: seq<ConfigPipeline>)
    requires PipelineRowsOk(base, instance)
    ensures PipelineRowsOk(LoadPipelines(base, instance, ps), instance)
  {
    if ps != [] {
      LoadedPipelines(base, instance, ps[..|ps| - 1]);
      OnePipelineLoaded(LoadPipelines(base, instance, ps[..|ps| - 1]), instance, ps[|ps| - 1]);
    }
  }

  lemma OnePipelineLoaded(db: Db, instance: nat, p: ConfigPipeline)
    requires PipelineRowsOk(db, instance)
    ensures PipelineRowsOk(EnsurePipeline(db, instance, p), instance)
  {
    var db' := EnsurePipeline(db, instance, p);
    if db' != db {
      ResolvedNameIsNotEmpty(db.chains, p.blockchain);
      ResolvedNameIsNotEmpty(db.stores, p.store);
      FindPipelineMeans(db.pipelines.rows, p.name, instance);
      forall i | 0 <= i < |db'.pipelines.rows|
        ensures db'.pipelines.rows[i].1.instance == instance && PipelineExportable(db', db'.pipelines.rows[i].1)
      {
        if i < |db.pipelines.rows| {
          assert PipelineExportable(db, db.pipelines.rows[i].1);
        }
      }
    }
  }

  lemma {:induction false} GetIsAt<R>(rows: seq<(nat, R)>, id: nat) returns (k: nat)
    requires Get(rows, id).Some?
    ensures k < |rows| && rows[k] == (id, Get(rows, id).value)
  {
    k := |rows| - 1;
    if rows[k].0 != id {
      k := GetIsAt(rows[..k], id);
    }
  }

  /** Among pipelines with distinct names, the same name means the same id. */
  lemma SameNameSamePipeline(db: Db, instance: nat, a: nat, b: nat)
    requires PipelineRowsOk(db, instance)
    requires PipelineNameAt(db.pipelines, a) == PipelineNameAt(db.pipelines, b) != ""
    ensures a == b
  {
    var i := GetIsAt(db.pipelines.rows, a);
    var j := GetIsAt(db.pipelines.rows, b);
    assert db.pipelines.rows[i].1.name == db.pipelines.rows[j].1.name;
    assert i == j;
  }

  lemma ResolvedPipeline(db: Db, instance: nat, name: string)
    requires PipelineRowsOk(db, instance) && ResolvePipeline(db.pipelines, name, instance).Some?
    ensures var id := ResolvePipeline(db.pipelines, name, instance).value;
            && PipelineNameAt(db.pipelines, id) != ""
            && Get(db.pipelines.rows, id).Some? && NameAt(db.chains, Get(db.pipelines.rows, id).value.chain) != ""
  {
    NameOfFoundPipeline(db.pipelines, name, instance);
    var id := ResolvePipeline(db.pipelines, name, instance).value;
    var k := GetIsAt(db.pipelines.rows, id);
    assert PipelineExportable(db, db.pipelines.rows[k].1);
  }

  // ---- rules -------------------------------------------------------------------------------

  predicate ChildTypesSet(t: Tables) {
    forall k | k in t.rules :: t.rules[k].childType != ""
  }

  lemma {:induction false} NamedConcat(a: seq<Rule>, b: seq<Rule>)
    requires ChildTypesNamed(a) && ChildTypesNamed(b)
    ensures ChildTypesNamed(a + b)
  {
    if a == [] {
      assert a + b == b;
    } else {
      NamedConcat(a[1..], b);
      assert (a + b)[1..] == a[1..] + b;
    }
  }

  /** Rows with child types load as rules with child types. */
  lemma {:induction false} LoadedChildTypes(t: Tables, o: Owner, lo: nat)
    requires ChildTypesSet(t)
    ensures ChildTypesNamed(LoadFrom(t, o, lo))
    decreases t.nextRule - lo
  {
    if lo < t.nextRule {
      LoadedChildTypes(t, o, lo + 1);
      if lo in t.rules && OwnedBy(t.rules[lo], o) {
        LoadedChildTypes(t, OfRule(lo), lo + 1);
        assert [RuleAt(t, lo)][1..] == [];
      }
      NamedConcat(RuleIfOwned(t, o, lo), LoadFrom(t, o, lo + 1));
    }
  }

  lemma {:induction false} InsertedChildTypes(t: Tables, o: Owner, rules: seq<ConfigRule>, abis: Table<Named<string>>)
    requires Ok(t) && ValidOwner(t, o) && ChildTypesSet(t)
    ensures ChildTypesSet(InsertByName(t, o, rules, abis).0)
    decreases rules
  {
    if rules != [] && AbiRef(abis, rules[0].childAbi).Some? {
      var own := OwnRule(rules[0], AbiRef(abis, rules[0].childAbi).value);
      var t1 := AddRule(t, o, own);
      AddRuleEffect(t, o, own);
      InsertedChildTypes(t1, OfRule(t.nextRule), rules[0].children, abis);
      InsertByNameKeeps(t1, OfRule(t.nextRule), rules[0].children, abis);
      var nested := InsertByName(t1, OfRule(t.nextRule), rules[0].children, abis);
      if nested.1 {
        InsertedChildTypes(nested.0, o, rules[1..], abis);
      }
    }
  }

  // ---- sources -----------------------------------------------------------------------------

  /** Two rows of which the second should have been taken for the first. */
  predicate RowsClash(a: SourceRow, b: SourceRow) {
    && a.pipeline == b.pipeline && a.kind == b.kind
    && (a.kind == CONTRACT || a.kind == FACTORY ==> a.address == b.address && a.address.Some?)
    && (a.kind == TOPIC ==> a.topic0 == b.topic0 && a.topic0.Some?)
  }

  predicate SourceRowOk(db: Db, s: SourceRow) {
    && s.parent == 0 && PipelineNameAt(db.pipelines, s.pipeline) != "" && NameAt(db.chains, s.chain) != ""
    && Texts.Upper(s.kind) == s.kind && s.address != Some("") && s.topic0 != Some("")
  }

  ghost predicate SourceRowsOk(db: Db) {
    && TableOk(db.sources) && Ok(db.rules) && ChildTypesSet(db.rules)
    && (forall i | 0 <= i < |db.sources.rows| :: SourceRowOk(db, db.sources.rows[i].1))
    && (forall i, j | 0 <= i < j < |db.sources.rows| :: !RowsClash(db.sources.rows[i].1, db.sources.rows[j].1))
  }

  lemma UpperTwice(s: string)
    ensures Texts.Upper(Texts.Upper(s)) == Texts.Upper(s)
  {
  }

  lemma NewSourceRowOk(db: Db, instance: nat, s: ConfigSource)
    requires PipelineRowsOk(db, instance) && SourceRefs(db, instance, s).Some?
    ensures SourceRowOk(db, RowOf(SourceRefs(db, instance, s).value, s))
  {
    ResolvedPipeline(db, instance, s.pipeline);
    UpperTwice(s.kind);
    if s.blockchain != "" {
      ResolvedNameIsNotEmpty(db.chains, s.blockchain);
    }
  }

  lemma OneSourceLoaded(db: Db, instance: nat, s: ConfigSource)
    requires PipelineRowsOk(db, instance) && SourceRowsOk(db)
    ensures PipelineRowsOk(EnsureSource(db, instance, s), instance) && SourceRowsOk(EnsureSource(db, instance, s))
  {
    var db' := EnsureSource(db, instance, s);
    if db' != db {
      NewSourceRowOk(db, instance, s);
      InsertByNameKeeps(db.rules, OfSource(db.sources.next), s.rules, db.abis);
      InsertedChildTypes(db.rules, OfSource(db.sources.next), s.rules, db.abis);
      NewSourceClashesWithNone(db, instance, s);
      SamePipelines(db, db', instance);
      forall i | 0 <= i < |db'.sources.rows|
        ensures SourceRowOk(db', db'.sources.rows[i].1)
      {
        if i < |db.sources.rows| {
          assert SourceRowOk(db, db.sources.rows[i].1);
        }
      }
    }
  }

  lemma NewSourceClashesWithNone(db: Db, instance: nat, s: ConfigSource)
    requires SourceRefs(db, instance, s).Some?
    requires !Matched(db.sources, SourceRefs(db, instance, s).value.pipeline, Texts.Upper(s.kind), s)
    ensures forall i | 0 <= i < |db.sources.rows| :: !RowsClash(db.sources.rows[i].1, RowOf(SourceRefs(db, instance, s).value, s))
  {
    var refs := SourceRefs(db, instance, s).value;
    forall i | 0 <= i < |db.sources.rows|
      ensures !RowsClash(db.sources.rows[i].1, RowOf(refs, s))
    {
      assert !SameKey(db.sources.rows[i].1, refs.pipeline, Texts.Upper(s.kind), s);
    }
  }

  lemma SamePipelines(a: Db, b: Db, instance: nat)
    requires PipelineRowsOk(a, instance)
    requires b.chains == a.chains && b.stores == a.stores && b.pipelines == a.pipelines
    ensures PipelineRowsOk(b, instance)
  {
    forall i | 0 <= i < |b.pipelines.rows|
      ensures PipelineExportable(b, b.pipelines.rows[i].1)
    {
      assert PipelineExportable(a, a.pipelines.rows[i].1);
    }
  }

  lemma {:induction false} LoadedSources(db: Db, instance: nat, ss: seq<ConfigSource>)
    requires PipelineRowsOk(db, instance) && SourceRowsOk(db)
    ensures PipelineRowsOk(LoadSources(db, instance, ss), instance) && SourceRowsOk(LoadSources(db, instance, ss))
  {
    if ss != [] {
      LoadedSources(db, instance, ss[..|ss| - 1]);
      OneSourceLoaded(LoadSources(db, instance, ss[..|ss| - 1]), instance, ss[|ss| - 1]);
    }
  }

  // ---- exporters ---------------------------------------------------------------------------

  ghost predicate ExporterRowsOk(db: Db) {
    && (forall i | 0 <= i < |db.exporters.rows| :: ExporterExportable(db, db.exporters.rows[i].1))
    && (forall i, j | 0 <= i < j < |db.exporters.rows| ::
          db.exporters.rows[i].1.name != db.exporters.rows[j].1.name
          || db.exporters.rows[i].1.pipeline != db.exporters.rows[j].1.pipeline)
  }

  lemma OneExporterLoaded(db: Db, instance: nat, x: ConfigExporter)
    requires PipelineRowsOk(db, instance) && ExporterRowsOk(db) && TableOk(db.plugins)
    ensures ExporterRowsOk(EnsureExporter(db, instance, x))
  {
    var db' := EnsureExporter(db, instance, x);
    if db' != db {
      ResolvedPipeline(db, instance, x.pipeline);
      ResolvedNameIsNotEmpty(db.plugins, x.plugin);
      forall i | 0 <= i < |db'.exporters.rows|
        ensures ExporterExportable(db', db'.exporters.rows[i].1)
      {
        if i < |db.exporters.rows| {
          assert ExporterExportable(db, db.exporters.rows[i].1);
        }
      }
    }
  }

  lemma {:induction false} LoadedExporters(db: Db, instance: nat, xs: seq<ConfigExporter>)
    requires PipelineRowsOk(db, instance) && ExporterRowsOk(db) && TableOk(db.plugins)
    ensures ExporterRowsOk(LoadExporters(db, instance, xs))
  {
    if xs != [] {
      var front := LoadExporters(db, instance, xs[..|xs| - 1]);
      LoadedExporters(db, instance, xs[..|xs| - 1]);
      ExportersFrame(db, instance, xs[..|xs| - 1]);
      SamePipelines(db, front, instance);
      OneExporterLoaded(front, instance, xs[|xs| - 1]);
    }
  }

  // ---- the whole ---------------------------------------------------------------------------

  lemma BaseRowsOk(plugins: Table<Named<string>>, instance: nat, res: Resources)
    ensures var base := LoadBase(Fresh(plugins), instance, res);
            && PipelineRowsOk(base, instance) && SourceRowsOk(base) && ExporterRowsOk(base)
            && base.plugins == plugins && base.exporters == Empty()
            && NamesOk(Values(base.chains.rows)) && NamesOk(Values(base.abis.rows)) && NamesOk(Values(base.stores.rows))
  {
    var db := Fresh(plugins);
    LoadedNames(res.blockchains);
    LoadedNames(res.abis);
    LoadedNames(res.stores);
    var named := db.(chains := LoadNamed(db.chains, res.blockchains), abis := LoadNamed(db.abis, res.abis),
                     stores := LoadNamed(db.stores, res.stores));
    LoadedPipelines(named, instance, res.pipelines);
    LoadPipelinesFacts(named, instance, res.pipelines);
  }

  /** Whatever was declared, what a load makes of it exports completely. */
  lemma LoadedIsExportable(plugins: Table<Named<string>>, instance: nat, res: Resources)
    requires TableOk(plugins) && NamesOk(Values(plugins.rows))
    ensures Exportable(LoadAll(Fresh(plugins), instance, res))
  {
    var base := LoadBase(Fresh(plugins), instance, res);
    BaseRowsOk(plugins, instance, res);
    LoadedSources(base, instance, res.sources);
    SourcesFrame(base, instance, res.sources);
    var sourced := LoadSources(base, instance, res.sources);
    assert ExporterRowsOk(sourced) by {
      assert sourced.exporters == base.exporters == Empty();
    }
    LoadedExporters(sourced, instance, res.exporters);
    ExportersFrame(sourced, instance, res.exporters);
    var db := LoadExporters(sourced, instance, res.exporters);
    SamePipelines(sourced, db, instance);
    RowsAreExportable(db, instance);
  }

  lemma RowsAreExportable(db: Db, instance: nat)
    requires PipelineRowsOk(db, instance) && ExporterRowsOk(db)
    requires TableOk(db.sources) && Ok(db.rules) && ChildTypesSet(db.rules)
    requires forall i | 0 <= i < |db.sources.rows| :: SourceRowOk(db, db.sources.rows[i].1)
    requires forall i, j | 0 <= i < j < |db.sources.rows| :: !RowsClash(db.sources.rows[i].1, db.sources.rows[j].1)
    requires NamesOk(Values(db.plugins.rows)) && NamesOk(Values(db.chains.rows))
    requires NamesOk(Values(db.abis.rows)) && NamesOk(Values(db.stores.rows))
    ensures Exportable(db)
  {
    var rows := db.sources.rows;
    forall i | 0 <= i < |rows|
      ensures SourceExportable(db, rows[i].0, rows[i].1)
    {
      assert SourceRowOk(db, rows[i].1);
      LoadedChildTypes(db.rules, OfSource(rows[i].0), 0);
    }
    forall i, j | 0 <= i < j < |rows|
      ensures !Clash(ExportSource(db, rows[i].0, rows[i].1), ExportSource(db, rows[j].0, rows[j].1))
    {
      assert SourceRowOk(db, rows[i].1) && SourceRowOk(db, rows[j].1);
      ClashingExports(db, instance, rows[i].0, rows[i].1, rows[j].0, rows[j].1);
    }
    var xs := db.exporters.rows;
    forall i, j | 0 <= i < j < |xs|
      ensures xs[i].1.name != xs[j].1.name
              || PipelineNameAt(db.pipelines, xs[i].1.pipeline) != PipelineNameAt(db.pipelines, xs[j].1.pipeline)
    {
      assert ExporterExportable(db, xs[i].1) && ExporterExportable(db, xs[j].1);
      if PipelineNameAt(db.pipelines, xs[i].1.pipeline) == PipelineNameAt(db.pipelines, xs[j].1.pipeline) {
        SameNameSamePipeline(db, instance, xs[i].1.pipeline, xs[j].1.pipeline);
      }
    }
  }

  /** Exports clash only when the rows do. */
  lemma ClashingExports(db: Db, instance: nat, m: nat, a: SourceRow, n: nat, b: SourceRow)
    requires PipelineRowsOk(db, instance) && SourceRowOk(db, a) && SourceRowOk(db, b)
    ensures Clash(ExportSource(db, m, a), ExportSource(db, n, b)) ==> RowsClash(a, b)
  {
    if Clash(ExportSource(db, m, a), ExportSource(db, n, b)) {
      SameNameSamePipeline(db, instance, a.pipeline, b.pipeline);
    }
  }

  /** Loading a configuration into a database that holds only the plugins, and exporting it, gives
      the same configuration if and only if it is complete. */
  lemma LoadThenExportIsExact(c: Config, instance: nat, plugins: Table<Named<string>>)
    requires TableOk(plugins) && Values(plugins.rows) == c.plugins && NamesOk(c.plugins)
    ensures Export(LoadAll(Fresh(plugins), instance, c.resources)) == c <==> Complete(c)
  {
    var db := LoadAll(Fresh(plugins), instance, c.resources);
    if Complete(c) {
      LoadThenExport(c, instance, plugins);
    }
    if Export(db) == c {
      LoadedIsExportable(plugins, instance, c.resources);
      ExportIsComplete(db);
    }
  }

  /** What a load and an export make of any configuration, a further load and export keep. */
  lemma ExportedFormIsStable(plugins: Table<Named<string>>, instance: nat, res: Resources)
    requires TableOk(plugins) && NamesOk(Values(plugins.rows))
    ensures var once := Export(LoadAll(Fresh(plugins), instance, res));
            Export(LoadAll(Fresh(plugins), instance, once.resources)) == once
  {
    var db := LoadAll(Fresh(plugins), instance, res);
    LoadedIsExportable(plugins, instance, res);
    LoadKeepsBase(Fresh(plugins), instance, res);
    BaseRowsOk(plugins, instance, res);
    ExportIsAFixpoint(db, instance, plugins);
  }
}
