/** Creating, on startup, the rows that the configuration file declares and that do not exist yet. */
module Autoloader {
  import opened Rules
  import opened RuleTables
  import opened Metadata
  import Texts
  import RuleStore

  const TOPIC: string := "TOPIC"

  // ---- what each step makes of the tables --------------------------------------------------

  function EnsureNamed<S>(t: Table<Named<S>>, e: Named<S>): Table<Named<S>> {
    if e.name == "" || Find(t.rows, e.name).Some? then t else Add(t, e)
  }

  function LoadNamed<S>(t: Table<Named<S>>, es: seq<Named<S>>): Table<Named<S>> {
    if es == [] then t else EnsureNamed(LoadNamed(t, es[..|es| - 1]), es[|es| - 1])
  }

  function EnsurePipeline(db: Db, instance: nat, p: ConfigPipeline): Db {
    var chain, store := Resolve(db.chains, p.blockchain), Resolve(db.stores, p.store);
    if p.name == "" || FindPipeline(db.pipelines.rows, p.name, instance).Some? || chain.None? || store.None? then db
    else db.(pipelines := Add(db.pipelines, PipelineRow(p.name, instance, chain.value, store.value)))
  }

  function LoadPipelines(db: Db, instance: nat, ps: seq<ConfigPipeline>): Db {
    if ps == [] then db else EnsurePipeline(LoadPipelines(db, instance, ps[..|ps| - 1]), instance, ps[|ps| - 1])
  }

  datatype Refs = Refs(pipeline: nat, chain: nat, abi: nat)

  /** The blockchain defaults to the pipeline's; the ABI is optional. */
  function SourceRefs(db: Db, instance: nat, s: ConfigSource): Option<Refs> {
    var pipeline := ResolvePipeline(db.pipelines, s.pipeline, instance);
    if pipeline.None? then None
    else
      var chain :=
        if s.blockchain != "" then Resolve(db.chains, s.blockchain)
        else match Get(db.pipelines.rows, pipeline.value)
             case Some(p) => Some(p.chain)
             case None => None;
      var abi := if s.abi != "" then Find(db.abis.rows, s.abi) else Some(0);
      if chain.None? || abi.None? then None else Some(Refs(pipeline.value, chain.value, abi.value))
  }

  predicate SameKey(row: SourceRow, pipeline: nat, kind: string, s: ConfigSource) {
    && row.pipeline == pipeline && row.kind == kind
    && (kind == CONTRACT || kind == FACTORY ==> row.address == Some(s.address))
    && (kind == TOPIC ==> row.topic0 == Some(s.topic0))
  }

  predicate Matched(t: Table<SourceRow>, pipeline: nat, kind: string, s: ConfigSource) {
    exists i :: 0 <= i < |t.rows| && SameKey(t.rows[i].1, pipeline, kind, s)
  }

  /** Empty texts are stored as absent. */
  function Present(text: string): Option<string> {
    if text == "" then None else Some(text)
  }

  function RowOf(refs: Refs, s: ConfigSource): SourceRow {
    SourceRow(refs.pipeline, refs.chain, refs.abi, Texts.Upper(s.kind), s.enabled, s.start, s.start,
              Present(s.address), Present(s.topic0), s.topicFilters, 0)
  }

  function EnsureSource(db: Db, instance: nat, s: ConfigSource): Db {
    var refs := SourceRefs(db, instance, s);
    var kind := Texts.Upper(s.kind);
    if refs.None? || Matched(db.sources, refs.value.pipeline, kind, s) then db
    else
      db.(sources := Add(db.sources, RowOf(refs.value, s)),
          rules := if kind == FACTORY then InsertByName(db.rules, OfSource(db.sources.next), s.rules, db.abis).0 else db.rules)
  }

  function LoadSources(db: Db, instance: nat, ss: seq<ConfigSource>): Db {
    if ss == [] then db else EnsureSource(LoadSources(db, instance, ss[..|ss| - 1]), instance, ss[|ss| - 1])
  }

  function AbiRef(abis: Table<Named<string>>, name: string): Option<nat> {
    if name == "" then Some(0) else Find(abis.rows, name)
  }

  /** A rule's own row; its nested rules are created after it. */
  function OwnRule(r: ConfigRule, abi: nat): Rule {
    Rule(r.event, r.addressArg, if r.childType == "" then CONTRACT else r.childType, abi, r.conditions, [])
  }

  /** Creates rules depth first; the first ABI that is not found ends everything, and what has been
      created by then stays. */
  function InsertByName(t: Tables, o: Owner, rules: seq<ConfigRule>, abis: Table<Named<string>>): (Tables, bool)
    decreases rules
  {
    if rules == [] then (t, true)
    else
      var abi := AbiRef(abis, rules[0].childAbi);
      if abi.None? then (t, false)
      else
        var nested := InsertByName(AddRule(t, o, OwnRule(rules[0], abi.value)), OfRule(t.nextRule), rules[0].children, abis);
        if !nested.1 then nested else InsertByName(nested.0, o, rules[1..], abis)
  }

  predicate HasExporter(t: Table<ExporterRow>, name: string, pipeline: nat) {
    exists i :: 0 <= i < |t.rows| && t.rows[i].1.name == name && t.rows[i].1.pipeline == pipeline
  }

  function EnsureExporter(db: Db, instance: nat, x: ConfigExporter): Db {
    var pipeline, plugin := ResolvePipeline(db.pipelines, x.pipeline, instance), Resolve(db.plugins, x.plugin);
    if x.name == "" || pipeline.None? || HasExporter(db.exporters, x.name, pipeline.value) || plugin.None? then db
    else
      db.(exporters := Add(db.exporters,
            ExporterRow(x.name, pipeline.value, plugin.value, x.enabled, x.start, x.start, -1, x.config)))
  }

  function LoadExporters(db: Db, instance: nat, xs: seq<ConfigExporter>): Db {
    if xs == [] then db else EnsureExporter(LoadExporters(db, instance, xs[..|xs| - 1]), instance, xs[|xs| - 1])
  }

  /** Everything that sources and exporters refer to. */
  function LoadBase(db: Db, instance: nat, res: Resources): Db {
    LoadPipelines(
      db.(chains := LoadNamed(db.chains, res.blockchains),
          abis := LoadNamed(db.abis, res.abis),
          stores := LoadNamed(db.stores, res.stores)),
      instance, res.pipelines)
  }

  function LoadAll(db: Db, instance: nat, res: Resources): Db {
    LoadExporters(LoadSources(LoadBase(db, instance, res), instance, res.sources), instance, res.exporters)
  }

  // ---- loading twice -----------------------------------------------------------------------

  predicate NamedSettled<S>(t: Table<Named<S>>, e: Named<S>) {
    e.name == "" || Find(t.rows, e.name).Some?
  }

  lemma {:induction false} LoadNamedFacts<S>(t: Table<Named<S>>, es: seq<Named<S>>)
    ensures t.rows <= LoadNamed(t, es).rows
    ensures forall e | e in es :: NamedSettled(LoadNamed(t, es), e)
  {
    if es != [] {
      var front, last := LoadNamed(t, es[..|es| - 1]), es[|es| - 1];
      LoadNamedFacts(t, es[..|es| - 1]);
      var t' := LoadNamed(t, es);
      assert es == es[..|es| - 1] + [last];
      if t' != front {
        forall e | e in es[..|es| - 1] && e.name != ""
          ensures Find(t'.rows, e.name).Some?
        {
          assert NamedSettled(front, e);
          FindStays(front.rows, [(front.next, last)], e.name);
        }
        FindMeans(t'.rows, last.name);
        assert t'.rows[|front.rows|].1.name == last.name;
      }
    }
  }

  lemma {:induction false} LoadNamedAgain<S>(t: Table<Named<S>>, es: seq<Named<S>>)
    requires forall e | e in es :: NamedSettled(t, e)
    ensures LoadNamed(t, es) == t
  {
    if es != [] {
      LoadNamedAgain(t, es[..|es| - 1]);
      assert NamedSettled(t, es[|es| - 1]);
    }
  }

  /** An entry that a further load passes over. */
  predicate PipelineSettled(db: Db, instance: nat, p: ConfigPipeline) {
    EnsurePipeline(db, instance, p) == db
  }

  lemma {:induction false} LoadPipelinesFacts(db: Db, instance: nat, ps: seq<ConfigPipeline>)
    ensures var db' := LoadPipelines(db, instance, ps);
            && db' == db.(pipelines := db'.pipelines) && db.pipelines.rows <= db'.pipelines.rows
            && forall p | p in ps :: PipelineSettled(db', instance, p)
  {
    if ps != [] {
      var front, last := LoadPipelines(db, instance, ps[..|ps| - 1]), ps[|ps| - 1];
      LoadPipelinesFacts(db, instance, ps[..|ps| - 1]);
      var db' := LoadPipelines(db, instance, ps);
      assert ps == ps[..|ps| - 1] + [last];
      if db' != front {
        forall p | p in ps
          ensures PipelineSettled(db', instance, p)
        {
          FindPipelineMeans(front.pipelines.rows, p.name, instance);
          FindPipelineMeans(db'.pipelines.rows, p.name, instance);
          if p in ps[..|ps| - 1] && FindPipeline(front.pipelines.rows, p.name, instance).Some? {
            var i :| 0 <= i < |front.pipelines.rows| && front.pipelines.rows[i].1.name == p.name
                     && front.pipelines.rows[i].1.instance == instance;
            assert db'.pipelines.rows[i] == front.pipelines.rows[i];
          } else if p == last {
            assert db'.pipelines.rows[|front.pipelines.rows|].1.name == p.name;
          } else {
            assert PipelineSettled(front, instance, p);
          }
        }
      }
    }
  }

  lemma {:induction false} LoadPipelinesAgain(db: Db, instance: nat, ps: seq<ConfigPipeline>)
    requires forall p | p in ps :: PipelineSettled(db, instance, p)
    ensures LoadPipelines(db, instance, ps) == db
  {
    if ps != [] {
      LoadPipelinesAgain(db, instance, ps[..|ps| - 1]);
      assert PipelineSettled(db, instance, ps[|ps| - 1]);
    }
  }

  /** An entry without the value that its key consists of. */
  predicate Deficient(s: ConfigSource) {
    var kind := Texts.Upper(s.kind);
    ((kind == CONTRACT || kind == FACTORY) && s.address == "") || (kind == TOPIC && s.topic0 == "")
  }

  predicate SourceMatched(db: Db, instance: nat, s: ConfigSource) {
    var refs := SourceRefs(db, instance, s);
    refs.Some? && Matched(db.sources, refs.value.pipeline, Texts.Upper(s.kind), s)
  }

  predicate SourceSettled(db: Db, instance: nat, s: ConfigSource) {
    SourceRefs(db, instance, s).None? || SourceMatched(db, instance, s)
  }

  /** What is referred to is there, no row matches, and the row that is created will not match
      either, because its key column stays empty. */
  predicate Recreated(db: Db, instance: nat, s: ConfigSource) {
    Deficient(s) && !SourceSettled(db, instance, s)
  }

  lemma MatchedGrows(a: Table<SourceRow>, b: Table<SourceRow>, pipeline: nat, kind: string, s: ConfigSource)
    requires a.rows <= b.rows && Matched(a, pipeline, kind, s)
    ensures Matched(b, pipeline, kind, s)
  {
    var i :| 0 <= i < |a.rows| && SameKey(a.rows[i].1, pipeline, kind, s);
    assert SameKey(b.rows[i].1, pipeline, kind, s);
  }

  /** One source more: the references stay, what matched still does, the new row matches its own
      entry unless that is deficient, and no deficient entry at all. */
  lemma EnsureSourceFacts(db: Db, instance: nat, last: ConfigSource, s: ConfigSource)
    ensures var db' := EnsureSource(db, instance, last);
            && db' == db.(sources := db'.sources, rules := db'.rules) && db.sources.rows <= db'.sources.rows
            && SourceRefs(db', instance, s) == SourceRefs(db, instance, s)
            && (SourceMatched(db, instance, s) ==> SourceMatched(db', instance, s))
            && (Deficient(s) ==> SourceMatched(db', instance, s) == SourceMatched(db, instance, s))
            && (s == last && !Deficient(s) ==> SourceSettled(db', instance, s))
  {
    var db' := EnsureSource(db, instance, last);
    var refs := SourceRefs(db, instance, s);
    if SourceMatched(db, instance, s) {
      MatchedGrows(db.sources, db'.sources, refs.value.pipeline, Texts.Upper(s.kind), s);
    }
    if db'.sources != db.sources && s == last && !Deficient(s) {
      assert SameKey(db'.sources.rows[|db.sources.rows|].1, refs.value.pipeline, Texts.Upper(s.kind), s);
    }
    if Deficient(s) && refs.Some? && !SourceMatched(db, instance, s) {
      forall i | 0 <= i < |db'.sources.rows|
        ensures !SameKey(db'.sources.rows[i].1, refs.value.pipeline, Texts.Upper(s.kind), s)
      {
        if i < |db.sources.rows| {
          assert !SameKey(db.sources.rows[i].1, refs.value.pipeline, Texts.Upper(s.kind), s);
        }
      }
    }
  }

  lemma {:induction false} LoadSourcesFacts(db: Db, instance: nat, ss: seq<ConfigSource>, s: ConfigSource)
    ensures var db' := LoadSources(db, instance, ss);
            && db' == db.(sources := db'.sources, rules := db'.rules) && db.sources.rows <= db'.sources.rows
            && SourceRefs(db', instance, s) == SourceRefs(db, instance, s)
            && (SourceMatched(db, instance, s) ==> SourceMatched(db', instance, s))
            && (Deficient(s) ==> SourceMatched(db', instance, s) == SourceMatched(db, instance, s))
            && (s in ss && !Recreated(db, instance, s) ==> SourceSettled(db', instance, s))
            && (s in ss && Recreated(db, instance, s) ==> |db'.sources.rows| > |db.sources.rows|)
  {
    if ss != [] {
      var front, last := ss[..|ss| - 1], ss[|ss| - 1];
      LoadSourcesFacts(db, instance, front, s);
      EnsureSourceFacts(LoadSources(db, instance, front), instance, last, s);
      assert ss == front + [last];
    }
  }

  lemma {:induction false} LoadSourcesAgain(db: Db, instance: nat, ss: seq<ConfigSource>)
    requires forall s | s in ss :: SourceSettled(db, instance, s)
    ensures LoadSources(db, instance, ss) == db
  {
    if ss != [] {
      LoadSourcesAgain(db, instance, ss[..|ss| - 1]);
      assert SourceSettled(db, instance, ss[|ss| - 1]);
    }
  }

  predicate ExporterSettled(db: Db, instance: nat, x: ConfigExporter) {
    EnsureExporter(db, instance, x) == db
  }

  lemma EnsureExporterFacts(db: Db, instance: nat, last: ConfigExporter, x: ConfigExporter)
    ensures var db' := EnsureExporter(db, instance, last);
            && db' == db.(exporters := db'.exporters)
            && (ExporterSettled(db, instance, x) || x == last ==> ExporterSettled(db', instance, x))
  {
    var db' := EnsureExporter(db, instance, last);
    var pipeline := ResolvePipeline(db.pipelines, x.pipeline, instance);
    if pipeline.Some? && HasExporter(db.exporters, x.name, pipeline.value) {
      var i :| 0 <= i < |db.exporters.rows| && db.exporters.rows[i].1.name == x.name && db.exporters.rows[i].1.pipeline == pipeline.value;
      assert db'.exporters.rows[i].1.name == x.name;
    }
    if db' != db && x == last {
      assert db'.exporters.rows[|db.exporters.rows|].1.name == x.name;
    }
  }

  lemma {:induction false} LoadExportersFacts(db: Db, instance: nat, xs: seq<ConfigExporter>, x: ConfigExporter)
    ensures var db' := LoadExporters(db, instance, xs);
            && db' == db.(exporters := db'.exporters)
            && (ExporterSettled(db, instance, x) || x in xs ==> ExporterSettled(db', instance, x))
  {
    if xs != [] {
      var front, last := xs[..|xs| - 1], xs[|xs| - 1];
      LoadExportersFacts(db, instance, front, x);
      EnsureExporterFacts(LoadExporters(db, instance, front), instance, last, x);
      assert xs == front + [last];
    }
  }

  lemma {:induction false} LoadExportersAgain(db: Db, instance: nat, xs: seq<ConfigExporter>)
    requires forall x | x in xs :: ExporterSettled(db, instance, x)
    ensures LoadExporters(db, instance, xs) == db
  {
    if xs != [] {
      LoadExportersAgain(db, instance, xs[..|xs| - 1]);
      assert ExporterSettled(db, instance, xs[|xs| - 1]);
    }
  }

  lemma {:induction false} SourcesFrame(db: Db, instance: nat, ss: seq<ConfigSource>)
    ensures var db' := LoadSources(db, instance, ss);
            db' == db.(sources := db'.sources, rules := db'.rules)
  {
    if ss != [] {
      SourcesFrame(db, instance, ss[..|ss| - 1]);
    }
  }

  lemma {:induction false} ExportersFrame(db: Db, instance: nat, xs: seq<ConfigExporter>)
    ensures var db' := LoadExporters(db, instance, xs);
            db' == db.(exporters := db'.exporters)
  {
    if xs != [] {
      ExportersFrame(db, instance, xs[..|xs| - 1]);
    }
  }

  /** Sources and exporters come on top of the base, which stays as it is. */
  lemma LoadKeepsBase(db: Db, instance: nat, res: Resources)
    ensures var base, db1 := LoadBase(db, instance, res), LoadAll(db, instance, res);
            && db1 == base.(sources := db1.sources, rules := db1.rules, exporters := db1.exporters)
            && db1.sources == LoadSources(base, instance, res.sources).sources
  {
    var base := LoadBase(db, instance, res);
    SourcesFrame(base, instance, res.sources);
    ExportersFrame(LoadSources(base, instance, res.sources), instance, res.exporters);
  }

  lemma BaseNames(db: Db, instance: nat, res: Resources)
    ensures var base := LoadBase(db, instance, res);
            && base.chains == LoadNamed(db.chains, res.blockchains)
            && base.abis == LoadNamed(db.abis, res.abis)
            && base.stores == LoadNamed(db.stores, res.stores)
            && forall p | p in res.pipelines :: PipelineSettled(base, instance, p)
  {
    LoadPipelinesFacts(
      db.(chains := LoadNamed(db.chains, res.blockchains), abis := LoadNamed(db.abis, res.abis),
          stores := LoadNamed(db.stores, res.stores)),
      instance, res.pipelines);
  }

  /** A second load finds the base as it is. */
  lemma BaseSettles(db: Db, instance: nat, res: Resources)
    ensures var base, db1 := LoadBase(db, instance, res), LoadAll(db, instance, res);
            && LoadBase(db1, instance, res) == db1
            && db1 == base.(sources := db1.sources, rules := db1.rules, exporters := db1.exporters)
            && db1.sources == LoadSources(base, instance, res.sources).sources
  {
    var base, db1 := LoadBase(db, instance, res), LoadAll(db, instance, res);
    LoadKeepsBase(db, instance, res);
    BaseNames(db, instance, res);
    LoadNamedFacts(db.chains, res.blockchains);
    LoadNamedAgain(base.chains, res.blockchains);
    LoadNamedFacts(db.abis, res.abis);
    LoadNamedAgain(base.abis, res.abis);
    LoadNamedFacts(db.stores, res.stores);
    LoadNamedAgain(base.stores, res.stores);
    forall p | p in res.pipelines
      ensures PipelineSettled(db1, instance, p)
    {
      assert PipelineSettled(base, instance, p);
    }
    LoadPipelinesAgain(db1, instance, res.pipelines);
  }

  /** Loading a configuration a second time changes no table, whatever was missing or failed
      half-way the first time, if and only if no declared contract or factory without an address,
      and no topic source without a topic, gets as far as being created. Such an entry is created
      anew by every load. */
  lemma LoadIsIdempotent(db: Db, instance: nat, res: Resources)
    ensures LoadAll(LoadAll(db, instance, res), instance, res) == LoadAll(db, instance, res)
       <==> !exists s :: s in res.sources && Recreated(LoadBase(db, instance, res), instance, s)
  {
    var base, db1 := LoadBase(db, instance, res), LoadAll(db, instance, res);
    BaseSettles(db, instance, res);
    forall s | s in res.sources
      ensures Recreated(base, instance, s) <==> !SourceSettled(db1, instance, s)
      ensures Recreated(base, instance, s) ==> Recreated(db1, instance, s)
    {
      LoadSourcesFacts(base, instance, res.sources, s);
    }
    if s :| s in res.sources && Recreated(base, instance, s) {
      LoadSourcesFacts(db1, instance, res.sources, s);
      var again := LoadSources(db1, instance, res.sources);
      assert LoadAll(db1, instance, res) == LoadExporters(again, instance, res.exporters);
      LoadExportersFacts(again, instance, res.exporters, ConfigExporter("", "", "", false, 0, ""));
    } else {
      LoadSourcesAgain(db1, instance, res.sources);
      forall x | x in res.exporters
        ensures ExporterSettled(db1, instance, x)
      {
        LoadExportersFacts(LoadSources(base, instance, res.sources), instance, res.exporters, x);
      }
      LoadExportersAgain(db1, instance, res.exporters);
    }
  }

  // ---- rules by name -----------------------------------------------------------------------

  predicate AllResolve(rules: seq<ConfigRule>, abis: Table<Named<string>>)
    decreases rules
  {
    rules != [] ==>
      && AbiRef(abis, rules[0].childAbi).Some?
      && AllResolve(rules[0].children, abis) && AllResolve(rules[1..], abis)
  }

  /** The rules a configuration means, once the names are resolved. */
  function ToRules(rules: seq<ConfigRule>, abis: Table<Named<string>>): seq<Rule>
    requires AllResolve(rules, abis)
    decreases rules
  {
    if rules == [] then []
    else
      [OwnRule(rules[0], AbiRef(abis, rules[0].childAbi).value).(children := ToRules(rules[0].children, abis))]
      + ToRules(rules[1..], abis)
  }

  /** Creation by name succeeds exactly when every ABI is found, nested ones included, and then it
      creates the forest that is meant. */
  lemma {:induction false} InsertByNameIsInsert(t: Tables, o: Owner, rules: seq<ConfigRule>, abis: Table<Named<string>>)
    ensures InsertByName(t, o, rules, abis).1 <==> AllResolve(rules, abis)
    ensures AllResolve(rules, abis) ==> InsertByName(t, o, rules, abis).0 == Insert(t, o, ToRules(rules, abis))
    decreases rules
  {
    if rules != [] && AbiRef(abis, rules[0].childAbi).Some? {
      var own := OwnRule(rules[0], AbiRef(abis, rules[0].childAbi).value);
      var t1 := AddRule(t, o, own);
      InsertByNameIsInsert(t1, OfRule(t.nextRule), rules[0].children, abis);
      var nested := InsertByName(t1, OfRule(t.nextRule), rules[0].children, abis);
      InsertByNameIsInsert(nested.0, o, rules[1..], abis);
      if AllResolve(rules, abis) {
        var whole := own.(children := ToRules(rules[0].children, abis));
        assert ToRules(rules, abis)[0] == whole && ToRules(rules, abis)[1..] == ToRules(rules[1..], abis);
        assert AddRule(t, o, whole) == t1;
      }
    }
  }

  /** The same rules with the type written out wherever it was left out. */
  function WithTypes(rules: seq<ConfigRule>): seq<ConfigRule>
    decreases rules
  {
    if rules == [] then []
    else
      [rules[0].(childType := if rules[0].childType == "" then "CONTRACT" else rules[0].childType,
                 children := WithTypes(rules[0].children))]
      + WithTypes(rules[1..])
  }

  /** A rule that names no type makes plain contracts: what is created is what the rules with their
      types written out create, also when it ends half-way. */
  lemma {:induction false} TypesMayBeLeftOut(t: Tables, o: Owner, rules: seq<ConfigRule>, abis: Table<Named<string>>)
    ensures InsertByName(t, o, WithTypes(rules), abis) == InsertByName(t, o, rules, abis)
    decreases rules
  {
    if rules != [] && AbiRef(abis, rules[0].childAbi).Some? {
      var typed := WithTypes(rules);
      var own := OwnRule(rules[0], AbiRef(abis, rules[0].childAbi).value);
      assert typed[0].children == WithTypes(rules[0].children) && typed[1..] == WithTypes(rules[1..]);
      assert OwnRule(typed[0], AbiRef(abis, rules[0].childAbi).value) == own;
      TypesMayBeLeftOut(AddRule(t, o, own), OfRule(t.nextRule), rules[0].children, abis);
      var nested := InsertByName(AddRule(t, o, own), OfRule(t.nextRule), rules[0].children, abis);
      TypesMayBeLeftOut(nested.0, o, rules[1..], abis);
    }
  }

  /** A source that names no blockchain is on the one of its pipeline: it is created as if that were
      written out. */
  lemma BlockchainMayBeLeftOut(db: Db, instance: nat, s: ConfigSource, i: nat, c: nat)
    requires TableOk(db.pipelines) && i < |db.pipelines.rows| && s.pipeline != "" && s.blockchain == ""
    requires FindPipeline(db.pipelines.rows, s.pipeline, instance) == Some(db.pipelines.rows[i].0)
    requires c < |db.chains.rows| && db.chains.rows[c].0 == db.pipelines.rows[i].1.chain && db.chains.rows[c].1.name != ""
    requires Find(db.chains.rows, db.chains.rows[c].1.name) == Some(db.chains.rows[c].0)
    ensures EnsureSource(db, instance, s) == EnsureSource(db, instance, s.(blockchain := db.chains.rows[c].1.name))
  {
    GetMeans(db.pipelines, i);
  }

  /** Whether it succeeds or stops half-way, only what hangs below its own owner is touched. */
  lemma {:induction false} InsertByNameKeeps(t: Tables, o: Owner, rules: seq<ConfigRule>, abis: Table<Named<string>>)
    requires Ok(t) && ValidOwner(t, o)
    ensures var t' := InsertByName(t, o, rules, abis).0;
            Ok(t') && Agree(t, t', t.nextRule) && Sealed(t', t.nextRule, o)
    decreases rules
  {
    NothingAdded(t, o);
    if rules != [] && AbiRef(abis, rules[0].childAbi).Some? {
      var n := t.nextRule;
      var own := OwnRule(rules[0], AbiRef(abis, rules[0].childAbi).value);
      var t1 := AddRule(t, o, own);
      AddRuleEffect(t, o, own);
      NoneBelowNew(t, t1, o, own);
      hide Ok, Agree, Sealed;
      InsertByNameKeeps(t1, OfRule(n), rules[0].children, abis);
      var t2 := InsertByName(t1, OfRule(n), rules[0].children, abis).0;
      AgreeLess(t1, t2, t1.nextRule, n);
      AgreeThrough(t, t1, t2, n);
      SealedThrough(t1, t2, n, o);
      if InsertByName(t1, OfRule(n), rules[0].children, abis).1 {
        StillValid(t, t2, n, o);
        InsertByNameKeeps(t2, o, rules[1..], abis);
        InsertedAfter(t, t2, InsertByName(t2, o, rules[1..], abis).0, o);
      }
    }
  }

  /** So a load that fails half-way leaves every other source's rules as they were. */
  lemma OtherSourcesKeepTheirRules(t: Tables, s: nat, rules: seq<ConfigRule>, abis: Table<Named<string>>, q: Owner)
    requires Ok(t) && ValidOwner(t, q) && q != OfSource(s)
    ensures RuleTables.Load(InsertByName(t, OfSource(s), rules, abis).0, q) == RuleTables.Load(t, q)
  {
    InsertByNameKeeps(t, OfSource(s), rules, abis);
    Frame(t, InsertByName(t, OfSource(s), rules, abis).0, t.nextRule, OfSource(s), q, 0);
  }

  // ---- the code ----------------------------------------------------------------------------

  class Database {
    var chains: Table<Named<ChainSettings>>
    var abis: Table<Named<string>>
    var stores: Table<Named<StoreSettings>>
    var plugins: Table<Named<string>>
    var pipelines: Table<PipelineRow>
    var sources: Table<SourceRow>
    var exporters: Table<ExporterRow>
    const rules: RuleStore.Store

    constructor (db: Db, rules: RuleStore.Store)
      requires rules.T() == db.rules
      ensures this.rules == rules && D() == db
    {
      chains, abis, stores, plugins := db.chains, db.abis, db.stores, db.plugins;
      pipelines, sources, exporters := db.pipelines, db.sources, db.exporters;
      this.rules := rules;
    }

    function D(): Db
      reads this, rules
    {
      Db(chains, abis, stores, plugins, pipelines, sources, exporters, rules.T())
    }

    method EnsureBlockchain(cfg: Named<ChainSettings>) returns (id: Option<nat>)
      modifies this`chains
      ensures D() == old(D()).(chains := EnsureNamed(old(chains), cfg))
      ensures id == if cfg.name == "" then None else Find(chains.rows, cfg.name)
    {
      if cfg.name == "" {
        return None;
      }
      id := Find(chains.rows, cfg.name);
      if id.None? {
        id := Some(chains.next);
        FoundAsLast(chains, cfg);
        chains := Add(chains, cfg);
      }
    }

    method EnsureAbi(cfg: Named<string>) returns (id: Option<nat>)
      modifies this`abis
      ensures D() == old(D()).(abis := EnsureNamed(old(abis), cfg))
      ensures id == if cfg.name == "" then None else Find(abis.rows, cfg.name)
    {
      if cfg.name == "" {
        return None;
      }
      id := Find(abis.rows, cfg.name);
      if id.None? {
        id := Some(abis.next);
        FoundAsLast(abis, cfg);
        abis := Add(abis, cfg);
      }
    }

    method EnsureStore(cfg: Named<StoreSettings>) returns (id: Option<nat>)
      modifies this`stores
      ensures D() == old(D()).(stores := EnsureNamed(old(stores), cfg))
      ensures id == if cfg.name == "" then None else Find(stores.rows, cfg.name)
    {
      if cfg.name == "" {
        return None;
      }
      id := Find(stores.rows, cfg.name);
      if id.None? {
        id := Some(stores.next);
        FoundAsLast(stores, cfg);
        stores := Add(stores, cfg);
      }
    }

    method EnsurePipelineRow(instance: nat, cfg: ConfigPipeline) returns (ok: bool)
      modifies this`pipelines
      ensures D() == EnsurePipeline(old(D()), instance, cfg)
      ensures ok ==> FindPipeline(pipelines.rows, cfg.name, instance).Some?
    {
      if cfg.name == "" {
        return false;
      }
      if FindPipeline(pipelines.rows, cfg.name, instance).Some? {
        return true;
      }
      var chain := Resolve(chains, cfg.blockchain);
      if chain.None? {
        return false;
      }
      var store := Resolve(stores, cfg.store);
      if store.None? {
        return false;
      }
      pipelines := Add(pipelines, PipelineRow(cfg.name, instance, chain.value, store.value));
      return true;
    }

    /** One source with its rules. A rule that names an unknown ABI fails the call after the source
        and the rules before it have been created. */
    method EnsureSourceRow(instance: nat, cfg: ConfigSource) returns (ok: bool)
      requires Ok(rules.T())
      modifies this`sources, rules
      ensures D() == EnsureSource(old(D()), instance, cfg) && Ok(rules.T())
      ensures ok ==> SourceMatched(D(), instance, cfg) || Deficient(cfg)
    {
      ghost var before := D();
      EnsureSourceFacts(before, instance, cfg, cfg);
      var pipeline := ResolvePipeline(pipelines, cfg.pipeline, instance);
      if pipeline.None? {
        return false;
      }
      var kind := Texts.Upper(cfg.kind);
      var chain: Option<nat>;
      if cfg.blockchain != "" {
        chain := Resolve(chains, cfg.blockchain);
      } else {
        var row := Get(pipelines.rows, pipeline.value);
        chain := if row.Some? then Some(row.value.chain) else None;
      }
      if chain.None? {
        return false;
      }
      var abi := Some(0);
      if cfg.abi != "" {
        abi := Find(abis.rows, cfg.abi);
      }
      if abi.None? {
        return false;
      }
      if Matched(sources, pipeline.value, kind, cfg) {
        return true;
      }
      var id := sources.next;
      InsertByNameKeeps(rules.T(), OfSource(id), cfg.rules, abis);
      sources := Add(sources, RowOf(Refs(pipeline.value, chain.value, abi.value), cfg));
      ok := true;
      if kind == FACTORY && |cfg.rules| > 0 {
        ok := CreateFactoryRules(id, None, cfg.rules);
      }
    }

    method CreateFactoryRules(source: nat, parent: Option<nat>, cfgs: seq<ConfigRule>) returns (ok: bool)
      requires Ok(rules.T()) && (parent.Some? ==> parent.value in rules.rules)
      modifies rules
      ensures (rules.T(), ok) == InsertByName(old(rules.T()), RuleStore.OwnerFor(source, parent), cfgs, abis)
      ensures Ok(rules.T())
      decreases cfgs
    {
      var o := RuleStore.OwnerFor(source, parent);
      for i := 0 to |cfgs|
        invariant Ok(rules.T()) && ValidOwner(rules.T(), o)
        invariant InsertByName(rules.T(), o, cfgs[i..], abis) == InsertByName(old(rules.T()), o, cfgs, abis)
      {
        var r := cfgs[i];
        assert cfgs[i..][0] == r && cfgs[i..][1..] == cfgs[i + 1..];
        var abi := AbiRef(abis, r.childAbi);
        if abi.None? {
          return false;
        }
        ghost var t := rules.T();
        AddRuleEffect(t, o, OwnRule(r, abi.value));
        var id := rules.Create(RowFor(o, OwnRule(r, abi.value)), r.conditions);
        InsertByNameKeeps(rules.T(), OfRule(id), r.children, abis);
        if |r.children| > 0 {
          ok := CreateFactoryRules(source, Some(id), r.children);
          if !ok {
            return;
          }
        }
      }
      ok := true;
    }

    method EnsureExporterRow(instance: nat, cfg: ConfigExporter) returns (ok: bool)
      modifies this`exporters
      ensures D() == EnsureExporter(old(D()), instance, cfg)
      ensures ok ==> ExporterSettled(D(), instance, cfg)
    {
      EnsureExporterFacts(D(), instance, cfg, cfg);
      if cfg.name == "" {
        return false;
      }
      var pipeline := ResolvePipeline(pipelines, cfg.pipeline, instance);
      if pipeline.None? {
        return false;
      }
      if HasExporter(exporters, cfg.name, pipeline.value) {
        return true;
      }
      var plugin := Resolve(plugins, cfg.plugin);
      if plugin.None? {
        return false;
      }
      exporters := Add(exporters,
        ExporterRow(cfg.name, pipeline.value, plugin.value, cfg.enabled, cfg.start, cfg.start, -1, cfg.config));
      return true;
    }

    /** Goes through the resources in the order of their dependencies; what fails is passed over. */
    method LoadResources(instance: nat, res: Resources)
      requires Ok(rules.T())
      modifies this, rules
      ensures D() == LoadAll(old(D()), instance, res) && Ok(rules.T())
    {
      LoadBaseRows(instance, res);
      ghost var base := D();
      for i := 0 to |res.sources|
        invariant D() == LoadSources(base, instance, res.sources[..i]) && Ok(rules.T())
      {
        assert res.sources[..i + 1][..i] == res.sources[..i];
        var ok := EnsureSourceRow(instance, res.sources[i]);
      }
      assert res.sources[..|res.sources|] == res.sources;
      ghost var sourced := D();
      for i := 0 to |res.exporters|
        invariant D() == LoadExporters(sourced, instance, res.exporters[..i]) && Ok(rules.T())
      {
        assert res.exporters[..i + 1][..i] == res.exporters[..i];
        var ok := EnsureExporterRow(instance, res.exporters[i]);
      }
      assert res.exporters[..|res.exporters|] == res.exporters;
    }

    method LoadBaseRows(instance: nat, res: Resources)
      requires Ok(rules.T())
      modifies this
      ensures D() == LoadBase(old(D()), instance, res)
    {
      hide EnsureNamed, EnsurePipeline, Find;
      ghost var db := D();
      for i := 0 to |res.blockchains|
        invariant D() == db.(chains := LoadNamed(db.chains, res.blockchains[..i]))
      {
        assert res.blockchains[..i + 1][..i] == res.blockchains[..i];
        var id := EnsureBlockchain(res.blockchains[i]);
      }
      assert res.blockchains[..|res.blockchains|] == res.blockchains;
      ghost var db1 := D();
      for i := 0 to |res.abis|
        invariant D() == db1.(abis := LoadNamed(db.abis, res.abis[..i]))
      {
        assert res.abis[..i + 1][..i] == res.abis[..i];
        var id := EnsureAbi(res.abis[i]);
      }
      assert res.abis[..|res.abis|] == res.abis;
      ghost var db2 := D();
      for i := 0 to |res.stores|
        invariant D() == db2.(stores := LoadNamed(db.stores, res.stores[..i]))
      {
        assert res.stores[..i + 1][..i] == res.stores[..i];
        var id := EnsureStore(res.stores[i]);
      }
      assert res.stores[..|res.stores|] == res.stores;
      ghost var db3 := D();
      for i := 0 to |res.pipelines|
        invariant D() == LoadPipelines(db3, instance, res.pipelines[..i])
      {
        assert res.pipelines[..i + 1][..i] == res.pipelines[..i];
        var ok := EnsurePipelineRow(instance, res.pipelines[i]);
      }
      assert res.pipelines[..|res.pipelines|] == res.pipelines;
    }
  }

  lemma FoundAsLast<S>(t: Table<Named<S>>, e: Named<S>)
    requires Find(t.rows, e.name).None?
    ensures Find(Add(t, e).rows, e.name) == Some(t.next)
  {
    assert Add(t, e).rows[..|t.rows|] == t.rows;
  }
}
