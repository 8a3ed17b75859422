/** The metadata tables and the configuration file that declares their rows by name. */
module Metadata {
  import opened Rules
  import opened RuleTables

  /** A row that others refer to by its name. */
  datatype Named<S> = Named(name: string, settings: S)

  /** Rows with their ids, in id order, and the next free id. */
  datatype Table<R> = Table(rows: seq<(nat, R)>, next: nat)

  datatype ChainSettings = ChainSettings(
    chainId: nat, rpcUrl: string, blockRange: nat, blockSlice: nat, pullInterval: nat,
    rpcMaxBatchSize: nat, sqdGatewayAvailable: bool, sqdGatewayUrl: string)

  datatype StoreSettings = StoreSettings(description: string, storeType: string, config: string)

  datatype PipelineRow = PipelineRow(name: string, instance: nat, chain: nat, store: nat)

  /** An id of 0 refers to nothing; parent is 0 for a source that no factory created. */
  datatype SourceRow = SourceRow(
    pipeline: nat, chain: nat, abi: nat, kind: string, enabled: bool, start: nat, sync: nat,
    address: Option<string>, topic0: Option<string>, topicFilters: seq<string>, parent: nat)

  datatype ExporterRow = ExporterRow(
    name: string, pipeline: nat, plugin: nat, enabled: bool, start: nat, sync: nat, lastIndex: int, config: string)

  datatype Db = Db(
    chains: Table<Named<ChainSettings>>,
    abis: Table<Named<string>>,
    stores: Table<Named<StoreSettings>>,
    plugins: Table<Named<string>>,
    pipelines: Table<PipelineRow>,
    sources: Table<SourceRow>,
    exporters: Table<ExporterRow>,
    rules: Tables)

  // ---- the configuration file --------------------------------------------------------------

  datatype ConfigRule = ConfigRule(
    event: string, addressArg: string, childAbi: string, childType: string,
    conditions: seq<Condition>, children: seq<ConfigRule>)

  datatype ConfigPipeline = ConfigPipeline(name: string, blockchain: string, store: string)

  datatype ConfigSource = ConfigSource(
    pipeline: string, blockchain: string, abi: string, kind: string, enabled: bool, start: nat,
    address: string, topic0: string, topicFilters: seq<string>, rules: seq<ConfigRule>)

  datatype ConfigExporter = ConfigExporter(name: string, pipeline: string, plugin: string, enabled: bool, start: nat, config: string)

  datatype Resources = Resources(
    blockchains: seq<Named<ChainSettings>>,
    abis: seq<Named<string>>,
    stores: seq<Named<StoreSettings>>,
    pipelines: seq<ConfigPipeline>,
    sources: seq<ConfigSource>,
    exporters: seq<ConfigExporter>)

  // ---- tables ------------------------------------------------------------------------------

  ghost predicate TableOk<R>(t: Table<R>) {
    && t.next >= 1
    && (forall i | 0 <= i < |t.rows| :: 1 <= t.rows[i].0 < t.next)
    && (forall i, j | 0 <= i < j < |t.rows| :: t.rows[i].0 < t.rows[j].0)
  }

  function Empty<R>(): Table<R> {
    Table([], 1)
  }

  function Add<R>(t: Table<R>, r: R): (t': Table<R>)
    ensures t'.rows == t.rows + [(t.next, r)] && t'.next == t.next + 1
    ensures TableOk(t) ==> TableOk(t')
  {
    Table(t.rows + [(t.next, r)], t.next + 1)
  }

  /** The row with an id. */
  function Get<R>(rows: seq<(nat, R)>, id: nat): Option<R> {
    if rows == [] then None
    else if rows[|rows| - 1].0 == id then Some(rows[|rows| - 1].1)
    else Get(rows[..|rows| - 1], id)
  }

  lemma {:induction false} GetMeans<R>(t: Table<R>, i: nat)
    requires TableOk(t) && i < |t.rows|
    ensures Get(t.rows, t.rows[i].0) == Some(t.rows[i].1)
    decreases |t.rows|
  {
    var n := |t.rows| - 1;
    if i < n {
      GetMeans(Table(t.rows[..n], t.next), i);
    }
  }

  lemma {:induction false} GetNone<R>(rows: seq<(nat, R)>, id: nat)
    requires forall i | 0 <= i < |rows| :: rows[i].0 != id
    ensures Get(rows, id) == None
  {
    if rows != [] {
      GetNone(rows[..|rows| - 1], id);
    }
  }

  /** The id of the first row with a name. */
  function Find<S>(rows: seq<(nat, Named<S>)>, name: string): Option<nat> {
    if rows == [] then None
    else
      var front := Find(rows[..|rows| - 1], name);
      if front.Some? then front
      else if rows[|rows| - 1].1.name == name then Some(rows[|rows| - 1].0)
      else None
  }

  /** The same for a reference, which must not be empty. */
  function Resolve<S>(t: Table<Named<S>>, name: string): Option<nat> {
    if name == "" then None else Find(t.rows, name)
  }

  /** The name of the row with an id, or nothing. */
  function NameAt<S>(t: Table<Named<S>>, id: nat): string {
    var r := Get(t.rows, id);
    if r.Some? then r.value.name else ""
  }

  lemma {:induction false} FindMeans<S>(rows: seq<(nat, Named<S>)>, name: string)
    ensures Find(rows, name).Some? <==> exists i :: 0 <= i < |rows| && rows[i].1.name == name
    ensures Find(rows, name).Some? ==> exists i :: 0 <= i < |rows| && rows[i] == (Find(rows, name).value, rows[i].1) && rows[i].1.name == name
  {
    if rows != [] {
      var n := |rows| - 1;
      FindMeans(rows[..n], name);
      if Find(rows[..n], name).Some? {
        var i :| 0 <= i < n && rows[..n][i] == (Find(rows[..n], name).value, rows[..n][i].1) && rows[..n][i].1.name == name;
        assert rows[i].1.name == name;
      } else if rows[n].1.name == name {
        assert rows[n] == (Find(rows, name).value, rows[n].1);
      } else {
        forall i | 0 <= i <= n
          ensures rows[i].1.name != name
        {
          if i < n {
            assert rows[..n][i].1.name != name;
          }
        }
      }
    }
  }

  /** A reference that resolves is written back as the same name. */
  lemma NameOfFound<S>(t: Table<Named<S>>, name: string)
    requires TableOk(t) && Find(t.rows, name).Some?
    ensures NameAt(t, Find(t.rows, name).value) == name && Find(t.rows, name).value != 0
  {
    FindMeans(t.rows, name);
    var i :| 0 <= i < |t.rows| && t.rows[i] == (Find(t.rows, name).value, t.rows[i].1) && t.rows[i].1.name == name;
    GetMeans(t, i);
  }

  lemma {:induction false} FindStays<S>(a: seq<(nat, Named<S>)>, b: seq<(nat, Named<S>)>, name: string)
    requires Find(a, name).Some?
    ensures Find(a + b, name) == Find(a, name)
  {
    if b == [] {
      assert a + b == a;
    } else {
      FindStays(a, b[..|b| - 1], name);
      assert (a + b)[..|a + b| - 1] == a + b[..|b| - 1];
    }
  }

  /** Pipelines are looked up by name within one instance. */
  function FindPipeline(rows: seq<(nat, PipelineRow)>, name: string, instance: nat): Option<nat> {
    if rows == [] then None
    else
      var front, last := FindPipeline(rows[..|rows| - 1], name, instance), rows[|rows| - 1];
      if front.Some? then front
      else if last.1.name == name && last.1.instance == instance then Some(last.0)
      else None
  }

  function ResolvePipeline(t: Table<PipelineRow>, name: string, instance: nat): Option<nat> {
    if name == "" then None else FindPipeline(t.rows, name, instance)
  }

  lemma {:induction false} FindPipelineMeans(rows: seq<(nat, PipelineRow)>, name: string, instance: nat)
    ensures FindPipeline(rows, name, instance).Some? <==>
              exists i :: 0 <= i < |rows| && rows[i].1.name == name && rows[i].1.instance == instance
    ensures FindPipeline(rows, name, instance).Some? ==>
              exists i :: 0 <= i < |rows| && rows[i].0 == FindPipeline(rows, name, instance).value
                          && rows[i].1.name == name && rows[i].1.instance == instance
  {
    if rows != [] {
      var n := |rows| - 1;
      FindPipelineMeans(rows[..n], name, instance);
      if FindPipeline(rows[..n], name, instance).Some? {
        var i :| 0 <= i < n && rows[..n][i].0 == FindPipeline(rows[..n], name, instance).value
                 && rows[..n][i].1.name == name && rows[..n][i].1.instance == instance;
        assert rows[i].1.name == name;
      } else if rows[n].1.name == name && rows[n].1.instance == instance {
        assert rows[n].0 == FindPipeline(rows, name, instance).value;
      } else {
        forall i | 0 <= i <= n
          ensures !(rows[i].1.name == name && rows[i].1.instance == instance)
        {
          if i < n {
            assert rows[..n][i] == rows[i];
          }
        }
      }
    }
  }

  function PipelineNameAt(t: Table<PipelineRow>, id: nat): string {
    var r := Get(t.rows, id);
    if r.Some? then r.value.name else ""
  }

  lemma NameOfFoundPipeline(t: Table<PipelineRow>, name: string, instance: nat)
    requires TableOk(t) && FindPipeline(t.rows, name, instance).Some?
    ensures var id := FindPipeline(t.rows, name, instance).value;
            PipelineNameAt(t, id) == name && Get(t.rows, id).Some?
  {
    FindPipelineMeans(t.rows, name, instance);
    var i :| 0 <= i < |t.rows| && t.rows[i].0 == FindPipeline(t.rows, name, instance).value
             && t.rows[i].1.name == name && t.rows[i].1.instance == instance;
    GetMeans(t, i);
  }
}
