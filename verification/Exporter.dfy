/** The exporter's own code: the head it may export up to, one range, one round. */
module Exporter {
  import opened Positions
  import opened Chain
  import opened ParquetStore
  import opened StoreLaws
  import opened Sequences
  import P = Pipeline

  datatype SourceRow = SourceRow(id: nat, pipeline: nat, enabled: bool, sync: nat)

  function EnabledIds(rows: seq<SourceRow>, pipeline: nat): seq<nat> {
    if rows == [] then []
    else
      var front, last := EnabledIds(rows[..|rows| - 1], pipeline), rows[|rows| - 1];
      if last.pipeline == pipeline && last.enabled then front + [last.id] else front
  }

  /** A source of the pipeline that is switched on. */
  predicate IsEnabled(rows: seq<SourceRow>, pipeline: nat, id: nat) {
    exists r :: r in rows && r.pipeline == pipeline && r.enabled && r.id == id
  }

  /** Ids are the key of the table. */
  ghost predicate UniqueRows(rows: seq<SourceRow>) {
    forall i, j | 0 <= i < j < |rows| :: rows[i].id != rows[j].id
  }

  /** The enabled sources of the pipeline, each once, and the lowest of their cursors. */
  method SourcesAndHead(rows: seq<SourceRow>, pipeline: nat) returns (ids: seq<nat>, head: nat)
    ensures ids == EnabledIds(rows, pipeline)
    ensures forall id :: id in ids <==> IsEnabled(rows, pipeline, id)
    ensures UniqueRows(rows) ==> EachOnce(ids)
    ensures forall r | r in rows && r.pipeline == pipeline && r.enabled :: head <= r.sync
    ensures ids != [] ==> exists r :: r in rows && r.pipeline == pipeline && r.enabled && r.sync == head
  {
    ids, head := [], 0;
    for i := 0 to |rows|
      invariant ids == EnabledIds(rows[..i], pipeline)
      invariant forall r | r in rows[..i] && r.pipeline == pipeline && r.enabled :: ids != [] && head <= r.sync
      invariant ids != [] ==> exists r :: r in rows[..i] && r.pipeline == pipeline && r.enabled && r.sync == head
    {
      var s := rows[i];
      assert rows[..i + 1][..i] == rows[..i] && rows[..i + 1] == rows[..i] + [s];
      if s.pipeline == pipeline && s.enabled {
        if ids == [] || s.sync < head {
          head := s.sync;
        }
        ids := ids + [s.id];
      }
    }
    assert rows[..|rows|] == rows;
    EnabledAreListed(rows, pipeline);
  }

  /** Which call goes wrong during a range: the plugin on a log, or the cursor write after it;
      the write after the last log has the number of logs as its index. */
  datatype Faults = Faults(plugin: set<nat>, write: set<nat>)

  /** How a range ends: with a log that the plugin refuses, with the cursor behind a log that
      cannot be written, with the one behind the whole range that cannot, or without any fault. */
  datatype End = Refused | LogUnsaved | RangeUnsaved | Through

  predicate Smooth(faults: Faults, n: nat) {
    forall i | 0 <= i < n :: i !in faults.plugin && i !in faults.write
  }

  /** A range of n logs ends this way once the plugin has taken so many of them, nothing having
      gone wrong before. */
  predicate EndsAs(end: End, faults: Faults, n: nat, taken: nat) {
    match end
    case Refused => taken < n && Smooth(faults, taken) && taken in faults.plugin
    case LogUnsaved =>
      0 < taken <= n && Smooth(faults, taken - 1) && taken - 1 !in faults.plugin && taken - 1 in faults.write
    case RangeUnsaved => taken == n && Smooth(faults, n) && n in faults.write
    case Through => taken == n && Smooth(faults, n) && n !in faults.write
  }

  /** How many of the logs taken have a cursor saved behind them: those before the first fault. */
  function SavedCount(end: End, taken: nat): nat {
    if end.LogUnsaved? && taken > 0 then taken - 1 else taken
  }

  /** The faults decide how a range ends. */
  lemma EndsOnce(faults: Faults, n: nat, end: End, taken: nat, other: End, others: nat)
    requires EndsAs(end, faults, n, taken) && EndsAs(other, faults, n, others)
    ensures end == other && taken == others
  {
    EndsAtFault(faults, n, end, taken);
    EndsAtFault(faults, n, other, others);
  }

  lemma EndsAtFault(faults: Faults, n: nat, end: End, taken: nat)
    requires EndsAs(end, faults, n, taken)
    ensures Smooth(faults, SavedCount(end, taken)) && SavedCount(end, taken) <= n
    ensures forall k | SavedCount(end, taken) < k <= n :: !Smooth(faults, k)
  {
  }

  class Service {
    const startBlock: nat
    const first: Cursor
    var row: Cursor          // as saved in the exporter's table row
    var delivered: seq<Row>  // what the plugin has taken
    var refused: seq<Row>    // what it was given and gave an error for
    ghost var high: Position // the furthest bound saved so far

    constructor (row: Cursor, startBlock: nat)
      ensures this.row == row && this.first == row && this.startBlock == startBlock && delivered == refused == []
      ensures high == CursorBound(Resume(row, startBlock))
    {
      this.startBlock, this.first, this.row, this.delivered, this.refused := startBlock, row, row, [], [];
      this.high := CursorBound(Resume(row, startBlock));
    }

    ghost function State(world: P.State, phase: P.Phase): P.State
      reads this
    {
      world.(exp := P.Exporter(first, row, high, delivered, refused, phase))
    }

    method PersistCursor(c: Cursor, fails: bool) returns (ok: bool)
      modifies this`row, this`high
      ensures ok == !fails
      ensures row == (if ok then c else old(row))
      ensures high == (if ok then P.Later(old(high), CursorBound(c)) else old(high))
    {
      if fails {
        return false;
      }
      row := c;
      high := P.Later(high, CursorBound(c));
      return true;
    }

    /** Of the logs of a range, the plugin has taken so many, and the writes behind so many of them
        have succeeded. */
    ghost predicate Progress(delivered0: seq<Row>, row0: Cursor, logs: seq<Row>, taken: nat, saved: nat)
      requires taken <= |logs| && saved <= |logs|
      reads this
    {
      delivered == delivered0 + logs[..taken] && row == SavedAfter(row0, logs, saved)
    }

    /** Gives one of the range's logs to the plugin and, if the plugin takes it, saves the cursor
        behind it. Before and after the cursor is saved the workers may move. */
    method DeliverOne(mem: Cursor, to: nat, logs: seq<Row>, i: nat, pluginFails: bool, writeFails: bool,
        ghost env: P.Env, ghost worlds: nat -> P.State, ghost k: nat, ghost reached: iset<P.State>,
        ghost delivered0: seq<Row>, ghost row0: Cursor)
      returns (c: Cursor, ok: bool)
      requires i < |logs| && Progress(delivered0, row0, logs, i, i)
      requires P.Closed(env, reached) && Drifting(worlds, reached) && State(worlds(k), P.Delivering(mem, to, logs[i..])) in reached
      modifies this`row, this`high, this`delivered, this`refused
      ensures ok == (!pluginFails && !writeFails)
      ensures Progress(delivered0, row0, logs, if pluginFails then i else i + 1, if ok then i + 1 else i)
      ensures refused == old(refused) + if pluginFails then [logs[i]] else []
      ensures ok ==> c == row
      ensures State(worlds(k + 2), if ok then P.Delivering(c, to, logs[i + 1..]) else P.Stopped) in reached
    {
      hide P.Closed, Drifting;
      assert logs[i..][1..] == logs[i + 1..] && logs[..i + 1] == logs[..i] + [logs[i]];
      if pluginFails {
        Refuse(mem, to, logs[i..], env, worlds, k, reached);
        return mem, false;
      }
      ghost var st := State(worlds(k), P.Delivering(mem, to, logs[i..]));
      delivered := delivered + [logs[i]];
      P.Moves(env, reached, st, P.LogHanded, State(worlds(k), P.Handed(mem, to, logs[i..])));
      Drifts(worlds, reached, k, P.Handed(mem, to, logs[i..]));
      ghost var handed := State(worlds(k + 1), P.Handed(mem, to, logs[i..]));
      c := CursorAfterLog(logs[i].log.At());
      ok := PersistCursor(c, writeFails);
      ghost var after := if ok then P.Delivering(c, to, logs[i + 1..]) else P.Stopped;
      P.Moves(env, reached, handed, if ok then P.CursorPersisted else P.ExporterFails, State(worlds(k + 1), after));
      Drifts(worlds, reached, k + 1, after);
    }

    method Refuse(mem: Cursor, to: nat, pending: seq<Row>,
        ghost env: P.Env, ghost worlds: nat -> P.State, ghost k: nat, ghost reached: iset<P.State>)
      requires pending != []
      requires P.Closed(env, reached) && Drifting(worlds, reached) && State(worlds(k), P.Delivering(mem, to, pending)) in reached
      modifies this`refused
      ensures refused == old(refused) + [pending[0]]
      ensures State(worlds(k + 2), P.Stopped) in reached
    {
      ghost var st := State(worlds(k), P.Delivering(mem, to, pending));
      refused := refused + [pending[0]];
      P.Moves(env, reached, st, P.LogRefused, State(worlds(k), P.Stopped));
      Drifts(worlds, reached, k, P.Stopped);
      Drifts(worlds, reached, k + 1, P.Stopped);
    }

    /** Saves the end of a range all of whose logs have been delivered. */
    method FinishRange(mem: Cursor, to: nat, writeFails: bool,
        ghost env: P.Env, ghost world: P.State, ghost reached: iset<P.State>)
      returns (c: Cursor, ok: bool)
      requires P.Closed(env, reached) && State(world, P.Delivering(mem, to, [])) in reached
      modifies this`row, this`high
      ensures ok == !writeFails && c == CursorAfterRange(to)
      ensures row == (if ok then c else old(row))
      ensures State(world, if ok then P.Idle(c) else P.Stopped) in reached
    {
      ghost var st := State(world, P.Delivering(mem, to, []));
      c := CursorAfterRange(to);
      ok := PersistCursor(c, writeFails);
      P.Moves(env, reached, st, if ok then P.RangeFinished else P.ExporterFails,
              State(world, if ok then P.Idle(c) else P.Stopped));
    }

    /** Delivers the logs of one range one by one, saving the cursor after each, and gives the
        cursor to go on from. Whatever goes wrong, the plugin has taken a prefix of the logs, in
        order, it has been given at most the one after them besides, and the saved cursor stands at
        the last log whose write succeeded. And whatever the workers do meanwhile, the code only
        takes steps of the pipeline: it stays in every set of states that no step leaves. */
    method ExportRange(mem: Cursor, to: nat, logs: seq<Row>, faults: Faults,
        ghost env: P.Env, ghost worlds: nat -> P.State, ghost k: nat, ghost reached: iset<P.State>)
      returns (c: Cursor, end: End, taken: nat, ghost k': nat)
      requires P.Closed(env, reached) && Drifting(worlds, reached) && State(worlds(k), P.Delivering(mem, to, logs)) in reached
      modifies this`row, this`high, this`delivered, this`refused
      ensures State(worlds(k'), if end.Through? then P.Idle(c) else P.Stopped) in reached
      ensures EndsAs(end, faults, |logs|, taken) && delivered == old(delivered) + logs[..taken]
      ensures refused == old(refused) + if end.Refused? then [logs[taken]] else []
      ensures end.Through? ==> c == CursorAfterRange(to)
      ensures row == if end.Through? then c else SavedAfter(old(row), logs, SavedCount(end, taken))
    {
      c, taken, k' := mem, 0, k;
      assert logs[0..] == logs;
      for i := 0 to |logs|
        invariant taken == i && Progress(old(delivered), old(row), logs, i, i) && refused == old(refused)
        invariant State(worlds(k'), P.Delivering(c, to, logs[i..])) in reached
        invariant Smooth(faults, i)
      {
        var ok;
        c, ok := DeliverOne(c, to, logs, i, i in faults.plugin, i in faults.write, env, worlds, k', reached, old(delivered), old(row));
        k' := k' + 2;
        if i in faults.plugin {
          end := Refused;
          return;
        }
        taken := i + 1;
        if !ok {
          end := LogUnsaved;
          return;
        }
      }
      assert logs[|logs|..] == [] && logs[..|logs|] == logs;
      var ok;
      c, ok := FinishRange(c, to, |logs| in faults.write, env, worlds(k'), reached);
      end := if ok then Through else RangeUnsaved;
    }

    /** Where a starting exporter goes on. */
    method Start(ghost env: P.Env, ghost world: P.State, ghost reached: iset<P.State>) returns (c: Cursor)
      requires P.Closed(env, reached) && env.exporterStart == startBlock && State(world, P.Stopped) in reached
      ensures State(world, P.Idle(c)) in reached
      ensures c == if startBlock > 0 && row.completed < startBlock then CursorAfterRange(startBlock - 1) else row
    {
      c := row;
      if startBlock > 0 && c.completed < startBlock {
        c := CursorAfterRange(startBlock - 1);
      }
      P.Moves(env, reached, State(world, P.Stopped), P.ExporterStarts, State(world, P.Idle(c)));
    }

    lemma Drifts(worlds: nat -> P.State, reached: iset<P.State>, k: nat, phase: P.Phase)
      requires Drifting(worlds, reached) && State(worlds(k), phase) in reached
      ensures State(worlds(k + 1), phase) in reached
    {
      DriftsOn(worlds, reached, k, State(worlds(k), phase).exp);
    }

    /** Asks the store for the logs of one range. The workers may move after the head was looked up,
        and again once the store has answered. */
    method Pull(mem: Cursor, to: nat, ids: seq<nat>, head: nat, store: Store, listing: map<nat, seq<string>>, unreadable: set<string>,
        ghost env: P.Env, ghost worlds: nat -> P.State, ghost reached: iset<P.State>)
      returns (logs: Result<seq<Row>>)
      requires IsChain(env.chain) && P.Closed(env, reached) && Drifting(worlds, reached) && State(worlds(0), P.Idle(mem)) in reached
      requires P.IsHead(worlds(0).sources, head) && head > mem.completed
      requires EachOnce(ids) && (forall id :: id in ids <==> id in worlds(0).sources)
      requires to == if mem.completed + env.Batch() > head then head else mem.completed + env.Batch()
      requires Holds(env, worlds(1).sources, store.dirs, listing)
      ensures State(worlds(2), if logs.Ok? then P.Delivering(mem, to, logs.value) else P.Stopped) in reached
      ensures logs.Ok? <==> Readable(listing, ids, unreadable)
      ensures logs.Ok? ==> Answers(store.dirs, listing, ids, CursorBound(mem), to, logs.value)
    {
      hide P.Closed, Drifting, Holds, Answers, IsChain, P.IsHead;
      ghost var e := State(worlds(0), P.Idle(mem)).exp;
      RangeIsPlanned(env, reached, worlds(0), e, ids, head);
      Drifts(worlds, reached, 0, P.Pulling(mem, to, ids, 0, []));
      StayThere(worlds, reached, 0);
      assert Reading(worlds(1), e, mem, to, ids, store.dirs, listing, 0) in reached;
      ReadsAreSteps(env, reached, worlds(1), e, mem, to, ids, store.dirs, listing, |ids|);
      logs := store.GetLogsAfter(ids, listing, unreadable, CursorBound(mem), to);
      ReadsEnd(env, reached, worlds(1), e, mem, to, ids, store.dirs, listing, logs);
      Drifts(worlds, reached, 1, if logs.Ok? then P.Delivering(mem, to, logs.value) else P.Stopped);
    }

    /** One turn of the main loop: nothing to do while the head is not beyond the cursor, and
        otherwise the logs of the next blocks, each once. Planning, reading, sorting and delivering
        are all steps of the pipeline. When the turn fails, either the store could not be read and nothing
        has happened, or the plugin has taken a prefix of the sorted answer. */
    method Round(mem: Cursor, batch: nat, rows: seq<SourceRow>, pipeline: nat, store: Store, listing: map<nat, seq<string>>,
        unreadable: set<string>, faults: Faults, ghost env: P.Env, ghost worlds: nat -> P.State, ghost reached: iset<P.State>)
      returns (c: Cursor, ok: bool, waited: bool, to: nat, logs: seq<Row>, end: End, taken: nat, ghost k: nat)
      requires IsCursor(mem) && batch >= 1 && mem.completed + batch < TWO64
      requires IsChain(env.chain) && batch == env.Batch() && P.Closed(env, reached) && Drifting(worlds, reached)
      requires State(worlds(0), P.Idle(mem)) in reached
      requires Mirrors(rows, pipeline, worlds(0).sources) && Holds(env, worlds(1).sources, store.dirs, listing)
      modifies this`row, this`high, this`delivered, this`refused
      ensures State(worlds(k), if ok then P.Idle(c) else P.Stopped) in reached
      ensures waited <==>
                || (forall id :: !IsEnabled(rows, pipeline, id))
                || exists r :: r in rows && r.pipeline == pipeline && r.enabled && r.sync <= mem.completed
      ensures waited ==> ok && c == mem && row == old(row) && logs == []
      ensures taken <= |logs| && delivered == old(delivered) + logs[..taken]
      ensures refused == old(refused) + if end.Refused? && taken < |logs| then [logs[taken]] else []
      ensures !waited ==>
                && mem.completed < to <= mem.completed + batch
                && (forall r | r in rows && r.pipeline == pipeline && r.enabled :: to <= r.sync)
                && (to == mem.completed + batch || exists r :: r in rows && r.pipeline == pipeline && r.enabled && r.sync == to)
      ensures !waited && !AllReadable(rows, pipeline, listing, unreadable) ==> !ok && logs == [] && row == old(row)
      ensures !waited && AllReadable(rows, pipeline, listing, unreadable) ==>
                && IsRange(rows, pipeline, store.dirs, mem, to, logs)
                && EndsAs(end, faults, |logs|, taken) && ok == end.Through?
                && (ok ==> c == CursorAfterRange(to))
                && row == if ok then c else SavedAfter(old(row), logs, SavedCount(end, taken))
    {
      hide P.Closed, Drifting, Mirrors, Holds, Answers, Readable, AllReadable, IsRange, Smooth, EnabledIds, IsEnabled, IsChain, EachOnce, UniqueRows;
      var ids, head := SourcesAndHead(rows, pipeline);
      logs, end, taken, k, to := [], Through, 0, 0, mem.completed;
      if ids == [] || head <= mem.completed {
        c, ok, waited := mem, true, true;
        return;
      }
      to := mem.completed + batch;
      if to > head {
        to := head;
      }
      EnabledAreSources(rows, pipeline, ids, worlds(0).sources);
      StayThere(worlds, reached, 0);
      LowestIsHead(rows, pipeline, worlds(0).sources, head);
      var answer := Pull(mem, to, ids, head, store, listing, unreadable, env, worlds, reached);
      waited := false;
      SameReadable(rows, pipeline, ids, listing, unreadable);
      if answer.Err? {
        c, ok, k := mem, false, 2;
        return;
      }
      logs := answer.value;
      AnswerIsRange(env, worlds(1).sources, rows, pipeline, ids, store.dirs, listing, mem, to, logs);
      c, end, taken, k := ExportRange(mem, to, logs, faults, env, worlds, 2, reached);
      ok := end.Through?;
    }
  }

  /** Every file of the sources can be read. */
  predicate Readable(listing: map<nat, seq<string>>, ids: seq<nat>, unreadable: set<string>) {
    forall s, f | s in ids && f in ListingOf(listing, s) :: f !in unreadable
  }

  /** The same without regard to the order in which they are read. */
  predicate AllReadable(rows: seq<SourceRow>, pipeline: nat, listing: map<nat, seq<string>>, unreadable: set<string>) {
    forall r, f | r in rows && r.pipeline == pipeline && r.enabled && f in ListingOf(listing, r.id) :: f !in unreadable
  }

  lemma SameReadable(rows: seq<SourceRow>, pipeline: nat, ids: seq<nat>, listing: map<nat, seq<string>>, unreadable: set<string>)
    requires forall id :: id in ids <==> IsEnabled(rows, pipeline, id)
    ensures Readable(listing, ids, unreadable) == AllReadable(rows, pipeline, listing, unreadable)
  {
  }

  /** A log that an enabled source holds behind the cursor and up to a block. */
  ghost predicate Asked(rows: seq<SourceRow>, pipeline: nat, dirs: map<nat, Dir>, mem: Cursor, to: nat, r: Row) {
    && IsEnabled(rows, pipeline, r.source) && InDir(DirOf(dirs, r.source), r)
    && Less(CursorBound(mem), r.log.At()) && r.log.block <= to
  }

  /** Every such log, each once, in position order. */
  ghost predicate IsRange(rows: seq<SourceRow>, pipeline: nat, dirs: map<nat, Dir>, mem: Cursor, to: nat, logs: seq<Row>) {
    SortedRows(logs) && EachOnce(logs) && forall r :: r in logs <==> Asked(rows, pipeline, dirs, mem, to, r)
  }

  /** Without a block range in its chain's row an exporter goes 1000 blocks at a time. */
  lemma BatchOfRange(env: P.Env)
    ensures env.Batch() >= 1
    ensures if env.blockRange == 0 then env.Batch() == 1000 else env.Batch() == env.blockRange
  {
  }

  // ---- what the workers do meanwhile -------------------------------------------------------

  function With(world: P.State, e: P.Exporter): P.State {
    world.(exp := e)
  }

  /** From one world to the next the workers have moved: whatever the exporter's state, it goes on
      in the set, and no source has gone. */
  ghost predicate DriftAt(worlds: nat -> P.State, reached: iset<P.State>, k: nat) {
    && (forall e {:trigger With(worlds(k), e)} | With(worlds(k), e) in reached :: With(worlds(k + 1), e) in reached)
    && (forall id | id in worlds(k).sources :: id in worlds(k + 1).sources)
  }

  ghost predicate Drifting(worlds: nat -> P.State, reached: iset<P.State>) {
    forall k {:trigger DriftAt(worlds, reached, k)} :: DriftAt(worlds, reached, k)
  }

  lemma DriftsOn(worlds: nat -> P.State, reached: iset<P.State>, k: nat, e: P.Exporter)
    requires Drifting(worlds, reached) && With(worlds(k), e) in reached
    ensures With(worlds(k + 1), e) in reached
  {
    assert DriftAt(worlds, reached, k);
  }

  lemma StayThere(worlds: nat -> P.State, reached: iset<P.State>, k: nat)
    requires Drifting(worlds, reached)
    ensures forall id | id in worlds(k).sources :: id in worlds(k + 1).sources
  {
    assert DriftAt(worlds, reached, k);
  }

  /** Any step of a worker is such a move. */
  lemma WorkerStepDrifts(env: P.Env, reached: iset<P.State>, world: P.State, a: P.Action, world': P.State, e: P.Exporter)
    requires P.Closed(env, reached) && P.Step(env, world, a, world') && (P.IsSourceStep(a) || a.PairHandled?)
    requires With(world, e) in reached
    ensures With(world', e) in reached && forall id | id in world.sources :: id in world'.sources
  {
    assert P.Step(env, With(world, e), a, With(world', e));
    P.Moves(env, reached, With(world, e), a, With(world', e));
  }

  /** The pipeline's sources are the enabled rows, with the same saved cursors. */
  ghost predicate Mirrors(rows: seq<SourceRow>, pipeline: nat, sources: map<nat, P.Source>) {
    && (forall r | r in rows && r.pipeline == pipeline && r.enabled :: r.id in sources && sources[r.id].sync == r.sync)
    && (forall id | id in sources :: IsEnabled(rows, pipeline, id)) && UniqueRows(rows)
  }

  /** The store holds the sources' directories, and listing names their files. */
  ghost predicate Holds(env: P.Env, sources: map<nat, P.Source>, dirs: map<nat, Dir>, listing: map<nat, seq<string>>) {
    forall id | id in sources ::
      && DirOf(dirs, id) == sources[id].dir && IsListing(sources[id].dir, ListingOf(listing, id))
      && DirOk(env.chain, sources[id].filter, id, sources[id].dir)
  }

  lemma {:induction false} EnabledAre(rows: seq<SourceRow>, pipeline: nat, id: nat)
    ensures id in EnabledIds(rows, pipeline) <==> IsEnabled(rows, pipeline, id)
  {
    if rows != [] {
      EnabledAre(rows[..|rows| - 1], pipeline, id);
      assert rows == rows[..|rows| - 1] + [rows[|rows| - 1]];
    }
  }

  lemma {:induction false} EnabledOnce(rows: seq<SourceRow>, pipeline: nat)
    requires UniqueRows(rows)
    ensures EachOnce(EnabledIds(rows, pipeline))
  {
    if rows != [] {
      var front, last := rows[..|rows| - 1], rows[|rows| - 1];
      EnabledOnce(front, pipeline);
      EnabledAre(front, pipeline, last.id);
      assert !IsEnabled(front, pipeline, last.id);
    }
  }

  lemma EnabledAreListed(rows: seq<SourceRow>, pipeline: nat)
    ensures forall id :: id in EnabledIds(rows, pipeline) <==> IsEnabled(rows, pipeline, id)
    ensures UniqueRows(rows) ==> EachOnce(EnabledIds(rows, pipeline))
  {
    forall id
      ensures id in EnabledIds(rows, pipeline) <==> IsEnabled(rows, pipeline, id)
    {
      EnabledAre(rows, pipeline, id);
    }
    if UniqueRows(rows) {
      EnabledOnce(rows, pipeline);
    }
  }

  lemma EnabledAreSources(rows: seq<SourceRow>, pipeline: nat, ids: seq<nat>, sources: map<nat, P.Source>)
    requires Mirrors(rows, pipeline, sources) && forall id :: id in ids <==> IsEnabled(rows, pipeline, id)
    ensures UniqueRows(rows) && forall id :: id in ids <==> id in sources
  {
  }

  lemma LowestIsHead(rows: seq<SourceRow>, pipeline: nat, sources: map<nat, P.Source>, head: nat)
    requires Mirrors(rows, pipeline, sources)
    requires forall r | r in rows && r.pipeline == pipeline && r.enabled :: head <= r.sync
    requires exists r :: r in rows && r.pipeline == pipeline && r.enabled && r.sync == head
    ensures P.IsHead(sources, head)
  {
  }

  lemma RangeIsPlanned(env: P.Env, reached: iset<P.State>, world: P.State, e: P.Exporter, ids: seq<nat>, head: nat)
    requires P.Closed(env, reached) && world.(exp := e) in reached
    requires e.phase.Idle? && P.IsHead(world.sources, head) && head > e.phase.mem.completed
    requires EachOnce(ids) && forall id :: id in ids <==> id in world.sources
    ensures var mem := e.phase.mem;
            var to := if mem.completed + env.Batch() > head then head else mem.completed + env.Batch();
            world.(exp := e.(phase := P.Pulling(mem, to, ids, 0, []))) in reached
  {
    var mem := e.phase.mem;
    var to := if mem.completed + env.Batch() > head then head else mem.completed + env.Batch();
    P.Moves(env, reached, world.(exp := e), P.RangePlanned(head, ids),
            world.(exp := e.(phase := P.Pulling(mem, to, ids, 0, []))));
  }

  /** The first n sources have been read. */
  ghost function Reading(world: P.State, e: P.Exporter, mem: Cursor, to: nat, ids: seq<nat>,
      dirs: map<nat, Dir>, listing: map<nat, seq<string>>, n: nat): P.State
    requires n <= |ids|
  {
    world.(exp := e.(phase := P.Pulling(mem, to, ids, n, Wanted(dirs, listing, ids[..n], CursorBound(mem), to))))
  }

  lemma OneRead(env: P.Env, world: P.State, e: P.Exporter, mem: Cursor, to: nat, ids: seq<nat>,
      dirs: map<nat, Dir>, listing: map<nat, seq<string>>, n: nat)
    requires IsChain(env.chain) && Holds(env, world.sources, dirs, listing)
    requires n < |ids| && ids[n] in world.sources
    ensures P.Step(env, Reading(world, e, mem, to, ids, dirs, listing, n),
                   P.SourceRead(Select(SourceRows(dirs, listing, ids[n]), CursorBound(mem), to)),
                   Reading(world, e, mem, to, ids, dirs, listing, n + 1))
  {
    WantedStep(dirs, listing, ids, n, CursorBound(mem), to);
    ReadIsOnce(env, world.sources, ids[n], dirs, listing, mem, to);
    ReadIsExact(env, world.sources, ids[n], dirs, listing, mem, to);
    ReadIsStep(env, world, e, mem, to, ids, n, Wanted(dirs, listing, ids[..n], CursorBound(mem), to),
               Select(SourceRows(dirs, listing, ids[n]), CursorBound(mem), to));
  }

  lemma ReadIsStep(env: P.Env, world: P.State, e: P.Exporter, mem: Cursor, to: nat, ids: seq<nat>, n: nat, got: seq<Row>, rows: seq<Row>)
    requires n < |ids| && ids[n] in world.sources && EachOnce(rows)
    requires forall r :: r in rows <==> InDir(world.sources[ids[n]].dir, r) && P.AfterBound(r, mem, to)
    ensures P.Step(env, world.(exp := e.(phase := P.Pulling(mem, to, ids, n, got))), P.SourceRead(rows),
                   world.(exp := e.(phase := P.Pulling(mem, to, ids, n + 1, got + rows))))
  {
  }

  lemma ReadIsExact(env: P.Env, sources: map<nat, P.Source>, id: nat, dirs: map<nat, Dir>, listing: map<nat, seq<string>>, mem: Cursor, to: nat)
    requires IsChain(env.chain) && Holds(env, sources, dirs, listing) && id in sources
    ensures var rows := Select(SourceRows(dirs, listing, id), CursorBound(mem), to);
            forall r :: r in rows <==> InDir(sources[id].dir, r) && P.AfterBound(r, mem, to)
  {
    ReadReturnsEachOnce(env.chain, sources[id].filter, id, sources[id].dir, ListingOf(listing, id));
    forall r
      ensures r in Select(SourceRows(dirs, listing, id), CursorBound(mem), to) <==>
                InDir(sources[id].dir, r) && P.AfterBound(r, mem, to)
    {
      SelectMembers(SourceRows(dirs, listing, id), CursorBound(mem), to, r);
    }
  }

  lemma ReadIsOnce(env: P.Env, sources: map<nat, P.Source>, id: nat, dirs: map<nat, Dir>, listing: map<nat, seq<string>>, mem: Cursor, to: nat)
    requires IsChain(env.chain) && Holds(env, sources, dirs, listing) && id in sources
    ensures EachOnce(Select(SourceRows(dirs, listing, id), CursorBound(mem), to))
  {
    hide InDir, Dedup, Concat;
    ReadReturnsEachOnce(env.chain, sources[id].filter, id, sources[id].dir, ListingOf(listing, id));
    SelectOnce(SourceRows(dirs, listing, id), CursorBound(mem), to);
  }

  /** Reading the sources one after another, as the store does, is a series of steps. */
  lemma {:induction false} ReadsAreSteps(env: P.Env, reached: iset<P.State>, world: P.State, e: P.Exporter,
      mem: Cursor, to: nat, ids: seq<nat>, dirs: map<nat, Dir>, listing: map<nat, seq<string>>, n: nat)
    requires IsChain(env.chain) && P.Closed(env, reached) && Holds(env, world.sources, dirs, listing)
    requires n <= |ids| && forall id | id in ids :: id in world.sources
    requires Reading(world, e, mem, to, ids, dirs, listing, 0) in reached
    ensures Reading(world, e, mem, to, ids, dirs, listing, n) in reached
  {
    if n > 0 {
      ReadsAreSteps(env, reached, world, e, mem, to, ids, dirs, listing, n - 1);
      OneRead(env, world, e, mem, to, ids, dirs, listing, n - 1);
      P.Moves(env, reached,
        Reading(world, e, mem, to, ids, dirs, listing, n - 1),
        P.SourceRead(Select(SourceRows(dirs, listing, ids[n - 1]), CursorBound(mem), to)),
        Reading(world, e, mem, to, ids, dirs, listing, n));
    }
  }

  /** So is sorting what was read, or giving up. */
  lemma ReadsEnd(env: P.Env, reached: iset<P.State>, world: P.State, e: P.Exporter,
      mem: Cursor, to: nat, ids: seq<nat>, dirs: map<nat, Dir>, listing: map<nat, seq<string>>, logs: Result<seq<Row>>)
    requires P.Closed(env, reached)
    requires Reading(world, e, mem, to, ids, dirs, listing, |ids|) in reached
    requires logs.Ok? ==> SortedRows(logs.value) && multiset(logs.value) == multiset(Wanted(dirs, listing, ids, CursorBound(mem), to))
    ensures world.(exp := e.(phase := if logs.Ok? then P.Delivering(mem, to, logs.value) else P.Stopped)) in reached
  {
    assert ids[..|ids|] == ids;
    var got := Wanted(dirs, listing, ids, CursorBound(mem), to);
    P.Moves(env, reached, Reading(world, e, mem, to, ids, dirs, listing, |ids|),
      if logs.Ok? then P.RowsSorted(logs.value) else P.ExporterFails,
      world.(exp := e.(phase := if logs.Ok? then P.Delivering(mem, to, logs.value) else P.Stopped)));
  }

  lemma AnswerIsRange(env: P.Env, sources: map<nat, P.Source>, rows: seq<SourceRow>, pipeline: nat, ids: seq<nat>,
      dirs: map<nat, Dir>, listing: map<nat, seq<string>>, mem: Cursor, to: nat, logs: seq<Row>)
    requires IsChain(env.chain) && Holds(env, sources, dirs, listing) && EachOnce(ids) && forall id | id in ids :: id in sources
    requires forall id :: id in ids <==> IsEnabled(rows, pipeline, id)
    requires Answers(dirs, listing, ids, CursorBound(mem), to, logs)
    ensures IsRange(rows, pipeline, dirs, mem, to, logs)
  {
    var filters := map id | id in sources :: sources[id].filter;
    AnswersHoldEachOnce(env.chain, filters, dirs, listing, ids, CursorBound(mem), to, logs);
  }

  /** The saved cursor once the writes behind the first n logs have succeeded. */
  function SavedAfter(row: Cursor, logs: seq<Row>, n: nat): Cursor
    requires n <= |logs|
  {
    if n == 0 then row else CursorAfterLog(logs[n - 1].log.At())
  }

  /** After a restart behind the first of some pending logs, exactly the others are asked for
      again, if and only if the first shares its position with none of them: a second source's
      copy of the same log is passed over. */
  lemma RestartResumes(pending: seq<Row>, to: nat)
    requires pending != [] && SortedRows(pending)
    requires forall r | r in pending :: 1 <= r.log.block <= to && r.log.block < TWO64 && r.log.index < TWO63
    ensures Select(pending, CursorBound(CursorAfterLog(pending[0].log.At())), to) == pending[1..]
       <==> |pending| == 1 || pending[1].log.At() != pending[0].log.At()
  {
    var at := pending[0].log.At();
    assert pending[0] in pending;
    BoundUndoesDelivery(at);
    SelectConcat([pending[0]], pending[1..], at, to);
    assert pending == [pending[0]] + pending[1..];
    assert Select([pending[0]], at, to) == [] by {
      assert [pending[0]][..0] == [];
    }
    if |pending| > 1 && pending[1].log.At() == at {
      assert pending[1] in pending[1..];
      SelectMembers(pending[1..], at, to, pending[1]);
    } else {
      forall r | r in pending[1..]
        ensures r.log.block <= to && Less(at, r.log.At())
      {
        var i :| 0 <= i < |pending[1..]| && pending[1..][i] == r;
        assert pending[i + 1] == r && pending[i + 1] in pending;
        assert AtMost(at, pending[1].log.At());
        assert i == 0 || AtMost(pending[1].log.At(), pending[i + 1].log.At());
      }
      SelectAll(pending[1..], at, to);
    }
  }

  lemma {:induction false} SelectAll(rows: seq<Row>, bound: Position, to: nat)
    requires forall r | r in rows :: r.log.block <= to && Less(bound, r.log.At())
    ensures Select(rows, bound, to) == rows
  {
    if rows != [] {
      assert rows == rows[..|rows| - 1] + [rows[|rows| - 1]];
      SelectAll(rows[..|rows| - 1], bound, to);
    }
  }
}
