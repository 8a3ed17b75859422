/** A source worker's own code: one window, the registration of factory children, the poll loop. */
module Indexer {
  import opened Positions
  import opened Chain
  import opened Rules
  import opened StoreLaws
  import opened Windows
  import PS = ParquetStore
  import P = Pipeline

  /** What can go wrong with one (log, rule) pair: the database refuses, or the copying of the
      rule's nested rules stops half-way. */
  datatype PairFault = Refused | CopyStops(copied: nat)

  /** What can go wrong with one window. */
  datatype Fault =
    | NoFault
    | FetchFails
    | WriteFails(fate: PS.Fate)
    | PairFails(pair: nat, fault: PairFault)
    | TransactionsFail
    | CursorFails

  /** What the rest of the system may change while a worker is at work, and how far it has got. */
  datatype Shared = Shared(turn: nat, sources: map<nat, P.Source>, nextId: nat, headSeen: nat, exp: P.Exporter)

  /** The pipeline's state, given what a worker's own source is. */
  function View(id: nat, x: Shared, own: P.Source): P.State {
    P.State(x.sources[id := own], x.nextId, x.headSeen, x.exp)
  }

  predicate FreshId(sources: map<nat, P.Source>, nextId: nat) {
    forall s | s in sources :: s < nextId
  }

  /** The others add sources, and move those that are not this worker's own. */
  ghost predicate Later(id: nat, x: Shared, y: Shared) {
    && FreshId(y.sources, y.nextId)
    && (forall s | s in x.sources :: s in y.sources && (s != id ==> x.sources[s].SameAs(y.sources[s])))
  }

  /** What the others may do while this worker's source is as it is: add sources and move others,
      from a state of the set to a state of the set. */
  ghost predicate Allowed(id: nat, x: Shared, own: P.Source, y: Shared, reached: iset<P.State>) {
    Later(id, x, y) && View(id, y, own) in reached
  }

  /** The others only do what they may, whatever they find. */
  ghost predicate Respectful(id: nat, others: (Shared, P.Source) -> Shared, reached: iset<P.State>) {
    forall x: Shared, own {:trigger others(x, own)} | id in x.sources && FreshId(x.sources, x.nextId) && View(id, x, own) in reached ::
      Allowed(id, x, own, others(x, own), reached)
  }

  lemma OthersStay(id: nat, others: (Shared, P.Source) -> Shared, reached: iset<P.State>, x: Shared, own: P.Source)
    requires Respectful(id, others, reached) && id in x.sources && FreshId(x.sources, x.nextId) && View(id, x, own) in reached
    ensures Allowed(id, x, own, others(x, own), reached)
  {
  }

  // ---- which behaviours of the others these are --------------------------------------------

  /** The same behaviour but for one situation. */
  function Except(others: (Shared, P.Source) -> Shared, x: Shared, own: P.Source, y: Shared): (Shared, P.Source) -> Shared {
    (z: Shared, s: P.Source) => if z == x && s == own then y else others(z, s)
  }

  /** To stand still is respectful; and any respectful behaviour stays so with anything allowed put
      in its place in one situation. Situations count their turns, so these are all schedules. */
  lemma SchedulesAreRespectful(id: nat, others: (Shared, P.Source) -> Shared, x: Shared, own: P.Source, y: Shared, reached: iset<P.State>)
    ensures Respectful(id, (z: Shared, s: P.Source) => z, reached)
    ensures Respectful(id, others, reached) && Allowed(id, x, own, y, reached) ==> Respectful(id, Except(others, x, own, y), reached)
    ensures Except(others, x, own, y)(x, own) == y
  {
    if Respectful(id, others, reached) && Allowed(id, x, own, y, reached) {
      var f := Except(others, x, own, y);
      forall z: Shared, s | id in z.sources && FreshId(z.sources, z.nextId) && View(id, z, s) in reached
        ensures Allowed(id, z, s, f(z, s), reached)
      {
        OthersStay(id, others, reached, z, s);
      }
    }
  }

  lemma AllowedTwice(id: nat, x: Shared, own: P.Source, y: Shared, z: Shared, reached: iset<P.State>)
    requires id in x.sources && Allowed(id, x, own, y, reached) && Allowed(id, y, own, z, reached)
    ensures Allowed(id, x, own, z, reached)
  {
  }

  /** A step of another worker or of the exporter. */
  predicate OfOthers(id: nat, a: P.Action) {
    !a.ProcessDies? && (P.IsSourceStep(a) || a.PairHandled? ==> a.id != id)
  }

  /** What the others leave behind in a state of the pipeline. */
  function SharedAfter(id: nat, x: Shared, st: P.State): Shared
    requires id in x.sources
  {
    Shared(x.turn + 1, st.sources[id := x.sources[id]], st.nextId, st.headSeen, st.exp)
  }

  /** Any step of the others is allowed: of another worker, also one that registers children, and of
      the exporter, also one that plans a range as far as this source's cursor lets it. */
  lemma OthersStep(env: P.Env, id: nat, x: Shared, own: P.Source, a: P.Action, st': P.State, reached: iset<P.State>)
    requires P.Closed(env, reached) && id in x.sources && FreshId(x.sources, x.nextId) && x.sources[id].SameAs(own)
    requires View(id, x, own) in reached && OfOthers(id, a) && P.Step(env, View(id, x, own), a, st')
    ensures Allowed(id, x, own, SharedAfter(id, x, st'), reached) && View(id, SharedAfter(id, x, st'), own) == st'
  {
    P.Moves(env, reached, View(id, x, own), a, st');
    OthersKeepOwn(env, View(id, x, own), a, st', id);
    ViewAfter(id, x, own, st');
  }

  /** So each of them is taken by some respectful behaviour. */
  lemma AnyStepIsTaken(env: P.Env, id: nat, x: Shared, own: P.Source, a: P.Action, st': P.State, reached: iset<P.State>)
    returns (others: (Shared, P.Source) -> Shared)
    requires P.Closed(env, reached) && id in x.sources && FreshId(x.sources, x.nextId) && x.sources[id].SameAs(own)
    requires View(id, x, own) in reached && OfOthers(id, a) && P.Step(env, View(id, x, own), a, st')
    ensures Respectful(id, others, reached) && View(id, others(x, own), own) == st'
  {
    var still, y := (z: Shared, s: P.Source) => z, SharedAfter(id, x, st');
    OthersStep(env, id, x, own, a, st', reached);
    SchedulesAreRespectful(id, still, x, own, y, reached);
    others := Except(still, x, own, y);
  }

  lemma ViewAfter(id: nat, x: Shared, own: P.Source, st': P.State)
    requires id in x.sources && FreshId(x.sources, x.nextId)
    requires id in st'.sources && st'.sources[id] == own && FreshId(st'.sources, st'.nextId)
    requires forall s | s in View(id, x, own).sources :: s in st'.sources && View(id, x, own).sources[s].SameAs(st'.sources[s])
    ensures View(id, SharedAfter(id, x, st'), own) == st' && Later(id, x, SharedAfter(id, x, st'))
  {
    var y := SharedAfter(id, x, st');
    assert y.sources[id := own] == st'.sources;
    forall s | s in x.sources
      ensures s in y.sources && (s != id ==> x.sources[s].SameAs(y.sources[s]))
    {
      assert s in View(id, x, own).sources;
    }
  }

  lemma OthersKeepOwn(env: P.Env, st: P.State, a: P.Action, st': P.State, id: nat)
    requires P.Step(env, st, a, st') && OfOthers(id, a) && id in st.sources && FreshId(st.sources, st.nextId)
    ensures id in st'.sources && st'.sources[id] == st.sources[id] && FreshId(st'.sources, st'.nextId)
    ensures forall s | s in st.sources :: s in st'.sources && st.sources[s].SameAs(st'.sources[s])
  {
  }

  /** The methods take a set of pipeline states that no step leaves, and end in it if they begin in
      it: whatever fails, and whatever the others do between any two effects, the code only ever
      takes steps of the pipeline. */
  class Service {
    const id: nat
    const env: P.Env
    const store: PS.Store
    var syncBlock: nat                 // the source's cursor as the worker holds it
    var sources: map<nat, P.Source>    // the shared table; its entry for this source lacks what the worker holds
    var nextId: nat
    var headSeen: nat                  // nothing below is looked at by this worker
    var exp: P.Exporter
    const others: (Shared, P.Source) -> Shared     // what the rest of the system does in one turn
    var turn: nat

    constructor (id: nat, env: P.Env, store: PS.Store, sources: map<nat, P.Source>, nextId: nat, headSeen: nat, exp: P.Exporter,
        others: (Shared, P.Source) -> Shared)
      requires id in sources && FreshId(sources, nextId)
      ensures Valid() && this.id == id && this.env == env && this.store == store && syncBlock == sources[id].sync
      ensures this.sources == sources && this.nextId == nextId && this.headSeen == headSeen && this.exp == exp
      ensures this.others == others
    {
      this.id, this.env, this.store, this.syncBlock := id, env, store, sources[id].sync;
      this.sources, this.nextId, this.headSeen, this.exp := sources, nextId, headSeen, exp;
      this.others, this.turn := others, 0;
    }

    ghost predicate Valid()
      reads this
    {
      id in sources && FreshId(sources, nextId)
    }

    /** The source as the pipeline sees it: its row, its cursor in memory, its files, its worker. */
    function Own(w: P.Worker): P.Source
      requires Valid()
      reads this, store
    {
      sources[id].(mem := syncBlock, dir := PS.DirOf(store.dirs, id), worker := w)
    }

    ghost function State(w: P.Worker): P.State
      requires Valid()
      reads this, store
    {
      P.State(sources[id := Own(w)], nextId, headSeen, exp)
    }

    ghost predicate Within(reached: iset<P.State>) {
      P.Closed(env, reached) && Respectful(id, others, reached)
    }

    /** The rest of the system moves; this worker's own source stays as it is. */
    method OthersMove(w: P.Worker, ghost reached: iset<P.State>)
      requires Valid() && Within(reached) && State(w) in reached
      modifies this`sources, this`nextId, this`headSeen, this`exp, this`turn
      ensures Valid() && MoreSources(old(sources), sources, id) && State(w) in reached
    {
      var own, x := Own(w), Shared(turn, sources, nextId, headSeen, exp);
      OthersStay(id, others, reached, x, own);
      x := others(x, own);
      sources, nextId, headSeen, exp := x.sources[id := sources[id]], x.nextId, x.headSeen, x.exp;
      turn := turn + 1;
      assert State(w) == View(id, x, own) by {
        assert sources[id := own] == x.sources[id := own];
      }
    }

    /** The pair the worker has come to. */
    ghost predicate AtPair(w: P.Worker, l: Log, r: Rule)
      requires Valid() && w.Stored?
      reads this
    {
      var pairs := P.WindowPairs(env, sources[id], w.lo, w.hi);
      w.done < |pairs| && pairs[w.done] == (l, r)
    }

    lemma Fails(w: P.Worker, reached: iset<P.State>)
      requires Valid() && Within(reached) && State(w) in reached
      ensures State(P.Down) in reached
    {
      assert State(P.Down).sources == State(w).sources[id := Own(P.Down)];
      P.Moves(env, reached, State(w), P.WorkerFails(id), State(P.Down));
    }

    lemma SeesHead(latest: nat, head: nat, reached: iset<P.State>)
      requires Valid() && Within(reached) && State(P.Polling(latest)) in reached
      requires head + env.blockRange < MAX_UINT64
      ensures var w := if head <= latest || head - latest < env.blockSlice then P.Polling(latest) else P.Scanning(latest + 1, head);
              State(w).(headSeen := if head > headSeen then head else headSeen) in reached
    {
      var w := if head <= latest || head - latest < env.blockSlice then P.Polling(latest) else P.Scanning(latest + 1, head);
      var after := State(w).(headSeen := if head > headSeen then head else headSeen);
      assert after.sources == State(P.Polling(latest)).sources[id := after.sources[id]];
      P.Moves(env, reached, State(P.Polling(latest)), P.HeadSeen(id, head), after);
    }

    /** Creates the source for a newly deployed contract unless this factory has it already. */
    method RegisterFactoryChild(r: Rule, a: string, startBlock: nat, copyStops: Option<nat>) returns (ok: bool)
      requires Valid() && startBlock >= 1
      modifies this`sources, this`nextId
      ensures Valid() && P.HasChild(sources, id, a)
      ensures old(P.HasChild(sources, id, a)) ==> ok && sources == old(sources) && nextId == old(nextId)
      ensures !old(P.HasChild(sources, id, a)) ==>
                && ok == (ChildTypeOf(r) == FACTORY ==> copyStops.None?)
                && nextId == old(nextId) + 1
                && sources == old(sources)[old(nextId) := P.Spawn(id, old(sources[id]), r, a, startBlock, P.CopiedRules(r, Copies(r, copyStops)))]
                && (copyStops.None? ==> sources[old(nextId)].rules == Nested(r))
    {
      if P.HasChild(sources, id, a) {
        return true;
      }
      var child := P.Spawn(id, sources[id], r, a, startBlock, P.CopiedRules(r, Copies(r, copyStops)));
      FirstRulesAreAll(r.children, Copies(r, copyStops));
      assert child.parent == id && child.filter == ByAddress(a);
      sources := sources[nextId := child];
      assert sources[nextId] == child;
      nextId := nextId + 1;
      if ChildTypeOf(r) == FACTORY && copyStops.Some? {
        return false;
      }
      return true;
    }

    /** One turn of the loop over logs and rules. */
    method HandlePair(l: Log, r: Rule, w: P.Worker, fault: Option<PairFault>, ghost reached: iset<P.State>)
      returns (ok: bool)
      requires Valid() && Within(reached) && w.Stored? && l.block >= 1
      requires AtPair(w, l, r) && State(w) in reached
      modifies this`sources, this`nextId, this`headSeen, this`exp, this`turn
      ensures Valid() && MoreSources(old(sources), sources, id)
      ensures ok ==> Done(env, sources, id, l, r)
      ensures State(if ok then w.(done := w.done + 1) else P.Down) in reached
    {
      hide Respectful, P.Pairs, Fetch, P.HasChild;
      OthersMove(w, reached);
      match env.trigger(r, l.DecodedBy(sources[id].abi))
      case None =>
        ghost var next := State(w.(done := w.done + 1));
        assert next.sources == State(w).sources[id := next.sources[id]];
        P.Moves(env, reached, State(w), P.PairHandled(id, 0), next);
        ok := true;
      case Some(a) =>
        if fault == Some(Refused) {
          Fails(w, reached);
          return false;
        }
        ok := HandleDeployment(l, r, a, w, if fault.Some? then Some(fault.value.copied) else None, reached);
    }

    method HandleDeployment(l: Log, r: Rule, a: string, w: P.Worker, stops: Option<nat>, ghost reached: iset<P.State>)
      returns (ok: bool)
      requires Valid() && Within(reached) && w.Stored? && l.block >= 1
      requires AtPair(w, l, r) && State(w) in reached && env.trigger(r, l.DecodedBy(sources[id].abi)) == Some(a)
      modifies this`sources, this`nextId, this`headSeen, this`exp, this`turn
      ensures Valid() && MoreSources(old(sources), sources, id)
      ensures P.HasChild(sources, id, a)
      ensures State(if ok then w.(done := w.done + 1) else P.Down) in reached
    {
      hide P.Step, P.Pairs, P.HasChild, P.CopiedRules, Fetch, Respectful;
      var next := w.(done := w.done + 1);
      ghost var st, copied := State(w), Copies(r, stops);
      ghost var had, child := P.HasChild(sources, id, a), P.Spawn(id, sources[id], r, a, l.block, P.CopiedRules(r, copied));
      ok := RegisterFactoryChild(r, a, l.block, stops);
      ghost var after := if had || P.CopiedWhole(r, copied) then next else P.Down;
      SameChildren(old(sources), id, st.sources[id], a);
      assert State(after).sources == if had then st.sources[id := Own(after)] else st.sources[id := Own(after)][st.nextId := child];
      P.DeploymentIsStep(env, st, id, l, r, a, copied, State(after));
      P.Moves(env, reached, st, P.PairHandled(id, copied), State(after));
      if !ok {
        Fails(after, reached);
      }
    }

    /** Goes through every log of a window with every rule of this factory, in order. */
    method RegisterFactoryChildren(logs: seq<Log>, w: P.Worker, fault: Fault, ghost reached: iset<P.State>)
      returns (ok: bool)
      requires Valid() && Within(reached) && w.Stored? && w.done == 0 && sources[id].factory
      requires logs == Fetch(env.chain, sources[id].filter, w.lo, w.hi) && forall l | l in logs :: l.block >= 1
      requires State(w) in reached
      modifies this`sources, this`nextId, this`headSeen, this`exp, this`turn
      ensures Valid() && MoreSources(old(sources), sources, id)
      ensures ok ==> Registered(env, sources, id, logs, sources[id].rules)
      ensures State(if ok then w.(done := |P.WindowPairs(env, sources[id], w.lo, w.hi)|) else P.Down) in reached
    {
      hide Within, State, Own, Done;
      for i := 0 to |logs|
        invariant Valid() && MoreSources(old(sources), sources, id)
        invariant State(w.(done := |P.Pairs(logs[..i], sources[id].rules)|)) in reached
        invariant Registered(env, sources, id, logs[..i], sources[id].rules)
      {
        ghost var before := sources;
        ok := RegisterFromLog(logs, i, w, fault, reached);
        if !ok {
          return;
        }
        RegisteredKept(env, before, sources, id, logs[..i], sources[id].rules);
        assert logs[..i + 1] == logs[..i] + [logs[i]];
      }
      assert logs[..|logs|] == logs;
      ok := true;
    }

    method RegisterFromLog(logs: seq<Log>, i: nat, w: P.Worker, fault: Fault, ghost reached: iset<P.State>)
      returns (ok: bool)
      requires Valid() && Within(reached) && w.Stored? && sources[id].factory
      requires logs == Fetch(env.chain, sources[id].filter, w.lo, w.hi) && i < |logs| && logs[i].block >= 1
      requires State(w.(done := |P.Pairs(logs[..i], sources[id].rules)|)) in reached
      modifies this`sources, this`nextId, this`headSeen, this`exp, this`turn
      ensures Valid() && MoreSources(old(sources), sources, id)
      ensures ok ==> Registered(env, sources, id, [logs[i]], sources[id].rules)
      ensures State(if ok then w.(done := |P.Pairs(logs[..i + 1], sources[id].rules)|) else P.Down) in reached
    {
      hide P.Pairs, P.RowPairs, Within, State, Own, Done;
      var rules := sources[id].rules;
      var base := |P.Pairs(logs[..i], rules)|;
      for j := 0 to |rules|
        invariant Valid() && MoreSources(old(sources), sources, id)
        invariant State(w.(done := base + j)) in reached
        invariant Registered(env, sources, id, [logs[i]], rules[..j])
      {
        ghost var before := sources;
        P.PairsOfLog(logs, rules, i, j);
        var failing := if fault.PairFails? && fault.pair == base + j then Some(fault.fault) else None;
        ok := HandlePair(logs[i], rules[j], w.(done := base + j), failing, reached);
        if !ok {
          return;
        }
        RegisteredStep(env, before, sources, id, logs[i], rules, j);
      }
      assert rules[..|rules|] == rules;
      P.PairsLength(logs, rules, i);
      ok := true;
    }

    method StoreLogs(lo: nat, hi: nat, logs: seq<Log>, fate: PS.Fate) returns (ok: bool)
      requires Valid() && logs == Fetch(env.chain, sources[id].filter, lo, hi)
      modifies store
      ensures ok == (logs == [] || fate.Renamed?)
      ensures PS.DirOf(store.dirs, id)
           == ApplyWrite(env.chain, sources[id].filter, id, old(PS.DirOf(store.dirs, id)), OpOf(id, lo, hi, logs, fate))
      ensures OthersFiles(old(store.dirs), store.dirs, id)
    {
      hide ApplyWrite, PS.Put, Fetch;
      ok := true;
      ghost var before := store.dirs;
      if |logs| > 0 {
        OneGroup(id, logs);
        ok := store.InsertLogs(Stamp(id, logs), map[id := fate]);
        assert id in PS.SourcesOf(Stamp(id, logs)) && PS.FateOf(map[id := fate], id) == fate;
      }
      StoredIsApplied(env.chain, sources[id].filter, id, PS.DirOf(before, id), PS.DirOf(store.dirs, id), lo, hi, logs, fate);
    }

    /** Stores the logs of one window, if there are any. */
    method WriteWindow(lo: nat, hi: nat, head: nat, logs: seq<Log>, fate: PS.Fate, ghost reached: iset<P.State>) returns (ok: bool)
      requires Valid() && Within(reached) && State(P.Fetched(lo, hi, head)) in reached
      requires logs == Fetch(env.chain, sources[id].filter, lo, hi)
      modifies this`sources, this`nextId, this`headSeen, this`exp, this`turn, store
      ensures Valid() && MoreSources(old(sources), sources, id)
      ensures ok == (logs == [] || fate.Renamed?)
      ensures PS.DirOf(store.dirs, id)
           == ApplyWrite(env.chain, sources[id].filter, id, old(PS.DirOf(store.dirs, id)), OpOf(id, lo, hi, logs, fate))
      ensures OthersFiles(old(store.dirs), store.dirs, id)
      ensures State(if ok then P.Stored(lo, hi, head, 0) else P.Down) in reached
    {
      OthersMove(P.Fetched(lo, hi, head), reached);
      ghost var st := State(P.Fetched(lo, hi, head));
      ok := StoreLogs(lo, hi, logs, fate);
      ghost var after := State(if ok then P.Stored(lo, hi, head, 0) else P.Down);
      assert after.sources == st.sources[id := after.sources[id]];
      P.Moves(env, reached, st,
              if ok then P.WindowWritten(id) else if fate.NotWritten? then P.WriteFails(id) else P.WriterDies(id, Stamp(id, logs)),
              after);
    }

    /** Moves the source's cursor, in memory and then in its row. */
    method SaveCursor(lo: nat, hi: nat, head: nat, fails: bool, ghost reached: iset<P.State>) returns (ok: bool)
      requires Valid() && Within(reached)
      requires State(P.Stored(lo, hi, head, |P.WindowPairs(env, sources[id], lo, hi)|)) in reached
      modifies this`syncBlock, this`sources, this`nextId, this`headSeen, this`exp, this`turn
      ensures Valid() && syncBlock == hi && ok == !fails
      ensures Moved(old(sources), sources, id, if ok then hi else old(sources[id].sync))
      ensures State(if ok then Next(hi, head) else P.Down) in reached
    {
      hide Within, State, Own, P.WindowPairs, Kept;
      ghost var before := sources;
      OthersMove(P.Stored(lo, hi, head, |P.WindowPairs(env, sources[id], lo, hi)|), reached);
      ghost var mid := sources;
      MoveCursor(lo, hi, head, reached);
      if fails {
        Fails(P.Committed(hi, head), reached);
        return false;
      }
      OthersMove(P.Committed(hi, head), reached);
      MovedAtLast(before, mid, sources, id, hi);
      ok := SaveRow(hi, head, reached);
    }

    method MoveCursor(lo: nat, hi: nat, head: nat, ghost reached: iset<P.State>)
      requires Valid() && Within(reached)
      requires State(P.Stored(lo, hi, head, |P.WindowPairs(env, sources[id], lo, hi)|)) in reached
      modifies this`syncBlock
      ensures Valid() && syncBlock == hi && State(P.Committed(hi, head)) in reached
    {
      ghost var st := State(P.Stored(lo, hi, head, |P.WindowPairs(env, sources[id], lo, hi)|));
      syncBlock := hi;
      ghost var moved := State(P.Committed(hi, head));
      assert moved.sources == st.sources[id := moved.sources[id]];
      P.Moves(env, reached, st, P.CursorMoved(id), moved);
    }

    method SaveRow(hi: nat, head: nat, ghost reached: iset<P.State>) returns (ok: bool)
      requires Valid() && Within(reached) && syncBlock == hi && State(P.Committed(hi, head)) in reached
      modifies this`sources
      ensures ok && Valid() && sources == old(sources)[id := old(sources[id]).(sync := hi)]
      ensures State(Next(hi, head)) in reached
    {
      ghost var st := State(P.Committed(hi, head));
      sources := sources[id := sources[id].(sync := hi)];
      ghost var saved := State(Next(hi, head));
      assert saved.sources == st.sources[id := saved.sources[id]];
      P.Moves(env, reached, st, P.CursorSaved(id), saved);
      return true;
    }

    /** One window: fetch, store, register the children it announces, and only then move the
        cursor. A failure anywhere leaves the cursor in the row as it was. */
    method IndexRange(lo: nat, hi: nat, head: nat, fault: Fault, ghost reached: iset<P.State>) returns (ok: bool)
      requires Valid() && Within(reached) && State(P.Scanning(lo, head)) in reached
      requires 1 <= lo <= hi <= head && hi == (if lo + env.blockRange - 1 > head then head else lo + env.blockRange - 1)
      modifies this`syncBlock, this`sources, this`nextId, this`headSeen, this`exp, this`turn, store
      ensures Valid()
      ensures Moved(old(sources), sources, id, if ok then hi else old(sources[id].sync))
      ensures ok ==> syncBlock == hi
      ensures ok ==>
                PS.DirOf(store.dirs, id)
                == ApplyWrite(env.chain, old(sources[id]).filter, id, old(PS.DirOf(store.dirs, id)), WriteOp.Written(lo, hi))
      ensures OthersFiles(old(store.dirs), store.dirs, id)
      ensures ok && sources[id].factory ==>
                Registered(env, sources, id, Fetch(env.chain, sources[id].filter, lo, hi), sources[id].rules)
      ensures State(if ok then Next(hi, head) else P.Down) in reached
    {
      hide Respectful, P.Closed, ApplyWrite, Registered;
      OthersMove(P.Scanning(lo, head), reached);
      if fault.FetchFails? {
        Fails(P.Scanning(lo, head), reached);
        return false;
      }
      var logs := Fetch(env.chain, sources[id].filter, lo, hi);
      Fetches(lo, hi, head, reached);
      ok := WriteWindow(lo, hi, head, logs, if fault.WriteFails? then fault.fate else PS.Renamed, reached);
      if !ok {
        return;
      }
      ok := Register(lo, hi, head, logs, fault, reached);
      if !ok {
        return;
      }
      ghost var before := sources;
      ok := SaveCursor(lo, hi, head, fault.CursorFails?, reached);
      if ok && sources[id].factory {
        RegisteredKept(env, before, sources, id, logs, sources[id].rules);
      }
    }

    lemma Fetches(lo: nat, hi: nat, head: nat, reached: iset<P.State>)
      requires Valid() && Within(reached) && State(P.Scanning(lo, head)) in reached
      requires 1 <= lo <= hi <= head && hi == (if lo + env.blockRange - 1 > head then head else lo + env.blockRange - 1)
      ensures State(P.Fetched(lo, hi, head)) in reached
    {
      var st := State(P.Fetched(lo, hi, head));
      assert st.sources == State(P.Scanning(lo, head)).sources[id := st.sources[id]];
      P.Moves(env, reached, State(P.Scanning(lo, head)), P.WindowFetched(id), st);
    }

    /** What comes between storing a window and moving the cursor: the children it announces, if the
        source is a factory, and its transactions. */
    method Register(lo: nat, hi: nat, head: nat, logs: seq<Log>, fault: Fault, ghost reached: iset<P.State>) returns (ok: bool)
      requires Valid() && Within(reached) && lo >= 1 && State(P.Stored(lo, hi, head, 0)) in reached
      requires logs == Fetch(env.chain, sources[id].filter, lo, hi)
      modifies this`sources, this`nextId, this`headSeen, this`exp, this`turn
      ensures Valid() && MoreSources(old(sources), sources, id)
      ensures ok && sources[id].factory ==> Registered(env, sources, id, logs, sources[id].rules)
      ensures State(if ok then P.Stored(lo, hi, head, |P.WindowPairs(env, sources[id], lo, hi)|) else P.Down) in reached
    {
      FetchMembers(env.chain, sources[id].filter, lo, hi);
      if |logs| > 0 && sources[id].factory {
        ok := RegisterFactoryChildren(logs, P.Stored(lo, hi, head, 0), fault, reached);
        if !ok {
          return;
        }
      }
      if fault.TransactionsFail? {
        Fails(P.Stored(lo, hi, head, |P.WindowPairs(env, sources[id], lo, hi)|), reached);
        return false;
      }
      ok := true;
    }

    /** Once the head has moved far enough, indexes every block up to it, window by window: cut are
        the windows that it has written. */
    method Poll(latest: nat, head: nat, faults: map<nat, Fault>, ghost reached: iset<P.State>)
      returns (ok: bool, now: nat, ghost cut: seq<Range>)
      requires Valid() && Within(reached) && State(P.Polling(latest)) in reached
      requires env.blockRange >= 1 && head + env.blockRange < MAX_UINT64
      modifies this`syncBlock, this`sources, this`nextId, this`headSeen, this`exp, this`turn, store
      ensures Valid() && Untouched(old(sources), old(store.dirs), sources, store.dirs, id)
      ensures ok ==> Served(env, old(sources), old(store.dirs), sources, store.dirs, id, cut, latest, now, syncBlock)
      ensures ok ==> now == if head <= latest || head - latest < env.blockSlice then latest else head
      ensures ok && now == latest ==> syncBlock == old(syncBlock) && sources[id] == old(sources[id])
      ensures State(if ok then P.Polling(now) else P.Down) in reached
    {
      SeesHead(latest, head, reached);
      headSeen := if head > headSeen then head else headSeen;
      if head <= latest || head - latest < env.blockSlice {
        return true, latest, [];
      }
      cut := WindowsOf(latest + 1, head, env.blockRange);
      WindowsTile(latest + 1, head, env.blockRange);
      ok := IndexWindows(latest, head, faults, reached);
      now := head;
    }

    method IndexWindows(latest: nat, head: nat, faults: map<nat, Fault>, ghost reached: iset<P.State>) returns (ok: bool)
      requires Valid() && Within(reached) && latest < head && State(P.Scanning(latest + 1, head)) in reached
      requires env.blockRange >= 1 && head + env.blockRange < MAX_UINT64
      modifies this`syncBlock, this`sources, this`nextId, this`headSeen, this`exp, this`turn, store
      ensures Valid() && Untouched(old(sources), old(store.dirs), sources, store.dirs, id)
      ensures ok ==> PS.DirOf(store.dirs, id) == Applied(env.chain, old(sources[id]).filter, id, old(PS.DirOf(store.dirs, id)),
                                                         WindowsOf(latest + 1, head, env.blockRange))
      ensures ok ==> syncBlock == sources[id].sync == head
      ensures State(if ok then P.Polling(head) else P.Down) in reached
    {
      hide Respectful, P.Closed, Filled, ApplyWrite;
      ghost var write := Writer(env.chain, sources[id].filter, id);
      ghost var target := Filled(write, PS.DirOf(store.dirs, id), latest + 1, head, env.blockRange);
      FilledIsFold(write, PS.DirOf(store.dirs, id), latest + 1, head, env.blockRange);
      var next := latest + 1;
      while next <= head
        invariant Valid() && latest < next && Untouched(old(sources), old(store.dirs), sources, store.dirs, id)
        invariant Filled(write, PS.DirOf(store.dirs, id), next, head, env.blockRange) == target
        invariant next > head ==> syncBlock == sources[id].sync == head
        invariant State(if next <= head then P.Scanning(next, head) else P.Polling(head)) in reached
        decreases head + 1 - next
      {
        ghost var rows, dirs := sources, store.dirs;
        ok := IndexNext(next, head, faults, reached);
        FilledStep(write, dirs, store.dirs, id, next, head, env.blockRange, ok);
        StillUntouched(old(sources), old(store.dirs), rows, dirs, sources, store.dirs, id);
        if !ok {
          return;
        }
        next := NextWindow(next, env.blockRange);
      }
      FilledEnds(write, PS.DirOf(store.dirs, id), next, head, env.blockRange);
      ok := true;
    }

    method IndexNext(next: nat, head: nat, faults: map<nat, Fault>, ghost reached: iset<P.State>) returns (ok: bool)
      requires Valid() && Within(reached) && State(P.Scanning(next, head)) in reached
      requires env.blockRange >= 1 && 1 <= next <= head
      modifies this`syncBlock, this`sources, this`nextId, this`headSeen, this`exp, this`turn, store
      ensures Valid() && Untouched(old(sources), old(store.dirs), sources, store.dirs, id)
      ensures ok ==>
                PS.DirOf(store.dirs, id)
                == Writer(env.chain, old(sources[id]).filter, id)(old(PS.DirOf(store.dirs, id)), FirstWindow(next, head, env.blockRange))
      ensures ok && NextWindow(next, env.blockRange) > head ==> syncBlock == sources[id].sync == head
      ensures var after := NextWindow(next, env.blockRange);
              State(if !ok then P.Down else if after <= head then P.Scanning(after, head) else P.Polling(head)) in reached
    {
      var hi := NextWindow(next, env.blockRange) - 1;
      if hi > head {
        hi := head;
      }
      assert FirstWindow(next, head, env.blockRange) == Range(next, hi);
      ok := IndexRange(next, hi, head, if next in faults then faults[next] else NoFault, reached);
    }

    /** The worker's loop over the heads it is told of: the windows it writes follow each other
        without gap or overlap, from the block after its cursor to the last head it acted on. */
    method ServeIndexation(heads: seq<nat>, faults: map<nat, Fault>, ghost reached: iset<P.State>)
      returns (ok: bool, latest: nat, ghost cut: seq<Range>)
      requires Valid() && Within(reached) && State(P.Down) in reached
      requires env.blockRange >= 1 && forall h | h in heads :: h + env.blockRange < MAX_UINT64
      modifies this`syncBlock, this`sources, this`nextId, this`headSeen, this`exp, this`turn, store
      ensures Valid() && Untouched(old(sources), old(store.dirs), sources, store.dirs, id)
      ensures ok ==> Served(env, old(sources), old(store.dirs), sources, store.dirs, id, cut, old(Own(P.Down).Cur()), latest, syncBlock)
      ensures State(if ok then P.Polling(latest) else P.Down) in reached
    {
      latest := syncBlock;
      if latest < sources[id].start {
        latest := sources[id].start;
      }
      cut := [];
      Starts(latest, reached);
      ghost var from := latest;
      for k := 0 to |heads|
        invariant Valid() && State(P.Polling(latest)) in reached
        invariant Served(env, old(sources), old(store.dirs), sources, store.dirs, id, cut, from, latest, syncBlock)
      {
        ghost var rows, dirs, sync := sources, store.dirs, syncBlock;
        assert heads[k] in heads;
        OthersMove(P.Polling(latest), reached);
        var now;
        ghost var mid, more := sources, [];
        ok, now, more := Poll(latest, heads[k], faults, reached);
        ServedMore(env, old(sources), old(store.dirs), rows, dirs, mid, sources, store.dirs, id, cut, more, from, latest, now, sync, syncBlock, ok);
        if !ok {
          return;
        }
        cut, latest := cut + more, now;
      }
      ok := true;
    }

    lemma Starts(latest: nat, reached: iset<P.State>)
      requires Valid() && Within(reached) && State(P.Down) in reached && latest == Own(P.Down).Cur()
      ensures State(P.Polling(latest)) in reached
    {
      var started := State(P.Polling(latest));
      assert started.sources == State(P.Down).sources[id := started.sources[id]];
      P.Moves(env, reached, State(P.Down), P.WorkerStarts(id), started);
    }
  }

  /** No source goes or becomes another, this one's row keeps all but its saved cursor, and the
      files of all other sources are as they were. */
  ghost predicate Untouched(rows: map<nat, P.Source>, dirs: map<nat, PS.Dir>, rows': map<nat, P.Source>, dirs': map<nat, PS.Dir>, id: nat) {
    && Kept(rows, rows') && id in rows && rows'[id].SameBut(rows[id])
    && OthersFiles(dirs, dirs', id)
  }

  ghost predicate OthersFiles(dirs: map<nat, PS.Dir>, dirs': map<nat, PS.Dir>, id: nat) {
    forall s | s != id :: PS.DirOf(dirs', s) == PS.DirOf(dirs, s)
  }

  /** What has been written to this source's files is exactly these windows, none longer than the
      configured size. */
  ghost predicate Indexed(env: P.Env, rows: map<nat, P.Source>, dirs: map<nat, PS.Dir>,
      rows': map<nat, P.Source>, dirs': map<nat, PS.Dir>, id: nat, cut: seq<Range>)
  {
    && Untouched(rows, dirs, rows', dirs', id)
    && (forall r | r in cut :: r.hi - r.lo < env.blockRange)
    && PS.DirOf(dirs', id) == Applied(env.chain, rows[id].filter, id, PS.DirOf(dirs, id), cut)
  }

  lemma StillUntouched(rows: map<nat, P.Source>, dirs: map<nat, PS.Dir>, mid: map<nat, P.Source>, midDirs: map<nat, PS.Dir>,
      rows': map<nat, P.Source>, dirs': map<nat, PS.Dir>, id: nat)
    requires Untouched(rows, dirs, mid, midDirs, id) && Untouched(mid, midDirs, rows', dirs', id)
    ensures Untouched(rows, dirs, rows', dirs', id)
  {
  }

  /** These windows tile the blocks behind one block up to another, and if there are any, the
      cursor has come to the end of the last. */
  ghost predicate Served(env: P.Env, rows: map<nat, P.Source>, dirs: map<nat, PS.Dir>,
      rows': map<nat, P.Source>, dirs': map<nat, PS.Dir>, id: nat, cut: seq<Range>, from: nat, latest: nat, sync: nat)
  {
    && Indexed(env, rows, dirs, rows', dirs', id, cut)
    && Tiles(cut, from + 1, latest + 1)
    && (cut != [] ==> sync == rows'[id].sync == latest)
  }

  lemma IndexedConcat(env: P.Env, rows: map<nat, P.Source>, dirs: map<nat, PS.Dir>, mid: map<nat, P.Source>, midDirs: map<nat, PS.Dir>,
      rows': map<nat, P.Source>, dirs': map<nat, PS.Dir>, id: nat, a: seq<Range>, b: seq<Range>)
    requires Indexed(env, rows, dirs, mid, midDirs, id, a) && Indexed(env, mid, midDirs, rows', dirs', id, b)
    ensures Indexed(env, rows, dirs, rows', dirs', id, a + b)
  {
    FoldConcat(PS.DirOf(dirs, id), a, b, Writer(env.chain, rows[id].filter, id));
  }

  lemma IndexedLater(env: P.Env, rows: map<nat, P.Source>, mid: map<nat, P.Source>, dirs: map<nat, PS.Dir>,
      rows': map<nat, P.Source>, dirs': map<nat, PS.Dir>, id: nat, cut: seq<Range>)
    requires MoreSources(rows, mid, id) && Indexed(env, mid, dirs, rows', dirs', id, cut)
    ensures Indexed(env, rows, dirs, rows', dirs', id, cut)
  {
  }

  lemma UntouchedLater(rows: map<nat, P.Source>, mid: map<nat, P.Source>, dirs: map<nat, PS.Dir>,
      rows': map<nat, P.Source>, dirs': map<nat, PS.Dir>, id: nat)
    requires MoreSources(rows, mid, id) && Untouched(mid, dirs, rows', dirs', id)
    ensures Untouched(rows, dirs, rows', dirs', id)
  {
  }

  /** After some heads, the others have moved and one more head has been seen. */
  lemma ServedMore(env: P.Env, rows0: map<nat, P.Source>, dirs0: map<nat, PS.Dir>, rows: map<nat, P.Source>, dirs: map<nat, PS.Dir>,
      mid: map<nat, P.Source>, rows': map<nat, P.Source>, dirs': map<nat, PS.Dir>, id: nat,
      cut: seq<Range>, more: seq<Range>, from: nat, latest: nat, now: nat, sync: nat, sync': nat, ok: bool)
    requires Served(env, rows0, dirs0, rows, dirs, id, cut, from, latest, sync) && MoreSources(rows, mid, id)
    requires Untouched(mid, dirs, rows', dirs', id)
    requires ok ==> Served(env, mid, dirs, rows', dirs', id, more, latest, now, sync')
    requires ok && now == latest ==> sync' == sync && rows'[id] == mid[id]
    ensures Untouched(rows0, dirs0, rows', dirs', id)
    ensures ok ==> Served(env, rows0, dirs0, rows', dirs', id, cut + more, from, now, sync')
  {
    hide Kept, OthersFiles, Applied, Tiles;
    UntouchedLater(rows, mid, dirs, rows', dirs', id);
    StillUntouched(rows0, dirs0, rows, dirs, rows', dirs', id);
    if ok {
      IndexedLater(env, rows, mid, dirs, rows', dirs', id, more);
      IndexedConcat(env, rows0, dirs0, rows, dirs, rows', dirs', id, cut, more);
      MoreWindows(cut, more, from + 1, latest + 1, now + 1);
    }
  }

  /** A directory after windows have been written to it one after the other. */
  function Applied(chain: seq<Log>, f: Filter, id: nat, dir: PS.Dir, cut: seq<Range>): PS.Dir {
    Fold(dir, cut, Writer(chain, f, id))
  }

  function Writer(chain: seq<Log>, f: Filter, id: nat): (PS.Dir, Range) -> PS.Dir {
    (dir: PS.Dir, r: Range) => ApplyWrite(chain, f, id, dir, WriteOp.Written(r.lo, r.hi))
  }

  function Fold(dir: PS.Dir, cut: seq<Range>, write: (PS.Dir, Range) -> PS.Dir): PS.Dir {
    if cut == [] then dir else write(Fold(dir, cut[..|cut| - 1], write), cut[|cut| - 1])
  }

  /** A directory after the windows from a block up to the head have been written to it. */
  function Filled(write: (PS.Dir, Range) -> PS.Dir, dir: PS.Dir, next: nat, head: nat, size: nat): PS.Dir
    requires size >= 1
    decreases head + 1 - next
  {
    if next > head then dir else Filled(write, write(dir, FirstWindow(next, head, size)), NextWindow(next, size), head, size)
  }

  lemma FilledStep(write: (PS.Dir, Range) -> PS.Dir, dirs: map<nat, PS.Dir>, dirs': map<nat, PS.Dir>, id: nat, next: nat, head: nat, size: nat, ok: bool)
    requires size >= 1 && next <= head
    requires ok ==> PS.DirOf(dirs', id) == write(PS.DirOf(dirs, id), FirstWindow(next, head, size))
    ensures ok ==> Filled(write, PS.DirOf(dirs', id), NextWindow(next, size), head, size) == Filled(write, PS.DirOf(dirs, id), next, head, size)
  {
  }

  lemma FilledEnds(write: (PS.Dir, Range) -> PS.Dir, dir: PS.Dir, next: nat, head: nat, size: nat)
    requires size >= 1 && next > head
    ensures Filled(write, dir, next, head, size) == dir
  {
  }

  lemma {:induction false} FilledIsFold(write: (PS.Dir, Range) -> PS.Dir, dir: PS.Dir, next: nat, head: nat, size: nat)
    requires size >= 1
    ensures Filled(write, dir, next, head, size) == Fold(dir, WindowsOf(next, head, size), write)
    decreases head + 1 - next
  {
    if next <= head {
      var first := FirstWindow(next, head, size);
      FilledIsFold(write, write(dir, first), NextWindow(next, size), head, size);
      FoldConcat(dir, [first], WindowsOf(NextWindow(next, size), head, size), write);
      assert [first][..0] == [];
      assert Fold(dir, [first], write) == write(Fold(dir, [], write), first) == write(dir, first);
    }
  }

  lemma {:induction false} FoldConcat(dir: PS.Dir, a: seq<Range>, b: seq<Range>, write: (PS.Dir, Range) -> PS.Dir)
    ensures Fold(dir, a + b, write) == Fold(Fold(dir, a, write), b, write)
  {
    if b == [] {
      assert a + b == a;
    } else {
      FoldConcat(dir, a, b[..|b| - 1], write);
      assert (a + b)[..|a + b| - 1] == a + b[..|b| - 1];
    }
  }

  /** Every deployment that a rule recognises in one of the logs has its source. */
  ghost predicate Registered(env: P.Env, sources: map<nat, P.Source>, id: nat, logs: seq<Log>, rules: seq<Rule>)
    requires id in sources
  {
    forall l, r | l in logs && r in rules :: Done(env, sources, id, l, r)
  }

  ghost predicate Done(env: P.Env, sources: map<nat, P.Source>, id: nat, l: Log, r: Rule)
    requires id in sources
  {
    forall a | env.trigger(r, l.DecodedBy(sources[id].abi)) == Some(a) :: P.HasChild(sources, id, a)
  }

  lemma RegisteredKept(env: P.Env, before: map<nat, P.Source>, after: map<nat, P.Source>, id: nat, logs: seq<Log>, rules: seq<Rule>)
    requires id in before && Kept(before, after) && Registered(env, before, id, logs, rules)
    ensures Registered(env, after, id, logs, rules)
  {
    forall a | P.HasChild(before, id, a)
      ensures P.HasChild(after, id, a)
    {
      var c :| c in before && before[c].parent == id && before[c].filter == ByAddress(a);
      assert after[c].parent == id;
    }
    forall l, r | l in logs && r in rules
      ensures Done(env, after, id, l, r)
    {
      assert Done(env, before, id, l, r);
    }
  }

  lemma RegisteredStep(env: P.Env, before: map<nat, P.Source>, after: map<nat, P.Source>, id: nat, l: Log, rules: seq<Rule>, j: nat)
    requires id in before && Kept(before, after) && j < |rules|
    requires Registered(env, before, id, [l], rules[..j]) && Done(env, after, id, l, rules[j])
    ensures Registered(env, after, id, [l], rules[..j + 1])
  {
    RegisteredKept(env, before, after, id, [l], rules[..j]);
    assert rules[..j + 1] == rules[..j] + [rules[j]];
  }

  /** What a store call amounts to. */
  function OpOf(id: nat, lo: nat, hi: nat, logs: seq<Log>, fate: PS.Fate): WriteOp {
    if logs == [] || fate.Renamed? then WriteOp.Written(lo, hi)
    else if fate.NotWritten? then WriteOp.Failed(lo, hi)
    else WriteOp.Interrupted(lo, hi, Stamp(id, logs))
  }

  function Next(hi: nat, head: nat): P.Worker {
    if hi < head then P.Scanning(hi + 1, head) else P.Polling(head)
  }

  lemma StoredIsApplied(chain: seq<Log>, f: Filter, id: nat, dir: PS.Dir, dir': PS.Dir, lo: nat, hi: nat, logs: seq<Log>, fate: PS.Fate)
    requires logs == Fetch(chain, f, lo, hi)
    requires if logs == [] then dir' == dir else PS.Put(dir, dir', Stamp(id, logs), fate)
    ensures dir' == ApplyWrite(chain, f, id, dir, OpOf(id, lo, hi, logs, fate))
  {
  }

  lemma {:induction false} OneGroup(id: nat, logs: seq<Log>)
    ensures PS.GroupOf(Stamp(id, logs), id) == Stamp(id, logs)
    ensures PS.SourcesOf(Stamp(id, logs)) == if logs == [] then {} else {id}
  {
    var rows := Stamp(id, logs);
    if logs != [] {
      OneGroup(id, logs[..|logs| - 1]);
      assert rows[..|rows| - 1] == Stamp(id, logs[..|logs| - 1]);
      assert rows[0] in rows;
    }
  }

  /** Sources are only added, and this one's row stays. */
  ghost predicate MoreSources(before: map<nat, P.Source>, after: map<nat, P.Source>, id: nat) {
    Kept(before, after) && id in before && after[id] == before[id]
  }

  /** No source goes, and none becomes another. */
  ghost predicate Kept(before: map<nat, P.Source>, after: map<nat, P.Source>) {
    forall s | s in before :: s in after && before[s].SameAs(after[s])
  }

  /** The same, with this source's saved cursor at a block. */
  ghost predicate Moved(before: map<nat, P.Source>, after: map<nat, P.Source>, id: nat, sync: nat) {
    Kept(before, after) && id in before && after[id] == before[id].(sync := sync)
  }

  lemma MovedAtLast(before: map<nat, P.Source>, mid: map<nat, P.Source>, late: map<nat, P.Source>, id: nat, sync: nat)
    requires MoreSources(before, mid, id) && MoreSources(mid, late, id)
    ensures Moved(before, late[id := late[id].(sync := sync)], id, sync)
  {
  }

  lemma SameChildren(sources: map<nat, P.Source>, id: nat, own: P.Source, a: string)
    requires id in sources && sources[id].SameAs(own)
    ensures P.HasChild(sources[id := own], id, a) == P.HasChild(sources, id, a)
  {
    if P.HasChild(sources, id, a) {
      var c :| c in sources && sources[c].parent == id && sources[c].filter == ByAddress(a);
      assert sources[id := own][c].parent == id;
    }
    if P.HasChild(sources[id := own], id, a) {
      var c :| c in sources[id := own] && sources[id := own][c].parent == id && sources[id := own][c].filter == ByAddress(a);
      assert sources[c].parent == id;
    }
  }

  /** How many nested rules are copied, all of them unless copying stops. */
  function Copies(r: Rule, copyStops: Option<nat>): nat {
    if copyStops.Some? then copyStops.value else RuleCount(r.children)
  }
}
