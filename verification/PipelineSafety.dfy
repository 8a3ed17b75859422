/** What holds in every state that any run of the pipeline reaches. */
module PipelineSafety {
  import opened Positions
  import opened Chain
  import opened Rules
  import opened ParquetStore
  import opened StoreLaws
  import opened Pipeline
  import opened PipelineInvariant
  import opened DeliveryInvariant

  /** Nothing is lost: whatever failed, crashed or restarted, every log that some source is
      responsible for and that lies behind the exporter's saved cursor has been delivered, that is,
      the plugin has taken it without an error. */
  lemma NothingIsLost(env: Env, states: seq<State>, actions: seq<Action>, r: Row)
    requires env.Ok() && IsRun(env, states, actions)
    requires var st := states[|states| - 1];
             && IsOwed(env, st.sources, r)
             && Less(StartBound(env, st.exp), r.log.At()) && AtMost(r.log.At(), CursorBound(st.exp.row))
    ensures DeliveredAt(states[|states| - 1].exp, r.log.At())
  {
    InvariantHolds(env, states, actions);
    FirstRowBound(env, states, actions);
  }

  /** The row a fresh exporter is created with does not reach beyond its start bound. */
  lemma {:induction false} FirstRowBound(env: Env, states: seq<State>, actions: seq<Action>)
    requires env.Ok() && IsRun(env, states, actions)
    ensures states[|states| - 1].exp.first.lastIndex == -1
    ensures AtMost(CursorBound(states[|states| - 1].exp.first), StartBound(env, states[|states| - 1].exp))
  {
    if actions != [] {
      RunSplits(env, states, actions);
      FirstRowBound(env, states[..|actions|], actions[..|actions| - 1]);
      FirstStays(env, states[|actions| - 1], actions[|actions| - 1], states[|actions|]);
    }
  }

  lemma FirstStays(env: Env, st: State, a: Action, st': State)
    requires Step(env, st, a, st')
    ensures st'.exp.first == st.exp.first
  {
  }

  /** The saved cursor never overtakes the cursor of any source, its children included. */
  lemma CursorNeverOvertakes(env: Env, states: seq<State>, actions: seq<Action>, id: nat)
    requires env.Ok() && IsRun(env, states, actions) && id in states[|states| - 1].sources
    ensures var st := states[|states| - 1];
            || AtMost(CursorBound(st.exp.row), StartBound(env, st.exp))
            || CursorBound(st.exp.row).block <= st.sources[id].sync
  {
    InvariantHolds(env, states, actions);
    FirstRowBound(env, states, actions);
  }

  /** End to end: once a factory's rule recognises the deployment of a contract, every log of
      that contract from the deployment on is delivered before the exporter's cursor passes it,
      at whatever depth the factory itself was discovered. */
  lemma DeployedContractsAreFollowed(env: Env, states: seq<State>, actions: seq<Action>,
      f: nat, deployment: Log, r: Rule, a: string, l: Log)
    requires env.Ok() && IsRun(env, states, actions)
    requires var st := states[|states| - 1];
             && f in st.sources && Fires(env, st.sources[f], deployment, r, a)
             && l in env.chain && l.address == a && deployment.block <= l.block
             && Less(StartBound(env, st.exp), l.At()) && AtMost(l.At(), CursorBound(st.exp.row))
    ensures DeliveredAt(states[|states| - 1].exp, l.At())
  {
    var st := states[|states| - 1];
    InvariantHolds(env, states, actions);
    CursorNeverOvertakes(env, states, actions, f);
    hide ExporterOk, IsRun;
    var c := FoundChild(env, st, f, deployment, r, a);
    NothingIsLost(env, states, actions, Row(c, l));
  }

  /** A deployment that its factory's cursor has passed has a source, which begins before it. */
  lemma FoundChild(env: Env, st: State, f: nat, deployment: Log, r: Rule, a: string) returns (c: nat)
    requires SourcesOk(env, st) && f in st.sources && Fires(env, st.sources[f], deployment, r, a)
    requires deployment.block <= st.sources[f].sync
    ensures c in st.sources && st.sources[c].parent == f != 0 && st.sources[c].filter == ByAddress(a)
    ensures st.sources[c].origin < deployment.block
  {
    assert SourceOk(env, st.headSeen, f, st.sources[f]);
    assert Found(env, st.sources, f);
    c :| c in st.sources && st.sources[c].parent == f && st.sources[c].filter == ByAddress(a);
    assert ChildStartsFirst(env, st.sources, c);
  }

  /** The same in terms of the rule itself: its event, its conditions and its address argument. */
  lemma DeployedContractsAreFollowedByRule(env: Env, states: seq<State>, actions: seq<Action>,
      f: nat, deployment: Log, r: Rule, l: Log)
    requires env.Ok() && IsRun(env, states, actions)
    requires forall rule, d :: env.trigger(rule, d) == Trigger(rule, d)
    requires var st := states[|states| - 1];
             && f in st.sources && st.sources[f].factory && r in st.sources[f].rules
             && deployment in env.chain && Matches(st.sources[f].filter, deployment)
             && st.sources[f].origin < deployment.block <= l.block
             && Less(StartBound(env, st.exp), l.At()) && AtMost(l.At(), CursorBound(st.exp.row))
             && var d := deployment.DecodedBy(st.sources[f].abi);
                && d.event == r.event && ConditionsPass(r.conditions, d.args) && r.addressArg in d.args
                && l in env.chain && l.address == d.args[r.addressArg]
    ensures DeliveredAt(states[|states| - 1].exp, l.At())
  {
    DeployedContractsAreFollowed(env, states, actions, f, deployment, r, l.address, l);
  }

  /** What is stored: reading a source's directory gives each of its logs up to its saved cursor
      exactly once, and no log below its origin or beyond the highest head seen. */
  lemma StoreMatchesCursor(env: Env, states: seq<State>, actions: seq<Action>, id: nat, files: seq<string>)
    requires env.Ok() && IsRun(env, states, actions)
    requires var st := states[|states| - 1];
             id in st.sources && IsListing(st.sources[id].dir, files)
    ensures var st := states[|states| - 1];
            var s := st.sources[id];
            var out := Dedup(Concat(s.dir, files));
            && (forall l | l in env.chain && Matches(s.filter, l) && s.origin < l.block <= s.sync :: Row(id, l) in out)
            && (forall r | r in out ::
                  r.source == id && r.log in env.chain && Matches(s.filter, r.log)
                  && s.origin < r.log.block <= st.headSeen)
            && (forall i, j | 0 <= i < j < |out| :: out[i].log.At() != out[j].log.At())
  {
    var st := states[|states| - 1];
    var s := st.sources[id];
    InvariantHolds(env, states, actions);
    assert SourceOk(env, st.headSeen, id, s);
    ReadReturnsEachOnce(env.chain, s.filter, id, s.dir, files);
    var out := Dedup(Concat(s.dir, files));
    forall r | r in out
      ensures r.source == id && r.log in env.chain && Matches(s.filter, r.log) && s.origin < r.log.block <= st.headSeen
    {
      RowsAreChainLogs(env.chain, s.filter, id, s.dir, r);
    }
  }

  /** Nothing else is delivered: every row the plugin was ever given, refused ones included, is a
      log that its source is responsible for, behind the start bound and in blocks that every source
      has passed. */
  lemma OnlyOwedRowsAreDelivered(env: Env, states: seq<State>, actions: seq<Action>, d: Row)
    requires env.Ok() && IsRun(env, states, actions) && WasGiven(states[|states| - 1].exp, d)
    ensures var st := states[|states| - 1];
            && IsOwed(env, st.sources, d) && Less(StartBound(env, st.exp), d.log.At())
            && forall id | id in st.sources :: d.log.block <= st.sources[id].sync
  {
    InvariantHolds(env, states, actions);
    assert GivenOk(env, states[|states| - 1], d);
  }

  /** A row that no other source owes at the same position is itself delivered, not only its
      position. */
  lemma UnsharedRowsAreDelivered(env: Env, states: seq<State>, actions: seq<Action>, r: Row)
    requires env.Ok() && IsRun(env, states, actions)
    requires var st := states[|states| - 1];
             && IsOwed(env, st.sources, r)
             && Less(StartBound(env, st.exp), r.log.At()) && AtMost(r.log.At(), CursorBound(st.exp.row))
             && forall q | IsOwed(env, st.sources, q) && q.log.At() == r.log.At() :: q == r
    ensures r in states[|states| - 1].exp.delivered
  {
    var st := states[|states| - 1];
    NothingIsLost(env, states, actions, r);
    var d :| d in st.exp.delivered && d.log.At() == r.log.At();
    OnlyOwedRowsAreDelivered(env, states, actions, d);
  }

  /** Almost exactly once: as long as restarts resume from the saved cursor itself, the plugin has
      been given rows of at most one position that the saved cursor does not cover, counting those
      it refused. */
  lemma AtMostOneAhead(env: Env, states: seq<State>, actions: seq<Action>, d: Row, e: Row)
    requires env.Ok() && IsRun(env, states, actions)
    requires var x := states[|states| - 1].exp;
             && (env.exporterStart == 0 || env.exporterStart <= x.row.completed)
             && WasGiven(x, d) && WasGiven(x, e)
             && Less(CursorBound(x.row), d.log.At()) && Less(CursorBound(x.row), e.log.At())
    ensures d.log.At() == e.log.At()
  {
    var st := states[|states| - 1];
    InvariantHolds(env, states, actions);
    assert GivenOk(env, st, d) && GivenOk(env, st, e);
    RowIsHigh(env, st);
    AheadIsNext(env, st, d, e);
    AheadIsNext(env, st, e, d);
  }

  /** From the start block on the saved row is the furthest one ever written. */
  lemma RowIsHigh(env: Env, st: State)
    requires env.Ok() && RowOk(env, st)
    requires env.exporterStart == 0 || env.exporterStart <= st.exp.row.completed
    ensures st.exp.high == CursorBound(st.exp.row) || st.exp.high == StartBound(env, st.exp)
  {
    var c := st.exp.row;
    if CursorOk(env, st, c) && c.lastIndex >= 0 {
      assert CursorBound(c).block == c.completed + 1;
    }
  }

  lemma AheadIsNext(env: Env, st: State, d: Row, e: Row)
    requires GivenOk(env, st, d) && IsOwed(env, st.sources, e)
    requires Less(st.exp.high, d.log.At()) && Less(st.exp.high, e.log.At())
    ensures AtMost(d.log.At(), e.log.At())
  {
  }

  /** Saved source cursors never go back, and no source disappears. */
  lemma {:induction false} CursorsNeverGoBack(env: Env, states: seq<State>, actions: seq<Action>, i: nat, id: nat)
    requires env.Ok() && IsRun(env, states, actions) && i < |states| && id in states[i].sources
    ensures var last := states[|states| - 1];
            id in last.sources && states[i].sources[id].sync <= last.sources[id].sync
    decreases |states|
  {
    var n := |actions|;
    if i < n {
      LastStepGrows(env, states, actions);
      CursorsNeverGoBack(env, states[..n], actions[..n - 1], i, id);
    }
  }

  lemma LastStepGrows(env: Env, states: seq<State>, actions: seq<Action>)
    requires env.Ok() && IsRun(env, states, actions) && actions != []
    ensures var n := |actions|;
            IsRun(env, states[..n], actions[..n - 1]) && Grows(states[n - 1].sources, states[n].sources)
  {
    var n := |actions|;
    RunSplits(env, states, actions);
    InvariantHolds(env, states[..n], actions[..n - 1]);
    StepGrows(env, states[n - 1], actions[n - 1], states[n]);
  }

  lemma StepGrows(env: Env, st: State, a: Action, st': State)
    requires Invariant(env, st) && Step(env, st, a, st')
    ensures Grows(st.sources, st'.sources)
  {
    if IsSourceStep(a) {
      WorkerStepKeeps(env, st, a, st');
    } else if a.PairHandled? {
      PairStepKeeps(env, st, a.id, a.copied, st');
    } else if a.ProcessDies? {
      RestartKeeps(env, st);
    }
  }

  /** States reached by the code of a worker or the exporter, started in a run, end a run too. */
  lemma CodeStaysInRuns(env: Env, st: State)
    requires env.Ok() && st in Reachable(env)
    ensures Closed(env, Reachable(env)) && Invariant(env, st)
  {
    ReachableIsClosed(env);
    var states, actions :| IsRun(env, states, actions) && st == states[|actions|];
    InvariantHolds(env, states, actions);
  }
}
