/** The whole pipeline as a step system: source workers, the registration of factory children,
    the store, and one exporter, with a crash possible between any two effects. */
module Pipeline {
  import opened Positions
  import opened Chain
  import opened Rules
  import opened ParquetStore
  import opened StoreLaws
  import opened Sequences

  /** What never changes during a run. trigger decides whether a rule recognises a deployment in
      a decoded log; nothing below depends on how it does. */
  datatype Env = Env(
    chain: seq<Log>,
    trigger: (Rule, Decoded) -> Option<string>,
    blockRange: nat,
    blockSlice: nat,
    exporterStart: nat)
  {
    ghost predicate Ok() {
      IsChain(chain) && 1 <= blockRange && exporterStart < MAX_UINT64
    }

    /** Blocks pulled per exporter round. */
    function Batch(): nat {
      if blockRange == 0 then 1000 else blockRange
    }
  }

  // ---- state -------------------------------------------------------------------------------

  /** Where a worker stands. Blocks lo to hi are its current window, head the chain head of the
      current poll; done counts the (log, rule) pairs already handled. */
  datatype Worker =
    | Down
    | Polling(latest: nat)
    | Scanning(next: nat, head: nat)
    | Fetched(lo: nat, hi: nat, head: nat)
    | Stored(lo: nat, hi: nat, head: nat, done: nat)
    | Committed(hi: nat, head: nat)

  /** A source row, the cursor its worker holds in memory, its stored files and its worker.
      origin is the block after which the source is responsible for the chain's logs. */
  datatype Source = Source(
    filter: Filter,
    abi: nat,
    factory: bool,
    rules: seq<Rule>,
    parent: nat,
    start: nat,
    origin: nat,
    sync: nat,
    mem: nat,
    dir: Dir,
    worker: Worker)
  {
    /** The block from which a starting worker goes on. */
    function Cur(): nat {
      if mem < start then start else mem
    }

    /** The fields no step changes. */
    predicate SameAs(other: Source) {
      && filter == other.filter && abi == other.abi && factory == other.factory && rules == other.rules
      && parent == other.parent && start == other.start && origin == other.origin
    }

    /** The fields no worker changes in the row of its source, its saved cursor apart. */
    predicate SameBut(other: Source) {
      this == other.(sync := sync)
    }
  }

  /** got collects the rows read so far; pending are the sorted rows still to deliver; Handed
      means that the plugin has taken its first and the cursor does not say so yet. */
  datatype Phase =
    | Stopped
    | Idle(mem: Cursor)
    | Pulling(mem: Cursor, to: nat, ids: seq<nat>, read: nat, got: seq<Row>)
    | Delivering(mem: Cursor, to: nat, pending: seq<Row>)
    | Handed(mem: Cursor, to: nat, pending: seq<Row>)

  /** first is the row the exporter was created with; high the furthest bound ever written;
      delivered every row the plugin ever took, in order; refused every row that it was given and
      for which it gave an error instead. */
  datatype Exporter = Exporter(first: Cursor, row: Cursor, high: Position, delivered: seq<Row>, refused: seq<Row>, phase: Phase)

  datatype State = State(sources: map<nat, Source>, nextId: nat, headSeen: nat, exp: Exporter)

  // ---- steps -------------------------------------------------------------------------------

  function RowPairs(l: Log, rules: seq<Rule>): (ps: seq<(Log, Rule)>)
    ensures |ps| == |rules| && forall i | 0 <= i < |rules| :: ps[i] == (l, rules[i])
  {
    seq(|rules|, i requires 0 <= i < |rules| => (l, rules[i]))
  }

  /** Every log with every rule, in the order in which registration goes through them. */
  function Pairs(logs: seq<Log>, rules: seq<Rule>): seq<(Log, Rule)> {
    if logs == [] then [] else Pairs(logs[..|logs| - 1], rules) + RowPairs(logs[|logs| - 1], rules)
  }

  /** Where one log's pairs stand among all of them. */
  lemma PairsOfLog(logs: seq<Log>, rules: seq<Rule>, i: nat, j: nat)
    requires i < |logs| && j < |rules|
    ensures var base := |Pairs(logs[..i], rules)|;
            base + j < |Pairs(logs, rules)| && Pairs(logs, rules)[base + j] == (logs[i], rules[j])
  {
    hide Pairs;
    PairsStep(logs, rules, i);
    var base := |Pairs(logs[..i], rules)|;
    assert Pairs(logs[..i + 1], rules)[base + j] == RowPairs(logs[i], rules)[j];
  }

  lemma PairsLength(logs: seq<Log>, rules: seq<Rule>, i: nat)
    requires i < |logs|
    ensures |Pairs(logs[..i + 1], rules)| == |Pairs(logs[..i], rules)| + |rules|
  {
    PairsStep(logs, rules, i);
  }

  lemma {:induction false} PairsStep(logs: seq<Log>, rules: seq<Rule>, i: nat)
    requires i < |logs|
    ensures Pairs(logs[..i + 1], rules) == Pairs(logs[..i], rules) + RowPairs(logs[i], rules)
    ensures Pairs(logs[..i + 1], rules) <= Pairs(logs, rules)
    decreases |logs| - i
  {
    assert logs[..i + 1][..i] == logs[..i];
    if i + 1 < |logs| {
      PairsStep(logs, rules, i + 1);
    } else {
      assert logs[..i + 1] == logs;
    }
  }

  /** Every pair is one log with one rule. */
  lemma {:induction false} PairAt(logs: seq<Log>, rules: seq<Rule>, d: nat) returns (i: nat, j: nat)
    requires d < |Pairs(logs, rules)|
    ensures i < |logs| && j < |rules| && d == |Pairs(logs[..i], rules)| + j && Pairs(logs, rules)[d] == (logs[i], rules[j])
  {
    var n := |logs| - 1;
    if d < |Pairs(logs[..n], rules)| {
      i, j := PairAt(logs[..n], rules, d);
      assert logs[..n][..i] == logs[..i];
    } else {
      i, j := n, d - |Pairs(logs[..n], rules)|;
    }
  }

  /** The pairs of an earlier log, and those of an earlier rule with the same log, come first. */
  lemma PairsInOrder(logs: seq<Log>, rules: seq<Rule>, i: nat, j: nat, m: nat, k: nat)
    requires m < i < |logs| || (m == i < |logs| && k < j)
    requires j < |rules| && k < |rules|
    ensures |Pairs(logs[..m], rules)| + k < |Pairs(logs[..i], rules)| + j
  {
    if m < i {
      PairsStep(logs[..i], rules, m);
      assert logs[..i][..m] == logs[..m] && logs[..i][..m + 1] == logs[..m + 1];
    }
  }

  function WindowPairs(env: Env, s: Source, lo: nat, hi: nat): seq<(Log, Rule)> {
    if s.factory then Pairs(Fetch(env.chain, s.filter, lo, hi), s.rules) else []
  }

  predicate HasChild(sources: map<nat, Source>, f: nat, a: string) {
    exists c | c in sources :: sources[c].parent == f && sources[c].filter == ByAddress(a)
  }

  /** What a child gets when copying the nested rules of its rule stops after so many. */
  function CopiedRules(r: Rule, copied: nat): seq<Rule> {
    if ChildTypeOf(r) == FACTORY then FirstRules(r.children, copied) else []
  }

  predicate CopiedWhole(r: Rule, copied: nat) {
    ChildTypeOf(r) == FACTORY ==> RuleCount(r.children) <= copied
  }

  function Spawn(f: nat, s: Source, r: Rule, a: string, block: nat, cloned: seq<Rule>): Source
    requires block >= 1
  {
    Source(ByAddress(a), r.abi, ChildTypeOf(r) == FACTORY, cloned, f,
           block - 1, block - 1, block - 1, block - 1, map[], Down)
  }

  /** The highest block no source lags behind. */
  ghost predicate IsHead(sources: map<nat, Source>, head: nat) {
    && (exists id :: id in sources && sources[id].sync == head)
    && (forall id | id in sources :: head <= sources[id].sync)
  }

  datatype Action =
    | WorkerStarts(id: nat)
    | HeadSeen(id: nat, head: nat)
    | WindowFetched(id: nat)
    | WindowWritten(id: nat)
    | WriteFails(id: nat)
    | WriterDies(id: nat, partial: seq<Row>)
    | PairHandled(id: nat, copied: nat)
    | CursorMoved(id: nat)
    | CursorSaved(id: nat)
    | WorkerFails(id: nat)
    | ProcessDies
    | ExporterStarts
    | RangePlanned(head: nat, ids: seq<nat>)
    | SourceRead(rows: seq<Row>)
    | RowsSorted(rows: seq<Row>)
    | LogHanded
    | LogRefused
    | CursorPersisted
    | RangeFinished
    | ExporterFails

  /** A step of one worker that creates nothing. */
  predicate SourceStep(env: Env, id: nat, s: Source, a: Action, s': Source) {
    match a
    case WorkerStarts(_) =>
      s.worker.Down? && s' == s.(worker := Polling(s.Cur()))
    case HeadSeen(_, head) =>
      && s.worker.Polling? && head + env.blockRange < MAX_UINT64
      && s' == (if head <= s.worker.latest || head - s.worker.latest < env.blockSlice then s
                else s.(worker := Scanning(s.worker.latest + 1, head)))
    case WindowFetched(_) =>
      && s.worker.Scanning?
      && var hi := s.worker.next + env.blockRange - 1;
         hi >= 0
         && s' == s.(worker := Fetched(s.worker.next, if hi > s.worker.head then s.worker.head else hi, s.worker.head))
    case WindowWritten(_) =>
      && s.worker.Fetched?
      && s' == s.(dir := ApplyWrite(env.chain, s.filter, id, s.dir, WriteOp.Written(s.worker.lo, s.worker.hi)),
                  worker := Stored(s.worker.lo, s.worker.hi, s.worker.head, 0))
    case WriteFails(_) =>
      && s.worker.Fetched?
      && s' == s.(dir := ApplyWrite(env.chain, s.filter, id, s.dir, WriteOp.Failed(s.worker.lo, s.worker.hi)),
                  worker := Down)
    case WriterDies(_, partial) =>
      && s.worker.Fetched?
      && s' == s.(dir := ApplyWrite(env.chain, s.filter, id, s.dir, WriteOp.Interrupted(s.worker.lo, s.worker.hi, partial)),
                  worker := Down)
    case CursorMoved(_) =>
      && s.worker.Stored? && s.worker.done == |WindowPairs(env, s, s.worker.lo, s.worker.hi)|
      && s' == s.(mem := s.worker.hi, worker := Committed(s.worker.hi, s.worker.head))
    case CursorSaved(_) =>
      && s.worker.Committed?
      && s' == s.(sync := s.worker.hi,
                  worker := if s.worker.hi < s.worker.head then Scanning(s.worker.hi + 1, s.worker.head)
                            else Polling(s.worker.head))
    case WorkerFails(_) =>
      s' == s.(worker := Down)
    case _ => false
  }

  predicate IsSourceStep(a: Action) {
    a.WorkerStarts? || a.HeadSeen? || a.WindowFetched? || a.WindowWritten? || a.WriteFails? || a.WriterDies?
    || a.CursorMoved? || a.CursorSaved? || a.WorkerFails?
  }

  function HeadAfter(st: State, a: Action): nat {
    if a.HeadSeen? && a.head > st.headSeen then a.head else st.headSeen
  }

  /** One (log, rule) pair: nothing to do, or one new source with its rules. When copying the
      rules stops half-way the child stays with what was copied and the worker fails. */
  predicate PairStep(env: Env, st: State, id: nat, copied: nat, st': State) {
    && id in st.sources && st.sources[id].worker.Stored?
    && var s := st.sources[id];
       var w := s.worker;
       var pairs := WindowPairs(env, s, w.lo, w.hi);
       && w.done < |pairs|
       && var (l, r) := pairs[w.done];
          var next := s.(worker := Stored(w.lo, w.hi, w.head, w.done + 1));
          match env.trigger(r, l.DecodedBy(s.abi))
          case None => st' == st.(sources := st.sources[id := next])
          case Some(a) =>
            if HasChild(st.sources, id, a) then st' == st.(sources := st.sources[id := next])
            else
              && l.block >= 1
              && st' == st.(
                   sources := st.sources[
                     id := if CopiedWhole(r, copied) then next else s.(worker := Down)
                   ][st.nextId := Spawn(id, s, r, a, l.block, CopiedRules(r, copied))],
                   nextId := st.nextId + 1)
  }

  predicate AfterBound(r: Row, mem: Cursor, to: nat) {
    Less(CursorBound(mem), r.log.At()) && r.log.block <= to
  }

  /** Steps of the exporter; they leave the sources alone. */
  ghost predicate ExporterStep(env: Env, st: State, a: Action, e': Exporter) {
    var e := st.exp;
    match a
    case ExporterStarts =>
      e.phase.Stopped? && e' == e.(phase := Idle(Resume(e.row, env.exporterStart)))
    case RangePlanned(head, ids) =>
      && e.phase.Idle? && IsHead(st.sources, head) && head > e.phase.mem.completed
      && EachOnce(ids) && (forall id :: id in ids <==> id in st.sources)
      && var to := e.phase.mem.completed + env.Batch();
         e' == e.(phase := Pulling(e.phase.mem, if to > head then head else to, ids, 0, []))
    case SourceRead(rows) =>
      && e.phase.Pulling? && e.phase.read < |e.phase.ids|
      && var id := e.phase.ids[e.phase.read];
         && id in st.sources
         && EachOnce(rows)
         && (forall r :: r in rows <==> InDir(st.sources[id].dir, r) && AfterBound(r, e.phase.mem, e.phase.to))
         && e' == e.(phase := e.phase.(read := e.phase.read + 1, got := e.phase.got + rows))
    case RowsSorted(rows) =>
      && e.phase.Pulling? && e.phase.read == |e.phase.ids|
      && SortedRows(rows) && multiset(rows) == multiset(e.phase.got)
      && e' == e.(phase := Delivering(e.phase.mem, e.phase.to, rows))
    case LogHanded =>
      && e.phase.Delivering? && e.phase.pending != []
      && e' == e.(delivered := e.delivered + [e.phase.pending[0]],
                  phase := Handed(e.phase.mem, e.phase.to, e.phase.pending))
    case LogRefused =>  // also when the process ends before the plugin has answered
      && e.phase.Delivering? && e.phase.pending != []
      && e' == e.(refused := e.refused + [e.phase.pending[0]], phase := Stopped)
    case CursorPersisted =>
      && e.phase.Handed? && e.phase.pending != []
      && var c := CursorAfterLog(e.phase.pending[0].log.At());
         e' == e.(row := c, high := Later(e.high, CursorBound(c)),
                  phase := Delivering(c, e.phase.to, e.phase.pending[1..]))
    case RangeFinished =>
      && e.phase.Delivering? && e.phase.pending == []
      && var c := CursorAfterRange(e.phase.to);
         e' == e.(row := c, high := Later(e.high, CursorBound(c)), phase := Idle(c))
    case ExporterFails =>
      e' == e.(phase := Stopped)
    case _ => false
  }

  function Later(a: Position, b: Position): Position {
    if Less(a, b) then b else a
  }

  /** The end of the process: every worker is gone, and with it what it held in memory. */
  function Restarted(sources: map<nat, Source>): map<nat, Source> {
    map id | id in sources :: sources[id].(mem := sources[id].sync, worker := Down)
  }

  ghost predicate Step(env: Env, st: State, a: Action, st': State) {
    if IsSourceStep(a) then
      && a.id in st.sources && a.id in st'.sources
      && SourceStep(env, a.id, st.sources[a.id], a, st'.sources[a.id])
      && st' == st.(sources := st.sources[a.id := st'.sources[a.id]], headSeen := HeadAfter(st, a))
    else if a.PairHandled? then PairStep(env, st, a.id, a.copied, st')
    else if a.ProcessDies? then
      st' == st.(sources := Restarted(st.sources), exp := st.exp.(phase := Stopped))
    else
      ExporterStep(env, st, a, st'.exp) && st' == st.(exp := st'.exp)
  }

  /** Registering one deployment is one step of the pipeline. */
  lemma DeploymentIsStep(env: Env, st: State, id: nat, l: Log, r: Rule, a: string, copied: nat, st': State)
    requires id in st.sources && st.sources[id].worker.Stored? && l.block >= 1
    requires var s := st.sources[id];
             var w := s.worker;
             var pairs := WindowPairs(env, s, w.lo, w.hi);
             && w.done < |pairs| && pairs[w.done] == (l, r) && env.trigger(r, l.DecodedBy(s.abi)) == Some(a)
             && var next := s.(worker := w.(done := w.done + 1));
                if HasChild(st.sources, id, a) then st' == st.(sources := st.sources[id := next])
                else
                  st' == st.(
                    sources := st.sources[
                      id := if CopiedWhole(r, copied) then next else s.(worker := Down)
                    ][st.nextId := Spawn(id, s, r, a, l.block, CopiedRules(r, copied))],
                    nextId := st.nextId + 1)
    ensures Step(env, st, PairHandled(id, copied), st')
  {
  }

  /** A source that no factory has made and for which nothing has been indexed. */
  predicate FreshSource(s: Source) {
    && s.parent == 0 && s.worker == Down && s.dir == map[]
    && s.mem == s.sync < MAX_UINT64 && s.start < MAX_UINT64 && s.origin == s.Cur()
  }

  /** The row of an exporter that stands at the end of a block. */
  predicate FreshRow(c: Cursor) {
    c.completed < MAX_UINT64 && c.lastIndex == -1
  }

  /** Sources declared by the user, nothing indexed, and an exporter that has delivered nothing. */
  ghost predicate Initial(env: Env, st: State) {
    && (forall id | id in st.sources :: 1 <= id < st.nextId && FreshSource(st.sources[id]))
    && st.headSeen == 0 && FreshRow(st.exp.row)
    && st.exp == Exporter(st.exp.row, st.exp.row, CursorBound(Resume(st.exp.row, env.exporterStart)), [], [], Stopped)
  }

  ghost predicate IsRun(env: Env, states: seq<State>, actions: seq<Action>) {
    && |states| == |actions| + 1
    && Initial(env, states[0])
    && forall i | 0 <= i < |actions| :: StepAt(env, states, actions, i)
  }

  ghost predicate StepAt(env: Env, states: seq<State>, actions: seq<Action>, i: nat)
    requires |states| == |actions| + 1 && i < |actions|
  {
    Step(env, states[i], actions[i], states[i + 1])
  }

  /** No step leads out of the set. */
  ghost predicate Closed(env: Env, reached: iset<State>) {
    forall st, a, st' :: st in reached && Step(env, st, a, st') ==> st' in reached
  }

  lemma Moves(env: Env, reached: iset<State>, st: State, a: Action, st': State)
    requires Closed(env, reached) && st in reached && Step(env, st, a, st')
    ensures st' in reached
  {
  }

  /** The states that runs end in. */
  ghost function Reachable(env: Env): iset<State> {
    iset states, actions | IsRun(env, states, actions) :: states[|actions|]
  }

  lemma ReachableIsClosed(env: Env)
    ensures Closed(env, Reachable(env))
  {
    forall st, a, st' | st in Reachable(env) && Step(env, st, a, st')
      ensures st' in Reachable(env)
    {
      var states, actions :| IsRun(env, states, actions) && st == states[|actions|];
      OneStepMore(env, states, actions, a, st');
    }
  }

  lemma OneStepMore(env: Env, states: seq<State>, actions: seq<Action>, a: Action, st': State)
    requires IsRun(env, states, actions) && Step(env, states[|actions|], a, st')
    ensures IsRun(env, states + [st'], actions + [a])
  {
    var ss, as_ := states + [st'], actions + [a];
    forall i | 0 <= i < |as_|
      ensures StepAt(env, ss, as_, i)
    {
      if i < |actions| {
        assert StepAt(env, states, actions, i);
      }
    }
  }

  /** A run is a shorter run and one step more. */
  lemma RunSplits(env: Env, states: seq<State>, actions: seq<Action>)
    requires IsRun(env, states, actions) && actions != []
    ensures var n := |actions|;
            IsRun(env, states[..n], actions[..n - 1]) && Step(env, states[n - 1], actions[n - 1], states[n])
  {
    var n := |actions|;
    var ss, front := states[..n], actions[..n - 1];
    assert StepAt(env, states, actions, n - 1);
    forall i | 0 <= i < n - 1
      ensures StepAt(env, ss, front, i)
    {
      assert StepAt(env, states, actions, i);
    }
  }

  // ---- what is claimed ---------------------------------------------------------------------

  /** The position after which the exporter owes every log. */
  function StartBound(env: Env, e: Exporter): Position {
    CursorBound(Resume(e.first, env.exporterStart))
  }

  /** A log that some source is responsible for, as its store row. */
  predicate IsOwed(env: Env, sources: map<nat, Source>, r: Row) {
    && r.source in sources && r.log in env.chain
    && Matches(sources[r.source].filter, r.log) && sources[r.source].origin < r.log.block
  }

  predicate DeliveredAt(e: Exporter, p: Position) {
    exists d | d in e.delivered :: d.log.At() == p
  }

  /** The plugin was given this row, and took it or refused it. */
  predicate WasGiven(e: Exporter, d: Row) {
    d in e.delivered || d in e.refused
  }

  /** A factory's rule recognises in this log the deployment of the contract at a. */
  predicate Fires(env: Env, s: Source, l: Log, r: Rule, a: string) {
    && s.factory && l in env.chain && Matches(s.filter, l) && s.origin < l.block
    && r in s.rules && env.trigger(r, l.DecodedBy(s.abi)) == Some(a)
  }
}
