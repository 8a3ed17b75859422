/** What happens between two starts of the exporter, and how its saved cursor moves over a run. */
module Sessions {
  import opened Positions
  import opened Chain
  import opened ParquetStore
  import opened Sequences
  import opened Pipeline
  import opened DeliveryInvariant

  // ---- order -------------------------------------------------------------------------------

  ghost predicate UpTo(rows: seq<Row>, p: Position) {
    SortedRows(rows) && forall r | r in rows :: AtMost(r.log.At(), p)
  }

  /** tail is what the plugin was given since some moment at which the exporter was idle or stopped. */
  ghost predicate Session(e: Exporter, tail: seq<Row>) {
    match e.phase
    case Stopped => SortedRows(tail)
    case Idle(mem) => UpTo(tail, CursorBound(mem))
    case Pulling(mem, _, _, _, _) => UpTo(tail, CursorBound(mem))
    case Delivering(mem, _, pending) => UpTo(tail, CursorBound(mem))
    case Handed(_, _, pending) => pending != [] && UpTo(tail, pending[0].log.At())
  }

  lemma SortedSnoc(tail: seq<Row>, p: Position, r: Row)
    requires UpTo(tail, p) && AtMost(p, r.log.At())
    ensures UpTo(tail + [r], r.log.At())
  {
    forall i | 0 <= i < |tail|
      ensures AtMost(tail[i].log.At(), r.log.At())
    {
      assert tail[i] in tail;
    }
  }

  /** The first pending log of a range: behind the cursor, and resumed after exactly. */
  lemma PendingFacts(env: Env, st: State, mem: Cursor, to: nat, pending: seq<Row>)
    requires env.Ok() && PendingOk(env, st, mem, to, pending) && pending != []
    ensures IsCursor(mem) && mem.completed < MAX_UINT64 && mem.completed < to
    ensures var at := pending[0].log.At();
            && AtMost(CursorBound(mem), at) && 1 <= at.block <= to && at.index < TWO63
            && CursorBound(CursorAfterLog(at)) == at
  {
    assert pending[0] in pending;
    BoundUndoesDelivery(pending[0].log.At());
  }

  lemma GivenSession(env: Env, st: State, a: Action, e': Exporter, tail: seq<Row>)
    requires Invariant(env, st) && (a.LogHanded? || a.LogRefused?) && ExporterStep(env, st, a, e') && Session(st.exp, tail)
    ensures Session(e', tail + [st.exp.phase.pending[0]])
  {
    var p := st.exp.phase;
    PendingFacts(env, st, p.mem, p.to, p.pending);
    SortedSnoc(tail, CursorBound(p.mem), p.pending[0]);
  }

  lemma PersistedSession(env: Env, st: State, e': Exporter, tail: seq<Row>)
    requires Invariant(env, st) && ExporterStep(env, st, CursorPersisted, e') && Session(st.exp, tail)
    ensures Session(e', tail)
  {
    var p := st.exp.phase;
    PendingFacts(env, st, p.mem, p.to, p.pending);
  }

  lemma FinishedSession(env: Env, st: State, e': Exporter, tail: seq<Row>)
    requires Invariant(env, st) && ExporterStep(env, st, RangeFinished, e') && Session(st.exp, tail)
    ensures Session(e', tail)
  {
    var p := st.exp.phase;
    assert RangeOk(env, st, p.mem, p.to);
    assert AtMost(CursorBound(p.mem), CursorBound(CursorAfterRange(p.to)));
  }

  lemma QuietSession(env: Env, st: State, a: Action, st': State, tail: seq<Row>)
    requires Step(env, st, a, st') && Session(st.exp, tail)
    requires !a.ExporterStarts? && !a.LogHanded? && !a.LogRefused? && !a.CursorPersisted? && !a.RangeFinished?
    ensures Session(st'.exp, tail) && st'.exp.delivered == st.exp.delivered && st'.exp.refused == st.exp.refused
    ensures st.exp.phase.Stopped? ==> st'.exp.phase.Stopped?
  {
  }

  // ---- each row once -----------------------------------------------------------------------

  ghost predicate Apart(a: seq<Row>, b: seq<Row>) {
    forall r | r in b :: r !in a
  }

  /** No row of tail comes twice, nor again among those that are still to be given. */
  ghost predicate GivenOnce(e: Exporter, tail: seq<Row>) {
    && EachOnce(tail)
    && match e.phase
       case Delivering(_, _, pending) => Apart(tail, pending)
       case Handed(_, _, pending) => pending != [] && Apart(tail, pending[1..])
       case _ => true
  }

  lemma FirstOnce(tail: seq<Row>, pending: seq<Row>)
    requires EachOnce(tail) && EachOnce(pending) && pending != [] && Apart(tail, pending)
    ensures EachOnce(tail + [pending[0]]) && Apart(tail + [pending[0]], pending[1..])
  {
    EachOnceConcat(tail, [pending[0]]);
    forall r | r in pending[1..]
      ensures r !in tail + [pending[0]]
    {
      var i :| 0 <= i < |pending[1..]| && pending[1..][i] == r;
      assert pending[i + 1] == r && r in pending;
    }
  }

  lemma GivenOnceMore(env: Env, st: State, a: Action, e': Exporter, tail: seq<Row>)
    requires Invariant(env, st) && (a.LogHanded? || a.LogRefused?) && ExporterStep(env, st, a, e') && GivenOnce(st.exp, tail)
    ensures GivenOnce(e', tail + [st.exp.phase.pending[0]])
  {
    assert PendingOk(env, st, st.exp.phase.mem, st.exp.phase.to, st.exp.phase.pending);
    FirstOnce(tail, st.exp.phase.pending);
  }

  /** The rows of a new range lie behind all that was given before. */
  lemma NewRangeIsApart(env: Env, st: State, rows: seq<Row>, e': Exporter, tail: seq<Row>)
    requires Invariant(env, st) && ExporterStep(env, st, RowsSorted(rows), e')
    requires Session(st.exp, tail) && GivenOnce(st.exp, tail)
    ensures GivenOnce(e', tail)
  {
    var p := st.exp.phase;
    SameRows(p.got, rows);
    forall r | r in rows
      ensures r !in tail
    {
      assert InRange(env, st, r, p.mem, p.to);
    }
  }

  lemma OthersGiveNothing(env: Env, st: State, a: Action, st': State, tail: seq<Row>)
    requires Step(env, st, a, st') && GivenOnce(st.exp, tail)
    requires !a.ExporterStarts? && !a.LogHanded? && !a.LogRefused? && !a.RowsSorted?
    ensures GivenOnce(st'.exp, tail)
  {
  }

  /** The exporter has gone on from a moment to a later one. In between the plugin has taken the
      rows of tail, and then refused those of rest, of which there is at most one. */
  ghost predicate Continues(from: Exporter, e: Exporter, tail: seq<Row>, rest: seq<Row>) {
    && e.delivered == from.delivered + tail && e.refused == from.refused + rest
    && Session(e, tail + rest) && GivenOnce(e, tail + rest) && |rest| <= 1 && (rest != [] ==> e.phase.Stopped?)
  }

  lemma Snoc<T>(a: seq<T>, b: seq<T>, x: T)
    ensures a + (b + [x]) == a + b + [x]
  {
  }

  lemma HandedContinues(env: Env, from: Exporter, st: State, e': Exporter, tail: seq<Row>, rest: seq<Row>)
    requires Invariant(env, st) && ExporterStep(env, st, LogHanded, e') && Continues(from, st.exp, tail, rest)
    ensures Continues(from, e', tail + [st.exp.phase.pending[0]], rest)
  {
    var x := st.exp.phase.pending[0];
    assert rest == [] && tail + rest == tail && tail + [x] + rest == tail + [x];
    GivenSession(env, st, LogHanded, e', tail);
    GivenOnceMore(env, st, LogHanded, e', tail);
    Snoc(from.delivered, tail, x);
  }

  lemma RefusedContinues(env: Env, from: Exporter, st: State, e': Exporter, tail: seq<Row>, rest: seq<Row>)
    requires Invariant(env, st) && ExporterStep(env, st, LogRefused, e') && Continues(from, st.exp, tail, rest)
    ensures Continues(from, e', tail, rest + [st.exp.phase.pending[0]])
  {
    var x := st.exp.phase.pending[0];
    GivenSession(env, st, LogRefused, e', tail + rest);
    GivenOnceMore(env, st, LogRefused, e', tail + rest);
    Snoc(from.refused, rest, x);
    Snoc(tail, rest, x);
  }

  /** A step that does not start the exporter gives the plugin at most one more row, in order. */
  lemma SessionStep(env: Env, from: Exporter, st: State, a: Action, st': State, tail: seq<Row>, rest: seq<Row>)
    returns (tail': seq<Row>, rest': seq<Row>)
    requires Invariant(env, st) && Step(env, st, a, st') && !a.ExporterStarts? && Continues(from, st.exp, tail, rest)
    ensures Continues(from, st'.exp, tail', rest')
  {
    hide Invariant, SortedRows, UpTo, EachOnce, Apart;
    tail', rest' := tail, rest;
    if a.LogHanded? {
      tail' := tail + [st.exp.phase.pending[0]];
      HandedContinues(env, from, st, st'.exp, tail, rest);
    } else if a.LogRefused? {
      rest' := rest + [st.exp.phase.pending[0]];
      RefusedContinues(env, from, st, st'.exp, tail, rest);
    } else if a.CursorPersisted? {
      PersistedSession(env, st, st'.exp, tail + rest);
      OthersGiveNothing(env, st, a, st', tail + rest);
    } else if a.RangeFinished? {
      FinishedSession(env, st, st'.exp, tail + rest);
      OthersGiveNothing(env, st, a, st', tail + rest);
    } else {
      QuietSession(env, st, a, st', tail + rest);
      if a.RowsSorted? {
        NewRangeIsApart(env, st, a.rows, st'.exp, tail + rest);
      } else {
        OthersGiveNothing(env, st, a, st', tail + rest);
      }
    }
  }

  lemma SessionIsSorted(e: Exporter, tail: seq<Row>)
    requires Session(e, tail)
    ensures SortedRows(tail)
  {
  }

  /** The last step of a run and what held before it. */
  lemma LastStep(env: Env, states: seq<State>, actions: seq<Action>)
    requires env.Ok() && IsRun(env, states, actions) && actions != []
    ensures var n := |actions|;
            && IsRun(env, states[..n], actions[..n - 1])
            && Invariant(env, states[n - 1]) && Step(env, states[n - 1], actions[n - 1], states[n])
  {
    RunSplits(env, states, actions);
    InvariantHolds(env, states[..|actions|], actions[..|actions| - 1]);
  }

  lemma {:induction false} DeliveryContinues(env: Env, states: seq<State>, actions: seq<Action>, i: nat)
    returns (tail: seq<Row>, rest: seq<Row>)
    requires env.Ok() && IsRun(env, states, actions) && i < |states|
    requires states[i].exp.phase.Idle? || states[i].exp.phase.Stopped?
    requires forall k | i <= k < |actions| :: !actions[k].ExporterStarts?
    ensures Continues(states[i].exp, states[|states| - 1].exp, tail, rest)
    decreases |states|
  {
    var n := |actions|;
    if i == n {
      tail, rest := [], [];
    } else {
      LastStep(env, states, actions);
      tail, rest := DeliveryContinues(env, states[..n], actions[..n - 1], i);
      tail, rest := SessionStep(env, states[i].exp, states[n - 1], actions[n - 1], states[n], tail, rest);
    }
  }

  /** In order: from a state in which the exporter is idle or stopped on, and as long as it is not
      started anew, everything the plugin is given comes in (block, log index) order and no row comes
      twice, whatever fails and whatever the workers do meanwhile; and after the first row it refuses
      it is given none. */
  lemma DeliveryIsInOrder(env: Env, states: seq<State>, actions: seq<Action>, i: nat)
    requires env.Ok() && IsRun(env, states, actions) && i < |states|
    requires states[i].exp.phase.Idle? || states[i].exp.phase.Stopped?
    requires forall k | i <= k < |actions| :: !actions[k].ExporterStarts?
    ensures var before, after := states[i].exp, states[|states| - 1].exp;
            && before.delivered <= after.delivered && before.refused <= after.refused
            && var taken, refused := after.delivered[|before.delivered|..], after.refused[|before.refused|..];
               && SortedRows(taken + refused) && EachOnce(taken + refused)
               && |refused| <= 1 && (refused != [] ==> after.phase.Stopped?)
  {
    var tail, rest := DeliveryContinues(env, states, actions, i);
    SessionIsSorted(states[|states| - 1].exp, tail + rest);
    assert states[|states| - 1].exp.delivered[|states[i].exp.delivered|..] == tail;
    assert states[|states| - 1].exp.refused[|states[i].exp.refused|..] == rest;
  }

  // ---- the saved cursor --------------------------------------------------------------------

  /** While it works the exporter holds the cursor it saved last, or the one it started from. */
  predicate MemIsSaved(env: Env, e: Exporter) {
    !e.phase.Stopped? ==> e.phase.mem == e.row || e.phase.mem == Resume(e.row, env.exporterStart)
  }

  lemma MemStaysSaved(env: Env, st: State, a: Action, st': State)
    requires MemIsSaved(env, st.exp) && Step(env, st, a, st')
    ensures MemIsSaved(env, st'.exp)
  {
  }

  lemma {:induction false} MemIsAlwaysSaved(env: Env, states: seq<State>, actions: seq<Action>)
    requires IsRun(env, states, actions)
    ensures MemIsSaved(env, states[|states| - 1].exp)
  {
    if actions != [] {
      var n := |actions|;
      RunSplits(env, states, actions);
      MemIsAlwaysSaved(env, states[..n], actions[..n - 1]);
      MemStaysSaved(env, states[n - 1], actions[n - 1], states[n]);
    }
  }

  predicate PastStart(env: Env, c: Cursor) {
    env.exporterStart == 0 || env.exporterStart <= c.completed
  }

  lemma PersistMovesForward(env: Env, st: State, e': Exporter)
    requires Invariant(env, st) && MemIsSaved(env, st.exp) && PastStart(env, st.exp.row)
    requires ExporterStep(env, st, CursorPersisted, e')
    ensures AtMost(CursorBound(st.exp.row), CursorBound(e'.row)) && PastStart(env, e'.row)
  {
    var p := st.exp.phase;
    PendingFacts(env, st, p.mem, p.to, p.pending);
    assert p.mem == st.exp.row;
    AfterLogIsLater(p.mem, p.pending[0].log.At());
  }

  lemma AfterLogIsLater(c: Cursor, p: Position)
    requires IsCursor(c) && c.completed < MAX_UINT64 && AtMost(CursorBound(c), p) && p.block >= 1 && p.index < TWO63
    ensures c.completed <= CursorAfterLog(p).completed
  {
    if c.lastIndex >= 0 {
      assert CursorBound(c).block == c.completed + 1;
    }
  }

  lemma FinishMovesForward(env: Env, st: State, e': Exporter)
    requires Invariant(env, st) && MemIsSaved(env, st.exp) && PastStart(env, st.exp.row)
    requires ExporterStep(env, st, RangeFinished, e')
    ensures AtMost(CursorBound(st.exp.row), CursorBound(e'.row)) && PastStart(env, e'.row)
  {
    var p := st.exp.phase;
    assert RangeOk(env, st, p.mem, p.to) && p.mem == st.exp.row;
  }

  lemma RowMovesForward(env: Env, st: State, a: Action, st': State)
    requires Invariant(env, st) && MemIsSaved(env, st.exp) && PastStart(env, st.exp.row) && Step(env, st, a, st')
    ensures AtMost(CursorBound(st.exp.row), CursorBound(st'.exp.row)) && PastStart(env, st'.exp.row)
  {
    if a.CursorPersisted? {
      PersistMovesForward(env, st, st'.exp);
    } else if a.RangeFinished? {
      FinishMovesForward(env, st, st'.exp);
    }
  }

  /** One exporter row against a later one. */
  predicate Forward(env: Env, c: Cursor, d: Cursor) {
    AtMost(CursorBound(c), CursorBound(d)) && PastStart(env, d)
  }

  lemma LastMovesForward(env: Env, states: seq<State>, actions: seq<Action>)
    requires env.Ok() && IsRun(env, states, actions) && actions != []
    requires PastStart(env, states[|actions| - 1].exp.row)
    ensures var n := |actions|;
            IsRun(env, states[..n], actions[..n - 1]) && Forward(env, states[n - 1].exp.row, states[n].exp.row)
  {
    var n := |actions|;
    LastStep(env, states, actions);
    MemIsAlwaysSaved(env, states[..n], actions[..n - 1]);
    RowMovesForward(env, states[n - 1], actions[n - 1], states[n]);
  }

  /** From the start block on the saved cursor never goes back, and it never falls below the start
      block again. */
  lemma {:induction false} SavedCursorNeverGoesBack(env: Env, states: seq<State>, actions: seq<Action>, i: nat)
    requires env.Ok() && IsRun(env, states, actions) && i < |states| && PastStart(env, states[i].exp.row)
    ensures Forward(env, states[i].exp.row, states[|states| - 1].exp.row)
    decreases |states|
  {
    var n := |actions|;
    if i < n {
      RunSplits(env, states, actions);
      SavedCursorNeverGoesBack(env, states[..n], actions[..n - 1], i);
      LastMovesForward(env, states, actions);
    }
  }
}
