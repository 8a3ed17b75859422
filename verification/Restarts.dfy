/** A restart loses nothing: what the exporter does from a state in which it stands still is what a
    fresh exporter with the same row would do. */
module Restarts {
  import opened Positions
  import opened Chain
  import opened ParquetStore
  import opened Pipeline
  import opened DeliveryInvariant
  import opened PipelineSafety
  import opened Sessions

  /** x is the exporter e had it been created with the row that it had in some earlier state: it
      has delivered and been refused only what came since. */
  predicate Rebased(from: Exporter, e: Exporter, x: Exporter) {
    && x.first == from.row && x.row == e.row && x.phase == e.phase
    && e.delivered == from.delivered + x.delivered && e.refused == from.refused + x.refused
  }

  /** The exporter created anew with the row of one that stands still. */
  function Anew(env: Env, e: Exporter): Exporter {
    Exporter(e.row, e.row, CursorBound(Resume(e.row, env.exporterStart)), [], [], Stopped)
  }

  lemma AnewIsOk(env: Env, st: State)
    requires Invariant(env, st) && st.exp.phase.Stopped?
    ensures Invariant(env, st.(exp := Anew(env, st.exp))) && Rebased(st.exp, st.exp, Anew(env, st.exp))
  {
  }

  /** What a step of the exporter makes of the one that was created anew. */
  function RebasedAfter(e: Exporter, a: Action, e': Exporter, x: Exporter): Exporter {
    var given := if (a.LogHanded? || a.LogRefused?) && e.phase.Delivering? && e.phase.pending != [] then [e.phase.pending[0]] else [];
    Exporter(
      x.first, e'.row, if a.CursorPersisted? || a.RangeFinished? then Later(x.high, CursorBound(e'.row)) else x.high,
      if a.LogHanded? then x.delivered + given else x.delivered,
      if a.LogRefused? then x.refused + given else x.refused,
      e'.phase)
  }

  lemma RebasedExporterStep(env: Env, from: Exporter, st: State, a: Action, e': Exporter, x: Exporter)
    requires ExporterStep(env, st, a, e') && Rebased(from, st.exp, x)
    ensures var y := RebasedAfter(st.exp, a, e', x);
            Rebased(from, e', y) && ExporterStep(env, st.(exp := x), a, y)
  {
    if a.LogHanded? {
      Snoc(from.delivered, x.delivered, st.exp.phase.pending[0]);
    } else if a.LogRefused? {
      Snoc(from.refused, x.refused, st.exp.phase.pending[0]);
    }
  }

  /** Every step of the system is also one with the exporter that was created anew. */
  lemma RebasedStep(env: Env, from: Exporter, st: State, a: Action, st': State, x: Exporter) returns (y: Exporter)
    requires Step(env, st, a, st') && Rebased(from, st.exp, x)
    ensures Rebased(from, st'.exp, y) && Step(env, st.(exp := x), a, st'.(exp := y))
  {
    if IsSourceStep(a) || a.PairHandled? || a.ProcessDies? {
      y := x.(phase := st'.exp.phase);
    } else {
      RebasedExporterStep(env, from, st, a, st'.exp, x);
      y := RebasedAfter(st.exp, a, st'.exp, x);
    }
  }

  /** So the invariant holds of it, too. */
  lemma {:induction false} RebasedHolds(env: Env, states: seq<State>, actions: seq<Action>, i: nat) returns (x: Exporter)
    requires env.Ok() && IsRun(env, states, actions) && i < |states| && states[i].exp.phase.Stopped?
    ensures Rebased(states[i].exp, states[|states| - 1].exp, x) && Invariant(env, states[|states| - 1].(exp := x))
    decreases |states|
  {
    var n := |actions|;
    if i == n {
      InvariantHolds(env, states, actions);
      AnewIsOk(env, states[n]);
      x := Anew(env, states[n].exp);
    } else {
      RunSplits(env, states, actions);
      var w := RebasedHolds(env, states[..n], actions[..n - 1], i);
      x := RebasedStep(env, states[i].exp, states[n - 1], actions[n - 1], states[n], w);
      StepKeeps(env, states[n - 1].(exp := w), actions[n - 1], states[n].(exp := x));
    }
  }

  predicate TakenSince(from: Exporter, e: Exporter, p: Position)
    requires |from.delivered| <= |e.delivered|
  {
    exists d :: d in e.delivered[|from.delivered|..] && d.log.At() == p
  }

  lemma RebasedTakes(from: Exporter, e: Exporter, x: Exporter, p: Position)
    requires Rebased(from, e, x) && DeliveredAt(x, p)
    ensures |from.delivered| <= |e.delivered| && TakenSince(from, e, p)
  {
    assert e.delivered[|from.delivered|..] == x.delivered;
  }

  /** What lies between the bound an exporter began with and the one it would go on from now, it
      has delivered. */
  lemma CoveredSince(env: Env, st: State, r: Row)
    requires Invariant(env, st) && IsOwed(env, st.sources, r)
    requires Less(StartBound(env, st.exp), r.log.At()) && AtMost(r.log.At(), CursorBound(Resume(st.exp.row, env.exporterStart)))
    ensures DeliveredAt(st.exp, r.log.At())
  {
  }

  /** Each restart delivers anew: from any state in which the exporter stands still, whatever was
      delivered before, every log that some source is responsible for, behind the bound a restart
      begins with and up to the bound that a later one would begin with, has been taken by the
      plugin in between. */
  lemma EachRestartDelivers(env: Env, states: seq<State>, actions: seq<Action>, i: nat, r: Row)
    requires env.Ok() && IsRun(env, states, actions) && i < |states| && states[i].exp.phase.Stopped?
    requires var last := states[|states| - 1];
             && IsOwed(env, last.sources, r)
             && Less(CursorBound(Resume(states[i].exp.row, env.exporterStart)), r.log.At())
             && AtMost(r.log.At(), CursorBound(Resume(last.exp.row, env.exporterStart)))
    ensures |states[i].exp.delivered| <= |states[|states| - 1].exp.delivered|
    ensures TakenSince(states[i].exp, states[|states| - 1].exp, r.log.At())
  {
    var x := RebasedHolds(env, states, actions, i);
    CoveredSince(env, states[|states| - 1].(exp := x), r);
    RebasedTakes(states[i].exp, states[|states| - 1].exp, x, r.log.At());
  }

  lemma RefusalStops(env: Env, st: State, a: Action, st': State)
    requires Step(env, st, a, st') && a.LogRefused?
    ensures st.exp.phase.Delivering? && st.exp.phase.pending != []
    ensures st'.exp == st.exp.(refused := st.exp.refused + [st.exp.phase.pending[0]], phase := Stopped)
  {
  }

  lemma StaysRefused(from: Exporter, e: Exporter, x: Exporter, d: Row)
    requires Rebased(from, e, x) && d in from.refused
    ensures WasGiven(e, d)
  {
  }

  /** At least once: a log that the plugin refused is given to it again and taken before the cursor
      passes it, unless the saved cursor stood at its position already, behind another source's copy
      of it. */
  lemma RefusedLogsAreTakenLater(env: Env, states: seq<State>, actions: seq<Action>, i: nat, d: Row)
    requires env.Ok() && IsRun(env, states, actions) && i < |actions| && actions[i].LogRefused?
    requires states[i].exp.phase.Delivering? && states[i].exp.phase.pending != [] && d == states[i].exp.phase.pending[0]
    requires Less(CursorBound(Resume(states[i].exp.row, env.exporterStart)), d.log.At())
    requires AtMost(d.log.At(), CursorBound(Resume(states[|states| - 1].exp.row, env.exporterStart)))
    ensures |states[i].exp.delivered| <= |states[|states| - 1].exp.delivered|
    ensures TakenSince(states[i].exp, states[|states| - 1].exp, d.log.At())
  {
    assert StepAt(env, states, actions, i);
    RefusalStops(env, states[i], actions[i], states[i + 1]);
    var x := RebasedHolds(env, states, actions, i + 1);
    StaysRefused(states[i + 1].exp, states[|states| - 1].exp, x, d);
    OnlyOwedRowsAreDelivered(env, states, actions, d);
    EachRestartDelivers(env, states, actions, i + 1, d);
  }

  // ---- workers -----------------------------------------------------------------------------

  /** A worker that starts after the process has ended goes on behind what is saved in its row, or
      behind its start block; one that has only failed goes on behind what it held in memory. */
  lemma WorkersGoOnBehindTheirRow(env: Env, st: State, a: Action, st': State, id: nat, begun: State)
    requires id in st.sources && (a == ProcessDies || a == Action.WorkerFails(id)) && Step(env, st, a, st')
    requires Step(env, st', Action.WorkerStarts(id), begun)
    ensures var s := st.sources[id];
            var known := if a.ProcessDies? then s.sync else s.mem;
            begun.sources[id].worker == Polling(if s.start > known then s.start else known)
  {
  }
}
