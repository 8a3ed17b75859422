/** One key of the time-limited cache under concurrent lookups: checking, loading without the lock,
    and storing are separate steps, and rows change and keys are invalidated in between. */
module TtlCache {
  import opened Rules

  /** A loaded value, when its load began, when the row was read, and how many invalidations had
      happened by then. */
  datatype Load<V> = Load(value: V, began: nat, readAt: nat, epoch: nat)

  /** The cached value of the code is load.value; the rest of the load is its history. */
  datatype Entry<V> = Entry(load: Load<V>, storedAt: nat, exp: nat)

  datatype Call<V> =
    | NotStarted
    | Loading(began: nat)
    | Loaded(load: Load<V>)
    | Failed
    | Answered(at: nat, entry: Entry<V>)

  /** rows lists the answers the loader has given over time: None when it fails. */
  datatype State<V> = State(
    now: nat,
    rows: seq<(nat, Option<V>)>,
    entry: Option<Entry<V>>,
    epoch: nat,
    calls: seq<Call<V>>)

  datatype Action<V> =
    | TimePasses(d: nat)
    | RowChanges(row: Option<V>)
    | Invalidated
    | Hit(c: nat)
    | Missed(c: nat)
    | RowRead(c: nat)
    | Stored(c: nat)

  /** What the loader answers now. */
  function Row<V>(st: State<V>): Option<V>
    requires st.rows != []
  {
    st.rows[|st.rows| - 1].1
  }

  predicate Fresh<V>(st: State<V>) {
    st.entry.Some? && st.now < st.entry.value.exp
  }

  predicate Step<V(==)>(ttl: nat, st: State<V>, a: Action<V>, st': State<V>) {
    match a
    case TimePasses(d) => st' == st.(now := st.now + d)
    case RowChanges(row) => st' == st.(rows := st.rows + [(st.now, row)])
    case Invalidated => st' == st.(entry := None, epoch := st.epoch + 1)
    case Hit(c) =>
      c < |st.calls| && st.calls[c].NotStarted? && Fresh(st)
      && st' == st.(calls := st.calls[c := Answered(st.now, st.entry.value)])
    case Missed(c) =>
      c < |st.calls| && st.calls[c].NotStarted? && !Fresh(st) && st' == st.(calls := st.calls[c := Loading(st.now)])
    case RowRead(c) =>
      c < |st.calls| && st.calls[c].Loading? && st.rows != []
      && st' == st.(calls := st.calls[c := if Row(st).Some? then Loaded(Load(Row(st).value, st.calls[c].began, st.now, st.epoch))
                                           else Failed])
    case Stored(c) =>
      && c < |st.calls| && st.calls[c].Loaded?
      && var e := Entry(st.calls[c].load, st.now, st.now + ttl);
         st' == st.(entry := Some(e), calls := st.calls[c := Answered(st.now, e)])
  }

  predicate Initial<V(==)>(st: State<V>) {
    |st.rows| == 1 && st.rows[0].0 <= st.now && st.entry == None && forall c | c in st.calls :: c == NotStarted
  }

  ghost predicate StepAt<V(!new)>(ttl: nat, states: seq<State<V>>, actions: seq<Action<V>>, i: nat)
    requires |states| == |actions| + 1 && i < |actions|
  {
    Step(ttl, states[i], actions[i], states[i + 1])
  }

  ghost predicate Stretch<V(!new)>(ttl: nat, states: seq<State<V>>, actions: seq<Action<V>>) {
    |states| == |actions| + 1 && forall i | 0 <= i < |actions| :: StepAt(ttl, states, actions, i)
  }

  lemma StretchSplits<V(!new)>(ttl: nat, states: seq<State<V>>, actions: seq<Action<V>>)
    requires Stretch(ttl, states, actions) && actions != []
    ensures var n := |actions| - 1;
            Stretch(ttl, states[..n + 1], actions[..n]) && Step(ttl, states[n], actions[n], states[n + 1])
  {
    var n := |actions| - 1;
    var ss, front := states[..n + 1], actions[..n];
    forall i | 0 <= i < n
      ensures StepAt(ttl, ss, front, i)
    {
      assert StepAt(ttl, states, actions, i);
    }
    assert StepAt(ttl, states, actions, n);
  }

  // ---- how old an answer can be ------------------------------------------------------------

  /** The loader's answer at time t was v: a row with v was there, and it was not replaced before t. */
  ghost predicate WasTheRow<V(!new)>(rows: seq<(nat, Option<V>)>, t: nat, v: V) {
    exists i :: 0 <= i < |rows| && rows[i].1 == Some(v) && rows[i].0 <= t && (i + 1 < |rows| ==> t <= rows[i + 1].0)
  }

  ghost predicate LoadOk<V(!new)>(st: State<V>, l: Load<V>) {
    l.began <= l.readAt <= st.now && l.epoch <= st.epoch && WasTheRow(st.rows, l.readAt, l.value)
  }

  ghost predicate EntryOk<V(!new)>(ttl: nat, st: State<V>, e: Entry<V>) {
    LoadOk(st, e.load) && e.load.readAt <= e.storedAt <= st.now && e.exp == e.storedAt + ttl
  }

  ghost predicate CallOk<V(!new)>(ttl: nat, st: State<V>, c: Call<V>) {
    match c
    case Loading(began) => began <= st.now
    case Loaded(l) => LoadOk(st, l)
    case Answered(at, e) => EntryOk(ttl, st, e) && e.storedAt <= at <= st.now && (at == e.storedAt || at < e.storedAt + ttl)
    case _ => true
  }

  ghost predicate Invariant<V(!new)>(ttl: nat, st: State<V>) {
    && st.rows != [] && st.rows[|st.rows| - 1].0 <= st.now
    && (st.entry.Some? ==> EntryOk(ttl, st, st.entry.value))
    && (forall c {:trigger st.calls[c]} | 0 <= c < |st.calls| :: CallOk(ttl, st, st.calls[c]))
  }

  lemma RowStays<V(!new)>(st: State<V>, st': State<V>, l: Load<V>)
    requires st.rows != [] && LoadOk(st, l) && st.now <= st'.now && st.epoch <= st'.epoch
    requires st'.rows == st.rows || (|st'.rows| == |st.rows| + 1 && st'.rows[..|st.rows|] == st.rows && st'.rows[|st.rows|].0 == st.now)
    ensures LoadOk(st', l)
  {
    var i :| 0 <= i < |st.rows| && st.rows[i].1 == Some(l.value) && st.rows[i].0 <= l.readAt
             && (i + 1 < |st.rows| ==> l.readAt <= st.rows[i + 1].0);
    assert st'.rows[i] == st.rows[i];
    assert i + 1 < |st.rows| ==> st'.rows[i + 1] == st.rows[i + 1];
  }

  lemma CallStays<V(!new)>(ttl: nat, st: State<V>, st': State<V>, c: Call<V>)
    requires st.rows != [] && CallOk(ttl, st, c) && st.now <= st'.now && st.epoch <= st'.epoch
    requires st'.rows == st.rows || (|st'.rows| == |st.rows| + 1 && st'.rows[..|st.rows|] == st.rows && st'.rows[|st.rows|].0 == st.now)
    ensures CallOk(ttl, st', c)
  {
    match c
    case Loaded(l) => RowStays(st, st', l);
    case Answered(at, e) => RowStays(st, st', e.load);
    case _ =>
  }

  lemma StepKeeps<V(!new)>(ttl: nat, st: State<V>, a: Action<V>, st': State<V>)
    requires Invariant(ttl, st) && Step(ttl, st, a, st')
    ensures Invariant(ttl, st')
  {
    if st.entry.Some? {
      RowStays(st, st', st.entry.value.load);
    }
    forall c | 0 <= c < |st.calls|
      ensures CallOk(ttl, st', st.calls[c])
    {
      CallStays(ttl, st, st', st.calls[c]);
    }
    if a.RowRead? && Row(st).Some? {
      assert WasTheRow(st'.rows, st.now, Row(st).value) by {
        assert st.rows[|st.rows| - 1].1 == Some(Row(st).value);
      }
    }
  }

  lemma {:induction false} InvariantHolds<V(!new)>(ttl: nat, states: seq<State<V>>, actions: seq<Action<V>>)
    requires Stretch(ttl, states, actions) && Initial(states[0])
    ensures Invariant(ttl, states[|actions|])
  {
    if actions == [] {
      forall c | 0 <= c < |states[0].calls|
        ensures CallOk(ttl, states[0], states[0].calls[c])
      {
        assert states[0].calls[c] in states[0].calls;
      }
    } else {
      var n := |actions| - 1;
      StretchSplits(ttl, states, actions);
      InvariantHolds(ttl, states[..n + 1], actions[..n]);
      StepKeeps(ttl, states[n], actions[n], states[n + 1]);
    }
  }

  /** An answer given at time t was the loader's own answer at a moment no earlier than t minus
      the time to live minus the duration of the load it came from; and unless it is that load's own
      answer, the entry was stored less than the time to live before. */
  lemma AnswersAreNotTooOld<V(!new)>(ttl: nat, states: seq<State<V>>, actions: seq<Action<V>>, c: nat)
    requires Stretch(ttl, states, actions) && Initial(states[0])
    requires c < |states[|actions|].calls| && states[|actions|].calls[c].Answered?
    ensures var call := states[|actions|].calls[c];
            var l := call.entry.load;
            var duration := call.entry.storedAt - l.began;
            && WasTheRow(states[|actions|].rows, l.readAt, l.value)
            && l.began <= l.readAt <= call.at <= l.readAt + ttl + duration
            && (call.at == call.entry.storedAt || call.at < call.entry.storedAt + ttl)
  {
    InvariantHolds(ttl, states, actions);
    assert CallOk(ttl, states[|actions|], states[|actions|].calls[c]);
  }

  // ---- invalidation ------------------------------------------------------------------------

  /** Everything read and not yet forgotten was read after so many invalidations. */
  ghost predicate ReadSince<V(!new)>(st: State<V>, epoch: nat) {
    && epoch <= st.epoch
    && (st.entry.Some? ==> epoch <= st.entry.value.load.epoch)
    && (forall c | 0 <= c < |st.calls| && st.calls[c].Loaded? :: epoch <= st.calls[c].load.epoch)
  }

  ghost predicate NoneInFlight<V(!new)>(st: State<V>) {
    forall c | 0 <= c < |st.calls| :: !st.calls[c].Loaded?
  }

  lemma {:induction false} ReadSinceKept<V(!new)>(ttl: nat, states: seq<State<V>>, actions: seq<Action<V>>, epoch: nat)
    requires Stretch(ttl, states, actions) && ReadSince(states[0], epoch)
    ensures ReadSince(states[|actions|], epoch)
  {
    if actions != [] {
      var n := |actions| - 1;
      StretchSplits(ttl, states, actions);
      ReadSinceKept(ttl, states[..n + 1], actions[..n], epoch);
    }
  }

  predicate ServesNoOlder<V>(st: State<V>, epoch: nat) {
    st.entry.Some? ==> epoch <= st.entry.value.load.epoch
  }

  /** Invalidating guarantees that only values read afterwards are served if and only if, at that
      moment, no lookup has read the row without having stored it yet. Such a lookup puts the old
      value back, and the next one is served it. */
  lemma InvalidationHolds<V(!new)>(ttl: nat, st: State<V>, after: State<V>)
    requires ttl >= 1 && Invariant(ttl, st) && Step(ttl, st, Invalidated, after)
    ensures NoneInFlight(st) <==>
              forall states: seq<State<V>>, actions: seq<Action<V>> |
                Stretch(ttl, states, actions) && states[0] == after :: ServesNoOlder(states[|actions|], after.epoch)
  {
    if NoneInFlight(st) {
      forall states: seq<State<V>>, actions: seq<Action<V>> | Stretch(ttl, states, actions) && states[0] == after
        ensures ServesNoOlder(states[|actions|], after.epoch)
      {
        ReadSinceKept(ttl, states, actions, after.epoch);
      }
    } else {
      var c :| 0 <= c < |st.calls| && st.calls[c].Loaded?;
      var e := Entry(after.calls[c].load, after.now, after.now + ttl);
      var back := after.(entry := Some(e), calls := after.calls[c := Answered(after.now, e)]);
      var states, actions := [after, back], [Stored(c)];
      assert StepAt(ttl, states, actions, 0);
      assert CallOk(ttl, st, st.calls[c]);
      assert Stretch(ttl, states, actions) && !ServesNoOlder(states[|actions|], after.epoch);
    }
  }
}
