/** Merging the streams of several backends: one goroutine a backend, a bounded channel, one sender,
    and a context that the client or the return of the call cancels. */
module Fanout {

  const CAPACITY: nat := 64

  /** The channel carries bare items; the tag says which backend an item came from. */
  datatype Tagged<T> = Tagged(backend: nat, item: T)

  /** received counts the items whose hand-over to the channel is done; a stream that broke off
      ended with an error, which the goroutine does not look at. */
  datatype Goroutine =
    | Opening
    | Receiving(received: nat)
    | Holding(received: nat)
    | Finished(received: nat, streamed: bool, broke: bool)
  {
    function Received(): nat {
      if Opening? then 0 else received
    }
  }

  datatype Outcome<T> = Nil | ContextError | SendError(lost: Tagged<T>)

  datatype Sender<T> = Waiting | Sending(item: Tagged<T>) | Returned(outcome: Outcome<T>)

  datatype State<T> = State(
    gs: seq<Goroutine>,
    ch: seq<Tagged<T>>,
    closed: bool,
    byClient: bool,      // the client gave up before the call returned
    sender: Sender<T>,
    sent: seq<Tagged<T>>)
  {
    /** The context ends with the client's patience or with the call itself. */
    predicate Cancelled() {
      byClient || sender.Returned?
    }
  }

  datatype Action =
    | Opened(b: nat)
    | OpenFailed(b: nat)
    | ItemReceived(b: nat)
    | StreamEnded(b: nat)
    | StreamBroke(b: nat)
    | ItemPut(b: nat)
    | GaveUp(b: nat)
    | ChannelClosed
    | ItemTaken
    | ItemSent
    | SendFailed
    | SawClosed
    | SawCancelled
    | ClientCancels

  function Start<T>(streams: seq<seq<T>>): State<T> {
    State(seq(|streams|, i => Opening), [], false, false, Waiting, [])
  }

  predicate AllFinished<T>(st: State<T>) {
    forall b | 0 <= b < |st.gs| :: st.gs[b].Finished?
  }

  /** A step of one goroutine. A stream also ends early once the context is cancelled. */
  predicate Moves<T(==)>(stream: seq<T>, st: State<T>, a: Action, g: Goroutine, g': Goroutine, ch': seq<Tagged<T>>) {
    match a
    case Opened(_) => g.Opening? && g' == Receiving(0) && ch' == st.ch
    case OpenFailed(_) => g.Opening? && g' == Finished(0, false, false) && ch' == st.ch
    case ItemReceived(_) =>
      g.Receiving? && g.received < |stream| && g' == Holding(g.received) && ch' == st.ch
    case StreamEnded(_) =>
      g.Receiving? && (g.received == |stream| || st.Cancelled()) && g' == Finished(g.received, true, false) && ch' == st.ch
    case StreamBroke(_) => g.Receiving? && g' == Finished(g.received, true, true) && ch' == st.ch
    case ItemPut(b) =>
      && g.Holding? && g.received < |stream| && |st.ch| < CAPACITY
      && g' == Receiving(g.received + 1) && ch' == st.ch + [Tagged(b, stream[g.received])]
    case GaveUp(_) =>
      g.Holding? && st.Cancelled() && g' == Finished(g.received, true, false) && ch' == st.ch
    case _ => false
  }

  predicate OfBackend(a: Action) {
    a.Opened? || a.OpenFailed? || a.ItemReceived? || a.StreamEnded? || a.StreamBroke? || a.ItemPut? || a.GaveUp?
  }

  predicate Step<T(==)>(streams: seq<seq<T>>, st: State<T>, a: Action, st': State<T>) {
    if OfBackend(a) then
      && a.b < |st.gs| && |st'.gs| == |st.gs| == |streams|
      && Moves(streams[a.b], st, a, st.gs[a.b], st'.gs[a.b], st'.ch)
      && st' == st.(gs := st.gs[a.b := st'.gs[a.b]], ch := st'.ch)
    else
      match a
      case ChannelClosed => AllFinished(st) && !st.closed && st' == st.(closed := true)
      case ItemTaken =>
        st.sender.Waiting? && st.ch != [] && st' == st.(ch := st.ch[1..], sender := Sending(st.ch[0]))
      case ItemSent =>
        st.sender.Sending? && st' == st.(sent := st.sent + [st.sender.item], sender := Waiting)
      case SendFailed =>
        st.sender.Sending? && st' == st.(sender := Returned(SendError(st.sender.item)))
      case SawClosed =>
        st.sender.Waiting? && st.ch == [] && st.closed && st' == st.(sender := Returned(Nil))
      case SawCancelled =>
        st.sender.Waiting? && st.byClient && st' == st.(sender := Returned(ContextError))
      case ClientCancels =>
        !st.sender.Returned? && !st.byClient && st' == st.(byClient := true)
      case _ => false
  }

  ghost predicate IsRun<T(!new)>(streams: seq<seq<T>>, states: seq<State<T>>, actions: seq<Action>) {
    && |states| == |actions| + 1 && states[0] == Start(streams)
    && forall i | 0 <= i < |actions| :: StepAt(streams, states, actions, i)
  }

  ghost predicate StepAt<T(!new)>(streams: seq<seq<T>>, states: seq<State<T>>, actions: seq<Action>, i: nat)
    requires |states| == |actions| + 1 && i < |actions|
  {
    Step(streams, states[i], actions[i], states[i + 1])
  }

  // ---- what is kept ------------------------------------------------------------------------

  /** The items of one backend, in order. */
  function Of<T>(s: seq<Tagged<T>>, b: nat): seq<T> {
    if s == [] then []
    else
      var front, last := Of(s[..|s| - 1], b), s[|s| - 1];
      if last.backend == b then front + [last.item] else front
  }

  lemma {:induction false} OfConcat<T>(s: seq<Tagged<T>>, t: seq<Tagged<T>>, b: nat)
    ensures Of(s + t, b) == Of(s, b) + Of(t, b)
  {
    if t == [] {
      assert s + t == s;
    } else {
      OfConcat(s, t[..|t| - 1], b);
      assert (s + t)[..|s + t| - 1] == s + t[..|t| - 1];
    }
  }

  function InHand<T>(st: State<T>): seq<Tagged<T>> {
    if st.sender.Sending? then [st.sender.item]
    else if st.sender.Returned? && st.sender.outcome.SendError? then [st.sender.outcome.lost]
    else []
  }

  /** Everything that was ever put into the channel, in order. */
  function Flow<T>(st: State<T>): seq<Tagged<T>> {
    st.sent + InHand(st) + st.ch
  }

  /** A goroutine that is done without having been cancelled has handed over its whole stream,
      unless it could not open it or the stream broke off. */
  predicate Complete<T>(stream: seq<T>, g: Goroutine) {
    g.Finished? && (if g.streamed then g.broke || g.received == |stream| else g.received == 0)
  }

  ghost predicate GoroutineOk<T>(streams: seq<seq<T>>, st: State<T>, b: nat)
    requires b < |st.gs| == |streams|
  {
    var g := st.gs[b];
    && g.Received() <= |streams[b]| && Of(Flow(st), b) == streams[b][..g.Received()]
    && (g.Holding? ==> g.received < |streams[b]|)
    && (g.Finished? && !st.Cancelled() ==> Complete(streams[b], g))
  }

  ghost predicate Invariant<T>(streams: seq<seq<T>>, st: State<T>) {
    && |st.gs| == |streams| && |st.ch| <= CAPACITY
    && (forall b {:trigger GoroutineOk(streams, st, b)} | 0 <= b < |streams| :: GoroutineOk(streams, st, b))
    && (forall t | t in Flow(st) :: t.backend < |streams|)
    && (st.closed ==> AllFinished(st))
    && (st.sender.Returned? && st.sender.outcome.Nil? ==>
          st.ch == [] && st.closed && (!st.byClient ==> forall b | 0 <= b < |streams| :: Complete(streams[b], st.gs[b])))
  }

  lemma StartHolds<T>(streams: seq<seq<T>>)
    ensures Invariant(streams, Start(streams))
  {
    var st := Start(streams);
    forall b | 0 <= b < |streams|
      ensures GoroutineOk(streams, st, b)
    {
    }
  }

  /** What a goroutine's step adds to the flow. */
  function Added<T>(streams: seq<seq<T>>, st: State<T>, a: Action): seq<Tagged<T>>
    requires |st.gs| == |streams|
  {
    if a.ItemPut? && a.b < |streams| && st.gs[a.b].Holding? && st.gs[a.b].received < |streams[a.b]|
    then [Tagged(a.b, streams[a.b][st.gs[a.b].received])]
    else []
  }

  lemma FlowGrows<T(!new)>(streams: seq<seq<T>>, st: State<T>, a: Action, st': State<T>)
    requires |st.gs| == |streams| && Step(streams, st, a, st') && OfBackend(a)
    ensures Flow(st') == Flow(st) + Added(streams, st, a) && st'.sender == st.sender && st'.byClient == st.byClient
    ensures forall b | 0 <= b < |streams| && b != a.b :: st'.gs[b] == st.gs[b]
  {
  }

  lemma OwnGoroutineKeeps<T(!new)>(streams: seq<seq<T>>, st: State<T>, a: Action, st': State<T>)
    requires |st.gs| == |streams| && Step(streams, st, a, st') && OfBackend(a) && GoroutineOk(streams, st, a.b)
    ensures |st'.gs| == |streams| && GoroutineOk(streams, st', a.b)
  {
    FlowGrows(streams, st, a, st');
    OfConcat(Flow(st), Added(streams, st, a), a.b);
    if a.ItemPut? {
      var k, s := st.gs[a.b].received, streams[a.b];
      assert s[..k + 1] == s[..k] + [s[k]];
    }
  }

  lemma OtherGoroutineKeeps<T(!new)>(streams: seq<seq<T>>, st: State<T>, a: Action, st': State<T>, b: nat)
    requires |st.gs| == |streams| && Step(streams, st, a, st') && OfBackend(a)
    requires b < |streams| && b != a.b && GoroutineOk(streams, st, b)
    ensures |st'.gs| == |streams| && GoroutineOk(streams, st', b)
  {
    FlowGrows(streams, st, a, st');
    OfConcat(Flow(st), Added(streams, st, a), b);
  }

  lemma BackendStepKeeps<T(!new)>(streams: seq<seq<T>>, st: State<T>, a: Action, st': State<T>)
    requires Invariant(streams, st) && Step(streams, st, a, st') && OfBackend(a)
    ensures Invariant(streams, st')
  {
    FlowGrows(streams, st, a, st');
    forall b | 0 <= b < |streams|
      ensures GoroutineOk(streams, st', b)
    {
      assert GoroutineOk(streams, st, b);
      if b == a.b {
        OwnGoroutineKeeps(streams, st, a, st');
      } else {
        OtherGoroutineKeeps(streams, st, a, st', b);
      }
    }
  }

  lemma SenderStepKeeps<T(!new)>(streams: seq<seq<T>>, st: State<T>, a: Action, st': State<T>)
    requires Invariant(streams, st) && Step(streams, st, a, st') && !OfBackend(a)
    ensures Invariant(streams, st')
  {
    assert Flow(st') == Flow(st);
    forall b | 0 <= b < |streams|
      ensures GoroutineOk(streams, st', b)
    {
      assert GoroutineOk(streams, st, b);
    }
    forall b | 0 <= b < |streams| && a.SawClosed? && !st.byClient
      ensures Complete(streams[b], st'.gs[b])
    {
      assert GoroutineOk(streams, st, b);
    }
  }

  lemma {:induction false} InvariantHolds<T(!new)>(streams: seq<seq<T>>, states: seq<State<T>>, actions: seq<Action>)
    requires IsRun(streams, states, actions)
    ensures Invariant(streams, states[|actions|])
  {
    if actions == [] {
      StartHolds(streams);
    } else {
      var n := |actions| - 1;
      var ss, front := states[..n + 1], actions[..n];
      forall i | 0 <= i < n
        ensures StepAt(streams, ss, front, i)
      {
        assert StepAt(streams, states, actions, i);
      }
      InvariantHolds(streams, ss, front);
      assert StepAt(streams, states, actions, n);
      if OfBackend(actions[n]) {
        BackendStepKeeps(streams, states[n], actions[n], states[n + 1]);
      } else {
        SenderStepKeeps(streams, states[n], actions[n], states[n + 1]);
      }
    }
  }

  // ---- what the client sees ----------------------------------------------------------------

  /** At any moment, whatever was cancelled or failed, what was sent holds, for every backend, a
      first stretch of that backend's stream in its own order, and nothing else. */
  lemma SentIsAlwaysInOrder<T(!new)>(streams: seq<seq<T>>, states: seq<State<T>>, actions: seq<Action>, b: nat)
    requires IsRun(streams, states, actions) && b < |streams|
    ensures Of(states[|actions|].sent, b) <= streams[b]
    ensures forall t | t in states[|actions|].sent :: t.backend < |streams|
  {
    var st := states[|actions|];
    InvariantHolds(streams, states, actions);
    assert GoroutineOk(streams, st, b);
    OfConcat(st.sent + InHand(st), st.ch, b);
    OfConcat(st.sent, InHand(st), b);
  }

  /** A call that returns nil without the client having given up has sent an interleaving of what
      the backends gave: of each one, in order and nothing twice, its whole stream if it could be
      opened and did not break off, nothing if it could not be opened, and otherwise what came before
      it broke off. */
  lemma NilMeansEverythingWasSent<T(!new)>(streams: seq<seq<T>>, states: seq<State<T>>, actions: seq<Action>, b: nat)
    requires IsRun(streams, states, actions) && b < |streams|
    requires states[|actions|].sender == Returned(Nil) && !states[|actions|].byClient
    ensures var st := states[|actions|];
            && |st.gs| == |streams| && st.gs[b].Finished? && st.gs[b].received <= |streams[b]|
            && Of(st.sent, b) == streams[b][..st.gs[b].received]
            && (!st.gs[b].streamed ==> Of(st.sent, b) == [])
            && (st.gs[b].streamed && !st.gs[b].broke ==> Of(st.sent, b) == streams[b])
    ensures forall t | t in states[|actions|].sent :: t.backend < |streams|
  {
    var st := states[|actions|];
    InvariantHolds(streams, states, actions);
    assert GoroutineOk(streams, st, b);
    assert Complete(streams[b], st.gs[b]);
    assert Flow(st) == st.sent;
  }

  /** A stream that breaks off before its only item leaves no trace: the call returns nil. */
  lemma NilAfterBreakCanBeEmpty<T(!new)>(x: T) returns (states: seq<State<T>>, actions: seq<Action>)
    ensures IsRun([[x]], states, actions)
    ensures states[|actions|].sender == Returned(Nil) && !states[|actions|].byClient && states[|actions|].sent == []
    ensures states[|actions|].gs[..] == [Finished(0, true, true)]
  {
    var s0 := Start([[x]]);
    var s1 := s0.(gs := [Receiving(0)]);
    var s2 := s1.(gs := [Finished(0, true, true)]);
    var s3 := s2.(closed := true);
    var s4 := s3.(sender := Returned(Nil));
    states, actions := [s0, s1, s2, s3, s4], [Opened(0), StreamBroke(0), ChannelClosed, SawClosed];
    assert s0.gs == [Opening];
    assert StepAt([[x]], states, actions, 0);
    assert StepAt([[x]], states, actions, 1);
    assert StepAt([[x]], states, actions, 2);
    assert StepAt([[x]], states, actions, 3);
  }

  /** The condition on the client is needed: once it has given up, the goroutines stop early, the
      channel is closed, and the sender may see that before it sees the cancellation and return
      nil with nothing sent. */
  lemma NilAfterCancellationCanBeEmpty<T(!new)>(x: T) returns (states: seq<State<T>>, actions: seq<Action>)
    ensures IsRun([[x]], states, actions)
    ensures states[|actions|].sender == Returned(Nil) && states[|actions|].byClient && states[|actions|].sent == []
    ensures states[|actions|].gs[..] == [Finished(0, true, false)]
  {
    var s0 := Start([[x]]);
    var s1 := s0.(gs := [Receiving(0)]);
    var s2 := s1.(byClient := true);
    var s3 := s2.(gs := [Finished(0, true, false)]);
    var s4 := s3.(closed := true);
    var s5 := s4.(sender := Returned(Nil));
    states, actions := [s0, s1, s2, s3, s4, s5], [Opened(0), ClientCancels, StreamEnded(0), ChannelClosed, SawClosed];
    CancelledSteps(x);
    hide Step, Start;
    assert StepAt([[x]], states, actions, 0);
    assert StepAt([[x]], states, actions, 1);
    assert StepAt([[x]], states, actions, 2);
    assert StepAt([[x]], states, actions, 3);
    assert StepAt([[x]], states, actions, 4);
  }

  lemma CancelledSteps<T(!new)>(x: T)
    ensures var s0 := Start([[x]]);
            var s1 := s0.(gs := [Receiving(0)]);
            var s2 := s1.(byClient := true);
            var s3 := s2.(gs := [Finished(0, true, false)]);
            var s4 := s3.(closed := true);
            && s0.sent == [] && Step([[x]], s0, Opened(0), s1) && Step([[x]], s1, ClientCancels, s2) && Step([[x]], s2, StreamEnded(0), s3)
            && Step([[x]], s3, ChannelClosed, s4) && Step([[x]], s4, SawClosed, s4.(sender := Returned(Nil)))
  {
    assert Start([[x]]).gs == [Opening];
  }

  // ---- that it ends ------------------------------------------------------------------------

  /** How much a goroutine can still do; an item in the channel counts 2. */
  function Rank<T>(stream: seq<T>, g: Goroutine): nat {
    match g
    case Opening => 4 * |stream| + 2
    case Receiving(k) => if k <= |stream| then 4 * (|stream| - k) + 1 else 1
    case Holding(k) => if k <= |stream| then 4 * (|stream| - k) else 0
    case Finished(_, _, _) => 0
  }

  function Ranks<T>(streams: seq<seq<T>>, gs: seq<Goroutine>): nat
    requires |gs| <= |streams|
  {
    if gs == [] then 0 else Ranks(streams, gs[..|gs| - 1]) + Rank(streams[|gs| - 1], gs[|gs| - 1])
  }

  lemma {:induction false} RanksAfter<T>(streams: seq<seq<T>>, gs: seq<Goroutine>, b: nat, g: Goroutine)
    requires b < |gs| <= |streams|
    ensures Ranks(streams, gs[b := g]) == Ranks(streams, gs) - Rank(streams[b], gs[b]) + Rank(streams[b], g)
  {
    var n := |gs| - 1;
    if b == n {
      assert gs[b := g][..n] == gs[..n];
    } else {
      RanksAfter(streams, gs[..n], b, g);
      assert gs[b := g][..n] == gs[..n][b := g];
    }
  }

  function Work<T>(streams: seq<seq<T>>, st: State<T>): nat
    requires |st.gs| <= |streams|
  {
    Ranks(streams, st.gs) + 2 * |st.ch|
    + (if st.closed then 0 else 1) + (if st.byClient then 0 else 1)
    + (match st.sender case Waiting => 1 case Sending(_) => 2 case Returned(_) => 0)
  }

  /** Every step, failures and cancellations included, leaves less to do: no run is longer than
      the work at its start. */
  lemma EveryStepIsProgress<T(!new)>(streams: seq<seq<T>>, st: State<T>, a: Action, st': State<T>)
    requires Invariant(streams, st) && Step(streams, st, a, st')
    ensures |st'.gs| == |streams| && Work(streams, st') < Work(streams, st)
  {
    if OfBackend(a) {
      assert GoroutineOk(streams, st, a.b);
      RanksAfter(streams, st.gs, a.b, st'.gs[a.b]);
    }
  }

  /** Nothing gets stuck: as long as a goroutine runs or the call has not returned, something other
      than the client's giving up can happen. So goroutines do not outlive the call for ever. */
  lemma NoDeadlock<T(!new)>(streams: seq<seq<T>>, st: State<T>)
    requires Invariant(streams, st)
    requires !AllFinished(st) || !st.sender.Returned?
    ensures exists a: Action, st' :: !a.ClientCancels? && Step(streams, st, a, st')
  {
    if st.sender.Sending? {
      assert Step(streams, st, SendFailed, st.(sender := Returned(SendError(st.sender.item))));
    } else if st.sender.Waiting? && st.ch != [] {
      assert Step(streams, st, ItemTaken, st.(ch := st.ch[1..], sender := Sending(st.ch[0])));
    } else if !AllFinished(st) {
      var b :| 0 <= b < |st.gs| && !st.gs[b].Finished?;
      GoroutineCanMove(streams, st, b);
    } else if st.closed {
      assert Step(streams, st, SawClosed, st.(sender := Returned(Nil)));
    } else {
      assert Step(streams, st, ChannelClosed, st.(closed := true));
    }
  }

  lemma GoroutineCanMove<T(!new)>(streams: seq<seq<T>>, st: State<T>, b: nat)
    requires Invariant(streams, st) && b < |st.gs| && !st.gs[b].Finished?
    requires st.sender.Returned? || st.ch == []
    ensures exists a: Action, st' :: !a.ClientCancels? && Step(streams, st, a, st')
  {
    assert GoroutineOk(streams, st, b);
    var g := st.gs[b];
    if g.Opening? {
      assert Step(streams, st, OpenFailed(b), st.(gs := st.gs[b := Finished(0, false, false)]));
    } else if g.Receiving? {
      if g.received == |streams[b]| {
        assert Step(streams, st, StreamEnded(b), st.(gs := st.gs[b := Finished(g.received, true, false)]));
      } else {
        assert Step(streams, st, ItemReceived(b), st.(gs := st.gs[b := Holding(g.received)]));
      }
    } else if st.sender.Returned? {
      assert Step(streams, st, GaveUp(b), st.(gs := st.gs[b := Finished(g.received, true, false)]));
    } else {
      assert Step(streams, st, ItemPut(b),
        st.(gs := st.gs[b := Receiving(g.received + 1)], ch := st.ch + [Tagged(b, streams[b][g.received])]));
    }
  }
}
