/** A chain of one log and a factory with given rules: the steps by which its worker comes to the
    log, from the start of a run on. */
module SmallWorld {
  import opened Positions
  import opened Chain
  import opened Rules
  import opened ParquetStore
  import opened StoreLaws
  import opened Pipeline

  const INNER: Rule := Rule("Created", "child", CONTRACT, 1, [], [])
  const OUTER: Rule := Rule("Created", "child", FACTORY, 1, [], [INNER])

  /** The factory announces the contract "child". */
  function Deployment(): Log {
    Log(LogId(1, 1, 0), 1, 1, 0, "factory", ["created"], map[1 := Decoded("Created", map["child" := "child"])])
  }

  function World(): Env {
    Env([Deployment()], (r: Rule, d: Decoded) => Trigger(r, d), 10, 0, 0)
  }

  lemma WorldIsOk()
    ensures World().Ok()
  {
  }

  lemma BothRulesFire()
    ensures World().trigger(OUTER, Deployment().DecodedBy(1)) == Some("child")
    ensures World().trigger(INNER, Deployment().DecodedBy(1)) == Some("child")
  {
    assert "child" in Deployment().DecodedBy(1).args;
  }

  function Factory(rules: seq<Rule>, dir: Dir, mem: nat, sync: nat, w: Worker): Source {
    Source(ByAddress("factory"), 1, true, rules, 0, 0, 0, sync, mem, dir, w)
  }

  function Quiet(): Exporter {
    Exporter(Cursor(0, -1), Cursor(0, -1), Position(0, MAX_UINT64), [], [], Stopped)
  }

  function Before(rules: seq<Rule>, dir: Dir, w: Worker, headSeen: nat): State {
    State(map[1 := Factory(rules, dir, 0, 0, w)], 2, headSeen, Quiet())
  }

  /** With a second source, which the first has made. */
  function After(rules: seq<Rule>, child: Source, dir: Dir, mem: nat, sync: nat, w: Worker): State {
    State(map[1 := Factory(rules, dir, mem, sync, w), 2 := child], 3, 1, Quiet())
  }

  function Written(dir: Dir): Dir {
    ApplyWrite(World().chain, ByAddress("factory"), 1, dir, WriteOp.Written(1, 1))
  }

  lemma WindowHasItsRules(s: Source)
    requires s.factory && s.filter == ByAddress("factory")
    ensures WindowPairs(World(), s, 1, 1) == RowPairs(Deployment(), s.rules)
  {
    var l := Deployment();
    assert [l][..0] == [] && World().chain == [l];
    assert Fetch([], s.filter, 1, 1) == [];
    assert Fetch([l], s.filter, 1, 1) == [l];
    assert Pairs([l], s.rules) == Pairs([], s.rules) + RowPairs(l, s.rules);
  }

  lemma StartIsReachable(rules: seq<Rule>)
    ensures Before(rules, map[], Down, 0) in Reachable(World())
  {
    var st := Before(rules, map[], Down, 0);
    assert Initial(World(), st);
    var actions: seq<Action> := [];
    assert IsRun(World(), [st], actions);
    assert [st][|actions|] == st;
  }

  lemma FactoryMoves(st: State, a: Action, s': Source, st': State)
    requires st in Reachable(World()) && 1 in st.sources
    requires IsSourceStep(a) && a.id == 1 && SourceStep(World(), 1, st.sources[1], a, s')
    requires st' == st.(sources := st.sources[1 := s'], headSeen := HeadAfter(st, a))
    ensures st' in Reachable(World())
  {
    ReachableIsClosed(World());
    Moves(World(), Reachable(World()), st, a, st');
  }

  lemma ChangedBefore(rules: seq<Rule>, dir: Dir, w: Worker, headSeen: nat, dir': Dir, w': Worker, headSeen': nat)
    ensures Before(rules, dir', w', headSeen') == Before(rules, dir, w, headSeen).(
              sources := Before(rules, dir, w, headSeen).sources[1 := Factory(rules, dir', 0, 0, w')], headSeen := headSeen')
  {
  }

  lemma ChangedAfter(rules: seq<Rule>, child: Source, dir: Dir, mem: nat, sync: nat, w: Worker, dir': Dir, mem': nat, sync': nat, w': Worker)
    ensures After(rules, child, dir', mem', sync', w') == After(rules, child, dir, mem, sync, w).(
              sources := After(rules, child, dir, mem, sync, w).sources[1 := Factory(rules, dir', mem', sync', w')])
  {
    assert After(rules, child, dir', mem', sync', w').sources
        == After(rules, child, dir, mem, sync, w).sources[1 := Factory(rules, dir', mem', sync', w')];
  }

  lemma MovesBefore(rules: seq<Rule>, dir: Dir, w: Worker, headSeen: nat, a: Action, dir': Dir, w': Worker, headSeen': nat)
    requires Before(rules, dir, w, headSeen) in Reachable(World())
    requires IsSourceStep(a) && a.id == 1
    requires SourceStep(World(), 1, Factory(rules, dir, 0, 0, w), a, Factory(rules, dir', 0, 0, w'))
    requires headSeen' == HeadAfter(Before(rules, dir, w, headSeen), a)
    ensures Before(rules, dir', w', headSeen') in Reachable(World())
  {
    var st, st' := Before(rules, dir, w, headSeen), Before(rules, dir', w', headSeen');
    ChangedBefore(rules, dir, w, headSeen, dir', w', headSeen');
    FactoryMoves(st, a, Factory(rules, dir', 0, 0, w'), st');
  }

  lemma MovesAfter(rules: seq<Rule>, child: Source, dir: Dir, mem: nat, sync: nat, w: Worker, a: Action,
      dir': Dir, mem': nat, sync': nat, w': Worker)
    requires After(rules, child, dir, mem, sync, w) in Reachable(World())
    requires IsSourceStep(a) && a.id == 1
    requires SourceStep(World(), 1, Factory(rules, dir, mem, sync, w), a, Factory(rules, dir', mem', sync', w'))
    requires HeadAfter(After(rules, child, dir, mem, sync, w), a) == 1
    ensures After(rules, child, dir', mem', sync', w') in Reachable(World())
  {
    var st, st' := After(rules, child, dir, mem, sync, w), After(rules, child, dir', mem', sync', w');
    ChangedAfter(rules, child, dir, mem, sync, w, dir', mem', sync', w');
    FactoryMoves(st, a, Factory(rules, dir', mem', sync', w'), st');
  }

  /** The worker starts, sees the head, and stores its window. */
  lemma FirstWindow(rules: seq<Rule>)
    ensures Before(rules, Written(map[]), Stored(1, 1, 1, 0), 1) in Reachable(World())
  {
    StartIsReachable(rules);
    MovesBefore(rules, map[], Down, 0, WorkerStarts(1), map[], Polling(0), 0);
    MovesBefore(rules, map[], Polling(0), 0, HeadSeen(1, 1), map[], Scanning(1, 1), 1);
    MovesBefore(rules, map[], Scanning(1, 1), 1, WindowFetched(1), map[], Fetched(1, 1, 1), 1);
    MovesBefore(rules, map[], Fetched(1, 1, 1), 1, WindowWritten(1), Written(map[]), Stored(1, 1, 1, 0), 1);
  }

  /** The first pair of the window makes the child, with as many nested rules as are copied. */
  lemma ChildIsMade(rules: seq<Rule>, dir: Dir, copied: nat, child: Source)
    requires rules != [] && World().trigger(rules[0], Deployment().DecodedBy(1)) == Some("child")
    requires child == Spawn(1, Factory(rules, dir, 0, 0, Down), rules[0], "child", 1, CopiedRules(rules[0], copied))
    requires Before(rules, dir, Stored(1, 1, 1, 0), 1) in Reachable(World())
    ensures After(rules, child, dir, 0, 0, if CopiedWhole(rules[0], copied) then Stored(1, 1, 1, 1) else Down) in Reachable(World())
  {
    hide Reachable, WindowPairs, RowPairs, HasChild, CopiedWhole, CopiedRules, Trigger;
    var w := if CopiedWhole(rules[0], copied) then Stored(1, 1, 1, 1) else Down;
    WindowHasItsRules(Factory(rules, dir, 0, 0, Stored(1, 1, 1, 0)));
    MadeSources(rules, child, dir, w);
    PairMoves(World(), Deployment(), rules, 0, copied, Before(rules, dir, Stored(1, 1, 1, 0), 1), After(rules, child, dir, 0, 0, w));
  }

  lemma MadeSources(rules: seq<Rule>, child: Source, dir: Dir, w: Worker)
    ensures var st := Before(rules, dir, Stored(1, 1, 1, 0), 1);
            && !HasChild(st.sources, 1, "child")
            && After(rules, child, dir, 0, 0, w).sources == st.sources[1 := Factory(rules, dir, 0, 0, w)][2 := child]
  {
  }

  /** A later pair finds the child there, whatever it is like. */
  lemma ChildIsFound(rules: seq<Rule>, child: Source, dir: Dir, done: nat)
    requires done < |rules| && World().trigger(rules[done], Deployment().DecodedBy(1)) == Some("child")
    requires child.parent == 1 && child.filter == ByAddress("child")
    requires After(rules, child, dir, 0, 0, Stored(1, 1, 1, done)) in Reachable(World())
    ensures After(rules, child, dir, 0, 0, Stored(1, 1, 1, done + 1)) in Reachable(World())
  {
    hide Reachable, WindowPairs, RowPairs, HasChild, Trigger;
    WindowHasItsRules(Factory(rules, dir, 0, 0, Stored(1, 1, 1, done)));
    FoundSources(rules, child, dir, done);
    PairMoves(World(), Deployment(), rules, done, 0, After(rules, child, dir, 0, 0, Stored(1, 1, 1, done)),
              After(rules, child, dir, 0, 0, Stored(1, 1, 1, done + 1)));
  }

  lemma FoundSources(rules: seq<Rule>, child: Source, dir: Dir, done: nat)
    requires child.parent == 1 && child.filter == ByAddress("child")
    ensures var st := After(rules, child, dir, 0, 0, Stored(1, 1, 1, done));
            && HasChild(st.sources, 1, "child")
            && After(rules, child, dir, 0, 0, Stored(1, 1, 1, done + 1)).sources
               == st.sources[1 := Factory(rules, dir, 0, 0, Stored(1, 1, 1, done + 1))]
  {
    assert After(rules, child, dir, 0, 0, Stored(1, 1, 1, done)).sources[2] == child;
  }

  /** Handling a pair of the one log that announces the contract. */
  lemma PairMoves(env: Env, l: Log, rules: seq<Rule>, done: nat, copied: nat, st: State, st': State)
    requires st in Reachable(env) && 1 in st.sources && st.sources[1].worker == Stored(1, 1, 1, done)
    requires WindowPairs(env, st.sources[1], 1, 1) == RowPairs(l, rules) && done < |rules| && l.block == 1
    requires env.trigger(rules[done], l.DecodedBy(st.sources[1].abi)) == Some("child")
    requires var s := st.sources[1];
             var next := s.(worker := Stored(1, 1, 1, done + 1));
             if HasChild(st.sources, 1, "child") then st' == st.(sources := st.sources[1 := next])
             else
               st' == st.(
                 sources := st.sources[
                   1 := if CopiedWhole(rules[done], copied) then next else s.(worker := Down)
                 ][st.nextId := Spawn(1, s, rules[done], "child", 1, CopiedRules(rules[done], copied))],
                 nextId := st.nextId + 1)
    ensures st' in Reachable(env)
  {
    assert RowPairs(l, rules)[done] == (l, rules[done]);
    DeploymentIsStep(env, st, 1, l, rules[done], "child", copied, st');
    ReachableIsClosed(env);
    Moves(env, Reachable(env), st, PairHandled(1, copied), st');
  }

  /** After the last pair the cursor moves over the log. */
  lemma CursorPasses(rules: seq<Rule>, child: Source, dir: Dir)
    requires After(rules, child, dir, 0, 0, Stored(1, 1, 1, |rules|)) in Reachable(World())
    ensures After(rules, child, dir, 1, 1, Polling(1)) in Reachable(World())
  {
    WindowHasItsRules(Factory(rules, dir, 0, 0, Stored(1, 1, 1, |rules|)));
    MovesAfter(rules, child, dir, 0, 0, Stored(1, 1, 1, |rules|), CursorMoved(1), dir, 1, 0, Committed(1, 1));
    MovesAfter(rules, child, dir, 1, 0, Committed(1, 1), CursorSaved(1), dir, 1, 1, Polling(1));
  }

  /** The last pair finds the child there, and the cursor moves on. */
  lemma LastPairPasses(rules: seq<Rule>, child: Source, dir: Dir, done: nat)
    requires done + 1 == |rules| && World().trigger(rules[done], Deployment().DecodedBy(1)) == Some("child")
    requires child.parent == 1 && child.filter == ByAddress("child")
    requires After(rules, child, dir, 0, 0, Stored(1, 1, 1, done)) in Reachable(World())
    ensures After(rules, child, dir, 1, 1, Polling(1)) in Reachable(World())
  {
    ChildIsFound(rules, child, dir, done);
    CursorPasses(rules, child, dir);
  }
}
