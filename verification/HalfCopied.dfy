/** A run in which copying a rule's nested rules stops, and the retry passes over the child. */
module HalfCopied {
  import opened Chain
  import opened Rules
  import opened ParquetStore
  import opened Pipeline
  import opened SmallWorld

  /** The child as it is when nothing has been copied. */
  function Child(): Source {
    Source(ByAddress("child"), 1, true, [], 1, 0, 0, 0, 0, map[], Down)
  }

  lemma NothingIsCopied(dir: Dir)
    ensures !CopiedWhole(OUTER, 0)
    ensures Child() == Spawn(1, Factory([OUTER], dir, 0, 0, Down), OUTER, "child", 1, CopiedRules(OUTER, 0))
  {
  }

  lemma CopyingStops(dir: Dir)
    requires dir == Written(map[])
    ensures After([OUTER], Child(), dir, 0, 0, Down) in Reachable(World())
  {
    var rules := [OUTER];
    BothRulesFire();
    FirstWindow(rules);
    NothingIsCopied(dir);
    ChildIsMade(rules, dir, 0, Child());
  }

  /** Its worker starts anew and gets to its window again. */
  lemma SecondWindow(dir: Dir)
    requires After([OUTER], Child(), dir, 0, 0, Down) in Reachable(World())
    ensures After([OUTER], Child(), Written(dir), 0, 0, Stored(1, 1, 1, 0)) in Reachable(World())
  {
    MovesAfter([OUTER], Child(), dir, 0, 0, Down, WorkerStarts(1), dir, 0, 0, Polling(0));
    MovesAfter([OUTER], Child(), dir, 0, 0, Polling(0), HeadSeen(1, 1), dir, 0, 0, Scanning(1, 1));
    MovesAfter([OUTER], Child(), dir, 0, 0, Scanning(1, 1), WindowFetched(1), dir, 0, 0, Fetched(1, 1, 1));
    MovesAfter([OUTER], Child(), dir, 0, 0, Fetched(1, 1, 1), WindowWritten(1), Written(dir), 0, 0, Stored(1, 1, 1, 0));
  }

  /** The factory's cursor passes the deployment although the child lacks the rule that its
      factory's rule declares for it. */
  lemma RetryPassesOverTheChild() returns (st: State)
    ensures World().Ok() && (forall r, d :: World().trigger(r, d) == Trigger(r, d))
    ensures st in Reachable(World()) && 1 in st.sources && 2 in st.sources
    ensures OUTER in st.sources[1].rules && Fires(World(), st.sources[1], Deployment(), OUTER, "child")
    ensures st.sources[1].sync == Deployment().block
    ensures st.sources[2].parent == 1 && st.sources[2].filter == ByAddress("child")
    ensures st.sources[2].rules == [] != Nested(OUTER)
  {
    WorldIsOk();
    BothRulesFire();
    CopyingStops(Written(map[]));
    SecondWindow(Written(map[]));
    LastPairPasses([OUTER], Child(), Written(Written(map[])), 0);
    st := After([OUTER], Child(), Written(Written(map[])), 1, 1, Polling(1));
  }
}
