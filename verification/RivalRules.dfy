/** A run in which two rules of a factory fire for the same contract and the first one decides. */
module RivalRules {
  import opened Chain
  import opened Rules
  import opened ParquetStore
  import opened Pipeline
  import opened SmallWorld

  /** The child as the first rule asks for it: a plain contract. */
  function Child(): Source {
    Source(ByAddress("child"), 1, false, [], 1, 0, 0, 0, 0, map[], Down)
  }

  /** The factory has a rule that declares the contract as a factory with a nested rule, that rule
      fires, nothing fails, and the factory's cursor passes the deployment. But the rule before it
      declares a plain contract and fires for the same log: the child is not what the second
      asks for: it is no factory and has no rules. */
  lemma FirstRuleDecides() returns (st: State)
    ensures World().Ok() && (forall r, d :: World().trigger(r, d) == Trigger(r, d))
    ensures st in Reachable(World()) && 1 in st.sources && 2 in st.sources && st.sources[1].rules == [INNER, OUTER]
    ensures Fires(World(), st.sources[1], Deployment(), INNER, "child") && Fires(World(), st.sources[1], Deployment(), OUTER, "child")
    ensures st.sources[1].sync == Deployment().block
    ensures st.sources[2].parent == 1 && st.sources[2].filter == ByAddress("child")
    ensures !st.sources[2].factory && ChildTypeOf(OUTER) == FACTORY
    ensures st.sources[2].rules == [] != Nested(OUTER)
  {
    var rules, d := [INNER, OUTER], Written(map[]);
    WorldIsOk();
    BothRulesFire();
    FirstWindow(rules);
    ChildIsMade(rules, d, 0, Child());
    LastPairPasses(rules, Child(), d, 1);
    st := After(rules, Child(), d, 1, 1, Polling(1));
  }
}
