/** What the children of factories carry, and that declared contracts are followed through any
    number of factories. */
module Lineage {
  import opened Positions
  import opened Chain
  import opened Rules
  import opened ParquetStore
  import opened StoreLaws
  import opened Pipeline
  import opened PipelineInvariant
  import opened DeliveryInvariant
  import opened PipelineSafety

  // ---- where a child comes from ------------------------------------------------------------

  /** A step that creates the source c because rule r sees a deployment in log l. */
  ghost predicate StepMakes(env: Env, st: State, a: Action, c: nat, l: Log, r: Rule) {
    && a.PairHandled? && a.id in st.sources && st.sources[a.id].worker.Stored?
    && c == st.nextId && c !in st.sources
    && var s := st.sources[a.id];
       var pairs := WindowPairs(env, s, s.worker.lo, s.worker.hi);
       && s.worker.done < |pairs| && pairs[s.worker.done] == (l, r)
       && env.trigger(r, l.DecodedBy(s.abi)).Some?
       && !HasChild(st.sources, a.id, env.trigger(r, l.DecodedBy(s.abi)).value)
  }

  /** A child as a rule of its factory asks for on seeing a log, its rules aside. */
  ghost predicate MadeFor(env: Env, p: Source, c: Source, l: Log, r: Rule) {
    && c.filter.ByAddress? && Fires(env, p, l, r, c.filter.address)
    && c.abi == r.abi && c.factory == (ChildTypeOf(r) == FACTORY)
    && l.block >= 1 && c.origin == l.block - 1
  }

  ghost predicate Carries(env: Env, sources: map<nat, Source>, f: nat, c: nat, l: Log, r: Rule, copied: nat) {
    && f in sources && c in sources && sources[c].parent == f
    && MadeFor(env, sources[f], sources[c], l, r) && sources[c].rules == CopiedRules(r, copied)
  }

  lemma MakingStep(env: Env, st: State, a: Action, st': State, c: nat, l: Log, r: Rule)
    requires Invariant(env, st) && Step(env, st, a, st') && StepMakes(env, st, a, c, l, r)
    ensures Carries(env, st'.sources, a.id, c, l, r, a.copied)
  {
    PairFacts(env, st.headSeen, st.sources, a.id);
    assert a.id < st.nextId;
  }

  /** Only such a step adds a source. */
  lemma OnlyMakingSteps(env: Env, st: State, a: Action, st': State, c: nat) returns (l: Log, r: Rule)
    requires Invariant(env, st) && Step(env, st, a, st') && c !in st.sources && c in st'.sources
    ensures StepMakes(env, st, a, c, l, r)
  {
    assert a.PairHandled?;
    var s := st.sources[a.id];
    var p := WindowPairs(env, s, s.worker.lo, s.worker.hi)[s.worker.done];
    l, r := p.0, p.1;
  }

  lemma CarriesOn(env: Env, before: map<nat, Source>, after: map<nat, Source>, f: nat, c: nat, l: Log, r: Rule, copied: nat)
    requires Grows(before, after) && Carries(env, before, f, c, l, r, copied)
    ensures Carries(env, after, f, c, l, r, copied)
  {
    FiresSame(env, before[f], after[f], l, r, before[c].filter.address);
  }

  ghost predicate MadeAt(env: Env, states: seq<State>, actions: seq<Action>, i: nat, c: nat, l: Log, r: Rule) {
    i < |actions| && i < |states| && StepMakes(env, states[i], actions[i], c, l, r)
  }

  lemma GoodLastStep(env: Env, states: seq<State>, actions: seq<Action>)
    requires env.Ok() && IsRun(env, states, actions) && actions != []
    ensures var n := |actions|;
            && IsRun(env, states[..n], actions[..n - 1])
            && Invariant(env, states[n - 1]) && Step(env, states[n - 1], actions[n - 1], states[n])
            && Grows(states[n - 1].sources, states[n].sources)
  {
    RunSplits(env, states, actions);
    InvariantHolds(env, states[..|actions|], actions[..|actions| - 1]);
    LastStepGrows(env, states, actions);
  }

  /** Every child was made by some step. */
  lemma {:induction false} MakerOf(env: Env, states: seq<State>, actions: seq<Action>, c: nat) returns (i: nat, l: Log, r: Rule)
    requires env.Ok() && IsRun(env, states, actions)
    requires c in states[|states| - 1].sources && states[|states| - 1].sources[c].parent != 0
    ensures MadeAt(env, states, actions, i, c, l, r)
  {
    var n := |actions|;
    if n > 0 {
      GoodLastStep(env, states, actions);
      if c in states[n - 1].sources {
        i, l, r := MakerOf(env, states[..n], actions[..n - 1], c);
      } else {
        i := n - 1;
        l, r := OnlyMakingSteps(env, states[n - 1], actions[n - 1], states[n], c);
      }
    }
  }

  /** From the step that makes it on, a child carries what that step gave it, to the end of the run. */
  lemma {:induction false} MadeCarries(env: Env, states: seq<State>, actions: seq<Action>, i: nat, c: nat, l: Log, r: Rule)
    requires env.Ok() && IsRun(env, states, actions) && MadeAt(env, states, actions, i, c, l, r)
    ensures Carries(env, states[|states| - 1].sources, actions[i].id, c, l, r, actions[i].copied)
    decreases |actions|
  {
    hide *;
    MadeByPair(env, states, actions, i, c, l, r);
    var n := |actions|;
    if i == n - 1 {
      LastMakes(env, states, actions, c, l, r);
    } else {
      LastGrows(env, states, actions);
      MadeBefore(env, states, actions, i, c, l, r);
      MadeCarries(env, states[..n], actions[..n - 1], i, c, l, r);
      LastCarriesOn(env, states, actions[i], c, l, r);
    }
  }

  lemma MadeByPair(env: Env, states: seq<State>, actions: seq<Action>, i: nat, c: nat, l: Log, r: Rule)
    requires IsRun(env, states, actions) && MadeAt(env, states, actions, i, c, l, r)
    ensures i < |actions| == |states| - 1 && actions[i].PairHandled?
  {
  }

  lemma MadeBefore(env: Env, states: seq<State>, actions: seq<Action>, i: nat, c: nat, l: Log, r: Rule)
    requires |states| == |actions| + 1 && MadeAt(env, states, actions, i, c, l, r) && i < |actions| - 1
    ensures MadeAt(env, states[..|actions|], actions[..|actions| - 1], i, c, l, r)
    ensures actions[..|actions| - 1][i] == actions[i]
    ensures states[..|actions|][|states[..|actions|]| - 1] == states[|actions| - 1]
  {
    assert states[..|actions|][i] == states[i];
  }

  lemma LastCarriesOn(env: Env, states: seq<State>, a: Action, c: nat, l: Log, r: Rule)
    requires |states| >= 2 && a.PairHandled? && Grows(states[|states| - 2].sources, states[|states| - 1].sources)
    requires Carries(env, states[|states| - 2].sources, a.id, c, l, r, a.copied)
    ensures Carries(env, states[|states| - 1].sources, a.id, c, l, r, a.copied)
  {
    CarriesOn(env, states[|states| - 2].sources, states[|states| - 1].sources, a.id, c, l, r, a.copied);
  }

  lemma LastMakes(env: Env, states: seq<State>, actions: seq<Action>, c: nat, l: Log, r: Rule)
    requires env.Ok() && IsRun(env, states, actions) && actions != [] && MadeAt(env, states, actions, |actions| - 1, c, l, r)
    ensures Carries(env, states[|states| - 1].sources, actions[|actions| - 1].id, c, l, r, actions[|actions| - 1].copied)
  {
    var n := |actions|;
    GoodLastStep(env, states, actions);
    MakingStep(env, states[n - 1], actions[n - 1], states[n], c, l, r);
  }

  lemma LastGrows(env: Env, states: seq<State>, actions: seq<Action>)
    requires env.Ok() && IsRun(env, states, actions) && actions != []
    ensures var n := |actions|;
            IsRun(env, states[..n], actions[..n - 1]) && Grows(states[n - 1].sources, states[n].sources)
  {
    GoodLastStep(env, states, actions);
  }

  lemma {:induction false} PrefixIsRun(env: Env, states: seq<State>, actions: seq<Action>, n: nat)
    requires IsRun(env, states, actions) && n <= |actions|
    ensures IsRun(env, states[..n + 1], actions[..n])
    decreases |actions|
  {
    if n < |actions| {
      RunSplits(env, states, actions);
      PrefixIsRun(env, states[..|actions|], actions[..|actions| - 1], n);
      assert states[..|actions|][..n + 1] == states[..n + 1] && actions[..|actions| - 1][..n] == actions[..n];
    } else {
      assert states[..n + 1] == states && actions[..n] == actions;
    }
  }

  /** A source is made once, by one log and one rule. */
  lemma MadeOnce(env: Env, states: seq<State>, actions: seq<Action>, c: nat, i: nat, l: Log, r: Rule, j: nat, m: Log, q: Rule)
    requires env.Ok() && IsRun(env, states, actions)
    requires MadeAt(env, states, actions, i, c, l, r) && MadeAt(env, states, actions, j, c, m, q)
    ensures i == j && l == m && r == q
  {
    if i < j {
      NotMadeAgain(env, states, actions, c, i, l, r, j);
    }
    if j < i {
      NotMadeAgain(env, states, actions, c, j, m, q, i);
    }
  }

  lemma NotMadeAgain(env: Env, states: seq<State>, actions: seq<Action>, c: nat, i: nat, l: Log, r: Rule, j: nat)
    requires env.Ok() && IsRun(env, states, actions)
    requires i < j < |states| && MadeAt(env, states, actions, i, c, l, r)
    ensures c in states[j].sources
  {
    PrefixIsRun(env, states, actions, j);
    MadeCarries(env, states[..j + 1], actions[..j], i, c, l, r);
  }

  // ---- what a child carries ----------------------------------------------------------------

  /** A child has the filter, ABI, type and start that the rule which made it asks for, and it has
      that rule's nested rules if and only if copying them was not stopped at that step. This stays
      so to the end of the run: what was not copied then is never made up for. */
  lemma ChildCarriesItsRules(env: Env, states: seq<State>, actions: seq<Action>, i: nat, c: nat, l: Log, r: Rule)
    requires env.Ok() && IsRun(env, states, actions) && MadeAt(env, states, actions, i, c, l, r)
    ensures var sources := states[|states| - 1].sources;
            && actions[i].id in sources && c in sources && sources[c].parent == actions[i].id
            && MadeFor(env, sources[actions[i].id], sources[c], l, r)
            && sources[c].rules == CopiedRules(r, actions[i].copied)
            && (sources[c].rules == Nested(r) <==> CopiedWhole(r, actions[i].copied))
  {
    MadeCarries(env, states, actions, i, c, l, r);
    FirstRulesAreAll(r.children, actions[i].copied);
  }

  /** The step stopped copying before all nested rules were there. */
  ghost predicate StopsCopying(env: Env, st: State, a: Action) {
    exists c, l, r :: StepMakes(env, st, a, c, l, r) && !CopiedWhole(r, a.copied)
  }

  ghost predicate StopsAt(env: Env, states: seq<State>, actions: seq<Action>, i: nat) {
    i < |actions| && i < |states| && StopsCopying(env, states[i], actions[i])
  }

  /** The child has the nested rules of the rule that made it. */
  ghost predicate IsWhole(env: Env, states: seq<State>, actions: seq<Action>, c: nat)
    requires states != []
  {
    exists i, l, r :: MadeAt(env, states, actions, i, c, l, r)
      && c in states[|states| - 1].sources && states[|states| - 1].sources[c].rules == Nested(r)
  }

  ghost predicate IsChild(sources: map<nat, Source>, c: nat) {
    c in sources && sources[c].parent != 0
  }

  /** All children have all their rules if and only if no step of the run stopped copying. */
  lemma ChildrenAreWholeIffNoCopyStopped(env: Env, states: seq<State>, actions: seq<Action>)
    requires env.Ok() && IsRun(env, states, actions)
    ensures (forall c | IsChild(states[|states| - 1].sources, c) :: IsWhole(env, states, actions, c))
       <==> forall i :: !StopsAt(env, states, actions, i)
  {
    var last := states[|states| - 1].sources;
    if forall i :: !StopsAt(env, states, actions, i) {
      forall c | IsChild(last, c)
        ensures IsWhole(env, states, actions, c)
      {
        var i, l, r := MakerOf(env, states, actions, c);
        assert !StopsAt(env, states, actions, i);
        ChildCarriesItsRules(env, states, actions, i, c, l, r);
      }
    }
    if i: nat :| StopsAt(env, states, actions, i) {
      var c, l, r :| StepMakes(env, states[i], actions[i], c, l, r) && !CopiedWhole(r, actions[i].copied);
      StoppedChild(env, states, actions, i, c, l, r);
    }
  }

  lemma StoppedChild(env: Env, states: seq<State>, actions: seq<Action>, i: nat, c: nat, l: Log, r: Rule)
    requires env.Ok() && IsRun(env, states, actions)
    requires MadeAt(env, states, actions, i, c, l, r) && !CopiedWhole(r, actions[i].copied)
    ensures IsChild(states[|states| - 1].sources, c) && !IsWhole(env, states, actions, c)
  {
    ChildCarriesItsRules(env, states, actions, i, c, l, r);
    InvariantHolds(env, states, actions);
    forall j, m, q | MadeAt(env, states, actions, j, c, m, q)
      ensures q == r
    {
      MadeOnce(env, states, actions, c, i, l, r, j, m, q);
    }
  }

  /** Nothing else is followed: every source that the user has not declared is there because a log
      that its factory asks for holds the event of one of the factory's rules, meets each of the
      rule's conditions, and names the source's contract in the rule's argument. */
  lemma OnlyDeclaredContractsAreFollowed(env: Env, states: seq<State>, actions: seq<Action>, c: nat) returns (l: Log, r: Rule)
    requires env.Ok() && IsRun(env, states, actions) && IsChild(states[|states| - 1].sources, c)
    requires forall rule, d :: env.trigger(rule, d) == Trigger(rule, d)
    ensures var sources := states[|states| - 1].sources;
            var f := sources[c].parent;
            && f in sources && sources[f].factory && r in sources[f].rules
            && l in env.chain && Matches(sources[f].filter, l) && sources[f].origin < l.block == sources[c].origin + 1
            && var d := l.DecodedBy(sources[f].abi);
               && d.event == r.event && r.addressArg in d.args && sources[c].filter == ByAddress(d.args[r.addressArg])
               && forall q | q in r.conditions :: EvalCondition(if q.arg in d.args then d.args[q.arg] else "", q.operator, q.value)
    ensures var s := states[|states| - 1].sources[c];
            && s.abi == r.abi && (r.childType == "" ==> !s.factory) && (s.factory <==> r.childType == "FACTORY")
            && (!s.factory ==> s.rules == [])
  {
    var i;
    i, l, r := MakerOf(env, states, actions, c);
    ChildCarriesItsRules(env, states, actions, i, c, l, r);
  }

  // ---- which rule makes the child ----------------------------------------------------------

  /** Of all logs and rules of a factory that announce the contract at an address, this log with the
      rule at this place is the first: in position order, and then in the order of the rules. */
  ghost predicate FirstFiring(env: Env, s: Source, a: string, l: Log, j: nat) {
    && j < |s.rules| && Fires(env, s, l, s.rules[j], a)
    && forall m, k | 0 <= k < |s.rules| && Fires(env, s, m, s.rules[k], a) ::
         Less(l.At(), m.At()) || (l == m && j <= k)
  }

  lemma FirstFiringSame(env: Env, s: Source, s': Source, a: string, l: Log, j: nat)
    requires s.SameAs(s') && FirstFiring(env, s, a, l, j)
    ensures FirstFiring(env, s', a, l, j)
  {
    forall m, k | 0 <= k < |s'.rules| && Fires(env, s', m, s'.rules[k], a)
      ensures Less(l.At(), m.At()) || (l == m && j <= k)
    {
      assert Fires(env, s, m, s.rules[k], a);
    }
  }

  lemma EarlierPlace(logs: seq<Log>, rules: seq<Rule>, i: nat, j: nat, m: Log, k: nat) returns (d: nat)
    requires Ordered(logs) && i < |logs| && j < |rules| && k < |rules| && m in logs
    requires Less(m.At(), logs[i].At()) || (m == logs[i] && k < j)
    ensures d < |Pairs(logs[..i], rules)| + j && d < |Pairs(logs, rules)| && Pairs(logs, rules)[d] == (m, rules[k])
  {
    var n := PlaceOf(logs, m);
    PairsOfLog(logs, rules, n, k);
    PairsInOrder(logs, rules, i, j, n, k);
    d := |Pairs(logs[..n], rules)| + k;
  }

  /** What fires before the pair about to be handled has its child already. */
  lemma EarlierHasChild(env: Env, sources: map<nat, Source>, f: nat, a: string, i: nat, j: nat, m: Log, k: nat)
    requires IsChain(env.chain) && f in sources && Found(env, sources, f) && FoundInWindow(env, sources, f)
    requires sources[f].worker.Stored? && sources[f].worker.lo == sources[f].Cur() + 1 && sources[f].factory
    requires var s := sources[f];
             var logs := Fetch(env.chain, s.filter, s.worker.lo, s.worker.hi);
             && i < |logs| && j < |s.rules| && k < |s.rules| && s.worker.done == |Pairs(logs[..i], s.rules)| + j
             && Fires(env, s, m, s.rules[k], a) && (Less(m.At(), logs[i].At()) || (m == logs[i] && k < j))
    ensures HasChild(sources, f, a)
  {
    var s := sources[f];
    if m.block > s.Cur() {
      var logs := Fetch(env.chain, s.filter, s.worker.lo, s.worker.hi);
      FetchMembers(env.chain, s.filter, s.worker.lo, s.worker.hi);
      FetchOrdered(env.chain, s.filter, s.worker.lo, s.worker.hi);
      assert logs[i] in logs;
      var d := EarlierPlace(logs, s.rules, i, j, m, k);
      HandledHasChild(env, sources, f, d, m, s.rules[k], a);
    }
  }

  lemma HandledHasChild(env: Env, sources: map<nat, Source>, f: nat, d: nat, m: Log, r: Rule, a: string)
    requires f in sources && FoundInWindow(env, sources, f) && sources[f].worker.Stored? && d < sources[f].worker.done
    requires var pairs := WindowPairs(env, sources[f], sources[f].worker.lo, sources[f].worker.hi);
             d < |pairs| && pairs[d] == (m, r) && env.trigger(r, m.DecodedBy(sources[f].abi)) == Some(a)
    ensures HasChild(sources, f, a)
  {
    var pairs := WindowPairs(env, sources[f], sources[f].worker.lo, sources[f].worker.hi);
    assert env.trigger(pairs[d].1, pairs[d].0.DecodedBy(sources[f].abi)) == Some(a);
  }

  lemma MakerFiresFirst(env: Env, st: State, a: Action, c: nat, l: Log, r: Rule) returns (j: nat, x: string)
    requires Invariant(env, st) && StepMakes(env, st, a, c, l, r)
    ensures var s := st.sources[a.id];
            env.trigger(r, l.DecodedBy(s.abi)) == Some(x) && FirstFiring(env, s, x, l, j) && s.rules[j] == r
  {
    var s := st.sources[a.id];
    var logs := Fetch(env.chain, s.filter, s.worker.lo, s.worker.hi);
    x := env.trigger(r, l.DecodedBy(s.abi)).value;
    PairFacts(env, st.headSeen, st.sources, a.id);
    var i;
    i, j := PairAt(logs, s.rules, s.worker.done);
    assert Found(env, st.sources, a.id) && FoundInWindow(env, st.sources, a.id);
    forall m, k | 0 <= k < |s.rules| && Fires(env, s, m, s.rules[k], x)
      ensures Less(l.At(), m.At()) || (l == m && j <= k)
    {
      OneOrder(env.chain, l, m);
      if Less(m.At(), l.At()) || (l == m && k < j) {
        EarlierHasChild(env, st.sources, a.id, x, i, j, m, k);
      }
    }
  }

  /** The rule and the log that made a child are the first that ever fire for its contract. */
  lemma MakerIsFirst(env: Env, states: seq<State>, actions: seq<Action>, i: nat, c: nat, l: Log, r: Rule) returns (j: nat)
    requires env.Ok() && IsRun(env, states, actions) && MadeAt(env, states, actions, i, c, l, r)
    ensures var sources := states[|states| - 1].sources;
            && actions[i].id in sources && c in sources && sources[c].filter.ByAddress?
            && FirstFiring(env, sources[actions[i].id], sources[c].filter.address, l, j)
            && sources[actions[i].id].rules[j] == r
  {
    var f := actions[i].id;
    ChildCarriesItsRules(env, states, actions, i, c, l, r);
    PrefixIsRun(env, states, actions, i);
    InvariantHolds(env, states[..i + 1], actions[..i]);
    var x;
    j, x := MakerFiresFirst(env, states[i], actions[i], c, l, r);
    StaysToTheEnd(env, states, actions, i, f);
    FirstFiringSame(env, states[i].sources[f], states[|states| - 1].sources[f], x, l, j);
  }

  lemma {:induction false} StaysToTheEnd(env: Env, states: seq<State>, actions: seq<Action>, i: nat, id: nat)
    requires env.Ok() && IsRun(env, states, actions) && i < |states| && id in states[i].sources
    ensures id in states[|states| - 1].sources && states[i].sources[id].SameAs(states[|states| - 1].sources[id])
    decreases |states|
  {
    var n := |actions|;
    if i < n {
      LastGrows(env, states, actions);
      StaysToTheEnd(env, states[..n], actions[..n - 1], i, id);
    }
  }

  /** c is the one source that f has for the address, and it begins before the block. */
  predicate OnlyChild(sources: map<nat, Source>, f: nat, a: string, c: nat, block: nat) {
    && c in sources && sources[c].parent == f && sources[c].filter == ByAddress(a) && sources[c].origin < block
    && forall d | d in sources && sources[d].parent == f && sources[d].filter == ByAddress(a) :: d == c
  }

  /** A factory and an address have at most one child, it exists once the factory's cursor has
      passed a deployment, and it starts below the first deployment. Of all logs and rules that
      announce the contract the first pair has made it, and it has the ABI, the type and the rules
      that this one asks for, as many rules as were copied then. */
  lemma OneChildPerDeployment(env: Env, states: seq<State>, actions: seq<Action>, f: nat, deployment: Log, r: Rule, a: string)
    returns (c: nat, i: nat, l: Log, j: nat)
    requires env.Ok() && IsRun(env, states, actions)
    requires var st := states[|states| - 1];
             f in st.sources && Fires(env, st.sources[f], deployment, r, a) && deployment.block <= st.sources[f].sync
    ensures var sources := states[|states| - 1].sources;
            && OnlyChild(sources, f, a, c, deployment.block) && FirstFiring(env, sources[f], a, l, j)
            && var q := sources[f].rules[j];
               && MadeAt(env, states, actions, i, c, l, q) && MadeFor(env, sources[f], sources[c], l, q)
               && sources[c].rules == CopiedRules(q, actions[i].copied)
               && (sources[c].rules == Nested(q) <==> CopiedWhole(q, actions[i].copied))
  {
    var st := states[|states| - 1];
    InvariantHolds(env, states, actions);
    c := FoundChild(env, st, f, deployment, r, a);
    var q;
    i, l, q := MakerOf(env, states, actions, c);
    ChildCarriesItsRules(env, states, actions, i, c, l, q);
    j := MakerIsFirst(env, states, actions, i, c, l, q);
  }

  /** The source is what the rule asks for, its nested rules included. */
  predicate IsAsAsked(c: Source, r: Rule) {
    c.abi == r.abi && c.factory == (ChildTypeOf(r) == FACTORY) && c.rules == Nested(r)
  }

  /** Two rules ask for the same source. */
  predicate AskAlike(q: Rule, r: Rule) {
    q.abi == r.abi && (ChildTypeOf(q) == FACTORY <==> ChildTypeOf(r) == FACTORY) && Nested(q) == Nested(r)
  }

  /** Several rules may fire for one contract. When no copying has stopped at its child, the child
      is what one of them asks for if and only if the first to fire asks for the same. */
  lemma IsAsAskedIffFirstRuleIs(env: Env, states: seq<State>, actions: seq<Action>, f: nat, deployment: Log, r: Rule, a: string)
    returns (c: nat, l: Log, j: nat)
    requires env.Ok() && IsRun(env, states, actions)
    requires var st := states[|states| - 1];
             f in st.sources && Fires(env, st.sources[f], deployment, r, a) && deployment.block <= st.sources[f].sync
    ensures var sources := states[|states| - 1].sources;
            && OnlyChild(sources, f, a, c, deployment.block) && FirstFiring(env, sources[f], a, l, j)
            && AtMost(l.At(), deployment.At())
            && (IsWhole(env, states, actions, c) ==> (IsAsAsked(sources[c], r) <==> AskAlike(sources[f].rules[j], r)))
  {
    var i;
    c, i, l, j := OneChildPerDeployment(env, states, actions, f, deployment, r, a);
    var s := states[|states| - 1].sources[f];
    var k :| 0 <= k < |s.rules| && s.rules[k] == r;
    assert Fires(env, s, deployment, s.rules[k], a);
    if IsWhole(env, states, actions, c) {
      var n, m, q :| MadeAt(env, states, actions, n, c, m, q) && states[|states| - 1].sources[c].rules == Nested(q);
      MadeOnce(env, states, actions, c, i, l, s.rules[j], n, m, q);
    }
  }

  // ---- following declared contracts --------------------------------------------------------

  /** One deployment on the way: a log, the rule that sees it, and the new contract. */
  datatype Hop = Hop(log: Log, rule: Rule, address: string)

  /** Rules that see the contract announced, up to the log in which it is deployed, ask for the
      same source. What fires for it later does not matter. */
  ghost predicate Unambiguous(env: Env, filter: Filter, abi: nat, rules: seq<Rule>, h: Hop) {
    forall l, r | l in env.chain && Matches(filter, l) && AtMost(l.At(), h.log.At())
                  && r in rules && env.trigger(r, l.DecodedBy(abi)) == Some(h.address) ::
      AskAlike(r, h.rule)
  }

  /** Deployments that lead from a source with these rules, each declared among the nested rules of
      the one before. Blocks up to origin are not the source's to look at. */
  ghost predicate Path(env: Env, filter: Filter, abi: nat, rules: seq<Rule>, origin: nat, path: seq<Hop>)
    decreases |path|
  {
    path != [] ==>
      var h := path[0];
      && h.rule in rules && h.log in env.chain && Matches(filter, h.log) && origin < h.log.block
      && env.trigger(h.rule, h.log.DecodedBy(abi)) == Some(h.address)
      && (|path| > 1 ==> ChildTypeOf(h.rule) == FACTORY && Unambiguous(env, filter, abi, rules, h))
      && Path(env, ByAddress(h.address), h.rule.abi, h.rule.children, h.log.block - 1, path[1..])
  }

  lemma {:induction false} PathFromEarlier(env: Env, filter: Filter, abi: nat, rules: seq<Rule>, origin: nat, earlier: nat, path: seq<Hop>)
    requires Path(env, filter, abi, rules, origin, path) && earlier <= origin
    ensures Path(env, filter, abi, rules, earlier, path)
  {
  }

  /** The deployments of a path do not go back in time. */
  lemma {:induction false} PathRises(env: Env, filter: Filter, abi: nat, rules: seq<Rule>, origin: nat, path: seq<Hop>)
    requires Path(env, filter, abi, rules, origin, path) && path != []
    ensures path[0].log.block <= path[|path| - 1].log.block
    decreases |path|
  {
    if |path| > 1 {
      PathRises(env, ByAddress(path[0].address), path[0].rule.abi, path[0].rule.children, path[0].log.block - 1, path[1..]);
    }
  }

  /** The sources that a path leads through got all the rules declared for them. */
  ghost predicate WholeAlong(env: Env, states: seq<State>, actions: seq<Action>, f: nat, path: seq<Hop>)
    requires states != []
    decreases |path|
  {
    |path| > 1 ==>
      var sources := states[|states| - 1].sources;
      forall c | c in sources && sources[c].parent == f && sources[c].filter == ByAddress(path[0].address) ::
        IsWhole(env, states, actions, c) && WholeAlong(env, states, actions, c, path[1..])
  }

  /** The source for the first deployment of a path, with the rules declared for it. */
  lemma FirstHop(env: Env, states: seq<State>, actions: seq<Action>, f: nat, path: seq<Hop>) returns (c: nat)
    requires env.Ok() && IsRun(env, states, actions) && WholeAlong(env, states, actions, f, path)
    requires var sources := states[|states| - 1].sources;
             && f in sources && sources[f].factory && |path| > 1
             && Path(env, sources[f].filter, sources[f].abi, sources[f].rules, sources[f].origin, path)
             && path[0].log.block <= sources[f].sync
    ensures var sources := states[|states| - 1].sources;
            && c in sources && sources[c].factory && WholeAlong(env, states, actions, c, path[1..])
            && Path(env, sources[c].filter, sources[c].abi, sources[c].rules, sources[c].origin, path[1..])
  {
    var sources := states[|states| - 1].sources;
    var h := path[0];
    var l, j;
    c, l, j := IsAsAskedIffFirstRuleIs(env, states, actions, f, h.log, h.rule, h.address);
    assert IsWhole(env, states, actions, c);
    assert AskAlike(sources[f].rules[j], h.rule);
    PathFromEarlier(env, ByAddress(h.address), h.rule.abi, h.rule.children, h.log.block - 1, sources[c].origin, path[1..]);
  }

  /** Factories of factories, from the rules the user declared: if copying rules was not stopped at
      any source on the way, every log of a contract at the end of a path of deployments, each
      declared by a rule nested in the rule before, is delivered before the exporter's cursor passes
      it. */
  lemma {:induction false} DeclaredContractsAreFollowed(env: Env, states: seq<State>, actions: seq<Action>, f: nat, path: seq<Hop>, l: Log)
    requires env.Ok() && IsRun(env, states, actions) && WholeAlong(env, states, actions, f, path)
    requires var st := states[|states| - 1];
             && f in st.sources && st.sources[f].factory && path != []
             && Path(env, st.sources[f].filter, st.sources[f].abi, st.sources[f].rules, st.sources[f].origin, path)
             && l in env.chain && l.address == path[|path| - 1].address && path[|path| - 1].log.block <= l.block
             && Less(StartBound(env, st.exp), l.At()) && AtMost(l.At(), CursorBound(st.exp.row))
    ensures DeliveredAt(states[|states| - 1].exp, l.At())
    decreases |path|
  {
    var s := states[|states| - 1].sources[f];
    if |path| == 1 {
      DeployedContractsAreFollowed(env, states, actions, f, path[0].log, path[0].rule, path[0].address, l);
    } else {
      PathRises(env, s.filter, s.abi, s.rules, s.origin, path);
      CursorNeverOvertakes(env, states, actions, f);
      var c := FirstHop(env, states, actions, f, path);
      assert path[1..][|path[1..]| - 1] == path[|path| - 1];
      DeclaredContractsAreFollowed(env, states, actions, c, path[1..], l);
    }
  }
}
