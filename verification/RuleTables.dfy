/** Factory rules as rows with parent pointers: what the rows mean as a forest, and what
    creating, removing and copying rows does to that meaning. */
module RuleTables {
  import opened Rules

  /** Exactly one of source and parent is set: a top-level rule belongs to a source, a nested
      rule to another rule. */
  datatype RuleRow = RuleRow(
    source: Option<nat>,
    parent: Option<nat>,
    event: string,
    addressArg: string,
    childType: string,
    abi: nat)

  datatype ConditionRow = ConditionRow(rule: nat, condition: Condition)

  /** Two tables and their next free ids; ids are handed out once and in increasing order. */
  datatype Tables = Tables(
    rules: map<nat, RuleRow>,
    conditions: map<nat, ConditionRow>,
    nextRule: nat,
    nextCondition: nat)

  datatype Owner = OfSource(id: nat) | OfRule(id: nat)

  predicate OwnedBy(row: RuleRow, o: Owner) {
    match o
    case OfSource(s) => row.source == Some(s) && row.parent == None
    case OfRule(p) => row.parent == Some(p)
  }

  /** One owner per row, parents present and older than their children, no orphan condition. */
  ghost predicate Ok(t: Tables) {
    && (forall k | k in t.rules ::
          && k < t.nextRule
          && (t.rules[k].source.Some? <==> t.rules[k].parent.None?)
          && (t.rules[k].parent.Some? ==> t.rules[k].parent.value < k && t.rules[k].parent.value in t.rules))
    && (forall c | c in t.conditions :: c < t.nextCondition && t.conditions[c].rule in t.rules)
  }

  predicate ValidOwner(t: Tables, o: Owner) {
    o.OfRule? ==> o.id in t.rules
  }

  // ---- reading -----------------------------------------------------------------------------

  function ConditionsFrom(cs: map<nat, ConditionRow>, rule: nat, lo: nat, hi: nat): seq<Condition>
    decreases hi - lo
  {
    if lo >= hi then []
    else
      (if lo in cs && cs[lo].rule == rule then [cs[lo].condition] else [])
      + ConditionsFrom(cs, rule, lo + 1, hi)
  }

  function ConditionsOf(t: Tables, rule: nat): seq<Condition> {
    ConditionsFrom(t.conditions, rule, 0, t.nextCondition)
  }

  /** The rules an owner has, in id order, from id lo on; nested rules are looked for above
      their parent, where they all are. */
  function LoadFrom(t: Tables, o: Owner, lo: nat): seq<Rule>
    decreases t.nextRule - lo, 2
  {
    if lo >= t.nextRule then [] else RuleIfOwned(t, o, lo) + LoadFrom(t, o, lo + 1)
  }

  function RuleIfOwned(t: Tables, o: Owner, k: nat): seq<Rule>
    decreases t.nextRule - k, 1
  {
    if k in t.rules && OwnedBy(t.rules[k], o) then [RuleAt(t, k)] else []
  }

  function RuleAt(t: Tables, k: nat): Rule
    requires k in t.rules
    decreases t.nextRule - k, 0
  {
    var row := t.rules[k];
    Rule(row.event, row.addressArg, row.childType, row.abi, ConditionsOf(t, k),
         if k < t.nextRule then LoadFrom(t, OfRule(k), k + 1) else [])
  }

  function Load(t: Tables, o: Owner): seq<Rule> {
    LoadFrom(t, o, 0)
  }

  /** The ids an owner's query returns. */
  function IdsFrom(t: Tables, o: Owner, lo: nat): (ids: seq<nat>)
    ensures forall k :: k in ids <==> lo <= k < t.nextRule && k in t.rules && OwnedBy(t.rules[k], o)
    decreases t.nextRule - lo
  {
    if lo >= t.nextRule then []
    else (if lo in t.rules && OwnedBy(t.rules[lo], o) then [lo] else []) + IdsFrom(t, o, lo + 1)
  }

  function RulesAt(t: Tables, ids: seq<nat>): seq<Rule>
    requires forall k | k in ids :: k in t.rules
  {
    if ids == [] then [] else [RuleAt(t, ids[0])] + RulesAt(t, ids[1..])
  }

  lemma {:induction false} LoadReadsIds(t: Tables, o: Owner, lo: nat)
    ensures LoadFrom(t, o, lo) == RulesAt(t, IdsFrom(t, o, lo))
    decreases t.nextRule - lo
  {
    if lo < t.nextRule {
      LoadReadsIds(t, o, lo + 1);
      var ids, rest := IdsFrom(t, o, lo), IdsFrom(t, o, lo + 1);
      if lo in t.rules && OwnedBy(t.rules[lo], o) {
        assert ids[0] == lo && ids[1..] == rest;
      } else {
        assert ids == rest;
      }
    }
  }

  /** Below a row's own id there is none of its children. */
  lemma {:induction false} NoChildrenBelow(t: Tables, p: nat, lo: nat)
    requires Ok(t) && lo <= p + 1
    ensures LoadFrom(t, OfRule(p), lo) == LoadFrom(t, OfRule(p), p + 1)
    decreases p + 1 - lo
  {
    if lo < p + 1 {
      NoChildrenBelow(t, p, lo + 1);
      if lo >= t.nextRule {
        assert LoadFrom(t, OfRule(p), p + 1) == [];
      }
    }
  }

  // ---- creating ----------------------------------------------------------------------------

  function AddConditions(t: Tables, rule: nat, cs: seq<Condition>): Tables
    decreases |cs|
  {
    if cs == [] then t
    else
      AddConditions(
        t.(conditions := t.conditions[t.nextCondition := ConditionRow(rule, cs[0])],
           nextCondition := t.nextCondition + 1),
        rule, cs[1..])
  }

  function RowFor(o: Owner, r: Rule): RuleRow {
    RuleRow(
      if o.OfSource? then Some(o.id) else None,
      if o.OfRule? then Some(o.id) else None,
      r.event, r.addressArg, r.childType, r.abi)
  }

  /** One row and its conditions, under the next free ids. */
  function AddRow(t: Tables, row: RuleRow, cs: seq<Condition>): Tables {
    AddConditions(t.(rules := t.rules[t.nextRule := row], nextRule := t.nextRule + 1), t.nextRule, cs)
  }

  function AddRule(t: Tables, o: Owner, r: Rule): Tables {
    AddRow(t, RowFor(o, r), r.conditions)
  }

  /** A whole forest, depth first, each rule before its nested rules. */
  function Insert(t: Tables, o: Owner, forest: seq<Rule>): Tables
    decreases forest
  {
    if forest == [] then t
    else
      var t1 := AddRule(t, o, forest[0]);
      Insert(Insert(t1, OfRule(t.nextRule), forest[0].children), o, forest[1..])
  }

  lemma {:induction false} AddConditionsEffect(t: Tables, rule: nat, cs: seq<Condition>)
    requires forall c | c in t.conditions :: c < t.nextCondition
    ensures var t' := AddConditions(t, rule, cs);
            && t'.rules == t.rules && t'.nextRule == t.nextRule
            && t'.nextCondition == t.nextCondition + |cs|
            && (forall c | c in t'.conditions :: c < t'.nextCondition)
            && (forall c | c < t.nextCondition ::
                  (c in t.conditions <==> c in t'.conditions) && (c in t.conditions ==> t'.conditions[c] == t.conditions[c]))
            && (forall c | t.nextCondition <= c < t'.nextCondition ::
                  c in t'.conditions && t'.conditions[c] == ConditionRow(rule, cs[c - t.nextCondition]))
            && (forall c | c in t'.conditions && c >= t.nextCondition :: t'.conditions[c].rule == rule)
    decreases |cs|
  {
    if cs != [] {
      var t1 := t.(conditions := t.conditions[t.nextCondition := ConditionRow(rule, cs[0])],
                   nextCondition := t.nextCondition + 1);
      AddConditionsEffect(t1, rule, cs[1..]);
    }
  }

  lemma {:induction false} ConditionsNone(cs: map<nat, ConditionRow>, rule: nat, lo: nat, hi: nat)
    requires forall c | lo <= c < hi && c in cs :: cs[c].rule != rule
    ensures ConditionsFrom(cs, rule, lo, hi) == []
    decreases hi - lo
  {
    if lo < hi {
      ConditionsNone(cs, rule, lo + 1, hi);
    }
  }

  lemma {:induction false} ConditionsRun(cs: map<nat, ConditionRow>, rule: nat, lo: nat, added: seq<Condition>)
    requires forall c | lo <= c < lo + |added| :: c in cs && cs[c] == ConditionRow(rule, added[c - lo])
    ensures ConditionsFrom(cs, rule, lo, lo + |added|) == added
    decreases |added|
  {
    if added != [] {
      ConditionsRun(cs, rule, lo + 1, added[1..]);
    }
  }

  lemma {:induction false} ConditionsSplit(cs: map<nat, ConditionRow>, rule: nat, lo: nat, mid: nat, hi: nat)
    requires lo <= mid <= hi
    ensures ConditionsFrom(cs, rule, lo, hi) == ConditionsFrom(cs, rule, lo, mid) + ConditionsFrom(cs, rule, mid, hi)
    decreases mid - lo
  {
    if lo < mid {
      ConditionsSplit(cs, rule, lo + 1, mid, hi);
    }
  }

  lemma {:induction false} ConditionsSame(cs: map<nat, ConditionRow>, cs': map<nat, ConditionRow>, rule: nat, lo: nat, hi: nat)
    requires forall c | lo <= c < hi ::
               (c in cs && cs[c].rule == rule) <==> (c in cs' && cs'[c].rule == rule)
    requires forall c | lo <= c < hi && c in cs && c in cs' && cs[c].rule == rule :: cs[c] == cs'[c]
    ensures ConditionsFrom(cs, rule, lo, hi) == ConditionsFrom(cs', rule, lo, hi)
    decreases hi - lo
  {
    if lo < hi {
      ConditionsSame(cs, cs', rule, lo + 1, hi);
    }
  }

  // ---- frames ------------------------------------------------------------------------------

  /** Rules below base and their conditions are the same in both. */
  ghost predicate Agree(t: Tables, t': Tables, base: nat) {
    && t.nextCondition <= t'.nextCondition && base <= t.nextRule <= t'.nextRule
    && (forall k | k < base :: (k in t.rules <==> k in t'.rules) && (k in t.rules ==> t.rules[k] == t'.rules[k]))
    && (forall c :: (c in t.conditions && t.conditions[c].rule < base) <==> (c in t'.conditions && t'.conditions[c].rule < base))
    && (forall c | c in t.conditions && c in t'.conditions && t.conditions[c].rule < base :: t.conditions[c] == t'.conditions[c])
  }

  /** Rules from base on hang below owner o or below each other. */
  ghost predicate Sealed(t: Tables, base: nat, o: Owner) {
    forall k | k in t.rules && k >= base ::
      OwnedBy(t.rules[k], o) || (t.rules[k].parent.Some? && t.rules[k].parent.value >= base)
  }

  /** Descending from q never meets o. */
  predicate Apart(q: Owner, o: Owner) {
    if o.OfSource? then q != o else q.OfRule? && q.id > o.id
  }

  /** Changing only what is sealed below o changes no forest that lies apart from o. */
  lemma {:induction false} Frame(t: Tables, t': Tables, base: nat, o: Owner, q: Owner, lo: nat)
    requires Ok(t) && Ok(t') && Agree(t, t', base)
    requires Sealed(t, base, o) && Sealed(t', base, o)
    requires Apart(q, o) && (q.OfRule? ==> q.id < base)
    ensures LoadFrom(t, q, lo) == LoadFrom(t', q, lo)
    decreases t'.nextRule - lo, 1
  {
    if lo < t'.nextRule {
      Frame(t, t', base, o, q, lo + 1);
      if lo in t'.rules && OwnedBy(t'.rules[lo], q) {
        assert lo < base;
        FrameRow(t, t', base, o, lo);
      } else {
        assert lo < base ==> (lo in t.rules <==> lo in t'.rules);
      }
    }
  }

  lemma {:induction false} FrameRow(t: Tables, t': Tables, base: nat, o: Owner, k: nat)
    requires Ok(t) && Ok(t') && Agree(t, t', base)
    requires Sealed(t, base, o) && Sealed(t', base, o)
    requires k < base && k in t.rules && Apart(OfRule(k), o)
    ensures k in t'.rules && RuleAt(t, k) == RuleAt(t', k)
    decreases t'.nextRule - k, 0
  {
    SameRow(t, t', base, k);
    hide Ok, Agree, Sealed, ConditionsOf, LoadFrom, OwnedBy;
    Frame(t, t', base, o, OfRule(k), k + 1);
    ConditionsKept(t, t', base, k);
  }

  lemma SameRow(t: Tables, t': Tables, base: nat, k: nat)
    requires Ok(t) && Agree(t, t', base) && k < base && k in t.rules
    ensures k in t'.rules && t'.rules[k] == t.rules[k] && k < t.nextRule <= t'.nextRule
  {
  }

  lemma ConditionsKept(t: Tables, t': Tables, base: nat, k: nat)
    requires Ok(t) && Ok(t') && Agree(t, t', base) && k < base
    ensures ConditionsOf(t, k) == ConditionsOf(t', k)
  {
    ConditionsSame(t.conditions, t'.conditions, k, 0, t.nextCondition);
    ConditionsNone(t'.conditions, k, t.nextCondition, t'.nextCondition);
    ConditionsSplit(t'.conditions, k, 0, t.nextCondition, t'.nextCondition);
  }

  // ---- what inserting means ----------------------------------------------------------------

  lemma AddRuleEffect(t: Tables, o: Owner, r: Rule)
    requires Ok(t) && ValidOwner(t, o)
    ensures var t' := AddRule(t, o, r);
            && Ok(t') && t'.nextRule == t.nextRule + 1
            && t'.rules == t.rules[t.nextRule := RowFor(o, r)]
            && Agree(t, t', t.nextRule) && Sealed(t', t.nextRule, o)
            && ConditionsOf(t', t.nextRule) == r.conditions
  {
    var n := t.nextRule;
    var t1 := t.(rules := t.rules[n := RowFor(o, r)], nextRule := n + 1);
    AddConditionsEffect(t1, n, r.conditions);
    hide Ok, Agree, Sealed;
    AddConditionsRow(t, t1, AddRule(t, o, r), n, r.conditions);
    AddedRowOk(t, AddRule(t, o, r), o, r);
  }

  lemma AddConditionsRow(t: Tables, t1: Tables, t': Tables, n: nat, cs: seq<Condition>)
    requires Ok(t) && n == t.nextRule && t1.conditions == t.conditions && t1.nextCondition == t.nextCondition
    requires t'.nextCondition == t.nextCondition + |cs|
    requires forall c | c < t.nextCondition ::
               (c in t.conditions <==> c in t'.conditions) && (c in t.conditions ==> t'.conditions[c] == t.conditions[c])
    requires forall c | t.nextCondition <= c < t'.nextCondition ::
               c in t'.conditions && t'.conditions[c] == ConditionRow(n, cs[c - t.nextCondition])
    ensures ConditionsOf(t', n) == cs
  {
    ConditionsNone(t'.conditions, n, 0, t.nextCondition);
    ConditionsRun(t'.conditions, n, t.nextCondition, cs);
    ConditionsSplit(t'.conditions, n, 0, t.nextCondition, t'.nextCondition);
  }

  lemma AddedRowOk(t: Tables, t': Tables, o: Owner, r: Rule)
    requires Ok(t) && ValidOwner(t, o)
    requires t'.rules == t.rules[t.nextRule := RowFor(o, r)] && t'.nextRule == t.nextRule + 1
    requires t'.nextCondition >= t.nextCondition
    requires forall c | c in t'.conditions :: c < t'.nextCondition
    requires forall c | c < t.nextCondition ::
               (c in t.conditions <==> c in t'.conditions) && (c in t.conditions ==> t'.conditions[c] == t.conditions[c])
    requires forall c | c in t'.conditions && c >= t.nextCondition :: t'.conditions[c].rule == t.nextRule
    ensures Ok(t') && Agree(t, t', t.nextRule) && Sealed(t', t.nextRule, o)
  {
  }

  lemma NoneBelowNew(t: Tables, t1: Tables, o: Owner, r: Rule)
    requires Ok(t) && Ok(t1) && ValidOwner(t, o) && t1.rules == t.rules[t.nextRule := RowFor(o, r)]
    ensures Load(t1, OfRule(t.nextRule)) == [] && ValidOwner(t1, o) && ValidOwner(t1, OfRule(t.nextRule))
    ensures o.OfRule? ==> o.id < t.nextRule
  {
    LoadNone(t1, OfRule(t.nextRule), 0);
  }

  lemma StillValid(t: Tables, t2: Tables, n: nat, o: Owner)
    requires Ok(t) && ValidOwner(t, o) && Agree(t, t2, n) && n == t.nextRule
    ensures ValidOwner(t2, o)
  {
  }

  /** Inserting keeps the tables well formed and touches nothing outside its owner. */
  lemma {:induction false} InsertKeeps(t: Tables, o: Owner, forest: seq<Rule>)
    requires Ok(t) && ValidOwner(t, o)
    ensures var t' := Insert(t, o, forest);
            Ok(t') && Agree(t, t', t.nextRule) && Sealed(t', t.nextRule, o)
    decreases forest
  {
    NothingAdded(t, o);
    if forest != [] {
      var n := t.nextRule;
      var t1 := AddRule(t, o, forest[0]);
      AddRuleEffect(t, o, forest[0]);
      NoneBelowNew(t, t1, o, forest[0]);
      hide Ok, Agree, Sealed;
      InsertKeeps(t1, OfRule(n), forest[0].children);
      var t2 := Insert(t1, OfRule(n), forest[0].children);
      AgreeLess(t1, t2, t1.nextRule, n);
      AgreeThrough(t, t1, t2, n);
      SealedThrough(t1, t2, n, o);
      StillValid(t, t2, n, o);
      InsertKeeps(t2, o, forest[1..]);
      InsertedAfter(t, t2, Insert(t2, o, forest[1..]), o);
    }
  }

  lemma NothingAdded(t: Tables, o: Owner)
    requires Ok(t)
    ensures Agree(t, t, t.nextRule) && Sealed(t, t.nextRule, o)
  {
  }

  /** What has been added twice below one owner has been added below it. */
  lemma InsertedAfter(t: Tables, t2: Tables, t': Tables, o: Owner)
    requires Ok(t) && Ok(t2) && Agree(t, t2, t.nextRule) && Sealed(t2, t.nextRule, o)
    requires Agree(t2, t', t2.nextRule) && Sealed(t', t2.nextRule, o)
    ensures Agree(t, t', t.nextRule) && Sealed(t', t.nextRule, o)
  {
    AgreeLess(t2, t', t2.nextRule, t.nextRule);
    AgreeThrough(t, t2, t', t.nextRule);
  }

  lemma AgreeLess(t: Tables, t': Tables, base: nat, less: nat)
    requires Ok(t) && Agree(t, t', base) && less <= base
    ensures Agree(t, t', less)
  {
    forall c
      ensures (c in t.conditions && t.conditions[c].rule < less) <==> (c in t'.conditions && t'.conditions[c].rule < less)
    {
      assert (c in t.conditions && t.conditions[c].rule < base) <==> (c in t'.conditions && t'.conditions[c].rule < base);
    }
  }

  lemma AgreeThrough(a: Tables, b: Tables, c: Tables, base: nat)
    requires Agree(a, b, base) && Agree(b, c, base)
    ensures Agree(a, c, base)
  {
  }

  lemma SealedThrough(t1: Tables, t2: Tables, n: nat, o: Owner)
    requires t1.nextRule == n + 1 && Sealed(t1, n, o)
    requires Agree(t1, t2, n + 1) && Sealed(t2, n + 1, OfRule(n))
    ensures Sealed(t2, n, o)
  {
  }

  lemma {:induction false} LoadNone(t: Tables, o: Owner, lo: nat)
    requires forall k | k in t.rules && k >= lo :: !OwnedBy(t.rules[k], o)
    ensures LoadFrom(t, o, lo) == []
    decreases t.nextRule - lo
  {
    if lo < t.nextRule {
      LoadNone(t, o, lo + 1);
    }
  }

  lemma {:induction false} LoadJoins(t: Tables, t': Tables, o: Owner, lo: nat)
    requires lo <= t.nextRule <= t'.nextRule
    requires forall k | lo <= k < t.nextRule :: RuleIfOwned(t, o, k) == RuleIfOwned(t', o, k)
    ensures LoadFrom(t', o, lo) == LoadFrom(t, o, lo) + LoadFrom(t', o, t.nextRule)
    decreases t.nextRule - lo
  {
    if lo < t.nextRule {
      LoadJoins(t, t', o, lo + 1);
      assert RuleIfOwned(t, o, lo) == RuleIfOwned(t', o, lo);
    }
  }

  /** What an owner had stays in front of what was added for it. */
  lemma LoadSplits(t: Tables, t': Tables, o: Owner)
    requires Ok(t) && Ok(t') && Agree(t, t', t.nextRule) && Sealed(t', t.nextRule, o)
    ensures Load(t', o) == Load(t, o) + LoadFrom(t', o, t.nextRule)
  {
    forall k | 0 <= k < t.nextRule
      ensures RuleIfOwned(t, o, k) == RuleIfOwned(t', o, k)
    {
      if k in t.rules && OwnedBy(t.rules[k], o) {
        FrameRow(t, t', t.nextRule, o, k);
      }
    }
    LoadJoins(t, t', o, 0);
  }

  /** The central law of the tables: loading after inserting gives back the inserted forest,
      in order, with its nesting and its conditions, behind what the owner already had. */
  lemma {:induction false} LoadAfterInsert(t: Tables, o: Owner, forest: seq<Rule>)
    requires Ok(t) && ValidOwner(t, o)
    ensures Load(Insert(t, o, forest), o) == Load(t, o) + forest
    decreases forest
  {
    if forest != [] {
      var n, r := t.nextRule, forest[0];
      var t1 := AddRule(t, o, r);
      var t2 := Insert(t1, OfRule(n), r.children);
      AddRuleEffect(t, o, r);
      LoadAfterInsert(t1, OfRule(n), r.children);
      OneInserted(t, t1, t2, o, r);
      LoadAfterInsert(t2, o, forest[1..]);
      assert Load(t2, o) + forest[1..] == Load(t, o) + forest;
    }
  }

  lemma OneInserted(t: Tables, t1: Tables, t2: Tables, o: Owner, r: Rule)
    requires Ok(t) && ValidOwner(t, o)
    requires t1 == AddRule(t, o, r) && t2 == Insert(t1, OfRule(t.nextRule), r.children)
    requires Load(t2, OfRule(t.nextRule)) == Load(t1, OfRule(t.nextRule)) + r.children
    ensures Ok(t2) && ValidOwner(t2, o)
    ensures Load(t2, o) == Load(t, o) + [r]
  {
    var n := t.nextRule;
    AddRuleEffect(t, o, r);
    NoneBelowNew(t, t1, o, r);
    hide Ok, Agree, Sealed, LoadFrom;
    InsertKeeps(t1, OfRule(n), r.children);
    AgreeLess(t1, t2, t1.nextRule, n);
    AgreeThrough(t, t1, t2, n);
    SealedThrough(t1, t2, n, o);
    StillValid(t, t2, n, o);
    NoChildrenBelow(t2, n, 0);
    FirstInserted(t1, t2, n, r, o);
    LoadSplits(t, t2, o);
  }

  lemma FirstInserted(t1: Tables, t2: Tables, n: nat, r: Rule, o: Owner)
    requires Ok(t1) && Ok(t2) && t1.nextRule == n + 1 && n in t1.rules && t1.rules[n] == RowFor(o, r)
    requires o.OfRule? ==> o.id < n
    requires ConditionsOf(t1, n) == r.conditions
    requires Agree(t1, t2, n + 1) && Sealed(t2, n + 1, OfRule(n))
    requires LoadFrom(t2, OfRule(n), n + 1) == r.children
    ensures LoadFrom(t2, o, n) == [r]
  {
    LoadNone(t2, o, n + 1);
    ConditionsKept(t1, t2, n + 1, n);
    assert RuleAt(t2, n) == r;
  }

  /** Inserting for one source changes the forest of no other source and of no existing rule. */
  lemma InsertTouchesOnlyItsSource(t: Tables, s: nat, forest: seq<Rule>, q: Owner)
    requires Ok(t) && ValidOwner(t, q) && q != OfSource(s)
    ensures Load(Insert(t, OfSource(s), forest), q) == Load(t, q)
  {
    InsertKeeps(t, OfSource(s), forest);
    Frame(t, Insert(t, OfSource(s), forest), t.nextRule, OfSource(s), q, 0);
  }

  // ---- removing ----------------------------------------------------------------------------

  /** k is r or a rule nested below it at any depth. */
  predicate Under(t: Tables, r: nat, k: nat)
    decreases k
  {
    k == r
    || (k in t.rules && t.rules[k].parent.Some? && t.rules[k].parent.value < k
        && Under(t, r, t.rules[k].parent.value))
  }

  function Subtree(t: Tables, r: nat): set<nat> {
    set k | k in t.rules && Under(t, r, k)
  }

  /** The source at the top of a rule's chain of parents. */
  function RootOf(t: Tables, k: nat): Option<nat>
    decreases k
  {
    if k !in t.rules then None
    else if t.rules[k].parent == None then t.rules[k].source
    else if t.rules[k].parent.value < k then RootOf(t, t.rules[k].parent.value)
    else None
  }

  function ForestIds(t: Tables, s: nat): set<nat> {
    set k | k in t.rules && RootOf(t, k) == Some(s)
  }

  function Remove(t: Tables, gone: set<nat>): Tables {
    t.(rules := map k | k in t.rules && k !in gone :: t.rules[k],
       conditions := map c | c in t.conditions && t.conditions[c].rule !in gone :: t.conditions[c])
  }

  ghost predicate Closed(t: Tables, gone: set<nat>) {
    forall k | k in t.rules && t.rules[k].parent.Some? && t.rules[k].parent.value in gone :: k in gone
  }

  lemma RemoveKeepsOk(t: Tables, gone: set<nat>)
    requires Ok(t) && Closed(t, gone)
    ensures Ok(Remove(t, gone))
  {
  }

  lemma RemoveTwice(t: Tables, a: set<nat>, b: set<nat>)
    ensures Remove(Remove(t, a), b) == Remove(t, a + b)
  {
  }

  lemma SubtreeClosed(t: Tables, r: nat)
    requires Ok(t)
    ensures Closed(t, Subtree(t, r))
  {
  }

  lemma {:induction false} UnderStable(t: Tables, gone: set<nat>, r: nat, k: nat)
    requires Ok(t) && Closed(t, gone) && k in t.rules && k !in gone
    ensures Under(Remove(t, gone), r, k) == Under(t, r, k)
    decreases k
  {
    if t.rules[k].parent.Some? {
      UnderStable(t, gone, r, t.rules[k].parent.value);
    }
  }

  /** Removing a subtree from what is left removes what is left of the subtree. */
  lemma RemoveNextSubtree(t: Tables, gone: set<nat>, r: nat)
    requires Ok(t) && Closed(t, gone)
    ensures Remove(Remove(t, gone), Subtree(Remove(t, gone), r)) == Remove(t, gone + Subtree(t, r))
    ensures Closed(t, gone + Subtree(t, r))
  {
    var t1 := Remove(t, gone);
    forall k | k in t1.rules
      ensures k in Subtree(t1, r) <==> k in Subtree(t, r)
    {
      UnderStable(t, gone, r, k);
    }
    forall c | c in t1.conditions
      ensures t1.conditions[c].rule in t1.rules
    {
    }
    assert Remove(t1, Subtree(t1, r)).conditions == Remove(t, gone + Subtree(t, r)).conditions;
    assert Remove(t1, Subtree(t1, r)).rules == Remove(t, gone + Subtree(t, r)).rules;
  }

  /** What lies properly below r lies at or below one of its children. */
  lemma {:induction false} UnderChild(t: Tables, r: nat, k: nat) returns (c: nat)
    requires Ok(t) && Under(t, r, k) && k != r
    ensures c in t.rules && OwnedBy(t.rules[c], OfRule(r)) && Under(t, c, k)
    decreases k
  {
    var p := t.rules[k].parent.value;
    if p == r {
      c := k;
    } else {
      c := UnderChild(t, r, p);
    }
  }

  lemma {:induction false} UnderGoesUp(t: Tables, r: nat, k: nat, c: nat)
    requires Ok(t) && c in t.rules && OwnedBy(t.rules[c], OfRule(r)) && Under(t, c, k)
    ensures Under(t, r, k)
    decreases k
  {
    if k != c {
      UnderGoesUp(t, r, t.rules[k].parent.value, c);
    }
  }

  lemma {:induction false} RootThroughTop(t: Tables, s: nat, k: nat) returns (c: nat)
    requires Ok(t) && k in t.rules && RootOf(t, k) == Some(s)
    ensures c in t.rules && OwnedBy(t.rules[c], OfSource(s)) && Under(t, c, k)
    decreases k
  {
    if t.rules[k].parent == None {
      c := k;
    } else {
      c := RootThroughTop(t, s, t.rules[k].parent.value);
    }
  }

  lemma {:induction false} TopGivesRoot(t: Tables, s: nat, k: nat, c: nat)
    requires Ok(t) && c in t.rules && OwnedBy(t.rules[c], OfSource(s)) && k in t.rules && Under(t, c, k)
    ensures RootOf(t, k) == Some(s)
    decreases k
  {
    if k != c {
      TopGivesRoot(t, s, t.rules[k].parent.value, c);
    }
  }

  lemma ForestClosed(t: Tables, s: nat)
    requires Ok(t)
    ensures Closed(t, ForestIds(t, s))
  {
  }

  /** A forest of which no row goes is the same after the removal, when with every nested row
      that goes its parent goes too. */
  lemma {:induction false} RemoveFrame(t: Tables, gone: set<nat>, q: Owner, lo: nat)
    requires Ok(t)
    requires forall k | k in gone && k in t.rules && t.rules[k].parent.Some? :: t.rules[k].parent.value in gone
    requires forall k | k in gone && k in t.rules && t.rules[k].parent.None? :: q != OfSource(t.rules[k].source.value)
    requires q.OfRule? ==> q.id !in gone && q.id < lo
    ensures LoadFrom(Remove(t, gone), q, lo) == LoadFrom(t, q, lo)
    decreases t.nextRule - lo
  {
    var t' := Remove(t, gone);
    if lo < t.nextRule {
      RemoveFrame(t, gone, q, lo + 1);
      if lo in t.rules && OwnedBy(t.rules[lo], q) {
        RemoveFrame(t, gone, OfRule(lo), lo + 1);
        ConditionsSame(t.conditions, t'.conditions, lo, 0, t.nextCondition);
        assert RuleAt(t, lo) == RuleAt(t', lo);
      }
      assert RuleIfOwned(t, q, lo) == RuleIfOwned(t', q, lo);
    }
  }

  /** Removing one source's rules leaves every other source's forest. */
  lemma RemoveTouchesOnlyItsSource(t: Tables, s: nat, x: nat)
    requires Ok(t) && x != s
    ensures Load(Remove(t, ForestIds(t, s)), OfSource(x)) == Load(t, OfSource(x))
  {
    RemoveFrame(t, ForestIds(t, s), OfSource(x), 0);
  }

  // ---- replacing and copying ---------------------------------------------------------------

  function Save(t: Tables, s: nat, forest: seq<Rule>): Tables {
    Insert(Remove(t, ForestIds(t, s)), OfSource(s), forest)
  }

  /** Saving a forest and loading it gives the same forest; nothing of the replaced one is left
      in either table; every other source keeps its own. */
  lemma SaveThenLoad(t: Tables, s: nat, forest: seq<Rule>)
    requires Ok(t)
    ensures var t' := Save(t, s, forest);
            && Ok(t')
            && Load(t', OfSource(s)) == forest
            && (forall k | k in ForestIds(t, s) :: k !in t'.rules)
            && (forall c | c in t'.conditions :: t'.conditions[c].rule !in ForestIds(t, s))
            && (forall x | x != s :: Load(t', OfSource(x)) == Load(t, OfSource(x)))
  {
    var t1 := Remove(t, ForestIds(t, s));
    var t' := Save(t, s, forest);
    ForestClosed(t, s);
    RemoveKeepsOk(t, ForestIds(t, s));
    InsertKeeps(t1, OfSource(s), forest);
    LoadAfterInsert(t1, OfSource(s), forest);
    LoadNone(t1, OfSource(s), 0);
    forall x | x != s
      ensures Load(t', OfSource(x)) == Load(t, OfSource(x))
    {
      InsertTouchesOnlyItsSource(t1, s, forest, OfSource(x));
      RemoveTouchesOnlyItsSource(t, s, x);
    }
    forall c | c in t'.conditions
      ensures t'.conditions[c].rule !in ForestIds(t, s)
    {
      assert t'.conditions[c].rule in t'.rules;
    }
  }

  /** Copies what hangs below a template rule onto a new owner. */
  function Clone(t: Tables, o: Owner, template: nat): Tables {
    Insert(t, o, Load(t, OfRule(template)))
  }

  /** A source without rules gets, by cloning, a forest equal to the template's, and the
      template and every other forest stay as they were. */
  lemma CloneIsIsomorphic(t: Tables, child: nat, template: nat, q: Owner)
    requires Ok(t) && template in t.rules
    requires forall k | k in t.rules :: t.rules[k].source != Some(child)
    requires ValidOwner(t, q) && q != OfSource(child)
    ensures var t' := Clone(t, OfSource(child), template);
            && Ok(t')
            && Load(t', OfSource(child)) == Load(t, OfRule(template))
            && Load(t', OfRule(template)) == Load(t, OfRule(template))
            && Load(t', q) == Load(t, q)
  {
    var f := Load(t, OfRule(template));
    InsertKeeps(t, OfSource(child), f);
    LoadAfterInsert(t, OfSource(child), f);
    LoadNone(t, OfSource(child), 0);
    InsertTouchesOnlyItsSource(t, child, f, OfRule(template));
    InsertTouchesOnlyItsSource(t, child, f, q);
  }
}
