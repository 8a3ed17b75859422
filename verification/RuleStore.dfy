/** The recursive code that reads and writes the rule tables in place. */
module RuleStore {
  import opened Rules
  import opened RuleTables

  class Store {
    var rules: map<nat, RuleRow>
    var conditions: map<nat, ConditionRow>
    var nextRule: nat
    var nextCondition: nat

    function T(): Tables
      reads this
    {
      Tables(rules, conditions, nextRule, nextCondition)
    }

    constructor ()
      ensures T() == Tables(map[], map[], 1, 1) && Ok(T())
    {
      rules, conditions, nextRule, nextCondition := map[], map[], 1, 1;
    }

    /** Inserts one row together with its conditions and returns the row's id. */
    method Create(row: RuleRow, cs: seq<Condition>) returns (id: nat)
      requires forall c | c in conditions :: c < nextCondition
      modifies this
      ensures id == old(nextRule)
      ensures T() == AddRow(old(T()), row, cs)
    {
      id := nextRule;
      rules := rules[id := row];
      nextRule := id + 1;
      ghost var t1 := T();
      for i := 0 to |cs|
        invariant AddConditions(T(), id, cs[i..]) == AddConditions(t1, id, cs)
      {
        assert cs[i..][1..] == cs[i + 1..];
        conditions := conditions[nextCondition := ConditionRow(id, cs[i])];
        nextCondition := nextCondition + 1;
      }
    }

    /** Reads an owner's rules with everything nested below them. */
    method LoadRulesAt(o: Owner) returns (out: seq<Rule>)
      requires Ok(T())
      ensures out == Load(T(), o)
      decreases Height(T(), o)
    {
      var t := T();
      var ids := IdsFrom(t, o, 0);
      LoadReadsIds(t, o, 0);
      out := [];
      for i := 0 to |ids|
        invariant Collected(out, RulesAt(t, ids[i..]), Load(t, o))
      {
        var k := ids[i];
        RulesAtStep(t, o, ids, i);
        var children := LoadRulesAt(OfRule(k));
        var row := rules[k];
        var rule := Rule(row.event, row.addressArg, row.childType, row.abi, ConditionsOf(t, k), children);
        CollectedStep(out, rule, RulesAt(t, ids[i + 1..]), Load(t, o));
        out := out + [rule];
      }
    }

    /** Writes a forest below an owner: the source itself, or a rule when parent is given. */
    method CreateFactoryRules(source: nat, parent: Option<nat>, forest: seq<Rule>)
      requires Ok(T()) && (parent.Some? ==> parent.value in rules)
      modifies this
      ensures T() == Insert(old(T()), OwnerFor(source, parent), forest)
      ensures Ok(T())
      decreases forest
    {
      var o := OwnerFor(source, parent);
      for i := 0 to |forest|
        invariant Ok(T()) && ValidOwner(T(), o)
        invariant Insert(T(), o, forest[i..]) == Insert(old(T()), o, forest)
      {
        var r := forest[i];
        assert forest[i..][0] == r && forest[i..][1..] == forest[i + 1..];
        ghost var t := T();
        AddRuleEffect(t, o, r);
        var id := Create(RowFor(o, r), r.conditions);
        InsertKeeps(T(), OfRule(id), r.children);
        if |r.children| > 0 {
          CreateFactoryRules(source, Some(id), r.children);
        }
      }
    }

    /** Deletes a rule, everything nested below it, and all their conditions. */
    method DeleteRuleSubtree(r: nat)
      requires Ok(T())
      modifies this
      ensures T() == Remove(old(T()), Subtree(old(T()), r))
      ensures Ok(T())
      decreases Height(T(), OfRule(r))
    {
      ghost var t := T();
      var children := IdsFrom(T(), OfRule(r), 0);
      RemoveNothing(t);
      for i := 0 to |children|
        invariant RemovedSoFar(t, T(), children[..i])
      {
        ChildIsLower(t, r, children, i);
        RemoveOneMore(t, T(), children[..i], children[i]);
        assert children[..i + 1] == children[..i] + [children[i]];
        DeleteRuleSubtree(children[i]);
      }
      assert children[..|children|] == children;
      SubtreeFromChildren(t, r, children);
      RemoveRow(t, r, Gone(t, children));
      DeleteRow(r);
    }

    /** Deletes a rule's conditions, then the rule. */
    method DeleteRow(r: nat)
      modifies this
      ensures T() == Remove(old(T()), {r})
    {
      conditions := map c | c in conditions && conditions[c].rule != r :: conditions[c];
      rules := map k | k in rules && k != r :: rules[k];
    }

    /** Deletes every rule of a source. */
    method DeleteFactoryRules(source: nat)
      requires Ok(T())
      modifies this
      ensures T() == Remove(old(T()), ForestIds(old(T()), source))
      ensures Ok(T())
    {
      ghost var t := T();
      var top := IdsFrom(T(), OfSource(source), 0);
      RemoveNothing(t);
      for i := 0 to |top|
        invariant RemovedSoFar(t, T(), top[..i])
      {
        RemoveOneMore(t, T(), top[..i], top[i]);
        assert top[..i + 1] == top[..i] + [top[i]];
        DeleteRuleSubtree(top[i]);
      }
      assert top[..|top|] == top;
      ForestFromTop(t, source, top);
    }

    /** Replaces a source's forest. */
    method SaveFactoryRules(source: nat, forest: seq<Rule>)
      requires Ok(T())
      modifies this
      ensures T() == Save(old(T()), source, forest)
      ensures Ok(T()) && Load(T(), OfSource(source)) == forest
    {
      SaveThenLoad(T(), source, forest);
      DeleteFactoryRules(source);
      CreateFactoryRules(source, None, forest);
    }

    /** Copies the rules nested below a template onto a spawned child. The rows it inserts have
        ids from base on and never become children of a template row, which all lie below base;
        so each query sees the template as it was, and the recursion ends. The database takes so
        many more writes and refuses the one after them: what is there then is what a depth-first
        walk over the template sees first. */
    method CloneFactoryRuleSubtree(child: nat, template: nat, newParent: Option<nat>, writes: nat, ghost base: nat)
      returns (ok: bool, left: nat)
      requires Ok(T()) && template < base <= nextRule && Sealed(T(), base, OfSource(child))
      requires newParent.Some? ==> base <= newParent.value && newParent.value in rules
      modifies this
      ensures var f := Load(old(T()), OfRule(template));
              && T() == Insert(old(T()), OwnerFor(child, newParent), FirstRules(f, writes))
              && (ok <==> RuleCount(f) <= writes)
              && (ok ==> left == writes - RuleCount(f) && T() == Clone(old(T()), OwnerFor(child, newParent), template))
      ensures Ok(T()) && Agree(old(T()), T(), base) && Sealed(T(), base, OfSource(child))
      decreases base - template, 0
    {
      var o := OwnerFor(child, newParent);
      ghost var t, f := T(), Load(T(), OfRule(template));
      var templates := IdsFrom(T(), OfRule(template), 0);
      CopyingStarts(t, base, child, o);
      CopyStarts(t, o, OfRule(template), templates, writes);
      hide *;
      left := writes;
      for i := 0 to |templates|
        invariant Copying(t, T(), base, child, o)
        invariant ToCopy(t, T(), o, f, writes, RulesFrom(t, templates, i), left)
      {
        RulesFromStep(t, OfRule(template), templates, i);
        ghost var before, r, rest := T(), RuleAt(t, templates[i]), RulesFrom(t, templates, i + 1);
        CopyingKeeps(t, before, base, child, o);
        if left == 0 {
          CopyEnds(t, before, o, f, writes, r, rest);
          return false, 0;
        }
        CopyOne(t, before, o, f, writes, r, rest, left);
        ok, left := CloneRule(child, template, templates[i], newParent, left, base, t);
        if !ok {
          CopyingKeeps(t, T(), base, child, o);
          return;
        }
      }
      CopyingKeeps(t, T(), base, child, o);
      CopyDone(t, T(), o, OfRule(template), f, writes, templates, left);
      ok := true;
    }

    /** One template row and what is nested below it. */
    method CloneRule(child: nat, template: nat, k: nat, newParent: Option<nat>, writes: nat, ghost base: nat, ghost t: Tables)
      returns (ok: bool, left: nat)
      requires Copying(t, T(), base, child, OwnerFor(child, newParent)) && writes > 0
      requires template < base && k in t.rules && OwnedBy(t.rules[k], OfRule(template))
      modifies this
      ensures var r := RuleAt(t, k);
              && T() == Insert(AddRule(old(T()), OwnerFor(child, newParent), r), OfRule(old(nextRule)), FirstRules(r.children, writes - 1))
              && (ok <==> RuleCount(r.children) <= writes - 1)
              && (ok ==> left == writes - 1 - RuleCount(r.children))
      ensures Copying(t, T(), base, child, OwnerFor(child, newParent))
      decreases base - k, 1
    {
      var o := OwnerFor(child, newParent);
      ghost var before, r := T(), RuleAt(t, k);
      CopyRow(t, before, base, child, o, template, k);
      var row := rules[k];
      var clone := RuleRow(
        if newParent == None then Some(child) else None, newParent,
        row.event, row.addressArg, row.childType, row.abi);
      assert clone == RowFor(o, r);
      var id := Create(clone, ConditionsOf(T(), k));
      ghost var added := T();
      InsertKeeps(added, OfRule(id), FirstRules(r.children, writes - 1));
      ok, left := CloneFactoryRuleSubtree(child, k, Some(id), writes - 1, base);
      AgreeThrough(t, added, T(), base);
    }

    /** Cloning onto a fresh child source gives it the first rules of the template's forest, all of
        them if no write was refused, and leaves every other forest as it was. */
    method CloneOntoChild(child: nat, template: nat, writes: nat) returns (ok: bool)
      requires Ok(T()) && template in rules
      requires forall k | k in rules :: rules[k].source != Some(child)
      modifies this
      ensures ok <==> RuleCount(old(Load(T(), OfRule(template)))) <= writes
      ensures Ok(T()) && Load(T(), OfSource(child)) == FirstRules(old(Load(T(), OfRule(template))), writes)
      ensures ok ==> Load(T(), OfSource(child)) == old(Load(T(), OfRule(template)))
      ensures forall q: Owner | ValidOwner(old(T()), q) && q != OfSource(child) :: Load(T(), q) == Load(old(T()), q)
    {
      ghost var t, part := T(), FirstRules(Load(T(), OfRule(template)), writes);
      FirstRulesAreAll(Load(t, OfRule(template)), writes);
      LoadNone(t, OfSource(child), 0);
      LoadAfterInsert(t, OfSource(child), part);
      forall q: Owner | ValidOwner(t, q) && q != OfSource(child)
        ensures Load(Insert(t, OfSource(child), part), q) == Load(t, q)
      {
        InsertTouchesOnlyItsSource(t, child, part, q);
      }
      var left;
      ok, left := CloneFactoryRuleSubtree(child, template, None, writes, nextRule);
      assert [] + part == part;
    }
  }

  function OwnerFor(source: nat, parent: Option<nat>): Owner {
    if parent.Some? then OfRule(parent.value) else OfSource(source)
  }

  /** All rows at or below one of these. */
  function Gone(t: Tables, ids: seq<nat>): set<nat> {
    if ids == [] then {} else Gone(t, ids[..|ids| - 1]) + Subtree(t, ids[|ids| - 1])
  }

  lemma {:induction false} GoneMember(t: Tables, ids: seq<nat>, k: nat) returns (c: nat)
    requires k in Gone(t, ids)
    ensures c in ids && k in Subtree(t, c)
  {
    if k in Subtree(t, ids[|ids| - 1]) {
      c := ids[|ids| - 1];
    } else {
      c := GoneMember(t, ids[..|ids| - 1], k);
    }
  }

  lemma {:induction false} GoneContains(t: Tables, ids: seq<nat>, c: nat)
    requires c in ids
    ensures Subtree(t, c) <= Gone(t, ids)
  {
    if c != ids[|ids| - 1] {
      GoneContains(t, ids[..|ids| - 1], c);
    }
  }

  lemma SubtreeFromChildren(t: Tables, r: nat, children: seq<nat>)
    requires Ok(t) && children == IdsFrom(t, OfRule(r), 0)
    ensures Subtree(t, r) == Gone(t, children) + (if r in t.rules then {r} else {})
  {
    forall k | k in Subtree(t, r) && k != r
      ensures k in Gone(t, children)
    {
      var c := UnderChild(t, r, k);
      GoneContains(t, children, c);
    }
    forall k | k in Gone(t, children)
      ensures k in Subtree(t, r)
    {
      var c := GoneMember(t, children, k);
      UnderGoesUp(t, r, k, c);
    }
  }

  lemma ForestFromTop(t: Tables, s: nat, top: seq<nat>)
    requires Ok(t) && top == IdsFrom(t, OfSource(s), 0)
    ensures ForestIds(t, s) == Gone(t, top)
  {
    forall k | k in ForestIds(t, s)
      ensures k in Gone(t, top)
    {
      var c := RootThroughTop(t, s, k);
      GoneContains(t, top, c);
    }
    forall k | k in Gone(t, top)
      ensures k in ForestIds(t, s)
    {
      var c := GoneMember(t, top, k);
      TopGivesRoot(t, s, k, c);
    }
  }

  ghost predicate Collected(out: seq<Rule>, rest: seq<Rule>, all: seq<Rule>) {
    out + rest == all
  }

  lemma CollectedStep(out: seq<Rule>, rule: Rule, rest: seq<Rule>, all: seq<Rule>)
    requires Collected(out, [rule] + rest, all)
    ensures Collected(out + [rule], rest, all)
  {
  }

  /** How far the ids above an owner reach. */
  function Height(t: Tables, o: Owner): nat {
    if o.OfSource? then t.nextRule + 1 else if o.id < t.nextRule then t.nextRule - o.id else 0
  }

  lemma RulesAtStep(t: Tables, o: Owner, ids: seq<nat>, i: nat)
    requires Ok(t) && ids == IdsFrom(t, o, 0) && i < |ids|
    ensures ids[i] in t.rules && OwnedBy(t.rules[ids[i]], o) && Height(t, OfRule(ids[i])) < Height(t, o)
    ensures RulesAt(t, ids[i..]) == [RuleAt(t, ids[i])] + RulesAt(t, ids[i + 1..])
    ensures RuleAt(t, ids[i]).children == Load(t, OfRule(ids[i]))
  {
    assert ids[i] in ids && ids[i..][1..] == ids[i + 1..];
    NoChildrenBelow(t, ids[i], 0);
  }

  /** The rules of the rows from the i-th on. */
  function RulesFrom(t: Tables, ids: seq<nat>, i: nat): seq<Rule>
    requires i <= |ids| && forall k | k in ids :: k in t.rules
  {
    RulesAt(t, ids[i..])
  }

  lemma RulesFromStep(t: Tables, o: Owner, ids: seq<nat>, i: nat)
    requires Ok(t) && ids == IdsFrom(t, o, 0) && i < |ids|
    ensures ids[i] in t.rules && OwnedBy(t.rules[ids[i]], o) && (o.OfRule? ==> o.id < ids[i])
    ensures RulesFrom(t, ids, i) == [RuleAt(t, ids[i])] + RulesFrom(t, ids, i + 1)
  {
    RulesAtStep(t, o, ids, i);
  }

  ghost predicate RemovedSoFar(t: Tables, now: Tables, ids: seq<nat>) {
    Ok(t) && Ok(now) && Closed(t, Gone(t, ids)) && now == Remove(t, Gone(t, ids))
  }

  lemma RemoveNothing(t: Tables)
    ensures Remove(t, {}) == t
  {
    assert Remove(t, {}).rules == t.rules && Remove(t, {}).conditions == t.conditions;
  }

  lemma RemoveOneMore(t: Tables, now: Tables, ids: seq<nat>, r: nat)
    requires RemovedSoFar(t, now, ids)
    ensures RemovedSoFar(t, Remove(now, Subtree(now, r)), ids + [r])
  {
    assert (ids + [r])[..|ids|] == ids;
    RemoveNextSubtree(t, Gone(t, ids), r);
    RemoveKeepsOk(t, Gone(t, ids + [r]));
  }

  lemma ChildIsLower(t: Tables, r: nat, children: seq<nat>, i: nat)
    requires Ok(t) && children == IdsFrom(t, OfRule(r), 0) && i < |children|
    ensures Height(t, OfRule(children[i])) < Height(t, OfRule(r))
  {
    assert children[i] in children;
  }

  lemma RemoveRow(t: Tables, r: nat, gone: set<nat>)
    requires Ok(t) && Subtree(t, r) == gone + (if r in t.rules then {r} else {})
    ensures Remove(Remove(t, gone), {r}) == Remove(t, Subtree(t, r)) && Ok(Remove(t, Subtree(t, r)))
  {
    SubtreeClosed(t, r);
    RemoveKeepsOk(t, Subtree(t, r));
    RemoveTwice(t, gone, {r});
    assert Remove(t, gone + {r}).rules == Remove(t, Subtree(t, r)).rules;
    assert Remove(t, gone + {r}).conditions == Remove(t, Subtree(t, r)).conditions;
  }

  ghost predicate Copying(t: Tables, now: Tables, base: nat, child: nat, o: Owner) {
    && Ok(t) && Ok(now) && ValidOwner(now, o)
    && base <= t.nextRule && Sealed(t, base, OfSource(child))
    && (o == OfSource(child) || (o.OfRule? && base <= o.id))
    && Agree(t, now, base) && Sealed(now, base, OfSource(child))
  }

  /** One template row can be read and copied after others have been. */
  lemma CopyRow(t: Tables, now: Tables, base: nat, child: nat, o: Owner, template: nat, k: nat)
    requires Copying(t, now, base, child, o)
    requires template < base && k in t.rules && OwnedBy(t.rules[k], OfRule(template))
    ensures template < k < base && k in now.rules && RuleAt(now, k) == RuleAt(t, k)
    ensures var r := RuleAt(t, k);
            var added := AddRule(now, o, r);
            && Ok(added) && Agree(t, added, base) && Sealed(added, base, OfSource(child))
            && added.nextRule == now.nextRule + 1 && now.nextRule in added.rules && ValidOwner(added, o)
            && Load(added, OfRule(k)) == r.children
  {
    TemplateRowIsOld(t, now, base, child, o, template, k);
    hide Ok, Agree, Sealed, LoadFrom, AddRule;
    var r := RuleAt(t, k);
    var added := AddRule(now, o, r);
    FrameRow(t, now, base, OfSource(child), k);
    AddRuleEffect(now, o, r);
    NoneBelowNew(now, added, o, r);
    AgreeLess(now, added, now.nextRule, base);
    AgreeThrough(t, now, added, base);
    AddedBelow(now, added, base, child, o);
    Frame(t, added, base, OfSource(child), OfRule(k), 0);
  }

  lemma TemplateRowIsOld(t: Tables, now: Tables, base: nat, child: nat, o: Owner, template: nat, k: nat)
    requires Copying(t, now, base, child, o)
    requires template < base && k in t.rules && OwnedBy(t.rules[k], OfRule(template))
    ensures template < k < base <= now.nextRule && k in now.rules && Load(t, OfRule(k)) == RuleAt(t, k).children
  {
    NoChildrenBelow(t, k, 0);
  }

  /** What is added below the child or below a new rule is sealed below the child. */
  lemma AddedBelow(now: Tables, added: Tables, base: nat, child: nat, o: Owner)
    requires Sealed(now, base, OfSource(child)) && base <= now.nextRule
    requires o == OfSource(child) || (o.OfRule? && base <= o.id)
    requires Agree(now, added, now.nextRule) && Sealed(added, now.nextRule, o)
    ensures Sealed(added, base, OfSource(child))
  {
  }

  /** Inserting what is still to be copied of the rest amounts to what is to be copied of the
      whole forest f, and the writes left are those not used up by what is done. */
  ghost predicate ToCopy(t: Tables, now: Tables, o: Owner, f: seq<Rule>, writes: nat, rest: seq<Rule>, left: nat) {
    && Insert(now, o, FirstRules(rest, left)) == Insert(t, o, FirstRules(f, writes))
    && RuleCount(f) + left == writes + RuleCount(rest)
  }

  lemma CopyingStarts(t: Tables, base: nat, child: nat, o: Owner)
    requires Ok(t) && base <= t.nextRule && Sealed(t, base, OfSource(child)) && ValidOwner(t, o)
    requires o == OfSource(child) || (o.OfRule? && base <= o.id)
    ensures Copying(t, t, base, child, o)
  {
  }

  lemma CopyingKeeps(t: Tables, now: Tables, base: nat, child: nat, o: Owner)
    requires Copying(t, now, base, child, o)
    ensures Ok(t) && Ok(now) && Agree(t, now, base) && Sealed(now, base, OfSource(child))
  {
  }

  lemma CopyStarts(t: Tables, o: Owner, template: Owner, ids: seq<nat>, writes: nat)
    requires Ok(t) && ids == IdsFrom(t, template, 0)
    ensures ToCopy(t, t, o, Load(t, template), writes, RulesFrom(t, ids, 0), writes)
  {
    LoadReadsIds(t, template, 0);
    assert ids[0..] == ids;
  }

  /** When nothing is left to copy the whole forest has been. */
  lemma CopyDone(t: Tables, now: Tables, o: Owner, template: Owner, f: seq<Rule>, writes: nat, ids: seq<nat>, left: nat)
    requires template.OfRule? && f == Load(t, template) && forall k | k in ids :: k in t.rules
    requires ToCopy(t, now, o, f, writes, RulesFrom(t, ids, |ids|), left)
    ensures now == Insert(t, o, FirstRules(f, writes)) == Clone(t, o, template.id)
    ensures RuleCount(f) <= writes && left == writes - RuleCount(f)
  {
    assert ids[|ids|..] == [];
    FirstRulesAreAll(f, writes);
  }

  lemma CopyEnds(t: Tables, now: Tables, o: Owner, f: seq<Rule>, writes: nat, r: Rule, rest: seq<Rule>)
    requires ToCopy(t, now, o, f, writes, [r] + rest, 0)
    ensures now == Insert(t, o, FirstRules(f, writes)) && RuleCount(f) > writes
  {
    assert ([r] + rest)[0] == r;
  }

  /** One rule's row, then what can be copied below it, then the rest if there are writes left. */
  lemma CopyOne(t: Tables, now: Tables, o: Owner, f: seq<Rule>, writes: nat, r: Rule, rest: seq<Rule>, left: nat)
    requires ToCopy(t, now, o, f, writes, [r] + rest, left) && left > 0
    ensures var below := RuleCount(r.children);
            var copied := Insert(AddRule(now, o, r), OfRule(now.nextRule), FirstRules(r.children, left - 1));
            if below <= left - 1 then ToCopy(t, copied, o, f, writes, rest, left - 1 - below)
            else copied == Insert(t, o, FirstRules(f, writes)) && RuleCount(f) > writes
  {
    var all, below := [r] + rest, RuleCount(r.children);
    hide AddRule;
    assert all[0] == r && all[1..] == rest;
    var first := r.(children := FirstRules(r.children, left - 1));
    var more := if below <= left - 1 then FirstRules(rest, left - 1 - below) else [];
    assert FirstRules(all, left) == [first] + more;
    InsertFirst(now, o, first, more);
    SameRowAdded(now, o, first, r);
  }

  lemma SameRowAdded(t: Tables, o: Owner, q: Rule, r: Rule)
    requires q == r.(children := q.children)
    ensures AddRule(t, o, q) == AddRule(t, o, r)
  {
  }

  lemma InsertFirst(t: Tables, o: Owner, first: Rule, more: seq<Rule>)
    ensures Insert(t, o, [first] + more) == Insert(Insert(AddRule(t, o, first), OfRule(t.nextRule), first.children), o, more)
  {
    assert ([first] + more)[0] == first && ([first] + more)[1..] == more;
  }
}
