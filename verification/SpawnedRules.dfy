/** The rules that the pipeline's sources hold are those in the rule tables, and spawning a child
    keeps that, even when copying its rules stops half-way. */
module SpawnedRules {
  import opened Rules
  import opened RuleTables
  import P = Pipeline

  /** The tables hold each source's rules and no rules of anything else. */
  ghost predicate Holds(t: Tables, sources: map<nat, P.Source>) {
    && Ok(t)
    && (forall s | s in sources :: Load(t, OfSource(s)) == sources[s].rules)
    && (forall k | k in t.rules && t.rules[k].source.Some? :: t.rules[k].source.value in sources)
  }

  /** A source's top-level rule has a row of its own. */
  lemma {:induction false} RuleHasRow(t: Tables, o: Owner, lo: nat, r: Rule) returns (k: nat)
    requires r in LoadFrom(t, o, lo)
    ensures k in t.rules && OwnedBy(t.rules[k], o) && RuleAt(t, k) == r
    decreases t.nextRule - lo
  {
    if lo < t.nextRule && r in RuleIfOwned(t, o, lo) {
      k := lo;
    } else {
      k := RuleHasRow(t, o, lo + 1, r);
    }
  }

  /** What the tables are after the nested rules of row k have been copied onto a child, as far as
      the database let them. */
  function CopiedTables(t: Tables, child: nat, k: nat, r: Rule, copied: nat): Tables {
    if ChildTypeOf(r) == FACTORY then Insert(t, OfSource(child), FirstRules(Load(t, OfRule(k)), copied)) else t
  }

  lemma CopyEffect(t: Tables, sources: map<nat, P.Source>, child: nat, part: seq<Rule>)
    requires Holds(t, sources) && child !in sources
    ensures var t' := Insert(t, OfSource(child), part);
            && Ok(t') && Load(t', OfSource(child)) == part
            && (forall s | s in sources :: Load(t', OfSource(s)) == Load(t, OfSource(s)))
            && (forall k | k in t'.rules && t'.rules[k].source.Some? :: t'.rules[k].source.value in sources || t'.rules[k].source.value == child)
  {
    var t' := Insert(t, OfSource(child), part);
    LoadNone(t, OfSource(child), 0);
    InsertKeeps(t, OfSource(child), part);
    LoadAfterInsert(t, OfSource(child), part);
    assert [] + part == part;
    forall s | s in sources
      ensures Load(t', OfSource(s)) == Load(t, OfSource(s))
    {
      InsertTouchesOnlyItsSource(t, child, part, OfSource(s));
    }
    NewRowsAreTheChilds(t, t', sources, child);
  }

  /** Copying in the tables and spawning in the pipeline agree, for any number of copied rules. */
  lemma SpawnAgreesWithTables(t: Tables, sources: map<nat, P.Source>, f: nat, k: nat, r: Rule, child: nat, a: string, block: nat, copied: nat)
    requires Holds(t, sources) && f in sources && child !in sources && block >= 1
    requires k in t.rules && OwnedBy(t.rules[k], OfSource(f)) && RuleAt(t, k) == r
    ensures Holds(CopiedTables(t, child, k, r, copied),
                  sources[child := P.Spawn(f, sources[f], r, a, block, P.CopiedRules(r, copied))])
  {
    NoChildrenBelow(t, k, 0);
    assert Load(t, OfRule(k)) == r.children;
    if ChildTypeOf(r) == FACTORY {
      CopyEffect(t, sources, child, FirstRules(r.children, copied));
    } else {
      LoadNone(t, OfSource(child), 0);
    }
  }

  /** Each rule that the pipeline's source holds has a row from which it can be copied so. */
  lemma EveryRuleSpawns(t: Tables, sources: map<nat, P.Source>, f: nat, r: Rule, child: nat, a: string, block: nat, copied: nat)
    returns (k: nat)
    requires Holds(t, sources) && f in sources && r in sources[f].rules && child !in sources && block >= 1
    ensures k in t.rules && OwnedBy(t.rules[k], OfSource(f)) && RuleAt(t, k) == r
    ensures Holds(CopiedTables(t, child, k, r, copied),
                  sources[child := P.Spawn(f, sources[f], r, a, block, P.CopiedRules(r, copied))])
  {
    k := RuleHasRow(t, OfSource(f), 0, r);
    SpawnAgreesWithTables(t, sources, f, k, r, child, a, block, copied);
  }

  lemma NewRowsAreTheChilds(t: Tables, t': Tables, sources: map<nat, P.Source>, child: nat)
    requires Holds(t, sources) && Ok(t') && Agree(t, t', t.nextRule) && Sealed(t', t.nextRule, OfSource(child))
    ensures forall k | k in t'.rules && t'.rules[k].source.Some? :: t'.rules[k].source.value in sources || t'.rules[k].source.value == child
  {
    forall k | k in t'.rules && t'.rules[k].source.Some?
      ensures t'.rules[k].source.value in sources || t'.rules[k].source.value == child
    {
      if k < t.nextRule {
        assert k in t.rules && t.rules[k] == t'.rules[k];
      } else {
        assert OwnedBy(t'.rules[k], OfSource(child));
      }
    }
  }
}
