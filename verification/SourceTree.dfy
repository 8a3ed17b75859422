/** Sources as a forest over their parent column: the breadth-first walk over a subtree, and the
    deletion that goes with it. */
module SourceTree {
  import opened Rules
  import opened RuleTables
  import opened Sequences
  import RuleStore
  import ParquetStore

  /** parent is 0 for a source that no factory created. */
  datatype SourceRow = SourceRow(parent: nat)

  type Sources = map<nat, SourceRow>

  /** Parents are older than their children; ids start at 1. */
  ghost predicate Acyclic(sources: Sources) {
    forall k | k in sources :: 1 <= k && sources[k].parent < k
  }

  /** k is root or hangs below it through any number of parents. */
  predicate Below(sources: Sources, root: nat, k: nat)
    decreases k
  {
    k == root || (k in sources && sources[k].parent < k && Below(sources, root, sources[k].parent))
  }

  function Family(sources: Sources, root: nat): set<nat> {
    set k | k in sources && Below(sources, root, k)
  }

  /** How many parents lie between a source and the root. */
  function Depth(sources: Sources, root: nat, k: nat): nat
    decreases k
  {
    if k == root || k !in sources || sources[k].parent >= k then 0
    else 1 + Depth(sources, root, sources[k].parent)
  }

  function ChildIds(sources: Sources, parent: nat): set<nat> {
    set k | k in sources && sources[k].parent == parent
  }

  lemma {:induction false} BelowIsNotOlder(sources: Sources, root: nat, k: nat)
    requires Below(sources, root, k)
    ensures root <= k
    decreases k
  {
    if k != root {
      BelowIsNotOlder(sources, root, sources[k].parent);
    }
  }

  /** The first h ids have been expanded: what is listed is the root and all their children. */
  ghost predicate Walking(sources: Sources, root: nat, ids: seq<nat>, h: nat) {
    && h <= |ids| && ids != [] && ids[0] == root && EachOnce(ids)
    && (forall k | k in ids :: k in sources && Below(sources, root, k))
    && (forall k | k in ids && k != root :: sources[k].parent in ids[..h])
    && (forall k | k in sources && sources[k].parent in ids[..h] :: k in ids)
  }

  /** Every listed source but the root comes after its parent. */
  ghost predicate ParentsFirst(sources: Sources, ids: seq<nat>) {
    forall j | 1 <= j < |ids| :: ids[j] in sources && sources[ids[j]].parent in ids[..j]
  }

  /** Nearer sources come first, and what is listed is at most one level ahead of the queue. */
  ghost predicate LevelByLevel(sources: Sources, root: nat, ids: seq<nat>, h: nat) {
    && (forall i, j | 0 <= i <= j < |ids| :: Depth(sources, root, ids[i]) <= Depth(sources, root, ids[j]))
    && (forall i, j | h <= i < |ids| && 0 <= j < |ids| :: Depth(sources, root, ids[j]) <= Depth(sources, root, ids[i]) + 1)
  }

  lemma {:induction false} WalkIsComplete(sources: Sources, root: nat, ids: seq<nat>, k: nat)
    requires Acyclic(sources) && Walking(sources, root, ids, |ids|)
    requires k in sources && Below(sources, root, k)
    ensures k in ids
    decreases k
  {
    if k != root {
      BelowIsNotOlder(sources, root, sources[k].parent);
      if sources[k].parent in sources {
        WalkIsComplete(sources, root, ids, sources[k].parent);
        assert ids[..|ids|] == ids;
      }
    }
  }

  /** What the front of the queue brings is new. */
  lemma ChildrenAreNew(sources: Sources, root: nat, ids: seq<nat>, h: nat, c: nat)
    requires Acyclic(sources) && h < |ids| && Walking(sources, root, ids, h) && c in ChildIds(sources, ids[h])
    ensures c !in ids && c != root && Below(sources, root, c)
  {
    assert ids[h] in ids;
    BelowIsNotOlder(sources, root, ids[h]);
  }

  /** Expanding the id at the front of the queue. */
  lemma WalkStep(sources: Sources, root: nat, ids: seq<nat>, h: nat, children: seq<nat>)
    requires Acyclic(sources) && h < |ids| && Walking(sources, root, ids, h)
    requires EachOnce(children) && forall k :: k in children <==> k in ChildIds(sources, ids[h])
    ensures Walking(sources, root, ids + children, h + 1)
  {
    var p, all := ids[h], ids + children;
    forall c | c in children
      ensures c !in ids && c != root && Below(sources, root, c)
    {
      ChildrenAreNew(sources, root, ids, h, c);
    }
    EachOnceConcat(ids, children);
    assert all[..h + 1] == ids[..h] + [p];
    forall k | k in sources && sources[k].parent in all[..h + 1]
      ensures k in all
    {
      if sources[k].parent == p {
        assert k in ChildIds(sources, p);
      }
    }
  }

  lemma ParentsFirstStep(sources: Sources, ids: seq<nat>, h: nat, children: seq<nat>)
    requires h < |ids| && ParentsFirst(sources, ids)
    requires forall k | k in children :: k in ChildIds(sources, ids[h])
    ensures ParentsFirst(sources, ids + children)
  {
    var all := ids + children;
    forall j | 1 <= j < |all|
      ensures all[j] in sources && sources[all[j]].parent in all[..j]
    {
      if j < |ids| {
        assert all[..j] == ids[..j];
      } else {
        assert all[j] in children && all[..j][h] == ids[h];
      }
    }
  }

  lemma LevelStep(sources: Sources, root: nat, ids: seq<nat>, h: nat, children: seq<nat>)
    requires Acyclic(sources) && h < |ids| && LevelByLevel(sources, root, ids, h)
    requires forall k | k in children :: k in sources && sources[k].parent == ids[h] && k != root
    ensures LevelByLevel(sources, root, ids + children, h + 1)
  {
    var all, d := ids + children, Depth(sources, root, ids[h]);
    forall i | |ids| <= i < |all|
      ensures Depth(sources, root, all[i]) == d + 1
    {
      assert all[i] in children;
    }
    forall i | 0 <= i < |ids|
      ensures Depth(sources, root, all[i]) <= d + 1 && (i >= h ==> d <= Depth(sources, root, all[i]))
    {
      assert all[i] == ids[i];
    }
  }

  /** A query's rows in whatever order the database gives them. */
  method Listed(todo: set<nat>) returns (out: seq<nat>)
    ensures EachOnce(out) && forall k :: k in out <==> k in todo
  {
    out := [];
    var left := todo;
    while left != {}
      invariant left <= todo && EachOnce(out) && forall k :: k in out <==> k in todo - left
      decreases |left|
    {
      var k :| k in left;
      EachOnceConcat(out, [k]);
      out, left := out + [k], left - {k};
    }
  }

  /** Why a deletion did not happen. */
  datatype Outcome = Deleted | NotFound | MadeByFactory | NoStore | StoreFailed

  /** The rules of all sources of a set. */
  function RulesOf(t: Tables, sources: set<nat>): set<nat> {
    set k | k in t.rules && RootOf(t, k).Some? && RootOf(t, k).value in sources
  }

  lemma {:induction false} RootStable(t: Tables, sources: set<nat>, k: nat)
    requires Ok(t) && k in t.rules && k !in RulesOf(t, sources)
    ensures RootOf(Remove(t, RulesOf(t, sources)), k) == RootOf(t, k)
    decreases k
  {
    if t.rules[k].parent.Some? {
      RootStable(t, sources, t.rules[k].parent.value);
    }
  }

  /** Removing one source's rules after those of others. */
  lemma RemoveNextSource(t: Tables, done: set<nat>, s: nat)
    requires Ok(t)
    ensures var now := Remove(t, RulesOf(t, done));
            Ok(now) && Remove(now, ForestIds(now, s)) == Remove(t, RulesOf(t, done + {s}))
  {
    var now := Remove(t, RulesOf(t, done));
    NextForest(t, done, s);
    SameRemoval(t, now, RulesOf(t, done), ForestIds(now, s), RulesOf(t, done + {s}));
  }

  /** Removing rules in two steps, when both together are the others. */
  lemma SameRemoval(t: Tables, now: Tables, first: set<nat>, second: set<nat>, all: set<nat>)
    requires Ok(now) && now == Remove(t, first) && first <= all
    requires forall k | k in now.rules :: k in second <==> k in all
    ensures Remove(now, second) == Remove(t, all)
  {
    var a, b := Remove(now, second), Remove(t, all);
    assert a.rules == b.rules;
    assert a.conditions == b.conditions;
  }

  lemma NextForest(t: Tables, done: set<nat>, s: nat)
    requires Ok(t)
    ensures var now := Remove(t, RulesOf(t, done));
            && Ok(now) && RulesOf(t, done) <= RulesOf(t, done + {s})
            && forall k | k in now.rules :: k in ForestIds(now, s) <==> k in RulesOf(t, done + {s})
  {
    var now := Remove(t, RulesOf(t, done));
    assert Closed(t, RulesOf(t, done));
    RemoveKeepsOk(t, RulesOf(t, done));
    forall k | k in now.rules
      ensures k in ForestIds(now, s) <==> k in RulesOf(t, done + {s})
    {
      RootStable(t, done, k);
    }
  }

  /** A source outside the set keeps its rules. */
  lemma OthersKeepTheirRules(t: Tables, sources: set<nat>, x: nat)
    requires Ok(t) && x !in sources
    ensures Load(Remove(t, RulesOf(t, sources)), OfSource(x)) == Load(t, OfSource(x))
  {
    RemoveFrame(t, RulesOf(t, sources), OfSource(x), 0);
  }

  class Server {
    var sources: Sources
    const rules: RuleStore.Store
    const store: ParquetStore.Store

    constructor (sources: Sources, rules: RuleStore.Store, store: ParquetStore.Store)
      ensures this.sources == sources && this.rules == rules && this.store == store
    {
      this.sources, this.rules, this.store := sources, rules, store;
    }

    /** The root and every descendant, each exactly once, the root first, parents before their
        children and nearer sources before farther ones. */
    method CollectSourceSubtree(root: nat) returns (ids: seq<nat>)
      requires Acyclic(sources) && root in sources
      ensures ids != [] && ids[0] == root && EachOnce(ids)
      ensures forall k :: k in ids <==> k in Family(sources, root)
      ensures ParentsFirst(sources, ids)
      ensures forall i, j | 0 <= i <= j < |ids| :: Depth(sources, root, ids[i]) <= Depth(sources, root, ids[j])
    {
      ids := [root];
      var queue := [root];
      ghost var h := 0;
      while |queue| > 0
        invariant h <= |ids| && queue == ids[h..]
        invariant Walking(sources, root, ids, h)
        invariant LevelByLevel(sources, root, ids, h) && ParentsFirst(sources, ids)
        decreases Unexpanded(sources, ids[..h])
      {
        var parent := queue[0];
        queue := queue[1..];
        var children := Listed(ChildIds(sources, parent));
        Expand(sources, root, ids, h, children);
        QueueStep(ids, h, children);
        ids := ids + children;
        queue := queue + children;
        h := h + 1;
      }
      WalkEnds(sources, root, ids);
    }

    /** Deletes a source that no factory made, with everything below it: the stored data of all of
        them first, then their rules, then the rows. When a deletion of data fails, the sources
        before it have lost theirs and no rule or row is gone. */
    method DeleteEvmLogSource(id: nat, storeLoads: bool, broken: set<nat>) returns (r: Outcome)
      requires Acyclic(sources) && Ok(rules.T())
      modifies this, rules, store
      ensures r == (if id !in old(sources) then NotFound
                    else if old(sources)[id].parent != 0 then MadeByFactory
                    else if !storeLoads then NoStore
                    else if !(Family(old(sources), id) !! broken) then StoreFailed
                    else Deleted)
      ensures r.Deleted? ==>
                && sources == old(sources) - Family(old(sources), id)
                && rules.T() == Remove(old(rules.T()), RulesOf(old(rules.T()), Family(old(sources), id)))
                && store.dirs == old(store.dirs) - Family(old(sources), id)
      ensures !r.Deleted? ==> sources == old(sources) && rules.T() == old(rules.T())
      ensures !r.Deleted? && !r.StoreFailed? ==> store.dirs == old(store.dirs)
      ensures r.StoreFailed? ==> PartlyDeleted(old(store.dirs), store.dirs, Family(old(sources), id), broken)
    {
      if id !in sources {
        return NotFound;
      }
      if sources[id].parent != 0 {
        return MadeByFactory;
      }
      var ids := CollectSourceSubtree(id);
      assert Elements(ids) == Family(sources, id);
      if !storeLoads {
        return NoStore;
      }
      var ok := DeleteSubtreeStoreData(ids, broken);
      if !ok {
        return StoreFailed;
      }
      DeleteRules(ids);
      DeleteRows(ids);
      return Deleted;
    }

    method DeleteRows(ids: seq<nat>)
      modifies this
      ensures sources == old(sources) - Elements(ids)
    {
      sources := map k | k in sources && k !in ids :: sources[k];
    }

    method DeleteSubtreeStoreData(ids: seq<nat>, broken: set<nat>) returns (ok: bool)
      requires EachOnce(ids)
      modifies store
      ensures ok <==> Elements(ids) !! broken
      ensures ok ==> store.dirs == old(store.dirs) - Elements(ids)
      ensures !ok ==> PartlyDeleted(old(store.dirs), store.dirs, Elements(ids), broken)
    {
      for i := 0 to |ids|
        invariant store.dirs == old(store.dirs) - Elements(ids[..i])
        invariant Elements(ids[..i]) !! broken
      {
        ElementsStep(ids, i);
        if ids[i] in broken {
          assert Elements(ids[..i]) < Elements(ids) by {
            assert ids[i] in Elements(ids) && ids[i] !in Elements(ids[..i]);
          }
          return false;
        }
        store.DeleteSourceData(ids[i]);
      }
      assert ids[..|ids|] == ids;
      return true;
    }

    method DeleteRules(ids: seq<nat>)
      requires Ok(rules.T())
      modifies rules
      ensures Ok(rules.T()) && rules.T() == Remove(old(rules.T()), RulesOf(old(rules.T()), Elements(ids)))
    {
      ghost var t := rules.T();
      NoRulesRemoved(t);
      for i := 0 to |ids|
        invariant Ok(rules.T()) && rules.T() == Remove(t, RulesOf(t, Elements(ids[..i])))
      {
        ElementsStep(ids, i);
        RemoveNextSource(t, Elements(ids[..i]), ids[i]);
        rules.DeleteFactoryRules(ids[i]);
      }
      assert ids[..|ids|] == ids;
    }
  }

  lemma QueueStep(ids: seq<nat>, h: nat, children: seq<nat>)
    requires h < |ids|
    ensures ids[h..][1..] + children == (ids + children)[h + 1..]
  {
  }

  /** Some of the data that could be deleted is gone, and nothing else. */
  ghost predicate PartlyDeleted(before: map<nat, ParquetStore.Dir>, after: map<nat, ParquetStore.Dir>, family: set<nat>, broken: set<nat>) {
    exists gone: set<nat> :: gone < family && gone !! broken && after == before - gone
  }

  function Elements(ids: seq<nat>): set<nat> {
    set k | k in ids
  }

  lemma ElementsStep(ids: seq<nat>, i: nat)
    requires i < |ids|
    ensures Elements(ids[..i + 1]) == Elements(ids[..i]) + {ids[i]}
    ensures Elements(ids[..i]) <= Elements(ids)
  {
    assert ids[..i + 1] == ids[..i] + [ids[i]];
  }

  lemma NoRulesRemoved(t: Tables)
    ensures Remove(t, RulesOf(t, Elements([]))) == t
  {
    assert RulesOf(t, Elements([])) == {};
    RuleStore.RemoveNothing(t);
  }

  /** What a deletion leaves: no source whose parent is gone, no rule of a deleted source, and the
      rules of every other source as they were. */
  lemma DeletionIsClean(sources: Sources, t: Tables, id: nat, x: nat)
    requires Acyclic(sources) && Ok(t) && id in sources
    ensures var gone := Family(sources, id);
            var left, t' := sources - gone, Remove(t, RulesOf(t, gone));
            && id in gone && Acyclic(left)
            && (forall k | k in left :: left[k].parent !in gone)
            && (forall k | k in left && left[k].parent in sources :: left[k].parent in left)
            && Ok(t') && (x in gone ==> ForestIds(t', x) == {} && Load(t', OfSource(x)) == [])
            && (x !in gone ==> Load(t', OfSource(x)) == Load(t, OfSource(x)))
  {
    var gone := Family(sources, id);
    var t' := Remove(t, RulesOf(t, gone));
    assert Closed(t, RulesOf(t, gone));
    RemoveKeepsOk(t, RulesOf(t, gone));
    if x in gone {
      forall k | k in t'.rules
        ensures RootOf(t', k) != Some(x)
      {
        RootStable(t, gone, k);
      }
      LoadNone(t', OfSource(x), 0);
    } else {
      OthersKeepTheirRules(t, gone, x);
    }
  }

  /** One turn of the walk keeps everything said about it and brings it nearer its end. */
  lemma Expand(sources: Sources, root: nat, ids: seq<nat>, h: nat, children: seq<nat>)
    requires Acyclic(sources) && h < |ids| && Walking(sources, root, ids, h)
    requires LevelByLevel(sources, root, ids, h) && ParentsFirst(sources, ids)
    requires EachOnce(children) && forall k :: k in children <==> k in ChildIds(sources, ids[h])
    ensures var all := ids + children;
            && Walking(sources, root, all, h + 1) && LevelByLevel(sources, root, all, h + 1) && ParentsFirst(sources, all)
            && Unexpanded(sources, all[..h + 1]) < Unexpanded(sources, ids[..h])
  {
    ExpandKeeps(sources, root, ids, h, children);
    ExpandShrinks(sources, root, ids, h, children);
  }

  lemma ExpandKeeps(sources: Sources, root: nat, ids: seq<nat>, h: nat, children: seq<nat>)
    requires Acyclic(sources) && h < |ids| && Walking(sources, root, ids, h)
    requires LevelByLevel(sources, root, ids, h) && ParentsFirst(sources, ids)
    requires EachOnce(children) && forall k :: k in children <==> k in ChildIds(sources, ids[h])
    ensures var all := ids + children;
            Walking(sources, root, all, h + 1) && LevelByLevel(sources, root, all, h + 1) && ParentsFirst(sources, all)
  {
    hide Acyclic, Walking, LevelByLevel, ParentsFirst, EachOnce;
    forall c | c in children
      ensures c != root
    {
      ChildrenAreNew(sources, root, ids, h, c);
    }
    WalkStep(sources, root, ids, h, children);
    LevelStep(sources, root, ids, h, children);
    ParentsFirstStep(sources, ids, h, children);
  }

  lemma ExpandShrinks(sources: Sources, root: nat, ids: seq<nat>, h: nat, children: seq<nat>)
    requires h < |ids| && Walking(sources, root, ids, h)
    ensures Unexpanded(sources, (ids + children)[..h + 1]) < Unexpanded(sources, ids[..h])
  {
    assert ids[h] in ids;
    FewerUnexpanded(sources, ids, h);
    assert (ids + children)[..h + 1] == ids[..h + 1];
  }

  lemma WalkEnds(sources: Sources, root: nat, ids: seq<nat>)
    requires Acyclic(sources) && Walking(sources, root, ids, |ids|)
    ensures forall k :: k in ids <==> k in Family(sources, root)
  {
    forall k | k in Family(sources, root)
      ensures k in ids
    {
      WalkIsComplete(sources, root, ids, k);
    }
  }

  function Unexpanded(sources: Sources, done: seq<nat>): nat {
    |sources.Keys - (set k | k in done)|
  }

  lemma FewerUnexpanded(sources: Sources, ids: seq<nat>, h: nat)
    requires h < |ids| && ids[h] in sources && EachOnce(ids)
    ensures Unexpanded(sources, ids[..h + 1]) < Unexpanded(sources, ids[..h])
  {
    var before, after := ids[..h], ids[..h + 1];
    var a, b := sources.Keys - (set k | k in before), sources.Keys - (set k | k in after);
    assert after == before + [ids[h]];
    assert ids[h] in a && b == a - {ids[h]};
  }
}
