/** What every step of the pipeline keeps. */
module PipelineInvariant {
  import opened Positions
  import opened Chain
  import opened Rules
  import opened ParquetStore
  import opened StoreLaws
  import opened Pipeline

  // ---- one source --------------------------------------------------------------------------

  /** Every log the source is responsible for, up to a block, is visible in its directory. */
  ghost predicate StoredUpTo(env: Env, id: nat, s: Source, block: nat) {
    forall l | l in env.chain && Matches(s.filter, l) && s.origin < l.block <= block :: InDir(s.dir, Row(id, l))
  }

  ghost predicate NothingBeyond(s: Source, headSeen: nat) {
    forall r | InDir(s.dir, r) :: s.origin < r.log.block <= headSeen
  }

  ghost predicate WorkerOk(env: Env, headSeen: nat, id: nat, s: Source) {
    match s.worker
    case Down => true
    case Polling(latest) => latest == s.Cur()
    case Scanning(next, head) => next == s.Cur() + 1 && next <= head <= headSeen
    case Fetched(lo, hi, head) => lo == s.Cur() + 1 && lo <= hi <= head <= headSeen
    case Stored(lo, hi, head, done) =>
      && lo == s.Cur() + 1 && lo <= hi <= head <= headSeen
      && done <= |WindowPairs(env, s, lo, hi)|
      && StoredUpTo(env, id, s, hi)
    case Committed(hi, head) => hi == s.mem == s.Cur() && hi <= head <= headSeen
  }

  ghost predicate SourceOk(env: Env, headSeen: nat, id: nat, s: Source) {
    && headSeen < MAX_UINT64 && s.sync < MAX_UINT64 && s.mem < MAX_UINT64
    && s.sync <= s.Cur()
    && s.start <= s.origin <= (if s.sync < s.start then s.start else s.sync)
    && DirOk(env.chain, s.filter, id, s.dir)
    && StoredUpTo(env, id, s, s.Cur())
    && NothingBeyond(s, headSeen)
    && WorkerOk(env, headSeen, id, s)
  }

  /** Writing a window, or dying while writing it. */
  lemma WriteKeeps(env: Env, headSeen: nat, id: nat, s: Source, op: WriteOp)
    requires IsChain(env.chain) && SourceOk(env, headSeen, id, s)
    requires op.lo == s.Cur() + 1 && op.hi <= headSeen
    ensures var s' := s.(dir := ApplyWrite(env.chain, s.filter, id, s.dir, op));
            && DirOk(env.chain, s.filter, id, s'.dir)
            && StoredUpTo(env, id, s', s.Cur())
            && (op.Written? ==> StoredUpTo(env, id, s', op.hi))
            && NothingBeyond(s', headSeen)
  {
    var s' := s.(dir := ApplyWrite(env.chain, s.filter, id, s.dir, op));
    WriteEffect(env.chain, s.filter, id, s.dir, op);
    forall r | InDir(s'.dir, r)
      ensures s.origin < r.log.block <= headSeen
    {
      WindowMember(env.chain, s.filter, id, op.lo, op.hi, r);
    }
    forall l | l in env.chain && Matches(s.filter, l) && s.origin < l.block <= op.hi && op.Written?
      ensures InDir(s'.dir, Row(id, l))
    {
      WindowMember(env.chain, s.filter, id, op.lo, op.hi, Row(id, l));
    }
  }

  lemma WriteStepKeeps(env: Env, headSeen: nat, id: nat, s: Source, a: Action, s': Source)
    requires env.Ok() && SourceOk(env, headSeen, id, s) && SourceStep(env, id, s, a, s')
    requires a.WindowWritten? || a.WriteFails? || a.WriterDies?
    ensures SourceOk(env, headSeen, id, s') && s.SameAs(s') && s.sync <= s'.sync
  {
    match a
    case WindowWritten(_) =>
      WriteKeeps(env, headSeen, id, s, WriteOp.Written(s.worker.lo, s.worker.hi));
    case WriteFails(_) =>
      WriteKeeps(env, headSeen, id, s, WriteOp.Failed(s.worker.lo, s.worker.hi));
    case WriterDies(_, partial) =>
      WriteKeeps(env, headSeen, id, s, WriteOp.Interrupted(s.worker.lo, s.worker.hi, partial));
  }

  lemma SourceStepKeeps(env: Env, headSeen: nat, id: nat, s: Source, a: Action, s': Source)
    requires env.Ok() && SourceOk(env, headSeen, id, s) && SourceStep(env, id, s, a, s')
    ensures var headSeen' := if a.HeadSeen? && a.head > headSeen then a.head else headSeen;
            SourceOk(env, headSeen', id, s')
    ensures s.SameAs(s') && s.sync <= s'.sync
  {
    if a.WindowWritten? || a.WriteFails? || a.WriterDies? {
      WriteStepKeeps(env, headSeen, id, s, a, s');
    } else if a.CursorMoved? || a.CursorSaved? {
      CursorStepKeeps(env, headSeen, id, s, a, s');
    } else {
      QuietStepKeeps(env, headSeen, id, s, a, s');
    }
  }

  lemma CursorStepKeeps(env: Env, headSeen: nat, id: nat, s: Source, a: Action, s': Source)
    requires SourceOk(env, headSeen, id, s) && SourceStep(env, id, s, a, s') && (a.CursorMoved? || a.CursorSaved?)
    ensures SourceOk(env, headSeen, id, s') && s.SameAs(s') && s.sync <= s'.sync
  {
    hide StoredUpTo, NothingBeyond, DirOk, ApplyWrite, WindowPairs;
    SameStored(env, headSeen, id, s, s');
  }

  /** The other steps leave cursors and files alone. */
  lemma QuietStepKeeps(env: Env, headSeen: nat, id: nat, s: Source, a: Action, s': Source)
    requires env.Ok() && SourceOk(env, headSeen, id, s) && SourceStep(env, id, s, a, s')
    requires a.WorkerStarts? || a.HeadSeen? || a.WindowFetched? || a.WorkerFails?
    ensures var headSeen' := if a.HeadSeen? && a.head > headSeen then a.head else headSeen;
            SourceOk(env, headSeen', id, s')
    ensures s.SameAs(s') && s.sync == s'.sync
  {
    hide StoredUpTo, NothingBeyond, DirOk, ApplyWrite, WindowPairs;
    SameStored(env, headSeen, id, s, s');
  }

  /** What is stored depends on the files and on what the source is responsible for. */
  lemma SameStored(env: Env, headSeen: nat, id: nat, s: Source, s': Source)
    ensures s'.dir == s.dir && s.SameAs(s') ==>
              && (forall b | StoredUpTo(env, id, s, b) :: StoredUpTo(env, id, s', b))
              && (forall h: nat | NothingBeyond(s, headSeen) && headSeen <= h :: NothingBeyond(s', h))
              && (forall lo, hi :: WindowPairs(env, s', lo, hi) == WindowPairs(env, s, lo, hi))
  {
  }

  // ---- factories and their children --------------------------------------------------------

  ghost predicate ParentsOk(sources: map<nat, Source>, nextId: nat) {
    && (forall id | id in sources :: 1 <= id < nextId)
    && (forall c | c in sources && sources[c].parent != 0 ::
          sources[c].parent in sources && sources[c].parent < c && sources[sources[c].parent].factory
          && sources[c].filter.ByAddress?)
  }

  /** One child per factory and address. */
  ghost predicate ChildrenUnique(sources: map<nat, Source>) {
    forall c, d | c in sources && d in sources && sources[c].parent == sources[d].parent != 0
                  && sources[c].filter == sources[d].filter :: c == d
  }

  /** A child starts right below the first deployment of its contract that its factory saw. */
  ghost predicate ChildStartsFirst(env: Env, sources: map<nat, Source>, c: nat)
    requires c in sources
  {
    sources[c].parent in sources && sources[c].filter.ByAddress? ==>
      forall l, r | Fires(env, sources[sources[c].parent], l, r, sources[c].filter.address) :: sources[c].origin < l.block
  }

  /** Every deployment up to the factory's cursor has its child. */
  ghost predicate Found(env: Env, sources: map<nat, Source>, f: nat)
    requires f in sources
  {
    forall l, r, a | Fires(env, sources[f], l, r, a) && l.block <= sources[f].Cur() :: HasChild(sources, f, a)
  }

  /** So has every deployment of the current window among the pairs already handled. */
  ghost predicate FoundInWindow(env: Env, sources: map<nat, Source>, f: nat)
    requires f in sources
  {
    sources[f].worker.Stored? ==>
      var pairs := WindowPairs(env, sources[f], sources[f].worker.lo, sources[f].worker.hi);
      forall j, a | 0 <= j < sources[f].worker.done && j < |pairs|
                    && env.trigger(pairs[j].1, pairs[j].0.DecodedBy(sources[f].abi)) == Some(a) ::
        HasChild(sources, f, a)
  }

  ghost predicate FamilyOk(env: Env, sources: map<nat, Source>, nextId: nat) {
    && ParentsOk(sources, nextId) && ChildrenUnique(sources)
    && (forall c {:trigger ChildStartsFirst(env, sources, c)} | c in sources :: ChildStartsFirst(env, sources, c))
    && (forall f {:trigger Found(env, sources, f)} | f in sources :: Found(env, sources, f))
    && (forall f {:trigger FoundInWindow(env, sources, f)} | f in sources :: FoundInWindow(env, sources, f))
  }

  lemma {:induction false} PairsMembers(logs: seq<Log>, rules: seq<Rule>)
    ensures forall l, r :: (l, r) in Pairs(logs, rules) <==> l in logs && r in rules
  {
    if logs != [] {
      var front, last := logs[..|logs| - 1], logs[|logs| - 1];
      PairsMembers(front, rules);
      assert logs == front + [last];
      forall l, r
        ensures (l, r) in RowPairs(last, rules) <==> l == last && r in rules
      {
        if r in rules && l == last {
          var i :| 0 <= i < |rules| && rules[i] == r;
          assert RowPairs(last, rules)[i] == (l, r);
        }
      }
    }
  }

  lemma {:induction false} PairsOrdered(logs: seq<Log>, rules: seq<Rule>)
    requires forall i, j | 0 <= i < j < |logs| :: logs[i].block <= logs[j].block
    ensures forall i, j | 0 <= i < j < |Pairs(logs, rules)| :: Pairs(logs, rules)[i].0.block <= Pairs(logs, rules)[j].0.block
  {
    if logs != [] {
      var front, last := logs[..|logs| - 1], logs[|logs| - 1];
      PairsOrdered(front, rules);
      PairsMembers(front, rules);
      var ps := Pairs(front, rules);
      forall i | 0 <= i < |ps|
        ensures ps[i].0.block <= last.block
      {
        assert (ps[i].0, ps[i].1) in ps;
        var k :| 0 <= k < |front| && front[k] == ps[i].0;
      }
    }
  }

  lemma WindowPairsFacts(env: Env, s: Source, lo: nat, hi: nat)
    requires IsChain(env.chain)
    ensures var ps := WindowPairs(env, s, lo, hi);
            && (forall l, r :: (l, r) in ps <==>
                  s.factory && l in env.chain && Matches(s.filter, l) && lo <= l.block <= hi && r in s.rules)
            && (forall i, j | 0 <= i < j < |ps| :: ps[i].0.block <= ps[j].0.block)
  {
    var logs := Fetch(env.chain, s.filter, lo, hi);
    FetchMembers(env.chain, s.filter, lo, hi);
    FetchOrdered(env.chain, s.filter, lo, hi);
    PairsMembers(logs, s.rules);
    PairsOrdered(logs, s.rules);
  }

  lemma HasChildKept(before: map<nat, Source>, after: map<nat, Source>, f: nat, a: string)
    requires HasChild(before, f, a)
    requires forall id | id in before :: id in after && before[id].SameAs(after[id])
    ensures HasChild(after, f, a)
  {
    var c :| c in before && before[c].parent == f && before[c].filter == ByAddress(a);
    assert after[c].parent == f;
  }

  /** Replacing a source by one in another state keeps the family if what the source itself has
      found covers its new cursor. */
  lemma FamilyFrame(env: Env, sources: map<nat, Source>, nextId: nat, id: nat, s': Source)
    requires FamilyOk(env, sources, nextId) && id in sources && sources[id].SameAs(s')
    requires Found(env, sources[id := s'], id) && FoundInWindow(env, sources[id := s'], id)
    ensures FamilyOk(env, sources[id := s'], nextId)
  {
    hide Fires, WindowPairs, HasChild;
    var after := sources[id := s'];
    forall f | f in after
      ensures Found(env, after, f) && FoundInWindow(env, after, f)
    {
      if f != id {
        assert Found(env, sources, f) && FoundInWindow(env, sources, f);
        FoundKept(env, sources, after, f);
        FoundInWindowKept(env, sources, after, f);
      }
    }
    forall c | c in after
      ensures ChildStartsFirst(env, after, c)
    {
      assert ChildStartsFirst(env, sources, c);
      StartsFirstKept(env, sources, after, c);
    }
  }

  lemma FoundKept(env: Env, before: map<nat, Source>, after: map<nat, Source>, f: nat)
    requires f in before && f in after && before[f] == after[f] && Found(env, before, f)
    requires forall id | id in before :: id in after && before[id].SameAs(after[id])
    ensures Found(env, after, f)
  {
    forall l, r, a | Fires(env, after[f], l, r, a) && l.block <= after[f].Cur()
      ensures HasChild(after, f, a)
    {
      HasChildKept(before, after, f, a);
    }
  }

  lemma FoundInWindowKept(env: Env, before: map<nat, Source>, after: map<nat, Source>, f: nat)
    requires f in before && f in after && before[f] == after[f] && FoundInWindow(env, before, f)
    requires forall id | id in before :: id in after && before[id].SameAs(after[id])
    ensures FoundInWindow(env, after, f)
  {
    if before[f].worker.Stored? {
      var pairs := WindowPairs(env, before[f], before[f].worker.lo, before[f].worker.hi);
      forall j, a | 0 <= j < before[f].worker.done && j < |pairs|
                    && env.trigger(pairs[j].1, pairs[j].0.DecodedBy(before[f].abi)) == Some(a)
        ensures HasChild(after, f, a)
      {
        HasChildKept(before, after, f, a);
      }
    }
  }

  lemma StartsFirstKept(env: Env, before: map<nat, Source>, after: map<nat, Source>, c: nat)
    requires c in before && c in after && ChildStartsFirst(env, before, c)
    requires before[c].parent in after ==> before[c].parent in before
    requires forall id | id in before && id in after :: before[id].SameAs(after[id])
    ensures ChildStartsFirst(env, after, c)
  {
    if after[c].parent in after && after[c].filter.ByAddress? {
      var p := after[c].parent;
      forall l, r | Fires(env, after[p], l, r, after[c].filter.address)
        ensures after[c].origin < l.block
      {
        assert Fires(env, before[p], l, r, before[c].filter.address);
      }
    }
  }

  lemma SourceStepFacts(env: Env, headSeen: nat, id: nat, s: Source, a: Action, s': Source)
    requires SourceOk(env, headSeen, id, s) && SourceStep(env, id, s, a, s')
    ensures s.SameAs(s') && (s'.worker.Stored? ==> s'.worker.done == 0)
    ensures if a.CursorMoved? then
              && s.worker.Stored? && s.worker.lo == s.Cur() + 1 && s'.Cur() == s.worker.hi
              && s.worker.done == |WindowPairs(env, s, s.worker.lo, s.worker.hi)|
            else s'.Cur() == s.Cur()
  {
  }

  lemma HasChildAfter(sources: map<nat, Source>, id: nat, s': Source, f: nat, a: string)
    requires HasChild(sources, f, a) && id in sources && sources[id].SameAs(s')
    ensures HasChild(sources[id := s'], f, a)
  {
    HasChildKept(sources, sources[id := s'], f, a);
  }

  lemma FoundAfterStep(env: Env, headSeen: nat, sources: map<nat, Source>, id: nat, a: Action, s': Source)
    requires env.Ok() && id in sources && Found(env, sources, id) && FoundInWindow(env, sources, id)
    requires SourceOk(env, headSeen, id, sources[id]) && SourceStep(env, id, sources[id], a, s')
    ensures sources[id].SameAs(s')
    ensures Found(env, sources[id := s'], id) && FoundInWindow(env, sources[id := s'], id)
  {
    var s := sources[id];
    SourceStepFacts(env, headSeen, id, s, a, s');
    forall l, r, x | Fires(env, s', l, r, x) && l.block <= s'.Cur()
      ensures HasChild(sources[id := s'], id, x)
    {
      FiresSame(env, s, s', l, r, x);
      if l.block > s.Cur() {
        AllPairsHandled(env, sources, id, l, r, x);
      }
      HasChildAfter(sources, id, s', id, x);
    }
  }

  lemma FiresSame(env: Env, s: Source, s': Source, l: Log, r: Rule, a: string)
    requires s.SameAs(s')
    ensures Fires(env, s, l, r, a) == Fires(env, s', l, r, a)
  {
  }

  /** A step of a worker that creates nothing leaves every deployment found. */
  lemma SourceStepFamily(env: Env, headSeen: nat, sources: map<nat, Source>, nextId: nat, id: nat, a: Action, s': Source)
    requires env.Ok() && FamilyOk(env, sources, nextId) && id in sources
    requires SourceOk(env, headSeen, id, sources[id]) && SourceStep(env, id, sources[id], a, s')
    ensures FamilyOk(env, sources[id := s'], nextId)
  {
    FoundAfterStep(env, headSeen, sources, id, a, s');
    FamilyFrame(env, sources, nextId, id, s');
  }

  lemma AllPairsHandled(env: Env, sources: map<nat, Source>, f: nat, l: Log, r: Rule, a: string)
    requires IsChain(env.chain) && f in sources && FoundInWindow(env, sources, f)
    requires sources[f].worker.Stored?
    requires sources[f].worker.done == |WindowPairs(env, sources[f], sources[f].worker.lo, sources[f].worker.hi)|
    requires Fires(env, sources[f], l, r, a) && sources[f].worker.lo <= l.block <= sources[f].worker.hi
    ensures HasChild(sources, f, a)
  {
    var s := sources[f];
    WindowPairsFacts(env, s, s.worker.lo, s.worker.hi);
    var pairs := WindowPairs(env, s, s.worker.lo, s.worker.hi);
    assert (l, r) in pairs;
    var j :| 0 <= j < |pairs| && pairs[j] == (l, r);
    assert env.trigger(pairs[j].1, pairs[j].0.DecodedBy(s.abi)) == Some(a);
  }

  lemma EarlierPair(ps: seq<(Log, Rule)>, done: nat, l: Log, r: Rule) returns (j: nat)
    requires done < |ps| && (l, r) in ps && l.block < ps[done].0.block
    requires forall i, j | 0 <= i < j < |ps| :: ps[i].0.block <= ps[j].0.block
    ensures j < done && ps[j] == (l, r)
  {
    j :| 0 <= j < |ps| && ps[j] == (l, r);
  }

  /** A deployment before the pair about to be handled has been found already. */
  lemma FirstDeployment(env: Env, sources: map<nat, Source>, f: nat, l: Log, r: Rule, a: string)
    requires IsChain(env.chain) && f in sources && Found(env, sources, f) && FoundInWindow(env, sources, f)
    requires sources[f].worker.Stored? && sources[f].worker.lo == sources[f].Cur() + 1
    requires var w := sources[f].worker;
             var pairs := WindowPairs(env, sources[f], w.lo, w.hi);
             w.done < |pairs| && Fires(env, sources[f], l, r, a) && l.block < pairs[w.done].0.block <= w.hi
    ensures HasChild(sources, f, a)
  {
    var s := sources[f];
    var w := s.worker;
    if l.block > s.Cur() {
      var pairs := WindowPairs(env, s, w.lo, w.hi);
      WindowPairsFacts(env, s, w.lo, w.hi);
      var j := EarlierPair(pairs, w.done, l, r);
      assert env.trigger(pairs[j].1, pairs[j].0.DecodedBy(s.abi)) == Some(a);
    }
  }

  ghost predicate EachOk(env: Env, headSeen: nat, sources: map<nat, Source>) {
    forall id {:trigger SourceOk(env, headSeen, id, sources[id])} | id in sources :: SourceOk(env, headSeen, id, sources[id])
  }

  ghost predicate SourcesOk(env: Env, st: State) {
    EachOk(env, st.headSeen, st.sources) && FamilyOk(env, st.sources, st.nextId)
  }

  lemma EachOkAfter(env: Env, headSeen: nat, headSeen': nat, sources: map<nat, Source>, id: nat, s': Source)
    requires EachOk(env, headSeen, sources) && headSeen <= headSeen' < MAX_UINT64 && SourceOk(env, headSeen', id, s')
    ensures EachOk(env, headSeen', sources[id := s'])
  {
    forall k | k in sources && k != id
      ensures SourceOk(env, headSeen', k, sources[k])
    {
      SourceOkLater(env, headSeen, headSeen', k, sources[k]);
    }
  }

  lemma SourceOkLater(env: Env, headSeen: nat, headSeen': nat, id: nat, s: Source)
    requires SourceOk(env, headSeen, id, s) && headSeen <= headSeen' < MAX_UINT64
    ensures SourceOk(env, headSeen', id, s)
  {
  }

  /** What the pair about to be handled says about the source. */
  ghost predicate PairAhead(env: Env, s: Source, l: Log, r: Rule) {
    && s.worker.Stored? && s.worker.lo == s.Cur() + 1
    && var pairs := WindowPairs(env, s, s.worker.lo, s.worker.hi);
       && s.worker.done < |pairs| && pairs[s.worker.done] == (l, r)
       && s.factory && l in env.chain && Matches(s.filter, l) && r in s.rules
       && s.Cur() < l.block <= s.worker.hi && s.origin < l.block && s.sync < l.block
  }

  predicate NextWorker(s: Source, s': Source) {
    s.worker.Stored? && (s' == s.(worker := Down) || s' == s.(worker := s.worker.(done := s.worker.done + 1)))
  }

  lemma PairFacts(env: Env, headSeen: nat, sources: map<nat, Source>, id: nat)
    requires env.Ok() && EachOk(env, headSeen, sources) && id in sources && sources[id].worker.Stored?
    requires sources[id].worker.done < |WindowPairs(env, sources[id], sources[id].worker.lo, sources[id].worker.hi)|
    ensures var s := sources[id];
            var p := WindowPairs(env, s, s.worker.lo, s.worker.hi)[s.worker.done];
            PairAhead(env, s, p.0, p.1)
  {
    var s := sources[id];
    assert SourceOk(env, headSeen, id, s);
    var pairs := WindowPairs(env, s, s.worker.lo, s.worker.hi);
    WindowPairsFacts(env, s, s.worker.lo, s.worker.hi);
    assert (pairs[s.worker.done].0, pairs[s.worker.done].1) in pairs;
  }

  lemma NextWorkerOk(env: Env, headSeen: nat, sources: map<nat, Source>, id: nat, s': Source)
    requires EachOk(env, headSeen, sources) && id in sources && NextWorker(sources[id], s')
    requires sources[id].worker.done < |WindowPairs(env, sources[id], sources[id].worker.lo, sources[id].worker.hi)|
    ensures EachOk(env, headSeen, sources[id := s'])
  {
    assert SourceOk(env, headSeen, id, sources[id]);
    WorkerMoves(env, headSeen, id, sources[id], s');
    EachOkAfter(env, headSeen, headSeen, sources, id, s');
  }

  lemma WorkerMoves(env: Env, headSeen: nat, id: nat, s: Source, s': Source)
    requires SourceOk(env, headSeen, id, s) && NextWorker(s, s')
    requires s.worker.done < |WindowPairs(env, s, s.worker.lo, s.worker.hi)|
    ensures SourceOk(env, headSeen, id, s')
  {
    if s'.worker.Stored? {
      assert WindowPairs(env, s', s'.worker.lo, s'.worker.hi) == WindowPairs(env, s, s.worker.lo, s.worker.hi);
    }
  }

  /** A new child of a factory, in front of whose first deployment nothing is missed. */
  lemma SpawnKeeps(env: Env, sources: map<nat, Source>, nextId: nat, f: nat, a: string, child: Source)
    requires FamilyOk(env, sources, nextId) && f in sources && sources[f].factory && !HasChild(sources, f, a)
    requires child.parent == f && child.filter == ByAddress(a) && child.worker == Down && child.Cur() == child.origin
    requires forall l, r | Fires(env, sources[f], l, r, a) :: child.origin < l.block
    ensures FamilyOk(env, sources[nextId := child], nextId + 1)
  {
    var after := sources[nextId := child];
    assert forall id | id in sources :: id in after && sources[id].SameAs(after[id]);
    forall g | g in after
      ensures Found(env, after, g) && FoundInWindow(env, after, g)
    {
      if g != nextId {
        assert Found(env, sources, g) && FoundInWindow(env, sources, g);
        forall l, r, x | Fires(env, after[g], l, r, x) && l.block <= after[g].Cur()
          ensures HasChild(after, g, x)
        {
          HasChildKept(sources, after, g, x);
        }
        FoundInWindowKept(env, sources, after, g);
      }
    }
    forall c | c in after
      ensures ChildStartsFirst(env, after, c)
    {
      if c != nextId {
        assert sources[c].parent == 0 || sources[c].parent in sources;
        StartsFirstKept(env, sources, after, c);
      }
    }
    SpawnUnique(sources, nextId, f, a, child);
  }

  lemma SpawnUnique(sources: map<nat, Source>, nextId: nat, f: nat, a: string, child: Source)
    requires ParentsOk(sources, nextId) && ChildrenUnique(sources) && f in sources && !HasChild(sources, f, a)
    requires child.parent == f && child.filter == ByAddress(a)
    ensures ChildrenUnique(sources[nextId := child])
  {
  }

  lemma PairHandledFamily(env: Env, sources: map<nat, Source>, nextId: nat, id: nat, l: Log, r: Rule, s': Source)
    requires FamilyOk(env, sources, nextId) && id in sources
    requires PairAhead(env, sources[id], l, r) && NextWorker(sources[id], s')
    requires forall a | env.trigger(r, l.DecodedBy(sources[id].abi)) == Some(a) :: HasChild(sources, id, a)
    ensures FamilyOk(env, sources[id := s'], nextId)
  {
    assert Found(env, sources, id) && FoundInWindow(env, sources, id);
    FoundAfterPair(env, sources, id, l, r, s');
    FamilyFrame(env, sources, nextId, id, s');
  }

  lemma FoundAfterPair(env: Env, sources: map<nat, Source>, id: nat, l: Log, r: Rule, s': Source)
    requires id in sources && Found(env, sources, id) && FoundInWindow(env, sources, id)
    requires PairAhead(env, sources[id], l, r) && NextWorker(sources[id], s')
    requires forall a | env.trigger(r, l.DecodedBy(sources[id].abi)) == Some(a) :: HasChild(sources, id, a)
    ensures Found(env, sources[id := s'], id) && FoundInWindow(env, sources[id := s'], id)
  {
    var s := sources[id];
    forall l, r, a | Fires(env, s', l, r, a) && l.block <= s'.Cur()
      ensures HasChild(sources[id := s'], id, a)
    {
      FiresSame(env, s, s', l, r, a);
      HasChildAfter(sources, id, s', id, a);
    }
    if s'.worker.Stored? {
      var pairs := WindowPairs(env, s', s'.worker.lo, s'.worker.hi);
      assert pairs == WindowPairs(env, s, s.worker.lo, s.worker.hi);
      forall j, a | 0 <= j < s'.worker.done && j < |pairs|
                    && env.trigger(pairs[j].1, pairs[j].0.DecodedBy(s'.abi)) == Some(a)
        ensures HasChild(sources[id := s'], id, a)
      {
        assert j < s.worker.done || j == s.worker.done;
        HasChildAfter(sources, id, s', id, a);
      }
    }
  }

  /** How a step may change the sources as far as the exporter is concerned: cursors rise, and a
      new source starts above every block that some old source had not yet passed. */
  ghost predicate Grows(before: map<nat, Source>, after: map<nat, Source>) {
    && (forall id | id in before :: id in after && before[id].SameAs(after[id]) && before[id].sync <= after[id].sync)
    && (forall id | id in after && id !in before ::
          after[id].origin == after[id].sync && exists f :: f in before && before[f].sync <= after[id].origin)
  }

  lemma GrowsAfter(sources: map<nat, Source>, id: nat, s': Source)
    requires id in sources && sources[id].SameAs(s') && sources[id].sync <= s'.sync
    ensures Grows(sources, sources[id := s'])
  {
  }

  /** Handling a pair that needs no new child. */
  lemma PairWithoutChild(env: Env, st: State, id: nat, l: Log, r: Rule, s': Source)
    requires env.Ok() && SourcesOk(env, st) && id in st.sources
    requires PairAhead(env, st.sources[id], l, r) && NextWorker(st.sources[id], s')
    requires forall a | env.trigger(r, l.DecodedBy(st.sources[id].abi)) == Some(a) :: HasChild(st.sources, id, a)
    ensures SourcesOk(env, st.(sources := st.sources[id := s'])) && Grows(st.sources, st.sources[id := s'])
  {
    PairHandledFamily(env, st.sources, st.nextId, id, l, r, s');
    NextWorkerOk(env, st.headSeen, st.sources, id, s');
    GrowsAfter(st.sources, id, s');
  }

  lemma PairStepKeeps(env: Env, st: State, id: nat, copied: nat, st': State)
    requires env.Ok() && SourcesOk(env, st) && PairStep(env, st, id, copied, st')
    ensures SourcesOk(env, st') && Grows(st.sources, st'.sources) && st'.exp == st.exp
  {
    var s, s' := st.sources[id], st'.sources[id];
    var (l, r) := WindowPairs(env, s, s.worker.lo, s.worker.hi)[s.worker.done];
    PairFacts(env, st.headSeen, st.sources, id);
    var t := env.trigger(r, l.DecodedBy(s.abi));
    if t == None || HasChild(st.sources, id, t.value) {
      PairWithoutChild(env, st, id, l, r, s');
    } else {
      assert id < st.nextId;
      PairWithChild(env, st, id, t.value, l, r, CopiedRules(r, copied), s', st');
    }
  }

  lemma ChildIsFirst(env: Env, sources: map<nat, Source>, f: nat, a: string, block: nat)
    requires IsChain(env.chain) && f in sources && Found(env, sources, f) && FoundInWindow(env, sources, f)
    requires !HasChild(sources, f, a)
    requires sources[f].worker.Stored? && sources[f].worker.lo == sources[f].Cur() + 1
    requires var w := sources[f].worker;
             var pairs := WindowPairs(env, sources[f], w.lo, w.hi);
             w.done < |pairs| && pairs[w.done].0.block == block <= w.hi
    ensures forall l, r | Fires(env, sources[f], l, r, a) :: block <= l.block
  {
    forall l, r | Fires(env, sources[f], l, r, a)
      ensures block <= l.block
    {
      if l.block < block {
        FirstDeployment(env, sources, f, l, r, a);
      }
    }
  }

  lemma PairWithChild(env: Env, st: State, id: nat, a: string, l: Log, r: Rule, cloned: seq<Rule>, s': Source, st': State)
    requires env.Ok() && SourcesOk(env, st) && id in st.sources && !HasChild(st.sources, id, a) && id < st.nextId
    requires PairAhead(env, st.sources[id], l, r) && NextWorker(st.sources[id], s') && 1 <= l.block < MAX_UINT64
    requires env.trigger(r, l.DecodedBy(st.sources[id].abi)) == Some(a)
    requires var child := Spawn(id, st.sources[id], r, a, l.block, cloned);
             st' == st.(sources := st.sources[id := s'][st.nextId := child], nextId := st.nextId + 1)
    ensures SourcesOk(env, st') && Grows(st.sources, st'.sources) && st'.exp == st.exp
  {
    var n := st.nextId;
    var child := Spawn(id, st.sources[id], r, a, l.block, cloned);
    assert st'.sources == st.sources[n := child][id := s'];
    SpawnedFamily(env, st.sources, n, id, a, l, r, child, s');
    SpawnedEachOk(env, st.headSeen, st.sources, n, id, child, s', l, r);
    GrowsBySpawn(st.sources, id, s', n, child);
  }

  lemma SpawnedFamily(env: Env, sources: map<nat, Source>, n: nat, id: nat, a: string, l: Log, r: Rule, child: Source, s': Source)
    requires env.Ok() && FamilyOk(env, sources, n) && id in sources && id < n && !HasChild(sources, id, a)
    requires PairAhead(env, sources[id], l, r) && NextWorker(sources[id], s')
    requires env.trigger(r, l.DecodedBy(sources[id].abi)) == Some(a)
    requires child.parent == id && child.filter == ByAddress(a) && child.worker == Down
    requires child.Cur() == child.origin == l.block - 1
    ensures FamilyOk(env, sources[n := child][id := s'], n + 1)
  {
    assert Found(env, sources, id) && FoundInWindow(env, sources, id);
    ChildIsFirst(env, sources, id, a, l.block);
    SpawnKeeps(env, sources, n, id, a, child);
    ChildFound(sources[n := child], n, id, a);
    PairHandledFamily(env, sources[n := child], n + 1, id, l, r, s');
  }

  lemma SpawnedEachOk(env: Env, headSeen: nat, sources: map<nat, Source>, n: nat, id: nat, child: Source, s': Source, l: Log, r: Rule)
    requires EachOk(env, headSeen, sources) && id in sources && id != n
    requires PairAhead(env, sources[id], l, r) && NextWorker(sources[id], s')
    requires child.dir == map[] && child.worker == Down
    requires child.start == child.origin == child.sync == child.mem < MAX_UINT64
    ensures EachOk(env, headSeen, sources[n := child][id := s'])
  {
    assert SourceOk(env, headSeen, id, sources[id]);
    NewSourceOk(env, headSeen, n, child);
    EachOkAfter(env, headSeen, headSeen, sources, n, child);
    NextWorkerOk(env, headSeen, sources[n := child], id, s');
  }

  lemma ChildFound(sources: map<nat, Source>, c: nat, f: nat, a: string)
    requires c in sources && sources[c].parent == f && sources[c].filter == ByAddress(a)
    ensures HasChild(sources, f, a)
  {
  }

  lemma GrowsBySpawn(sources: map<nat, Source>, id: nat, s': Source, n: nat, child: Source)
    requires id in sources && sources[id].SameAs(s') && sources[id].sync == s'.sync
    requires n !in sources && child.origin == child.sync && sources[id].sync <= child.origin
    ensures Grows(sources, sources[n := child][id := s'])
  {
  }

  lemma NewSourceOk(env: Env, headSeen: nat, id: nat, s: Source)
    requires headSeen < MAX_UINT64
    requires s.dir == map[] && s.worker == Down && s.start == s.origin == s.sync == s.mem < MAX_UINT64
    ensures SourceOk(env, headSeen, id, s)
  {
  }

  lemma WorkerStepKeeps(env: Env, st: State, a: Action, st': State)
    requires env.Ok() && SourcesOk(env, st) && IsSourceStep(a) && Step(env, st, a, st')
    ensures SourcesOk(env, st') && Grows(st.sources, st'.sources) && st'.exp == st.exp
  {
    var s, s' := st.sources[a.id], st'.sources[a.id];
    SourceStepKeeps(env, st.headSeen, a.id, s, a, s');
    SourceStepFamily(env, st.headSeen, st.sources, st.nextId, a.id, a, s');
    EachOkAfter(env, st.headSeen, st'.headSeen, st.sources, a.id, s');
    GrowsAfter(st.sources, a.id, s');
  }

  lemma FoundAfterRestart(env: Env, before: map<nat, Source>, id: nat)
    requires id in before && Found(env, before, id)
    requires before[id].sync <= before[id].Cur()
    ensures Found(env, Restarted(before), id) && FoundInWindow(env, Restarted(before), id)
  {
    var after := Restarted(before);
    forall l, r, a | Fires(env, after[id], l, r, a) && l.block <= after[id].Cur()
      ensures HasChild(after, id, a)
    {
      FiresSame(env, before[id], after[id], l, r, a);
      HasChildKept(before, after, id, a);
    }
  }

  lemma SourceOkAfterRestart(env: Env, headSeen: nat, id: nat, s: Source)
    requires SourceOk(env, headSeen, id, s)
    ensures SourceOk(env, headSeen, id, s.(mem := s.sync, worker := Down))
  {
  }

  lemma RestartKeeps(env: Env, st: State)
    requires env.Ok() && SourcesOk(env, st)
    ensures SourcesOk(env, st.(sources := Restarted(st.sources))) && Grows(st.sources, Restarted(st.sources))
  {
    forall id | id in st.sources
      ensures SourceOk(env, st.headSeen, id, Restarted(st.sources)[id])
    {
      SourceOkAfterRestart(env, st.headSeen, id, st.sources[id]);
    }
    forall id | id in st.sources
      ensures st.sources[id].sync <= st.sources[id].Cur()
    {
      assert SourceOk(env, st.headSeen, id, st.sources[id]);
    }
    RestartFamily(env, st.sources, st.nextId);
  }

  lemma RestartFamily(env: Env, before: map<nat, Source>, nextId: nat)
    requires FamilyOk(env, before, nextId) && forall id | id in before :: before[id].sync <= before[id].Cur()
    ensures FamilyOk(env, Restarted(before), nextId)
  {
    var after := Restarted(before);
    forall id | id in after
      ensures Found(env, after, id) && FoundInWindow(env, after, id) && ChildStartsFirst(env, after, id)
    {
      FoundAfterRestart(env, before, id);
      StartsFirstKept(env, before, after, id);
    }
  }
}
