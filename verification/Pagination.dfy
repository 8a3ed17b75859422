/** Paging through a search result with search_after, and the sort keys that make it safe. */
module Pagination {
  import opened Positions
  import opened Texts

  const MAX_HITS: nat := 10000

  /** The fields of a stored document that queries and sorts look at. */
  datatype Doc = Doc(id: string, source: nat, block: nat, index: nat)

  datatype Query =
    | LogsBetween(source: nat, from: nat, to: nat)
    | LogsAfter(sources: seq<nat>, bound: Position, to: nat)
    | TransactionsBetween(source: nat, from: nat, to: nat)

  predicate Selected(q: Query, d: Doc) {
    match q
    case LogsBetween(s, from, to) => d.source == s && from <= d.block <= to
    case LogsAfter(ss, bound, to) => d.source in ss && d.block <= to && Less(bound, Position(d.block, d.index))
    case TransactionsBetween(s, from, to) => d.source == s && from <= d.block <= to
  }

  /** The values a hit is sorted by: block, log index and id upwards for logs, block and id
      downwards for transactions. */
  datatype SortKey = Ascending(block: nat, index: nat, id: string) | Descending(block: nat, id: string)

  function KeyOf(q: Query, d: Doc): SortKey {
    if q.TransactionsBetween? then Descending(d.block, d.id) else Ascending(d.block, d.index, d.id)
  }

  predicate KeyLess(a: SortKey, b: SortKey) {
    match (a, b)
    case (Ascending(m, i, x), Ascending(n, j, y)) =>
      m < n || (m == n && (i < j || (i == j && StrLess(x, y))))
    case (Descending(m, x), Descending(n, y)) =>
      n < m || (m == n && StrLess(y, x))
    case _ => false
  }

  predicate Before(q: Query, a: Doc, b: Doc) {
    KeyLess(KeyOf(q, a), KeyOf(q, b))
  }

  lemma KeysAreTotallyOrdered(q: Query, a: Doc, b: Doc)
    ensures Before(q, a, b) || KeyOf(q, a) == KeyOf(q, b) || Before(q, b, a)
    ensures !(Before(q, a, b) && Before(q, b, a))
    ensures KeyOf(q, a) == KeyOf(q, b) ==> !Before(q, a, b)
  {
    StrLessTrichotomy(a.id, b.id);
  }

  lemma BeforeIsTransitive(q: Query, a: Doc, b: Doc, c: Doc)
    requires Before(q, a, b) && Before(q, b, c)
    ensures Before(q, a, c)
  {
    if q.TransactionsBetween? {
      if a.block == b.block == c.block {
        StrLessTransitive(c.id, b.id, a.id);
      }
    } else if a.block == b.block == c.block && a.index == b.index == c.index {
      StrLessTransitive(a.id, b.id, c.id);
    }
  }

  // ---- what the server answers -------------------------------------------------------------

  function Matching(q: Query, docs: seq<Doc>): seq<Doc> {
    if docs == [] then []
    else
      var front, last := Matching(q, docs[..|docs| - 1]), docs[|docs| - 1];
      if Selected(q, last) then front + [last] else front
  }

  function Place(q: Query, hits: seq<Doc>, d: Doc): seq<Doc> {
    if hits == [] || !Before(q, d, hits[|hits| - 1]) then hits + [d]
    else Place(q, hits[..|hits| - 1], d) + [hits[|hits| - 1]]
  }

  function Arrange(q: Query, docs: seq<Doc>): seq<Doc> {
    if docs == [] then [] else Place(q, Arrange(q, docs[..|docs| - 1]), docs[|docs| - 1])
  }

  /** The whole result: every document the query selects, in sort order. */
  function Hits(q: Query, docs: seq<Doc>): seq<Doc> {
    Arrange(q, Matching(q, docs))
  }

  /** The hits strictly behind a sort key. */
  function Behind(q: Query, hits: seq<Doc>, key: SortKey): seq<Doc> {
    if hits == [] then []
    else
      var front, last := Behind(q, hits[..|hits| - 1], key), hits[|hits| - 1];
      if KeyLess(key, KeyOf(q, last)) then front + [last] else front
  }

  datatype After = FromStart | Key(key: SortKey)

  function Take(hits: seq<Doc>, size: nat): seq<Doc> {
    if |hits| <= size then hits else hits[..size]
  }

  function Page(q: Query, hits: seq<Doc>, after: After, size: nat): seq<Doc> {
    Take(Ahead(q, hits, after), size)
  }

  // ---- sorting -----------------------------------------------------------------------------

  ghost predicate Sorted(q: Query, hits: seq<Doc>) {
    forall i, j | 0 <= i < j < |hits| :: !Before(q, hits[j], hits[i])
  }

  ghost predicate DistinctKeys(q: Query, hits: seq<Doc>) {
    forall i, j | 0 <= i < j < |hits| :: KeyOf(q, hits[i]) != KeyOf(q, hits[j])
  }

  ghost predicate StrictlySorted(q: Query, hits: seq<Doc>) {
    forall i, j | 0 <= i < j < |hits| :: Before(q, hits[i], hits[j])
  }

  lemma SortedIsStrict(q: Query, hits: seq<Doc>)
    requires Sorted(q, hits)
    ensures StrictlySorted(q, hits) <==> DistinctKeys(q, hits)
  {
    forall i, j | 0 <= i < j < |hits|
      ensures Before(q, hits[i], hits[j]) <==> KeyOf(q, hits[i]) != KeyOf(q, hits[j])
    {
      KeysAreTotallyOrdered(q, hits[i], hits[j]);
    }
  }

  lemma {:induction false} PlaceMembers(q: Query, hits: seq<Doc>, d: Doc)
    ensures multiset(Place(q, hits, d)) == multiset(hits) + multiset{d}
  {
    if hits != [] && Before(q, d, hits[|hits| - 1]) {
      PlaceMembers(q, hits[..|hits| - 1], d);
      assert hits == hits[..|hits| - 1] + [hits[|hits| - 1]];
    }
  }

  /** Not after the last is not after any. */
  lemma NotBeforeAny(q: Query, hits: seq<Doc>, d: Doc, i: nat)
    requires Sorted(q, hits) && i < |hits| && !Before(q, d, hits[|hits| - 1])
    ensures !Before(q, d, hits[i])
  {
    if Before(q, d, hits[i]) && i < |hits| - 1 {
      var last := hits[|hits| - 1];
      KeysAreTotallyOrdered(q, hits[i], last);
      if Before(q, hits[i], last) {
        BeforeIsTransitive(q, d, hits[i], last);
      }
    }
  }

  lemma {:induction false} PlaceKeeps(q: Query, hits: seq<Doc>, d: Doc)
    requires Sorted(q, hits)
    ensures Sorted(q, Place(q, hits, d))
  {
    if hits != [] && Before(q, d, hits[|hits| - 1]) {
      var front, last := hits[..|hits| - 1], hits[|hits| - 1];
      PlaceKeeps(q, front, d);
      PlaceMembers(q, front, d);
      KeysAreTotallyOrdered(q, d, last);
      SortedSnoc(q, Place(q, front, d), front, last, d);
    } else {
      forall i | 0 <= i < |hits|
        ensures !Before(q, d, hits[i])
      {
        NotBeforeAny(q, hits, d, i);
      }
    }
  }

  lemma SortedSnoc(q: Query, s: seq<Doc>, front: seq<Doc>, last: Doc, d: Doc)
    requires Sorted(q, s) && multiset(s) == multiset(front) + multiset{d}
    requires !Before(q, last, d) && forall e | e in front :: !Before(q, last, e)
    ensures Sorted(q, s + [last])
  {
    forall i | 0 <= i < |s|
      ensures !Before(q, last, s[i])
    {
      assert s[i] in multiset(s);
      assert s[i] in multiset(front) || s[i] == d;
    }
  }

  lemma {:induction false} ArrangeKeeps(q: Query, docs: seq<Doc>)
    ensures Sorted(q, Arrange(q, docs)) && multiset(Arrange(q, docs)) == multiset(docs)
  {
    if docs != [] {
      hide Before;
      ArrangeKeeps(q, docs[..|docs| - 1]);
      PlaceKeeps(q, Arrange(q, docs[..|docs| - 1]), docs[|docs| - 1]);
      PlaceMembers(q, Arrange(q, docs[..|docs| - 1]), docs[|docs| - 1]);
      assert docs == docs[..|docs| - 1] + [docs[|docs| - 1]];
    }
  }

  lemma {:induction false} MatchingCounts(q: Query, docs: seq<Doc>, d: Doc)
    ensures multiset(Matching(q, docs))[d] == if Selected(q, d) then multiset(docs)[d] else 0
  {
    if docs != [] {
      MatchingCounts(q, docs[..|docs| - 1], d);
      assert docs == docs[..|docs| - 1] + [docs[|docs| - 1]];
    }
  }

  /** The whole result holds exactly the selected documents, as often as the index does. */
  lemma HitsAreTheSelection(q: Query, docs: seq<Doc>, d: Doc)
    ensures Sorted(q, Hits(q, docs))
    ensures multiset(Hits(q, docs))[d] == if Selected(q, d) then multiset(docs)[d] else 0
  {
    ArrangeKeeps(q, Matching(q, docs));
    MatchingCounts(q, docs, d);
  }

  /** Logs come in (block, log index) order, whatever their ids, which order what is at one position. */
  lemma LogsComeInPositionOrder(q: Query, docs: seq<Doc>, i: nat, j: nat)
    requires !q.TransactionsBetween? && i < j < |Hits(q, docs)|
    ensures var a, b := Hits(q, docs)[i], Hits(q, docs)[j];
            && AtMost(Position(a.block, a.index), Position(b.block, b.index))
            && (a.block == b.block && a.index == b.index ==> !StrLess(b.id, a.id))
  {
    ArrangeKeeps(q, Matching(q, docs));
    assert !Before(q, Hits(q, docs)[j], Hits(q, docs)[i]);
  }

  ghost predicate UniqueIds(docs: seq<Doc>) {
    forall i, j | 0 <= i < j < |docs| :: docs[i].id != docs[j].id
  }

  lemma {:induction false} UniqueIdsKept(docs: seq<Doc>, hits: seq<Doc>)
    requires UniqueIds(docs) && forall d :: multiset(hits)[d] <= multiset(docs)[d]
    ensures UniqueIds(hits)
  {
    forall i, j | 0 <= i < j < |hits|
      ensures hits[i].id != hits[j].id
    {
      var a, b := hits[i], hits[j];
      assert hits == hits[..i] + [a] + hits[i + 1..j] + [b] + hits[j + 1..];
      if a == b {
        assert multiset(hits)[a] >= 2;
        AtMostOne(docs, a);
      } else {
        assert multiset(hits)[a] >= 1 && multiset(hits)[b] >= 1;
        assert a in multiset(docs) && b in multiset(docs);
      }
    }
  }

  lemma {:induction false} AtMostOne(docs: seq<Doc>, d: Doc)
    requires UniqueIds(docs)
    ensures multiset(docs)[d] <= 1
  {
    if docs != [] {
      var front, last := docs[..|docs| - 1], docs[|docs| - 1];
      AtMostOne(front, d);
      assert docs == front + [last];
      if last == d {
        assert d !in multiset(front);
      }
    }
  }

  /** With unique ids the sort keys tell all hits apart. */
  lemma UniqueIdsGiveDistinctKeys(q: Query, docs: seq<Doc>)
    requires UniqueIds(docs)
    ensures DistinctKeys(q, Hits(q, docs))
  {
    forall d
      ensures multiset(Hits(q, docs))[d] <= multiset(docs)[d]
    {
      HitsAreTheSelection(q, docs, d);
    }
    UniqueIdsKept(docs, Hits(q, docs));
  }

  // ---- what the queries select -------------------------------------------------------------

  lemma HitMembers(q: Query, docs: seq<Doc>, d: Doc)
    ensures d in Hits(q, docs) <==> d in docs && Selected(q, d)
  {
    HitsAreTheSelection(q, docs, d);
    assert d in Hits(q, docs) <==> multiset(Hits(q, docs))[d] > 0;
    assert d in docs <==> multiset(docs)[d] > 0;
  }

  lemma LastIsGreatest(q: Query, a: seq<Doc>, b: seq<Doc>)
    requires a != [] && b != [] && StrictlySorted(q, b) && a[|a| - 1] in multiset(b)
    ensures a[|a| - 1] == b[|b| - 1] || Before(q, a[|a| - 1], b[|b| - 1])
  {
    var i :| 0 <= i < |b| && b[i] == a[|a| - 1];
  }

  lemma SameLast(q: Query, a: seq<Doc>, b: seq<Doc>)
    requires StrictlySorted(q, a) && StrictlySorted(q, b) && multiset(a) == multiset(b) && a != []
    ensures |a| == |b| && a[|a| - 1] == b[|b| - 1]
  {
    assert |a| == |multiset(a)| && |b| == |multiset(b)|;
    assert a[|a| - 1] in multiset(a) && b[|b| - 1] in multiset(b);
    LastIsGreatest(q, a, b);
    LastIsGreatest(q, b, a);
    KeysAreTotallyOrdered(q, a[|a| - 1], b[|b| - 1]);
  }

  lemma SameFronts(a: seq<Doc>, b: seq<Doc>)
    requires multiset(a) == multiset(b) && |a| == |b| > 0 && a[|a| - 1] == b[|b| - 1]
    ensures multiset(a[..|a| - 1]) == multiset(b[..|b| - 1])
    ensures a[..|a| - 1] == b[..|b| - 1] ==> a == b
  {
    assert a == a[..|a| - 1] + [a[|a| - 1]] && b == b[..|b| - 1] + [b[|b| - 1]];
    assert multiset(a[..|a| - 1]) == multiset(a) - multiset{a[|a| - 1]};
    assert multiset(b[..|b| - 1]) == multiset(b) - multiset{b[|b| - 1]};
  }

  /** There is one strict arrangement of the same documents. */
  lemma {:induction false} ArrangedOnce(q: Query, a: seq<Doc>, b: seq<Doc>)
    requires StrictlySorted(q, a) && StrictlySorted(q, b) && multiset(a) == multiset(b)
    ensures a == b
  {
    if a == [] {
      assert |b| == |multiset(b)| == 0;
    } else {
      hide Before;
      SameLast(q, a, b);
      SameFronts(a, b);
      ArrangedOnce(q, a[..|a| - 1], b[..|b| - 1]);
    }
  }

  /** Two queries share the documents of a third between them, and what one of them selects comes
      before what the other does. */
  ghost predicate Splits(q: Query, first: Query, second: Query, docs: seq<Doc>) {
    && q.TransactionsBetween? == first.TransactionsBetween? == second.TransactionsBetween?
    && (forall d | d in docs :: Selected(q, d) <==> Selected(first, d) || Selected(second, d))
    && (forall d, e | d in docs && e in docs && Selected(first, d) && Selected(second, e) :: Before(q, d, e))
  }

  lemma HitsConcatenate(q: Query, first: Query, second: Query, docs: seq<Doc>)
    requires UniqueIds(docs) && Splits(q, first, second, docs)
    ensures Hits(first, docs) + Hits(second, docs) == Hits(q, docs)
  {
    var a, b, c := Hits(first, docs), Hits(second, docs), Hits(q, docs);
    HitsAreStrict(q, docs);
    JoinedIsStrict(q, first, second, docs);
    forall d
      ensures multiset(a + b)[d] == multiset(c)[d]
    {
      HitsAreTheSelection(first, docs, d);
      HitsAreTheSelection(second, docs, d);
      HitsAreTheSelection(q, docs, d);
      KeysAreTotallyOrdered(q, d, d);
      assert d in docs <==> multiset(docs)[d] > 0;
    }
    ArrangedOnce(q, a + b, c);
  }

  lemma JoinedIsStrict(q: Query, first: Query, second: Query, docs: seq<Doc>)
    requires UniqueIds(docs) && Splits(q, first, second, docs)
    ensures StrictlySorted(q, Hits(first, docs) + Hits(second, docs))
  {
    var a, b := Hits(first, docs), Hits(second, docs);
    HitsAreStrict(first, docs);
    HitsAreStrict(second, docs);
    forall i, j | 0 <= i < j < |a + b|
      ensures Before(q, (a + b)[i], (a + b)[j])
    {
      if j < |a| {
        assert Before(first, a[i], a[j]);
      } else if i >= |a| {
        assert Before(second, b[i - |a|], b[j - |a|]);
      } else {
        HitMembers(first, docs, a[i]);
        HitMembers(second, docs, b[j - |a|]);
      }
    }
  }

  /** The exporter's query for one range, and then with the bound behind it for the next, gives what
      it gives for both at once: nothing at the edge is left out or given twice. */
  lemma RangesJoin(sources: seq<nat>, bound: Position, m: nat, n: nat, docs: seq<Doc>)
    requires UniqueIds(docs) && bound.block <= m <= n && forall d | d in docs :: d.index <= MAX_UINT64
    ensures Hits(LogsAfter(sources, bound, m), docs) + Hits(LogsAfter(sources, Position(m, MAX_UINT64), n), docs)
         == Hits(LogsAfter(sources, bound, n), docs)
  {
    HitsConcatenate(LogsAfter(sources, bound, n), LogsAfter(sources, bound, m), LogsAfter(sources, Position(m, MAX_UINT64), n), docs);
  }

  /** So do queries for the blocks up to one and from the next on. */
  lemma BlocksJoin(source: nat, from: nat, m: nat, to: nat, docs: seq<Doc>)
    requires UniqueIds(docs) && from <= m + 1 && m <= to
    ensures Hits(LogsBetween(source, from, m), docs) + Hits(LogsBetween(source, m + 1, to), docs)
         == Hits(LogsBetween(source, from, to), docs)
  {
    HitsConcatenate(LogsBetween(source, from, to), LogsBetween(source, from, m), LogsBetween(source, m + 1, to), docs);
  }

  /** Transactions come newest first, so the later blocks come first. */
  lemma TransactionsJoin(source: nat, from: nat, m: nat, to: nat, docs: seq<Doc>)
    requires UniqueIds(docs) && from <= m + 1 && m <= to
    ensures Hits(TransactionsBetween(source, m + 1, to), docs) + Hits(TransactionsBetween(source, from, m), docs)
         == Hits(TransactionsBetween(source, from, to), docs)
  {
    HitsConcatenate(TransactionsBetween(source, from, to), TransactionsBetween(source, m + 1, to), TransactionsBetween(source, from, m), docs);
  }

  /** A query for one block gives exactly the documents of its source in that block. */
  lemma OneBlock(source: nat, block: nat, docs: seq<Doc>, d: Doc)
    ensures d in Hits(LogsBetween(source, block, block), docs) <==> d in docs && d.source == source && d.block == block
    ensures d in Hits(TransactionsBetween(source, block, block), docs) <==> d in docs && d.source == source && d.block == block
  {
    HitMembers(LogsBetween(source, block, block), docs, d);
    HitMembers(TransactionsBetween(source, block, block), docs, d);
  }

  /** Behind a whole block the exporter's query gives what the queries for each of its sources give
      for the blocks after it. */
  lemma AfterIsBetween(sources: seq<nat>, m: nat, n: nat, docs: seq<Doc>, d: Doc)
    requires forall e | e in docs :: e.index <= MAX_UINT64
    ensures d in Hits(LogsAfter(sources, Position(m, MAX_UINT64), n), docs)
       <==> exists s :: s in sources && d in Hits(LogsBetween(s, m + 1, n), docs)
  {
    HitMembers(LogsAfter(sources, Position(m, MAX_UINT64), n), docs, d);
    forall s | s in sources
      ensures d in Hits(LogsBetween(s, m + 1, n), docs) <==> d in docs && d.source == s && m < d.block <= n
    {
      HitMembers(LogsBetween(s, m + 1, n), docs, d);
    }
  }

  /** Transactions come with falling blocks, and with falling ids within a block. */
  lemma TransactionsComeNewestFirst(source: nat, from: nat, to: nat, docs: seq<Doc>, i: nat, j: nat)
    requires UniqueIds(docs) && i < j < |Hits(TransactionsBetween(source, from, to), docs)|
    ensures var a, b := Hits(TransactionsBetween(source, from, to), docs)[i], Hits(TransactionsBetween(source, from, to), docs)[j];
            a.block > b.block || (a.block == b.block && StrLess(b.id, a.id))
  {
    HitsAreStrict(TransactionsBetween(source, from, to), docs);
  }

  // ---- paging ------------------------------------------------------------------------------

  /** What the loop collects, page after page, from what is still ahead of it. */
  function Paged(q: Query, ahead: seq<Doc>, size: nat): seq<Doc>
    requires size >= 1
    decreases |ahead|
  {
    if |ahead| < size then ahead
    else
      BehindIsShorter(q, ahead, size - 1);
      ahead[..size] + Paged(q, Behind(q, ahead, KeyOf(q, ahead[size - 1])), size)
  }

  lemma {:induction false} BehindIsNoLonger(q: Query, hits: seq<Doc>, key: SortKey)
    ensures |Behind(q, hits, key)| <= |hits|
  {
    if hits != [] {
      BehindIsNoLonger(q, hits[..|hits| - 1], key);
    }
  }

  lemma {:induction false} BehindSplits(q: Query, a: seq<Doc>, b: seq<Doc>, key: SortKey)
    ensures Behind(q, a + b, key) == Behind(q, a, key) + Behind(q, b, key)
  {
    if b == [] {
      assert a + b == a;
    } else {
      BehindSplits(q, a, b[..|b| - 1], key);
      assert (a + b)[..|a + b| - 1] == a + b[..|b| - 1];
    }
  }

  lemma {:induction false} BehindNone(q: Query, hits: seq<Doc>, key: SortKey)
    requires forall d | d in hits :: !KeyLess(key, KeyOf(q, d))
    ensures Behind(q, hits, key) == []
  {
    if hits != [] {
      BehindNone(q, hits[..|hits| - 1], key);
    }
  }

  lemma {:induction false} BehindAll(q: Query, hits: seq<Doc>, key: SortKey)
    requires forall d | d in hits :: KeyLess(key, KeyOf(q, d))
    ensures Behind(q, hits, key) == hits
  {
    if hits != [] {
      BehindAll(q, hits[..|hits| - 1], key);
    }
  }

  /** A hit is not behind its own key, so every full page brings the end nearer. */
  lemma BehindIsShorter(q: Query, hits: seq<Doc>, i: nat)
    requires i < |hits|
    ensures |Behind(q, hits, KeyOf(q, hits[i]))| < |hits|
  {
    var key := KeyOf(q, hits[i]);
    assert hits == hits[..i] + ([hits[i]] + hits[i + 1..]);
    BehindSplits(q, hits[..i], [hits[i]] + hits[i + 1..], key);
    BehindSplits(q, [hits[i]], hits[i + 1..], key);
    KeysAreTotallyOrdered(q, hits[i], hits[i]);
    BehindNone(q, [hits[i]], key);
    BehindIsNoLonger(q, hits[..i], key);
    BehindIsNoLonger(q, hits[i + 1..], key);
  }

  /** Among hits in strict order, behind the i-th key are exactly the hits after the i-th. */
  lemma BehindIsSuffix(q: Query, hits: seq<Doc>, i: nat)
    requires StrictlySorted(q, hits) && i < |hits|
    ensures Behind(q, hits, KeyOf(q, hits[i])) == hits[i + 1..]
  {
    var front, rest := hits[..i + 1], hits[i + 1..];
    FrontIsNotBehind(q, hits, i);
    RestIsBehind(q, hits, i);
    BehindSplits(q, front, rest, KeyOf(q, hits[i]));
    assert hits == front + rest && [] + rest == rest;
  }

  lemma FrontIsNotBehind(q: Query, hits: seq<Doc>, i: nat)
    requires StrictlySorted(q, hits) && i < |hits|
    ensures Behind(q, hits[..i + 1], KeyOf(q, hits[i])) == []
  {
    StrictIsSorted(q, hits);
    NoneBehind(q, hits, i + 1, KeyOf(q, hits[i]));
  }

  lemma RestIsBehind(q: Query, hits: seq<Doc>, i: nat)
    requires StrictlySorted(q, hits) && i < |hits|
    ensures Behind(q, hits[i + 1..], KeyOf(q, hits[i])) == hits[i + 1..]
  {
    var rest := hits[i + 1..];
    forall d | d in rest
      ensures KeyLess(KeyOf(q, hits[i]), KeyOf(q, d))
    {
      var k :| 0 <= k < |rest| && rest[k] == d;
      assert Before(q, hits[i], hits[i + 1 + k]);
    }
    BehindAll(q, rest, KeyOf(q, hits[i]));
  }

  lemma StrictIsSorted(q: Query, hits: seq<Doc>)
    requires StrictlySorted(q, hits)
    ensures Sorted(q, hits)
  {
    forall i, j | 0 <= i < j < |hits|
      ensures !Before(q, hits[j], hits[i])
    {
      KeysAreTotallyOrdered(q, hits[i], hits[j]);
    }
  }

  lemma {:induction false} PagedIsAll(q: Query, ahead: seq<Doc>, size: nat)
    requires size >= 1 && StrictlySorted(q, ahead)
    ensures Paged(q, ahead, size) == ahead
    decreases |ahead|
  {
    if |ahead| >= size {
      BehindIsSuffix(q, ahead, size - 1);
      PagedIsAll(q, ahead[size..], size);
      assert ahead == ahead[..size] + ahead[size..];
    }
  }

  /** None of the first n hits is behind a key that the n-th does not exceed. */
  lemma NoneBehind(q: Query, hits: seq<Doc>, n: nat, key: SortKey)
    requires Sorted(q, hits) && 1 <= n <= |hits| && KeyOf(q, hits[n - 1]) == key
    ensures Behind(q, hits[..n], key) == [] && |Behind(q, hits, key)| <= |hits| - n
  {
    var front, rest := hits[..n], hits[n..];
    forall d | d in front
      ensures !KeyLess(key, KeyOf(q, d))
    {
      var k :| 0 <= k < n && hits[k] == d;
      KeysAreTotallyOrdered(q, d, hits[n - 1]);
      assert k == n - 1 || !Before(q, hits[n - 1], d);
    }
    BehindNone(q, front, key);
    BehindSplits(q, front, rest, key);
    BehindIsNoLonger(q, rest, key);
    assert hits == front + rest;
  }

  lemma {:induction false} BehindIsSorted(q: Query, hits: seq<Doc>, key: SortKey)
    requires Sorted(q, hits)
    ensures Sorted(q, Behind(q, hits, key)) && forall d | d in Behind(q, hits, key) :: d in hits
  {
    if hits != [] {
      var front, last := hits[..|hits| - 1], hits[|hits| - 1];
      BehindIsSorted(q, front, key);
      forall d | d in Behind(q, front, key)
        ensures !Before(q, last, d)
      {
        var i :| 0 <= i < |front| && front[i] == d;
        assert hits[i] == d;
      }
    }
  }

  lemma {:induction false} PagedIsNoLonger(q: Query, ahead: seq<Doc>, size: nat)
    requires size >= 1 && Sorted(q, ahead)
    ensures |Paged(q, ahead, size)| <= |ahead|
    decreases |ahead|
  {
    if |ahead| >= size {
      var key := KeyOf(q, ahead[size - 1]);
      NoneBehind(q, ahead, size, key);
      BehindIsSorted(q, ahead, key);
      PagedIsNoLonger(q, Behind(q, ahead, key), size);
    }
  }

  /** When a page ends between two hits with the same key, a hit is lost. */
  lemma PageEndLosesEqualKey(q: Query, hits: seq<Doc>, i: nat)
    requires Sorted(q, hits) && i + 1 < |hits| && KeyOf(q, hits[i]) == KeyOf(q, hits[i + 1])
    ensures |Paged(q, hits, i + 1)| < |hits|
  {
    var key := KeyOf(q, hits[i]);
    NoneBehind(q, hits, i + 2, key);
    BehindIsSorted(q, hits, key);
    PagedIsNoLonger(q, Behind(q, hits, key), i + 1);
  }

  /** Equal keys stand next to each other. */
  lemma EqualKeysAreNeighbours(q: Query, hits: seq<Doc>, i: nat, j: nat)
    requires Sorted(q, hits) && i < j < |hits| && KeyOf(q, hits[i]) == KeyOf(q, hits[j])
    ensures KeyOf(q, hits[i]) == KeyOf(q, hits[i + 1])
  {
    KeysAreTotallyOrdered(q, hits[i], hits[i + 1]);
    if Before(q, hits[i], hits[i + 1]) {
      assert Before(q, hits[j], hits[i + 1]);
    }
  }

  /** Paging gives the whole sorted result, whatever the page size, if and only if the sort keys
      tell all hits apart. */
  lemma PagingNeedsDistinctKeys(q: Query, hits: seq<Doc>)
    requires Sorted(q, hits)
    ensures (forall size | size >= 1 :: Paged(q, hits, size) == hits) <==> DistinctKeys(q, hits)
  {
    if DistinctKeys(q, hits) {
      SortedIsStrict(q, hits);
      forall size | size >= 1
        ensures Paged(q, hits, size) == hits
      {
        PagedIsAll(q, hits, size);
      }
    } else {
      var i, j :| 0 <= i < j < |hits| && KeyOf(q, hits[i]) == KeyOf(q, hits[j]);
      EqualKeysAreNeighbours(q, hits, i, j);
      PageEndLosesEqualKey(q, hits, i);
    }
  }

  /** How many hits so many full pages hold. */
  function Filled(size: nat, pages: nat): nat {
    if pages == 0 then 0 else Filled(size, pages - 1) + size
  }

  /** Asks for page after page until one is not full. */
  method SearchPaged(q: Query, docs: seq<Doc>, size: nat, failing: set<nat>)
    returns (ok: bool, out: seq<Doc>, requests: nat)
    requires size >= 1 && UniqueIds(docs)
    ensures ok ==> out == Hits(q, docs)
    ensures ok ==> requests >= 1 && Filled(size, requests - 1) <= |out| < Filled(size, requests)
    ensures ok <==> forall k | 0 <= k < requests :: k !in failing
  {
    ghost var hits := Hits(q, docs);
    out, requests := [], 0;
    var after := FromStart;
    while true
      invariant |out| == Filled(size, requests) && CollectedUpTo(q, hits, out, after)
      invariant forall k | 0 <= k < requests :: k !in failing
      decreases |hits| - |out|
    {
      if requests in failing {
        return false, out, requests + 1;
      }
      var page := Page(q, Hits(q, docs), after, size);
      AheadIsTheRest(q, docs, out, after);
      PageIsNext(q, hits, out, after, size);
      out := out + page;
      requests := requests + 1;
      if |page| < size {
        return true, out, requests;
      }
      after := Key(KeyOf(q, page[|page| - 1]));
    }
  }

  /** The store's query for the exporter: no sources, no request. */
  method GetLogsAfter(docs: seq<Doc>, sources: seq<nat>, bound: Position, to: nat, failing: set<nat>) returns (ok: bool, out: seq<Doc>)
    requires UniqueIds(docs)
    ensures ok ==> out == Hits(LogsAfter(sources, bound, to), docs)
    ensures sources == [] ==> ok
  {
    if |sources| == 0 {
      NothingMatches(LogsAfter(sources, bound, to), docs);
      return true, [];
    }
    var requests;
    ok, out, requests := SearchPaged(LogsAfter(sources, bound, to), docs, MAX_HITS, failing);
  }

  lemma {:induction false} NothingMatches(q: Query, docs: seq<Doc>)
    requires forall d | d in docs :: !Selected(q, d)
    ensures Matching(q, docs) == []
  {
    if docs != [] {
      NothingMatches(q, docs[..|docs| - 1]);
    }
  }

  /** A first stretch of the hits has been collected and the next page starts right behind it. */
  ghost predicate CollectedUpTo(q: Query, hits: seq<Doc>, out: seq<Doc>, after: After) {
    && out <= hits
    && (if out == [] then after == FromStart else after == Key(KeyOf(q, out[|out| - 1])))
  }

  function Ahead(q: Query, hits: seq<Doc>, after: After): seq<Doc> {
    if after.FromStart? then hits else Behind(q, hits, after.key)
  }

  lemma AheadIsTheRest(q: Query, docs: seq<Doc>, out: seq<Doc>, after: After)
    requires UniqueIds(docs) && CollectedUpTo(q, Hits(q, docs), out, after)
    ensures out + Ahead(q, Hits(q, docs), after) == Hits(q, docs)
  {
    if out != [] {
      HitsBehind(q, docs, |out|);
      assert out == Hits(q, docs)[..|out|];
    }
  }

  lemma HitsBehind(q: Query, docs: seq<Doc>, n: nat)
    requires UniqueIds(docs) && 1 <= n <= |Hits(q, docs)|
    ensures Behind(q, Hits(q, docs), KeyOf(q, Hits(q, docs)[n - 1])) == Hits(q, docs)[n..]
  {
    HitsAreStrict(q, docs);
    BehindIsSuffix(q, Hits(q, docs), n - 1);
  }

  lemma HitsAreStrict(q: Query, docs: seq<Doc>)
    requires UniqueIds(docs)
    ensures StrictlySorted(q, Hits(q, docs))
  {
    UniqueIdsGiveDistinctKeys(q, docs);
    ArrangeKeeps(q, Matching(q, docs));
    SortedIsStrict(q, Hits(q, docs));
  }

  /** The next page is the next stretch of the result, and a short one is the last. */
  lemma PageIsNext(q: Query, hits: seq<Doc>, out: seq<Doc>, after: After, size: nat)
    requires size >= 1 && out + Ahead(q, hits, after) == hits
    ensures var page := Page(q, hits, after, size);
            && |page| <= size && out + page <= hits
            && (|page| < size ==> out + page == hits)
            && (page != [] ==> (out + page)[|out + page| - 1] == page[|page| - 1])
  {
    NextStretch(out, Ahead(q, hits, after), size);
  }

  lemma NextStretch(out: seq<Doc>, rest: seq<Doc>, size: nat)
    ensures out + Take(rest, size) <= out + rest
    ensures |Take(rest, size)| < size ==> out + Take(rest, size) == out + rest
  {
    if |rest| > size {
      assert rest == rest[..size] + rest[size..];
      assert out + rest == (out + rest[..size]) + rest[size..];
    }
  }
}
