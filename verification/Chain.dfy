/** The chain as an indexer sees it: an immutable, ordered sequence of logs, and the answers of
    a node to filtered range queries over it. */
module Chain {
  import opened Positions
  import opened Numerals
  import opened Texts

  /** An event as one ABI decodes it: its name and its arguments by name. */
  datatype Decoded = Decoded(event: string, args: map<string, string>)

  datatype Log = Log(
    id: string,
    txChain: nat,
    block: nat,
    index: nat,
    address: string,
    topics: seq<string>,
    decodings: map<nat, Decoded>)
  {
    function At(): Position {
      Position(block, index)
    }

    /** What the ABI with this id makes of the log; an ABI that does not know it names no event. */
    function DecodedBy(abi: nat): Decoded {
      if abi in decodings then decodings[abi] else Decoded("", map[])
    }
  }

  /** Which logs a source asks for. An empty topic filter is a wildcard at its position. */
  datatype Filter =
    | ByAddress(address: string)
    | ByTopics(topic0: string, filters: seq<string>)
    | Everything

  predicate Matches(f: Filter, l: Log) {
    match f
    case ByAddress(a) => l.address == a
    case ByTopics(t, fs) =>
      && |l.topics| > |fs|
      && l.topics[0] == t
      && forall i | 0 <= i < |fs| :: fs[i] == "" || l.topics[i + 1] == fs[i]
    case Everything => true
  }

  // ---- filters of topics -------------------------------------------------------------------

  /** Without a filter at any of n positions, the signature and so many further topics are asked
      for. */
  lemma AllWildcards(t: string, n: nat, l: Log)
    ensures Matches(ByTopics(t, seq(n, _ => "")), l) <==> |l.topics| > n && l.topics[0] == t
  {
  }

  /** A filter at one position asks for that topic there and changes nothing else. */
  lemma FilterNarrows(t: string, fs: seq<string>, i: nat, x: string, l: Log)
    requires i < |fs| && x != ""
    ensures Matches(ByTopics(t, fs[i := x]), l) <==>
              Matches(ByTopics(t, fs[i := ""]), l) && |l.topics| > |fs| && l.topics[i + 1] == x
  {
    var gs, hs := fs[i := x], fs[i := ""];
    assert gs[i] == x && hs[i] == "";
    if Matches(ByTopics(t, hs), l) && l.topics[i + 1] == x {
      forall k | 0 <= k < |gs|
        ensures gs[k] == "" || l.topics[k + 1] == gs[k]
      {
        assert k != i ==> gs[k] == hs[k];
      }
    }
    if Matches(ByTopics(t, gs), l) {
      forall k | 0 <= k < |hs|
        ensures hs[k] == "" || l.topics[k + 1] == hs[k]
      {
        assert k != i ==> gs[k] == hs[k];
      }
    }
  }

  /** Of the logs of one event with two indexed arguments, a filter behind a wildcard takes those
      whose second argument it names, whatever the first is. */
  lemma SecondArgument(t: string, first: string, second: string, wanted: string, l: Log)
    requires l.topics == [t, first, second] && wanted != ""
    ensures Matches(ByTopics(t, ["", wanted]), l) <==> second == wanted
  {
    FilterNarrows(t, ["", ""], 1, wanted, l);
    assert ["", ""][1 := wanted] == ["", wanted] && ["", ""][1 := ""] == ["", ""];
    assert ["", ""] == seq(2, _ => "");
    AllWildcards(t, 2, l);
  }

  ghost predicate Ordered(logs: seq<Log>) {
    forall i, j | 0 <= i < j < |logs| :: Less(logs[i].At(), logs[j].At())
  }

  lemma PlaceOf(logs: seq<Log>, l: Log) returns (i: nat)
    requires l in logs
    ensures i < |logs| && logs[i] == l
  {
    i :| 0 <= i < |logs| && logs[i] == l;
  }

  /** Two logs of a chain have different positions. */
  lemma OneOrder(chain: seq<Log>, l: Log, m: Log)
    requires Ordered(chain) && l in chain && m in chain
    ensures Less(l.At(), m.At()) || Less(m.At(), l.At()) || l == m
  {
    var i := PlaceOf(chain, l);
    var j := PlaceOf(chain, m);
  }

  /** The id a log is given when it is indexed. */
  function LogId(txChain: nat, block: nat, index: nat): string {
    Join([Digits(txChain, 10), Digits(block, 10), Digits(index, 10)], ':')
  }

  /** Logs come in position order, one per position, with blocks and indices in the ranges that
      the indexer's integer types hold. */
  ghost predicate IsChain(logs: seq<Log>) {
    && Ordered(logs)
    && forall l | l in logs :: l.block < MAX_UINT64 && l.index < TWO63 && l.id == LogId(l.txChain, l.block, l.index)
  }

  lemma IdParts(l: Log)
    ensures forall p | p in [Digits(l.txChain, 10), Digits(l.block, 10), Digits(l.index, 10)] :: ':' !in p
  {
    forall n: nat
      ensures ':' !in Digits(n, 10)
    {
      assert AllDigits(Digits(n, 10), 10);
      assert !IsDigit(':', 10);
    }
  }

  /** Ids determine the position of a log. */
  lemma LogIdInjective(a: Log, b: Log)
    requires a.id == b.id == LogId(a.txChain, a.block, a.index) == LogId(b.txChain, b.block, b.index)
    ensures a.At() == b.At()
  {
    IdParts(a);
    IdParts(b);
    var p := [Digits(a.txChain, 10), Digits(a.block, 10), Digits(a.index, 10)];
    var q := [Digits(b.txChain, 10), Digits(b.block, 10), Digits(b.index, 10)];
    JoinInjective(p, q, ':');
    assert p[1] == q[1] && p[2] == q[2];
    ValueOfDigits(a.block, 10);
    ValueOfDigits(b.block, 10);
    ValueOfDigits(a.index, 10);
    ValueOfDigits(b.index, 10);
  }

  /** The node's answer for blocks lo to hi, both included. */
  function Fetch(chain: seq<Log>, f: Filter, lo: nat, hi: nat): seq<Log> {
    if chain == [] then []
    else
      var rest := Fetch(chain[..|chain| - 1], f, lo, hi);
      var last := chain[|chain| - 1];
      if Matches(f, last) && lo <= last.block <= hi then rest + [last] else rest
  }

  lemma {:induction false} FetchMembers(chain: seq<Log>, f: Filter, lo: nat, hi: nat)
    ensures forall l :: l in Fetch(chain, f, lo, hi) <==> l in chain && Matches(f, l) && lo <= l.block <= hi
  {
    if chain != [] {
      FetchMembers(chain[..|chain| - 1], f, lo, hi);
      assert chain == chain[..|chain| - 1] + [chain[|chain| - 1]];
    }
  }

  lemma {:induction false} FetchOrdered(chain: seq<Log>, f: Filter, lo: nat, hi: nat)
    requires Ordered(chain)
    ensures Ordered(Fetch(chain, f, lo, hi))
  {
    if chain != [] {
      var front := chain[..|chain| - 1];
      FetchOrdered(front, f, lo, hi);
      FetchMembers(front, f, lo, hi);
      var r := Fetch(front, f, lo, hi);
      forall i | 0 <= i < |r|
        ensures Less(r[i].At(), chain[|chain| - 1].At())
      {
        assert r[i] in front;
        var k :| 0 <= k < |front| && front[k] == r[i];
      }
    }
  }

  /** Ranges that select the same blocks out of the matching logs have the same answer. */
  lemma {:induction false} FetchSame(chain: seq<Log>, f: Filter, lo: nat, hi: nat, lo': nat, hi': nat)
    requires forall l | l in chain && Matches(f, l) :: lo <= l.block <= hi <==> lo' <= l.block <= hi'
    ensures Fetch(chain, f, lo, hi) == Fetch(chain, f, lo', hi')
  {
    if chain != [] {
      assert chain[|chain| - 1] in chain;
      FetchSame(chain[..|chain| - 1], f, lo, hi, lo', hi');
    }
  }

  lemma FetchBeyond(chain: seq<Log>, f: Filter, lo: nat, hi: nat)
    requires forall l | l in chain :: l.block < lo
    ensures Fetch(chain, f, lo, hi) == []
  {
    if chain != [] {
      assert chain[|chain| - 1] in chain;
      FetchBeyond(chain[..|chain| - 1], f, lo, hi);
    }
  }

  /** Consecutive windows concatenate to the answer for the whole range. */
  lemma {:induction false} FetchSplits(chain: seq<Log>, f: Filter, lo: nat, mid: nat, hi: nat)
    requires Ordered(chain) && lo <= mid + 1 && mid <= hi
    ensures Fetch(chain, f, lo, mid) + Fetch(chain, f, mid + 1, hi) == Fetch(chain, f, lo, hi)
  {
    if chain != [] {
      var front, last := chain[..|chain| - 1], chain[|chain| - 1];
      FetchSplits(front, f, lo, mid, hi);
      if Matches(f, last) && lo <= last.block <= mid {
        forall l | l in front
          ensures l.block <= last.block
        {
          var k :| 0 <= k < |front| && front[k] == l;
          assert Less(chain[k].At(), last.At());
        }
        FetchBeyond(front, f, mid + 1, hi);
      }
    }
  }

  /** A non-empty answer is the answer for the tightest range around its own logs. */
  lemma FetchTight(chain: seq<Log>, f: Filter, lo: nat, hi: nat)
    requires Ordered(chain)
    requires Fetch(chain, f, lo, hi) != []
    ensures var r := Fetch(chain, f, lo, hi);
            lo <= r[0].block <= r[|r| - 1].block <= hi && r == Fetch(chain, f, r[0].block, r[|r| - 1].block)
  {
    var r := Fetch(chain, f, lo, hi);
    FetchMembers(chain, f, lo, hi);
    FetchOrdered(chain, f, lo, hi);
    assert r[0] in r && r[|r| - 1] in r;
    forall l | l in chain && Matches(f, l)
      ensures lo <= l.block <= hi <==> r[0].block <= l.block <= r[|r| - 1].block
    {
      if lo <= l.block <= hi {
        assert l in r;
        var k :| 0 <= k < |r| && r[k] == l;
        assert k == 0 || Less(r[0].At(), l.At());
        assert k == |r| - 1 || Less(l.At(), r[|r| - 1].At());
      }
    }
    FetchSame(chain, f, lo, hi, r[0].block, r[|r| - 1].block);
  }
}
