/** String comparison, trimming and case mapping over ASCII, and joining with a separator. */
module Texts {

  /** Lexicographic order, a proper prefix first. */
  predicate StrLess(a: string, b: string) {
    if a == [] then b != []
    else if b == [] then false
    else a[0] < b[0] || (a[0] == b[0] && StrLess(a[1..], b[1..]))
  }

  lemma {:induction false} StrLessTrichotomy(a: string, b: string)
    ensures StrLess(a, b) || a == b || StrLess(b, a)
    ensures !(StrLess(a, b) && StrLess(b, a))
    ensures a == b ==> !StrLess(a, b)
  {
    if a != [] && b != [] {
      StrLessTrichotomy(a[1..], b[1..]);
      assert a == [a[0]] + a[1..] && b == [b[0]] + b[1..];
    }
  }

  lemma {:induction false} StrLessTransitive(a: string, b: string, c: string)
    requires StrLess(a, b) && StrLess(b, c)
    ensures StrLess(a, c)
  {
    if a != [] && a[0] == b[0] == c[0] {
      StrLessTransitive(a[1..], b[1..], c[1..]);
    }
  }

  predicate IsSpace(c: char) {
    c == ' ' || '\t' <= c <= '\r'
  }

  function TrimLeft(s: string): (r: string)
    ensures |r| <= |s|
    ensures r != [] ==> r[|r| - 1] == s[|s| - 1]
    ensures r != [] ==> !IsSpace(r[0])
  {
    if s != [] && IsSpace(s[0]) then TrimLeft(s[1..]) else s
  }

  function TrimRight(s: string): (r: string)
    ensures |r| <= |s|
    ensures r != [] ==> r[0] == s[0]
    ensures r != [] ==> !IsSpace(r[|r| - 1])
  {
    if s != [] && IsSpace(s[|s| - 1]) then TrimRight(s[..|s| - 1]) else s
  }

  function Trim(s: string): (r: string)
    ensures |r| <= |s|
    ensures r != [] ==> !IsSpace(r[0]) && !IsSpace(r[|r| - 1])
  {
    TrimRight(TrimLeft(s))
  }

  lemma TrimOfTight(s: string)
    requires s == [] || (!IsSpace(s[0]) && !IsSpace(s[|s| - 1]))
    ensures Trim(s) == s
  {
  }

  lemma TrimOfSameLength(s: string)
    requires |Trim(s)| == |s|
    ensures Trim(s) == s
  {
  }

  /** Blanks, tabs and ends of lines around a text are cut off. */
  lemma {:induction false} BlanksAreCut(before: string, s: string, after: string)
    requires s != "" && !IsSpace(s[0]) && !IsSpace(s[|s| - 1])
    requires forall c | c in before + after :: c in " \t\n\r"
    ensures Trim(before + s + after) == s
    decreases |before| + |after|
  {
    var t := before + s + after;
    if before != "" {
      assert t[0] == before[0] && t[0] in before + after && t[1..] == before[1..] + s + after;
      BlanksAreCut(before[1..], s, after);
    } else if after != "" {
      var n := |after| - 1;
      assert t[0] == s[0] && t[|t| - 1] == after[n] && after[n] in before + after;
      var shorter := before + s + after[..n];
      assert t[..|t| - 1] == shorter && shorter[0] == s[0];
      assert TrimLeft(t) == t && TrimLeft(shorter) == shorter;
      BlanksAreCut(before, s, after[..n]);
    } else {
      assert t == s;
    }
  }

  function LowerChar(c: char): char {
    if 'A' <= c <= 'Z' then c - 'A' + 'a' else c
  }

  function UpperChar(c: char): char {
    if 'a' <= c <= 'z' then c - 'a' + 'A' else c
  }

  function Lower(s: string): string {
    seq(|s|, i requires 0 <= i < |s| => LowerChar(s[i]))
  }

  function Upper(s: string): string {
    seq(|s|, i requires 0 <= i < |s| => UpperChar(s[i]))
  }

  lemma CasesAgree(s: string)
    ensures Upper(Lower(s)) == Upper(s) && Lower(Upper(s)) == Lower(s)
    ensures Lower(Lower(s)) == Lower(s) && Upper(Upper(s)) == Upper(s)
  {
  }

  predicate Contains(s: string, t: string) {
    t <= s || (s != [] && Contains(s[1..], t))
  }

  /** A text contains another if and only if it can be cut so that the other is in between. */
  lemma {:induction false} ContainsMeans(s: string, t: string)
    ensures Contains(s, t) <==> exists p, q :: s == p + t + q
  {
    if t <= s {
      assert s == [] + t + s[|t|..];
    } else if s != [] {
      ContainsMeans(s[1..], t);
      if Contains(s[1..], t) {
        var p, q :| s[1..] == p + t + q;
        assert s == ([s[0]] + p) + t + q;
      }
      forall p, q | s == p + t + q
        ensures Contains(s[1..], t)
      {
        CutBehindStart(s, p, t, q);
        assert s[1..] == p[1..] + t + q;
      }
    } else {
      forall p, q
        ensures s != p + t + q
      {
        assert |p + t + q| >= |t| > 0;
      }
    }
  }

  lemma CutBehindStart(s: string, p: string, t: string, q: string)
    requires s == p + t + q
    ensures t <= s || p != []
  {
    assert s[..|p| + |t|] == p + t;
  }

  lemma StrLessPrefix(p: string, t: string)
    requires t != []
    ensures StrLess(p, p + t)
    decreases p
  {
    if p != [] {
      StrLessPrefix(p[1..], t);
      assert (p + t)[1..] == p[1..] + t;
    }
  }

  lemma StrLessAtFirstDifference(p: string, c: char, d: char, s: string, t: string)
    requires c < d
    ensures StrLess(p + [c] + s, p + [d] + t)
    decreases p
  {
    if p != [] {
      StrLessAtFirstDifference(p[1..], c, d, s, t);
      assert (p + [c] + s)[1..] == p[1..] + [c] + s && (p + [d] + t)[1..] == p[1..] + [d] + t;
    }
  }

  /** The parts with the separator between each two of them. */
  function Join(parts: seq<string>, sep: char): string {
    if parts == [] then ""
    else if |parts| == 1 then parts[0]
    else parts[0] + [sep] + Join(parts[1..], sep)
  }

  /** The maximal stretches between separators; the empty string has one empty stretch. */
  function Split(s: string, sep: char): (parts: seq<string>)
    ensures |parts| >= 1
  {
    if s == [] then [""]
    else
      var rest := Split(s[1..], sep);
      if s[0] == sep then [""] + rest else [[s[0]] + rest[0]] + rest[1..]
  }

  lemma {:induction false} SplitFirst(part: string, tail: string, sep: char)
    requires sep !in part
    ensures Split(part + [sep] + tail, sep) == [part] + Split(tail, sep)
    ensures Split(part, sep) == [part]
  {
    var s := part + [sep] + tail;
    if part == [] {
      assert s[1..] == tail;
    } else {
      SplitFirst(part[1..], tail, sep);
      assert s[1..] == part[1..] + [sep] + tail;
      assert [part[0]] + part[1..] == part;
    }
  }

  /** Splitting undoes joining when no part holds the separator. */
  lemma {:induction false} SplitOfJoin(parts: seq<string>, sep: char)
    requires parts != [] && forall p | p in parts :: sep !in p
    ensures Split(Join(parts, sep), sep) == parts
  {
    assert parts[0] in parts;
    SplitFirst(parts[0], [], sep);
    if |parts| > 1 {
      SplitOfJoin(parts[1..], sep);
      SplitFirst(parts[0], Join(parts[1..], sep), sep);
    }
  }

  /** So two joined lists are equal only if the lists are. */
  lemma JoinInjective(a: seq<string>, b: seq<string>, sep: char)
    requires a != [] && forall p | p in a :: sep !in p
    requires b != [] && forall p | p in b :: sep !in p
    requires Join(a, sep) == Join(b, sep)
    ensures a == b
  {
    SplitOfJoin(a, sep);
    SplitOfJoin(b, sep);
  }
}
