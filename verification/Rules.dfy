/** Factory creation rules as trees, and when one of them fires on a log. */
module Rules {
  import opened Texts
  import opened Numerals
  import Chain

  const CONTRACT := "CONTRACT"
  const FACTORY := "FACTORY"

  datatype Option<T> = None | Some(value: T)

  datatype Condition = Condition(arg: string, operator: string, value: string)

  /** A rule that spawns factories carries the rules of those factories. */
  datatype Rule = Rule(
    event: string,
    addressArg: string,
    childType: string,
    abi: nat,
    conditions: seq<Condition>,
    children: seq<Rule>)

  predicate IsDecimal(s: string) {
    s != [] && AllDigits(s, 10)
  }

  /** A base-10 integer with an optional sign, as arbitrary-precision parsing accepts it. */
  function ParseInteger(s: string): Option<int> {
    if IsDecimal(s) then Some(Value(s, 10))
    else if s != [] && s[0] == '+' && IsDecimal(s[1..]) then Some(Value(s[1..], 10))
    else if s != [] && s[0] == '-' && IsDecimal(s[1..]) then Some(0 - Value(s[1..], 10))
    else None
  }

  /** The comparison of two values given what they parse to and how they read as text. */
  predicate Compare(n: Option<int>, m: Option<int>, a: string, e: string, operator: string) {
    if n.Some? && m.Some? && operator == "eq" then n.value == m.value
    else if n.Some? && m.Some? && operator == "neq" then n.value != m.value
    else if n.Some? && m.Some? && operator == "gt" then n.value > m.value
    else if n.Some? && m.Some? && operator == "gte" then n.value >= m.value
    else if n.Some? && m.Some? && operator == "lt" then n.value < m.value
    else if n.Some? && m.Some? && operator == "lte" then n.value <= m.value
    else if operator == "eq" then a == e
    else if operator == "neq" then a != e
    else if operator == "contains" then Contains(a, e)
    else if operator == "gt" then StrLess(e, a)
    else if operator == "gte" then a == e || StrLess(e, a)
    else if operator == "lt" then StrLess(a, e)
    else if operator == "lte" then a == e || StrLess(a, e)
    else false
  }

  /** Compares numerically when both sides are integers and the operator has a numeric meaning,
      and otherwise as trimmed strings without regard to case. */
  predicate EvalCondition(actual: string, operator: string, expected: string) {
    Compare(ParseInteger(Trim(actual)), ParseInteger(Trim(expected)), Lower(Trim(actual)), Lower(Trim(expected)), operator)
  }

  lemma CompareIsTotal(n: Option<int>, m: Option<int>, a: string, e: string)
    ensures Compare(n, m, a, e, "eq") || Compare(n, m, a, e, "lt") || Compare(n, m, a, e, "gt")
    ensures !(Compare(n, m, a, e, "lt") && Compare(n, m, a, e, "gt"))
    ensures Compare(n, m, a, e, "eq") ==> !Compare(n, m, a, e, "lt") && !Compare(n, m, a, e, "gt")
    ensures Compare(n, m, a, e, "neq") <==> !Compare(n, m, a, e, "eq")
    ensures Compare(n, m, a, e, "gte") <==> !Compare(n, m, a, e, "lt")
    ensures Compare(n, m, a, e, "lte") <==> !Compare(n, m, a, e, "gt")
    ensures Compare(n, m, a, e, "lt") <==> Compare(m, n, e, a, "gt")
  {
    StrLessTrichotomy(a, e);
  }

  /** Whatever the values, the six ordering operators describe one total comparison: exactly
      one of eq, lt and gt holds, the others are their negations, and swapping the two sides
      swaps the direction. */
  lemma OperatorsDescribeOneComparison(a: string, v: string)
    ensures EvalCondition(a, "eq", v) || EvalCondition(a, "lt", v) || EvalCondition(a, "gt", v)
    ensures !(EvalCondition(a, "lt", v) && EvalCondition(a, "gt", v))
    ensures EvalCondition(a, "eq", v) ==> !EvalCondition(a, "lt", v) && !EvalCondition(a, "gt", v)
    ensures EvalCondition(a, "neq", v) <==> !EvalCondition(a, "eq", v)
    ensures EvalCondition(a, "gte", v) <==> !EvalCondition(a, "lt", v)
    ensures EvalCondition(a, "lte", v) <==> !EvalCondition(a, "gt", v)
    ensures EvalCondition(a, "lt", v) <==> EvalCondition(v, "gt", a)
  {
    CompareIsTotal(ParseInteger(Trim(a)), ParseInteger(Trim(v)), Lower(Trim(a)), Lower(Trim(v)));
  }

  // ---- what the operators mean -------------------------------------------------------------

  /** How an integer is written. */
  function Spelt(n: int): string {
    if n < 0 then "-" + Digits(-n, 10) else Digits(n, 10)
  }

  lemma DigitsAreTight(n: nat)
    ensures var d := Digits(n, 10);
            IsDecimal(d) && !IsSpace(d[0]) && !IsSpace(d[|d| - 1]) && d[0] != '-' && d[0] != '+'
  {
    var d := Digits(n, 10);
    assert IsDigit(d[0], 10) && IsDigit(d[|d| - 1], 10);
  }

  lemma SpeltParses(n: int)
    ensures Trim(Spelt(n)) == Spelt(n) && ParseInteger(Spelt(n)) == Some(n)
  {
    var m := if n < 0 then -n else n;
    var s := Spelt(n);
    DigitsAreTight(m);
    ValueOfDigits(m, 10);
    if n < 0 {
      assert s[0] == '-' && s[1..] == Digits(m, 10) && !IsDigit('-', 10);
      assert s[|s| - 1] == Digits(m, 10)[|Digits(m, 10)| - 1];
    }
    TrimOfTight(s);
  }

  /** Integers of either sign are compared as numbers. */
  lemma IntegersCompareAsNumbers(n: int, m: int)
    ensures EvalCondition(Spelt(n), "eq", Spelt(m)) <==> n == m
    ensures EvalCondition(Spelt(n), "neq", Spelt(m)) <==> n != m
    ensures EvalCondition(Spelt(n), "lt", Spelt(m)) <==> n < m
    ensures EvalCondition(Spelt(n), "lte", Spelt(m)) <==> n <= m
    ensures EvalCondition(Spelt(n), "gt", Spelt(m)) <==> n > m
    ensures EvalCondition(Spelt(n), "gte", Spelt(m)) <==> n >= m
  {
    SpeltParses(n);
    SpeltParses(m);
  }

  /** An integer may also be written with a plus sign, with leading zeros and with white space
      around it. */
  lemma OtherSpellings(n: nat, zeros: nat)
    ensures ParseInteger(Zeros(zeros) + Digits(n, 10)) == Some(n)
    ensures ParseInteger("+" + (Zeros(zeros) + Digits(n, 10))) == Some(n)
    ensures ParseInteger("-" + (Zeros(zeros) + Digits(n, 10))) == Some(0 - n)
  {
    var s := Zeros(zeros) + Digits(n, 10);
    PaddedIsDecimal(n, zeros);
    hide Value, Zeros, Digits;
    assert ("+" + s)[1..] == s && ("-" + s)[1..] == s;
    assert ("+" + s)[0] == '+' && ("-" + s)[0] == '-';
    assert !IsDigit('+', 10) && !IsDigit('-', 10);
    assert !IsDecimal("+" + s) && !IsDecimal("-" + s);
    hide IsDecimal;
  }

  lemma PaddedIsDecimal(n: nat, zeros: nat)
    ensures IsDecimal(Zeros(zeros) + Digits(n, 10)) && Value(Zeros(zeros) + Digits(n, 10), 10) == n
  {
    ValueOfDigits(n, 10);
    ValueOfZerosThen(zeros, Digits(n, 10), 10);
    assert IsDigit('0', 10) by { assert DIGITS[..10][0] == '0'; }
    forall c | c in Zeros(zeros) + Digits(n, 10)
      ensures IsDigit(c, 10)
    {
      assert c in Zeros(zeros) || c in Digits(n, 10);
    }
  }

  /** Without white space at the ends and without upper-case letters. */
  predicate Plain(s: string) {
    && (s != [] ==> !IsSpace(s[0]) && !IsSpace(s[|s| - 1]))
    && forall c | c in s :: !('A' <= c <= 'Z')
  }

  lemma PlainStays(s: string)
    requires Plain(s)
    ensures Lower(Trim(s)) == s && Trim(s) == s
  {
    TrimOfTight(s);
    forall i | 0 <= i < |s|
      ensures Lower(s)[i] == s[i]
    {
      assert s[i] in s;
    }
  }

  /** What holds of two texts of which the first is less. */
  ghost predicate IsLess(a: string, b: string) {
    && EvalCondition(a, "lt", b) && EvalCondition(a, "lte", b) && EvalCondition(a, "neq", b)
    && !EvalCondition(a, "gt", b) && !EvalCondition(a, "gte", b) && !EvalCondition(a, "eq", b)
    && EvalCondition(b, "gt", a) && EvalCondition(b, "gte", a) && !EvalCondition(b, "lt", a)
  }

  lemma LessTexts(a: string, b: string)
    requires Plain(a) && Plain(b) && (ParseInteger(a).None? || ParseInteger(b).None?) && StrLess(a, b)
    ensures IsLess(a, b)
  {
    PlainStays(a);
    PlainStays(b);
    StrLessTrichotomy(a, b);
  }

  /** When not both are integers, a text is less than every longer one that begins with it. */
  lemma LongerTextsAreGreater(a: string, more: string)
    requires more != [] && Plain(a) && Plain(a + more) && (ParseInteger(a).None? || ParseInteger(a + more).None?)
    ensures IsLess(a, a + more)
  {
    StrLessPrefix(a, more);
    LessTexts(a, a + more);
  }

  /** And otherwise the first character in which they differ decides. */
  lemma FirstDifferenceDecides(p: string, c: char, d: char, s: string, t: string)
    requires c < d && Plain(p + [c] + s) && Plain(p + [d] + t)
    requires ParseInteger(p + [c] + s).None? || ParseInteger(p + [d] + t).None?
    ensures IsLess(p + [c] + s, p + [d] + t)
  {
    StrLessAtFirstDifference(p, c, d, s, t);
    LessTexts(p + [c] + s, p + [d] + t);
  }

  /** Texts that differ in the case of letters and in white space around them are equal. */
  lemma CaseIsIgnored(a: string, b: string)
    requires Lower(Trim(a)) == Lower(Trim(b))
    ensures EvalCondition(a, "eq", b) && !EvalCondition(a, "neq", b)
  {
    var x, y := Trim(a), Trim(b);
    if ParseInteger(x).Some? && ParseInteger(y).Some? {
      IntegersHaveNoCase(x);
      IntegersHaveNoCase(y);
    }
  }

  lemma IntegersHaveNoCase(s: string)
    requires ParseInteger(s).Some?
    ensures Lower(s) == s
  {
    forall i | 0 <= i < |s|
      ensures LowerChar(s[i]) == s[i]
    {
      if i > 0 {
        assert s[1..][i - 1] == s[i];
      }
      assert s[i] == '+' || s[i] == '-' || IsDigit(s[i], 10);
    }
  }

  /** A text contains another, whatever their case, if and only if it can be cut so that the other
      is in between. This is so for integers too. */
  lemma ContainsAsText(a: string, e: string)
    ensures EvalCondition(a, "contains", e) <==> exists p, q :: Lower(Trim(a)) == p + Lower(Trim(e)) + q
  {
    ContainsMeans(Lower(Trim(a)), Lower(Trim(e)));
  }

  const OPERATORS: set<string> := {"eq", "neq", "gt", "gte", "lt", "lte", "contains"}

  /** No other operator ever holds. */
  lemma OtherOperatorsFail(a: string, operator: string, e: string)
    requires operator !in OPERATORS
    ensures !EvalCondition(a, operator, e)
  {
  }

  function Lookup(args: map<string, string>, key: string): string {
    if key in args then args[key] else ""
  }

  /** Every condition must hold; a missing argument compares as the empty string. */
  predicate ConditionsPass(conditions: seq<Condition>, args: map<string, string>) {
    forall c | c in conditions :: EvalCondition(Lookup(args, c.arg), c.operator, c.value)
  }

  /** The address of the contract whose deployment the log announces, if this rule sees one. */
  function Trigger(r: Rule, d: Chain.Decoded): Option<string> {
    if d.event == r.event && ConditionsPass(r.conditions, d.args) && r.addressArg in d.args
    then Some(d.args[r.addressArg])
    else None
  }

  /** Conditions restrict each other, and without any every deployment is seen. */
  lemma ConditionsConjoin(a: seq<Condition>, b: seq<Condition>, args: map<string, string>)
    ensures ConditionsPass([], args)
    ensures ConditionsPass(a + b, args) <==> ConditionsPass(a, args) && ConditionsPass(b, args)
  {
  }

  /** A rule with a threshold on a number sees exactly the deployments that reach it, also when the
      argument is not there, which is no number. */
  lemma ThresholdIsKept(r: Rule, d: Chain.Decoded, arg: string, least: int, n: int)
    requires r.conditions == [Condition(arg, "gte", Spelt(least))]
    requires d.event == r.event && r.addressArg in d.args
    ensures arg in d.args && d.args[arg] == Spelt(n) ==> Trigger(r, d) == if n >= least then Some(d.args[r.addressArg]) else None
    ensures arg !in d.args ==> Trigger(r, d) == None
  {
    assert r.conditions[0] in r.conditions;
    IntegersCompareAsNumbers(n, least);
    if arg !in d.args {
      SpeltParses(least);
      TrimOfTight("");
    }
  }

  /** A log that the source's ABI does not know announces no deployment to any rule. */
  lemma UnknownEventsDeployNothing(r: Rule, l: Chain.Log, abi: nat)
    ensures l.DecodedBy(abi).event == "" || abi in l.decodings
    ensures abi !in l.decodings ==> Trigger(r, l.DecodedBy(abi)) == None
  {
  }

  /** An unset child type means a plain contract. */
  function ChildTypeOf(r: Rule): string {
    if r.childType == "" then CONTRACT else r.childType
  }

  /** The rules a spawned source needs: those nested below the rule when it spawns a factory. */
  function Nested(r: Rule): seq<Rule> {
    if ChildTypeOf(r) == FACTORY then r.children else []
  }

  // ---- the first rules of a forest ---------------------------------------------------------

  /** How many rules a forest holds, nested ones included. */
  function RuleCount(forest: seq<Rule>): nat
    decreases forest
  {
    if forest == [] then 0 else 1 + RuleCount(forest[0].children) + RuleCount(forest[1..])
  }

  /** What a depth-first walk that ends after n rules has seen, each rule before its nested ones. */
  function FirstRules(forest: seq<Rule>, n: nat): seq<Rule>
    decreases forest
  {
    if forest == [] || n == 0 then []
    else
      var below := RuleCount(forest[0].children);
      [forest[0].(children := FirstRules(forest[0].children, n - 1))]
      + if below <= n - 1 then FirstRules(forest[1..], n - 1 - below) else []
  }

  /** The walk has seen everything if and only if it was not cut short. */
  lemma {:induction false} FirstRulesAreAll(forest: seq<Rule>, n: nat)
    ensures RuleCount(FirstRules(forest, n)) == if n < RuleCount(forest) then n else RuleCount(forest)
    ensures FirstRules(forest, n) == forest <==> RuleCount(forest) <= n
    decreases forest
  {
    if forest != [] && n > 0 {
      var r, below := forest[0], RuleCount(forest[0].children);
      FirstRulesAreAll(r.children, n - 1);
      var first := r.(children := FirstRules(r.children, n - 1));
      if below <= n - 1 {
        FirstRulesAreAll(forest[1..], n - 1 - below);
        assert FirstRules(forest, n)[1..] == FirstRules(forest[1..], n - 1 - below);
        assert first == r && forest == [r] + forest[1..];
      } else {
        assert FirstRules(forest, n) == [first] && [first][1..] == [];
      }
    }
  }
}
