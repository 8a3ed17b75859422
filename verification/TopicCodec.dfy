/** The editor's codec between indexed-argument values and 32-byte topics, and the text in which
    it keeps a list of topic filters. */
module TopicCodec {
  import opened Numerals
  import opened Texts
  import opened Rules

  const TWO256: nat := 0x1_0000_0000_0000_0000_0000_0000_0000_0000_0000_0000_0000_0000_0000_0000_0000_0000

  datatype Kind = Address | Integer | Bool | FixedBytes | Dynamic

  /** Which of the patterns an ABI type name matches. */
  function KindOf(t: string): Kind {
    if t == "address" then Address
    else if IsIntegerName(t) || (t != [] && t[0] == 'u' && IsIntegerName(t[1..])) then Integer
    else if t == "bool" then Bool
    else if "bytes" < t && AllDigits(t[5..], 10) then FixedBytes
    else Dynamic
  }

  predicate IsIntegerName(t: string) {
    "int" <= t && AllDigits(t[3..], 10)
  }

  // ---- the pieces of JavaScript it uses ----------------------------------------------------

  function WithoutPrefix(v: string): string {
    if HasPrefix(v) then v[2..] else v
  }

  predicate HasPrefix(v: string) {
    |v| >= 2 && v[0] == '0' && (v[1] == 'x' || v[1] == 'X')
  }

  /** Hexadecimal digits of either case. */
  predicate AllHex(s: string) {
    forall i | 0 <= i < |s| :: '0' <= s[i] <= '9' || 'a' <= s[i] <= 'f' || 'A' <= s[i] <= 'F'
  }

  lemma LowerHex(s: string)
    requires AllHex(s)
    ensures AllDigits(Lower(s), 16)
  {
    var l := Lower(s);
    forall c | c in l
      ensures IsDigit(c, 16)
    {
      var i :| 0 <= i < |l| && l[i] == c;
      HexDigit(c);
    }
  }

  lemma HexDigit(c: char)
    ensures IsDigit(c, 16) <==> '0' <= c <= '9' || 'a' <= c <= 'f'
  {
    if '0' <= c <= '9' {
      assert DIGITS[c as int - '0' as int] == c;
    }
    if 'a' <= c <= 'f' {
      assert DIGITS[c as int - 'a' as int + 10] == c;
    }
  }

  /** Numerals to base 2 and 8. */
  function RadixValue(s: string, base: nat): nat
    requires base == 2 || base == 8
  {
    if s == [] then 0
    else (if base == 2 then 2 * RadixValue(s[..|s| - 1], base) else 8 * RadixValue(s[..|s| - 1], base)) + DigitValue(s[|s| - 1])
  }

  predicate AllRadix(s: string, base: nat)
    requires base <= 10
  {
    forall c | c in s :: c in DIGITS[..base]
  }

  /** BigInt of a string without surrounding white space: decimal with an optional sign, or
      hexadecimal, octal or binary with a prefix and without a sign. */
  function ParseBigInt(v: string): Option<int> {
    if ParseInteger(v).Some? then ParseInteger(v)
    else if |v| > 2 && HasPrefix(v) && AllHex(v[2..]) then Some(Value(Lower(v[2..]), 16))
    else if |v| > 2 && v[0] == '0' && (v[1] == 'o' || v[1] == 'O') && AllRadix(v[2..], 8) then Some(RadixValue(v[2..], 8))
    else if |v| > 2 && v[0] == '0' && (v[1] == 'b' || v[1] == 'B') && AllRadix(v[2..], 2) then Some(RadixValue(v[2..], 2))
    else None
  }

  /** Appending a digit to an octal numeral shifts what it denotes by one place. */
  lemma OctalGrows(v: string, c: char)
    requires AllRadix(v, 8) && c in DIGITS[..8]
    ensures RadixValue("", 8) == 0 && RadixValue(v + [c], 8) == 8 * RadixValue(v, 8) + DigitValue(c)
    ensures ParseBigInt("0o" + (v + [c])) == Some(RadixValue(v + [c], 8))
  {
    assert (v + [c])[..|v|] == v;
    assert RadixValue(v + [c], 8) == 8 * RadixValue(v, 8) + DigitValue(c);
    assert AllRadix(v + [c], 8);
    PrefixIsNoInteger('o', v + [c]);
    hide RadixValue, AllRadix, DigitValue, ParseInteger, Value, Lower;
  }

  lemma BinaryGrows(v: string, c: char)
    requires AllRadix(v, 2) && c in DIGITS[..2]
    ensures RadixValue("", 2) == 0 && RadixValue(v + [c], 2) == 2 * RadixValue(v, 2) + DigitValue(c)
    ensures ParseBigInt("0b" + (v + [c])) == Some(RadixValue(v + [c], 2))
  {
    assert (v + [c])[..|v|] == v;
    assert RadixValue(v + [c], 2) == 2 * RadixValue(v, 2) + DigitValue(c);
    assert AllRadix(v + [c], 2);
    PrefixIsNoInteger('b', v + [c]);
    hide RadixValue, AllRadix, DigitValue, ParseInteger, Value, Lower;
  }

  lemma PrefixIsNoInteger(x: char, v: string)
    requires x == 'o' || x == 'b'
    ensures ParseInteger(['0', x] + v) == None && (['0', x] + v)[2..] == v && !HasPrefix(['0', x] + v)
  {
    var s := ['0', x] + v;
    assert s[1] == x && !IsDigit(x, 10) && s[1] in s;
  }

  /** toString(16) of an integer of either sign. */
  function HexOf(m: int): string {
    if m < 0 then "-" + Digits(-m, 16) else Digits(m, 16)
  }

  function PadRight(s: string, width: nat): (r: string)
    ensures |r| == if |s| < width then width else |s|
  {
    if |s| < width then s + Zeros(width - |s|) else s
  }

  // ---- the codec ---------------------------------------------------------------------------

  function EncodeInteger(n: int): string {
    "0x" + PadLeft(HexOf(Complement(n)), 64)
  }

  /** Negative numbers are turned into their two's complement. */
  function Complement(n: int): int {
    if n < 0 then TWO256 + n else n
  }

  function AsRaw(v: string): string {
    if HasPrefix(v) then v else "0x" + v
  }

  function EncodeAs(kind: Kind, v: string): string {
    if v == "" then ""
    else
      match kind
      case Address => "0x" + PadLeft(Lower(WithoutPrefix(v)), 64)
      case Bool => EncodeInteger(if v == "true" || v == "1" then 1 else 0)
      case Integer => (
        match ParseBigInt(v)
        case Some(n) => EncodeInteger(n)
        case None => AsRaw(v))
      case FixedBytes => "0x" + PadRight(WithoutPrefix(v), 64)[..64]
      case Dynamic => AsRaw(v)
  }

  function Encode(t: string, raw: string): string {
    EncodeAs(KindOf(t), Trim(raw))
  }

  function DecodeAs(kind: Kind, v: string): string {
    var hex := WithoutPrefix(v);
    if v == "" then ""
    else if |hex| != 64 then v
    else
      match kind
      case Address => "0x" + hex[24..]
      case Integer => if AllHex(hex) then Digits(Value(Lower(hex), 16), 10) else v
      case Bool => if AllHex(hex) then (if Value(Lower(hex), 16) != 0 then "true" else "false") else v
      case _ => v
  }

  function Decode(t: string, stored: string): string {
    DecodeAs(KindOf(t), Trim(stored))
  }

  predicate IsTopic(s: string) {
    |s| == 66 && s[..2] == "0x" && AllDigits(s[2..], 16)
  }

  function TopicValue(s: string): nat
    requires |s| >= 2
  {
    Value(s[2..], 16)
  }

  // ---- numbers -----------------------------------------------------------------------------

  lemma PowerIsTwo256()
    ensures Power(16, 64) == TWO256
  {
    assert Power(16, 8) == 0x1_0000_0000;
    assert Power(16, 16) == 0x1_0000_0000_0000_0000;
    assert Power(16, 24) == 0x1_0000_0000_0000_0000_0000_0000;
    assert Power(16, 32) == 0x1_0000_0000_0000_0000_0000_0000_0000_0000;
    assert Power(16, 40) == 0x1_0000_0000_0000_0000_0000_0000_0000_0000_0000_0000;
    assert Power(16, 48) == 0x1_0000_0000_0000_0000_0000_0000_0000_0000_0000_0000_0000_0000;
    assert Power(16, 56) == 0x1_0000_0000_0000_0000_0000_0000_0000_0000_0000_0000_0000_0000_0000_0000;
  }

  lemma {:induction false} PowerGrows(n: nat, m: nat)
    requires n <= m
    ensures Power(16, n) <= Power(16, m)
  {
    if n < m {
      PowerGrows(n, m - 1);
    }
  }

  lemma Padded64(n: nat)
    requires n < TWO256
    ensures var s := PadLeft(Digits(n, 16), 64);
            |s| == 64 && AllDigits(s, 16) && Value(s, 16) == n
  {
    PowerIsTwo256();
    DigitsFit(n, 16, 64);
    PaddedDigits(Digits(n, 16), 64, 16);
    ValueOfDigits(n, 16);
    ValueOfPadded(Digits(n, 16), 64, 16);
  }

  lemma NegativeHexIsNoTopic(m: int)
    requires m < 0
    ensures !IsTopic("0x" + PadLeft(HexOf(m), 64))
  {
    var h := HexOf(m);
    var p := PadLeft(h, 64);
    assert h[0] == '-';
    assert p[|p| - |h|] == '-';
    assert ("0x" + p)[2..] == p;
    assert !IsDigit('-', 16);
  }

  lemma LargeHexIsNoTopic(m: nat)
    requires m >= TWO256
    ensures !IsTopic("0x" + PadLeft(HexOf(m), 64))
  {
    PowerIsTwo256();
    ValueOfDigits(m, 16);
    ValueBelowPower(Digits(m, 16), 16);
    if |Digits(m, 16)| <= 64 {
      PowerGrows(|Digits(m, 16)|, 64);
    }
  }

  lemma FittingHexIsTopic(m: nat)
    requires m < TWO256
    ensures var e := "0x" + PadLeft(HexOf(m), 64);
            IsTopic(e) && TopicValue(e) == m
  {
    Padded64(m);
    var p := PadLeft(Digits(m, 16), 64);
    assert ("0x" + p)[2..] == p && ("0x" + p)[..2] == "0x";
  }

  lemma Residue(n: int)
    requires 0 - TWO256 <= n < TWO256
    ensures n % TWO256 == Complement(n)
  {
  }

  /** An integer is encoded as a topic that denotes its residue modulo 2^256, which is its two's
      complement when it is negative, if and only if it lies between -2^256 and 2^256, the former
      included. Outside the text is not even a topic. */
  lemma IntegersEncodeAsResidues(n: int)
    ensures IsTopic(EncodeInteger(n)) <==> 0 - TWO256 <= n < TWO256
    ensures 0 - TWO256 <= n < TWO256 ==> TopicValue(EncodeInteger(n)) == n % TWO256
  {
    var m := Complement(n);
    if m < 0 {
      NegativeHexIsNoTopic(m);
    } else if m >= TWO256 {
      LargeHexIsNoTopic(m);
    } else {
      FittingHexIsTopic(m);
      Residue(n);
    }
  }

  // ---- stability ---------------------------------------------------------------------------

  /** The 64 digits of a stored topic, in either case. */
  predicate IsStoredTopic(s: string) {
    |s| == 66 && s[..2] == "0x" && AllHex(s[2..])
  }

  /** When a stored topic of a type survives being decoded and encoded again: an address must fit
      20 bytes and, like an integer, be in lower case; a boolean must be 0 or 1; the other types
      are shown as they are. */
  predicate Canonical(kind: Kind, s: string)
    requires |s| == 66
  {
    var h := s[2..];
    match kind
    case Address => h[..24] == Zeros(24) && Lower(h) == h
    case Integer => Lower(h) == h
    case Bool => Lower(h) == h && Value(h, 16) <= 1
    case _ => true
  }

  lemma HexIsTight(s: string)
    requires IsStoredTopic(s)
    ensures Trim(s) == s && HasPrefix(s) && WithoutPrefix(s) == s[2..]
    ensures !IsSpace(s[65])
  {
    assert s[2..][63] == s[65];
    assert s[..2][0] == '0' && s[..2][1] == 'x';
    TrimOfTight(s);
  }

  lemma LowerHexValue(h: string)
    requires AllHex(h) && |h| == 64
    ensures Value(Lower(h), 16) < TWO256
    ensures PadLeft(Digits(Value(Lower(h), 16), 16), 64) == Lower(h)
  {
    PowerIsTwo256();
    LowerHex(h);
    ValueBelowPower(Lower(h), 16);
    PaddedSpelling(Lower(h), 16);
  }

  /** Decimal numerals parse to the number they spell. */
  lemma DecimalParses(n: nat)
    ensures var d := Digits(n, 10);
            Trim(d) == d && d != "" && ParseBigInt(d) == Some(n)
  {
    var d := Digits(n, 10);
    ValueOfDigits(n, 10);
    assert d[0] in d && d[|d| - 1] in d;
    assert IsDigit(d[0], 10) && IsDigit(d[|d| - 1], 10);
    TrimOfTight(d);
  }

  lemma IntegerIsStable(s: string)
    requires IsStoredTopic(s)
    ensures EncodeAs(Integer, Trim(DecodeAs(Integer, s))) == "0x" + Lower(s[2..])
  {
    HexIsTight(s);
    LowerHexValue(s[2..]);
    DecimalParses(Value(Lower(s[2..]), 16));
  }

  lemma BoolIsStable(s: string)
    requires IsStoredTopic(s)
    ensures EncodeAs(Bool, Trim(DecodeAs(Bool, s)))
         == "0x" + PadLeft(Digits(if Value(Lower(s[2..]), 16) != 0 then 1 else 0, 16), 64)
  {
    HexIsTight(s);
    TrimOfTight("true");
    TrimOfTight("false");
  }

  lemma AddressIsStable(s: string)
    requires IsStoredTopic(s)
    ensures EncodeAs(Address, Trim(DecodeAs(Address, s))) == "0x" + (Zeros(24) + Lower(s[26..]))
  {
    HexIsTight(s);
    assert s[2..][24..] == s[26..];
    ShownAddressIsTight(s);
    Prefixed(s[26..]);
  }

  lemma ShownAddressIsTight(s: string)
    requires IsStoredTopic(s)
    ensures Trim("0x" + s[26..]) == "0x" + s[26..]
  {
    var a := "0x" + s[26..];
    assert a[|a| - 1] == s[65] == s[2..][63];
    TrimOfTight(a);
  }

  lemma Prefixed(a: string)
    ensures HasPrefix("0x" + a) && WithoutPrefix("0x" + a) == a
  {
  }

  lemma OthersAreStable(kind: Kind, s: string)
    requires IsStoredTopic(s) && (kind == FixedBytes || kind == Dynamic)
    ensures EncodeAs(kind, Trim(DecodeAs(kind, s))) == s
  {
    HexIsTight(s);
    assert s == s[..2] + s[2..];
    assert PadRight(s[2..], 64)[..64] == s[2..];
  }

  /** Decoding a stored topic for the editor and encoding it again gives the same 64 digits if and
      only if the topic is canonical for its type. */
  lemma StableIffCanonical(t: string, s: string)
    requires IsStoredTopic(s)
    ensures Encode(t, Decode(t, s)) == s <==> Canonical(KindOf(t), s)
  {
    HexIsTight(s);
    KindIsStable(KindOf(t), s);
  }

  lemma KindIsStable(kind: Kind, s: string)
    requires IsStoredTopic(s)
    ensures EncodeAs(kind, Trim(DecodeAs(kind, s))) == s <==> Canonical(kind, s)
  {
    var h := s[2..];
    assert s == "0x" + h;
    match kind
    case Integer =>
      IntegerIsStable(s);
      SamePrefix(Lower(h), h);
    case Address =>
      AddressIsStable(s);
      AddressDigits(s);
      SamePrefix(Zeros(24) + Lower(s[26..]), h);
    case Bool =>
      BoolIsStable(s);
      BoolDigits(h);
      SamePrefix(PadLeft(Digits(if Value(Lower(h), 16) != 0 then 1 else 0, 16), 64), h);
    case _ =>
      OthersAreStable(kind, s);
  }

  lemma ReencodedLength(kind: Kind, s: string)
    requires IsStoredTopic(s)
    ensures |EncodeAs(kind, Trim(DecodeAs(kind, s)))| == 66
  {
    match kind
    case Integer => IntegerIsStable(s);
    case Address => AddressIsStable(s);
    case Bool =>
      BoolIsStable(s);
      Padded64(if Value(Lower(s[2..]), 16) != 0 then 1 else 0);
    case _ => OthersAreStable(kind, s);
  }

  lemma SameLengthTrims(e: string, s: string)
    requires |e| == |s| && Trim(s) == s
    ensures Trim(e) == s <==> e == s
  {
    if Trim(e) == s {
      TrimOfSameLength(e);
    }
  }

  lemma ReencodedAs(t: string, s: string)
    requires IsStoredTopic(s)
    ensures |Encode(t, Decode(t, s))| == 66 && Trim(s) == s
  {
    HexIsTight(s);
    ReencodedLength(KindOf(t), s);
  }

  /** What is encoded again is as long as a topic, so that trimming it cannot make it one. */
  lemma TrimmedStableIffCanonical(t: string, s: string)
    requires IsStoredTopic(s)
    ensures Trim(Encode(t, Decode(t, s))) == s <==> Canonical(KindOf(t), s)
  {
    StableIffCanonical(t, s);
    ReencodedAs(t, s);
    SameLengthTrims(Encode(t, Decode(t, s)), s);
  }

  lemma SamePrefix(a: string, b: string)
    ensures "0x" + a == "0x" + b <==> a == b
  {
    assert ("0x" + a)[2..] == a && ("0x" + b)[2..] == b;
  }

  lemma AddressDigits(s: string)
    requires |s| == 66
    ensures Zeros(24) + Lower(s[26..]) == s[2..] <==> s[2..][..24] == Zeros(24) && Lower(s[2..]) == s[2..]
  {
    var h := s[2..];
    assert h == h[..24] + h[24..] && h[24..] == s[26..];
    assert Lower(h) == Lower(h[..24]) + Lower(h[24..]);
    assert (Zeros(24) + Lower(s[26..]))[..24] == Zeros(24);
    assert (Zeros(24) + Lower(s[26..]))[24..] == Lower(s[26..]);
    assert Lower(Zeros(24)) == Zeros(24);
    if Lower(h) == h && h[..24] == Zeros(24) {
      assert Lower(h)[24..] == h[24..];
    }
  }

  lemma BoolDigits(h: string)
    requires AllHex(h) && |h| == 64
    ensures PadLeft(Digits(if Value(Lower(h), 16) != 0 then 1 else 0, 16), 64) == h <==> Lower(h) == h && Value(h, 16) <= 1
  {
    var b := if Value(Lower(h), 16) != 0 then 1 else 0;
    var p := PadLeft(Digits(b, 16), 64);
    LowerHexValue(h);
    Padded64(b);
    if p == h {
      LowerOfDigits(p);
    }
  }

  lemma LowerOfDigits(p: string)
    requires AllDigits(p, 16)
    ensures Lower(p) == p
  {
    forall i | 0 <= i < |p|
      ensures Lower(p)[i] == p[i]
    {
      assert IsDigit(p[i], 16);
      HexDigit(p[i]);
    }
  }

  /** What the editor shows for an integer after it was saved: its residue, so a negative number
      comes back as a positive one. */
  lemma IntegersShowAsResidues(n: int)
    requires 0 - TWO256 <= n < TWO256
    ensures DecodeAs(Integer, EncodeInteger(n)) == Digits(n % TWO256, 10)
  {
    var m := Complement(n);
    Residue(n);
    Padded64(m);
    var p := PadLeft(Digits(m, 16), 64);
    LowerOfDigits(p);
    Prefixed(p);
    DigitsAreHex(p);
  }

  lemma DigitsAreHex(p: string)
    requires AllDigits(p, 16)
    ensures AllHex(p)
  {
    forall i | 0 <= i < |p|
      ensures '0' <= p[i] <= '9' || 'a' <= p[i] <= 'f'
    {
      assert IsDigit(p[i], 16);
      HexDigit(p[i]);
    }
  }

  // ---- a list of filters -------------------------------------------------------------------

  function DropBlank(parts: seq<string>): seq<string> {
    if parts != [] && parts[|parts| - 1] == "" then DropBlank(parts[..|parts| - 1]) else parts
  }

  function TrimAll(parts: seq<string>): (r: seq<string>)
    ensures |r| == |parts| && forall i | 0 <= i < |parts| :: r[i] == Trim(parts[i])
  {
    seq(|parts|, i requires 0 <= i < |parts| => Trim(parts[i]))
  }

  /** The list as it is sent to the server. */
  function Parse(s: string): seq<string> {
    DropBlank(TrimAll(Split(s, '\n')))
  }

  /** The filter at a position; a missing one is a wildcard. */
  function At(filters: seq<string>, j: nat): string {
    if j < |filters| then filters[j] else ""
  }

  function Saved(value: string): seq<string> {
    if value == "" then [] else Split(value, '\n')
  }

  /** The entries the editor starts with. */
  function Seed(types: seq<string>, value: string): (r: seq<string>)
    ensures |r| == |types| && forall j | 0 <= j < |types| :: r[j] == Decode(types[j], At(Saved(value), j))
  {
    seq(|types|, j requires 0 <= j < |types| => Decode(types[j], At(Saved(value), j)))
  }

  function EncodeAll(types: seq<string>, entries: seq<string>): (r: seq<string>)
    ensures |r| == |types| && forall j | 0 <= j < |types| :: r[j] == Encode(types[j], At(entries, j))
  {
    seq(|types|, j requires 0 <= j < |types| => Encode(types[j], At(entries, j)))
  }

  /** One entry is edited: the new entries and the text to keep. */
  method Update(types: seq<string>, entries: seq<string>, i: nat, friendly: string) returns (next: seq<string>, value: string)
    requires i < |entries|
    ensures next == entries[i := friendly]
    ensures value == Join(DropBlank(EncodeAll(types, next)), '\n')
  {
    next := entries[i := friendly];
    var encoded := EncodeAll(types, next);
    while |encoded| > 0 && encoded[|encoded| - 1] == ""
      invariant DropBlank(encoded) == DropBlank(EncodeAll(types, next))
    {
      encoded := encoded[..|encoded| - 1];
    }
    value := Join(encoded, '\n');
  }

  method ParseTopicFilters(s: string) returns (parts: seq<string>)
    ensures parts == Parse(s)
  {
    parts := TrimAll(Split(s, '\n'));
    while |parts| > 0 && parts[|parts| - 1] == ""
      invariant DropBlank(parts) == Parse(s)
    {
      parts := parts[..|parts| - 1];
    }
  }

  lemma {:induction false} DropBlankKeeps(parts: seq<string>)
    ensures DropBlank(parts) <= parts
    ensures forall j: nat :: At(DropBlank(parts), j) == At(parts, j)
    ensures DropBlank(parts) != [] ==> DropBlank(parts)[|DropBlank(parts)| - 1] != ""
  {
    if parts != [] && parts[|parts| - 1] == "" {
      DropBlankKeeps(parts[..|parts| - 1]);
    }
  }

  /** Saving a list and parsing it again gives the list with every part trimmed, interior wildcards
      included. */
  lemma ParseOfSaved(parts: seq<string>)
    requires forall p | p in parts :: '\n' !in p
    ensures Parse(Join(DropBlank(parts), '\n')) == DropBlank(TrimAll(DropBlank(parts)))
  {
    var kept := DropBlank(parts);
    DropBlankKeeps(parts);
    if kept == [] {
      assert TrimAll([""]) == [""] && TrimAll(kept) == [];
      assert DropBlank([""]) == [];
    } else {
      SplitOfJoin(kept, '\n');
    }
  }

  /** Position by position. */
  lemma ParsedAt(parts: seq<string>, j: nat)
    requires forall p | p in parts :: '\n' !in p
    ensures var parsed := Parse(Join(DropBlank(parts), '\n'));
            At(parsed, j) == Trim(At(parts, j)) && |parsed| <= |parts| && (parsed != [] ==> parsed[|parsed| - 1] != "")
  {
    ParseOfSaved(parts);
    DropBlankKeeps(parts);
    DropBlankKeeps(TrimAll(DropBlank(parts)));
    assert At(TrimAll(DropBlank(parts)), j) == Trim(At(DropBlank(parts), j));
  }

  /** A filter that an edit elsewhere cannot disturb: a wildcard, or a canonical topic. */
  predicate Settled(t: string, s: string) {
    s == "" || (IsStoredTopic(s) && Canonical(KindOf(t), s))
  }

  /** What is encoded begins with a zero, so only its end can be cut when the list is parsed. */
  lemma EncodedIsTight(t: string, raw: string)
    ensures var e := Encode(t, raw);
            Trim(e) == e <==> e == "" || !IsSpace(e[|e| - 1])
  {
    var e := Encode(t, raw);
    if e != "" {
      StartsWithZero(KindOf(t), Trim(raw));
      if !IsSpace(e[|e| - 1]) {
        TrimOfTight(e);
      }
    }
  }

  lemma StartsWithZero(kind: Kind, v: string)
    requires v != ""
    ensures EncodeAs(kind, v) != "" && EncodeAs(kind, v)[0] == '0'
  {
  }

  predicate OneLine(s: string) {
    '\n' !in s
  }

  lemma TrimIsOneLine(s: string)
    requires OneLine(s)
    ensures OneLine(Trim(s))
  {
    TrimLeftIsOneLine(s);
    TrimRightIsOneLine(TrimLeft(s));
  }

  lemma {:induction false} TrimLeftIsOneLine(s: string)
    requires OneLine(s)
    ensures OneLine(TrimLeft(s))
  {
    if s != [] && IsSpace(s[0]) {
      TrimLeftIsOneLine(s[1..]);
    }
  }

  lemma {:induction false} TrimRightIsOneLine(s: string)
    requires OneLine(s)
    ensures OneLine(TrimRight(s))
  {
    if s != [] && IsSpace(s[|s| - 1]) {
      TrimRightIsOneLine(s[..|s| - 1]);
    }
  }

  lemma DigitsAreOneLine(n: nat, base: nat)
    requires base == 10 || base == 16
    ensures OneLine(Digits(n, base))
  {
    assert !IsDigit('\n', base);
  }

  lemma EncodedIsOneLine(kind: Kind, v: string)
    requires OneLine(v)
    ensures OneLine(EncodeAs(kind, v))
  {
    if v != "" {
      match kind
      case Address =>
        assert OneLine(Lower(WithoutPrefix(v))) by {
          forall i | 0 <= i < |WithoutPrefix(v)|
            ensures LowerChar(WithoutPrefix(v)[i]) != '\n'
          {
            assert WithoutPrefix(v)[i] in v;
          }
        }
      case Bool => IntegerIsOneLine(if v == "true" || v == "1" then 1 else 0);
      case Integer =>
        if ParseBigInt(v).Some? {
          IntegerIsOneLine(ParseBigInt(v).value);
        }
      case _ =>
    }
  }

  lemma IntegerIsOneLine(n: int)
    ensures OneLine(EncodeInteger(n))
  {
    var m := Complement(n);
    DigitsAreOneLine(if m < 0 then -m else m, 16);
    assert OneLine(HexOf(m));
  }

  lemma DecodedIsOneLine(kind: Kind, v: string)
    requires OneLine(v)
    ensures OneLine(DecodeAs(kind, v))
  {
    if kind == Integer && AllHex(WithoutPrefix(v)) {
      DigitsAreOneLine(Value(Lower(WithoutPrefix(v)), 16), 10);
    }
  }

  lemma {:induction false} SplitPartsAreOneLine(s: string)
    ensures forall p | p in Split(s, '\n') :: OneLine(p)
  {
    if s != [] {
      SplitPartsAreOneLine(s[1..]);
      var rest := Split(s[1..], '\n');
      assert rest[0] in rest;
      forall p | p in Split(s, '\n')
        ensures OneLine(p)
      {
        assert p in rest || p == "" || (s[0] != '\n' && p == [s[0]] + rest[0]);
      }
    }
  }

  lemma SavedIsOneLine(value: string, k: nat)
    ensures OneLine(At(Saved(value), k))
  {
    SplitPartsAreOneLine(value);
  }

  /** What the server gets after an edit: at every position what was typed there, or what the editor
      showed there, encoded and trimmed. */
  lemma EditedList(types: seq<string>, value: string, i: nat, friendly: string, j: nat)
    requires i < |types| && j < |types| && OneLine(friendly)
    ensures var filters := Parse(Join(DropBlank(EncodeAll(types, Seed(types, value)[i := friendly])), '\n'));
            && |filters| <= |types| && (filters != [] ==> filters[|filters| - 1] != "")
            && At(filters, j) == Trim(Encode(types[j], if j == i then friendly else Decode(types[j], At(Saved(value), j))))
  {
    var next := Seed(types, value)[i := friendly];
    var encoded := EncodeAll(types, next);
    forall k | 0 <= k < |types|
      ensures OneLine(encoded[k])
    {
      var raw := At(next, k);
      if k != i {
        SavedIsOneLine(value, k);
        TrimIsOneLine(At(Saved(value), k));
        DecodedIsOneLine(KindOf(types[k]), Trim(At(Saved(value), k)));
      }
      TrimIsOneLine(raw);
      EncodedIsOneLine(KindOf(types[k]), Trim(raw));
    }
    ParsedAt(encoded, j);
  }

  /** Editing one filter leaves another one as the server had it if and only if encoding what the
      editor shows for that one gives it back. Where the server had a topic or nothing, that is so if
      and only if it was a wildcard or a canonical topic of its type. */
  lemma EditChangesOnePosition(types: seq<string>, value: string, i: nat, friendly: string, j: nat)
    requires i < |types| && j < |types| && j != i && OneLine(friendly)
    ensures var filters := Parse(Join(DropBlank(EncodeAll(types, Seed(types, value)[i := friendly])), '\n'));
            var had := At(Parse(value), j);
            && (At(filters, j) == had <==> Trim(Encode(types[j], Decode(types[j], had))) == had)
            && (had == "" || IsStoredTopic(had) ==> (At(filters, j) == had <==> Settled(types[j], had)))
  {
    var had := At(Parse(value), j);
    EditedList(types, value, i, friendly, j);
    ParsedSaved(value, j);
    TrimOfTight(had);
    if IsStoredTopic(had) {
      TrimmedStableIffCanonical(types[j], had);
    }
  }

  lemma ParsedSaved(value: string, j: nat)
    ensures At(Parse(value), j) == Trim(At(Saved(value), j))
  {
    DropBlankKeeps(TrimAll(Split(value, '\n')));
    assert At(TrimAll(Split(value, '\n')), j) == Trim(At(Split(value, '\n'), j));
  }

  /** The position that was edited holds what was typed there, encoded, unless white space was cut
      off at its end. */
  lemma EditedPosition(types: seq<string>, value: string, i: nat, friendly: string)
    requires i < |types| && OneLine(friendly)
    ensures var filters := Parse(Join(DropBlank(EncodeAll(types, Seed(types, value)[i := friendly])), '\n'));
            var e := Encode(types[i], friendly);
            At(filters, i) == e <==> e == "" || !IsSpace(e[|e| - 1])
  {
    EditedList(types, value, i, friendly, i);
    EncodedIsTight(types[i], friendly);
  }
}
