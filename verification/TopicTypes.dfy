/** What the editor's codec does with each type that an ABI can name. */
module TopicTypes {
  import opened Numerals
  import opened Texts
  import opened Rules
  import opened TopicCodec

  // ---- the names ---------------------------------------------------------------------------

  lemma IntegerNames(d: string)
    requires AllDigits(d, 10)
    ensures KindOf("uint" + d) == Integer && KindOf("int" + d) == Integer
  {
    assert ("uint" + d)[1..] == "int" + d;
    assert ("int" + d)[..3] == "int" && ("int" + d)[3..] == d;
    assert ("uint" + d)[0] == 'u' && ("int" + d)[0] == 'i';
  }

  lemma BytesNames(d: string)
    requires AllDigits(d, 10) && d != ""
    ensures KindOf("bytes" + d) == FixedBytes
  {
    assert ("bytes" + d)[..5] == "bytes" && ("bytes" + d)[5..] == d;
    assert ("bytes" + d)[0] == 'b' && ("bytes" + d)[1] == 'y';
  }

  /** A name of none of the types that the codec treats by themselves. */
  ghost predicate IsOther(t: string) {
    && t != "address" && t != "bool"
    && forall d | AllDigits(d, 10) :: t != "uint" + d && t != "int" + d && (d != "" ==> t != "bytes" + d)
  }

  lemma OtherNames(t: string)
    requires IsOther(t)
    ensures KindOf(t) == Dynamic
  {
    NameSplits(t);
  }

  lemma NameSplits(t: string)
    ensures IsIntegerName(t) ==> exists d :: AllDigits(d, 10) && t == "int" + d
    ensures t != [] && t[0] == 'u' && IsIntegerName(t[1..]) ==> exists d :: AllDigits(d, 10) && t == "uint" + d
    ensures "bytes" < t && AllDigits(t[5..], 10) ==> exists d :: AllDigits(d, 10) && d != "" && t == "bytes" + d
  {
    if IsIntegerName(t) {
      assert t == "int" + t[3..];
    }
    if t != [] && t[0] == 'u' && IsIntegerName(t[1..]) {
      assert t == "uint" + t[1..][3..];
    }
    if "bytes" < t && AllDigits(t[5..], 10) {
      assert t == "bytes" + t[5..];
    }
  }

  lemma PlainNames()
    ensures KindOf("address") == Address && KindOf("bool") == Bool
  {
    assert "bool"[0] == 'b';
  }

  lemma TextsAreOther(t: string)
    requires t == "string" || t == "bytes" || (t != [] && t[|t| - 1] == ']')
    ensures IsOther(t)
  {
    forall d | AllDigits(d, 10)
      ensures t != "uint" + d && t != "int" + d && (d != "" ==> t != "bytes" + d)
    {
      assert !IsDigit(']', 10);
      assert ("uint" + d)[0] == 'u' && ("int" + d)[0] == 'i' && |"bytes" + d| == 5 + |d|;
      assert d != "" ==> d[|d| - 1] in d && ("uint" + d)[|d| + 3] == ("int" + d)[|d| + 2] == ("bytes" + d)[|d| + 4] == d[|d| - 1];
    }
  }

  // ---- encoding ----------------------------------------------------------------------------

  lemma HexTextIsTight(h: string)
    requires AllHex(h)
    ensures Trim(h) == h && Trim("0x" + h) == "0x" + h
    ensures !HasPrefix(h) && WithoutPrefix("0x" + h) == h
  {
    Prefixed(h);
    TrimOfTight(h);
    if h != "" {
      assert ("0x" + h)[|h| + 1] == h[|h| - 1];
    }
    TrimOfTight("0x" + h);
  }

  /** An address becomes the topic with 24 zeros in front of its digits, and is shown as it was. */
  lemma Addresses(a: string)
    requires |a| == 40 && AllHex(a)
    ensures Encode("address", "0x" + a) == Encode("address", a) == "0x" + (Zeros(24) + Lower(a))
    ensures Decode("address", "0x" + (Zeros(24) + Lower(a))) == "0x" + Lower(a)
  {
    HexTextIsTight(a);
    PaddedAddressIsHex(a);
    HexTextIsTight(Zeros(24) + Lower(a));
    assert (Zeros(24) + Lower(a))[24..] == Lower(a);
  }

  lemma PaddedAddressIsHex(a: string)
    requires AllHex(a)
    ensures AllHex(Zeros(24) + Lower(a))
  {
    LowerHex(a);
    DigitsAreHex(Lower(a));
  }

  /** An integer of any width becomes the topic that denotes it, a negative one that of its two's
      complement, if it lies between -2^256 and 2^256; else no topic. */
  lemma Integers(d: string, n: int)
    requires AllDigits(d, 10)
    ensures Encode("uint" + d, Spelt(n)) == Encode("int" + d, Spelt(n)) == EncodeInteger(n)
    ensures IsTopic(EncodeInteger(n)) <==> 0 - TWO256 <= n < TWO256
    ensures 0 <= n < TWO256 ==> TopicValue(EncodeInteger(n)) == n
    ensures 0 - TWO256 <= n < 0 ==> TopicValue(EncodeInteger(n)) == TWO256 + n
  {
    IntegerNames(d);
    SpeltParses(n);
    IntegersEncodeAsResidues(n);
    if 0 - TWO256 <= n < TWO256 {
      Residue(n);
    }
  }

  /** An integer may also be typed in hexadecimal; a text that is no integer is kept as it is. */
  lemma OtherIntegers(d: string, h: string, v: string)
    requires AllDigits(d, 10) && h != "" && AllHex(h) && Trim(v) == v != "" && ParseBigInt(v).None?
    ensures Encode("uint" + d, "0x" + h) == Encode("int" + d, "0x" + h) == EncodeInteger(Value(Lower(h), 16))
    ensures Encode("uint" + d, v) == Encode("int" + d, v) == AsRaw(v)
  {
    IntegerNames(d);
    HexTextIsTight(h);
    hide KindOf, EncodeInteger;
    var x := "0x" + h;
    assert x[2..] == h && x[1] == 'x' && !IsDigit('x', 10);
    assert x[0] == '0' && x[1] in x;
  }

  /** true and 1 become the topic of 1, any other text that of 0. */
  lemma Booleans(v: string)
    requires Trim(v) == v != ""
    ensures IsTopic(Encode("bool", v)) && TopicValue(Encode("bool", v)) == if v == "true" || v == "1" then 1 else 0
  {
    PlainNames();
    hide KindOf, EncodeInteger;
    IntegersEncodeAsResidues(if v == "true" || v == "1" then 1 else 0);
  }

  /** Bytes of fixed size are filled up with zeros at the end, and cut after 64 digits. */
  lemma FixedSizeBytes(d: string, h: string)
    requires AllDigits(d, 10) && d != "" && AllHex(h)
    ensures |h| <= 64 ==> Encode("bytes" + d, "0x" + h) == Encode("bytes" + d, "0x" + (h + Zeros(64 - |h|))) == "0x" + (h + Zeros(64 - |h|))
    ensures |h| > 64 ==> Encode("bytes" + d, "0x" + h) == "0x" + h[..64]
  {
    BytesNames(d);
    HexTextIsTight(h);
    if |h| <= 64 {
      var f := h + Zeros(64 - |h|);
      HexTextIsTight(f);
      assert PadRight(h, 64) == f && f[..64] == f;
    }
  }

  /** Whatever is of another type is kept as it was typed, with a prefix. */
  lemma OtherTypes(t: string, v: string)
    requires IsOther(t) && Trim(v) == v != ""
    ensures Encode(t, v) == if |v| >= 2 && v[0] == '0' && (v[1] == 'x' || v[1] == 'X') then v else "0x" + v
    ensures Decode(t, v) == v
  {
    OtherNames(t);
  }

  /** Only nothing is encoded as a wildcard, and a wildcard is shown as nothing. */
  lemma WildcardsOnly(t: string, v: string)
    ensures Encode(t, v) == "" <==> Trim(v) == ""
    ensures Decode(t, "") == ""
  {
    TrimOfTight("");
    if Trim(v) != "" {
      StartsWithZero(KindOf(t), Trim(v));
    }
  }

  // ---- decoding ----------------------------------------------------------------------------

  /** What the editor shows for a stored topic. */
  lemma Shown(d: string, s: string)
    requires AllDigits(d, 10) && IsStoredTopic(s)
    ensures Decode("address", s) == "0x" + s[26..]
    ensures Decode("uint" + d, s) == Decode("int" + d, s) == Digits(Value(Lower(s[2..]), 16), 10)
    ensures Decode("bool", s) == if Value(Lower(s[2..]), 16) == 0 then "false" else "true"
    ensures d != "" ==> Decode("bytes" + d, s) == s
  {
    HexIsTight(s);
    PlainNames();
    IntegerNames(d);
    if d != "" {
      BytesNames(d);
    }
    hide KindOf;
    assert s[2..][24..] == s[26..];
  }

  /** What is no topic is shown as it is stored. */
  lemma OthersAreShownAsTheyAre(t: string, s: string)
    requires Trim(s) == s && |WithoutPrefix(s)| != 64
    ensures Decode(t, s) == s
  {
  }

  /** When a stored topic survives being shown and encoded again, type by type. */
  lemma StableByType(d: string, t: string, s: string)
    requires AllDigits(d, 10) && IsOther(t) && IsStoredTopic(s)
    ensures Encode("address", Decode("address", s)) == s <==> s[2..26] == Zeros(24) && Lower(s[2..]) == s[2..]
    ensures Encode("uint" + d, Decode("uint" + d, s)) == s <==> Lower(s[2..]) == s[2..]
    ensures Encode("int" + d, Decode("int" + d, s)) == s <==> Lower(s[2..]) == s[2..]
    ensures Encode("bool", Decode("bool", s)) == s <==> Lower(s[2..]) == s[2..] && Value(s[2..], 16) <= 1
    ensures d != "" ==> Encode("bytes" + d, Decode("bytes" + d, s)) == s
    ensures Encode(t, Decode(t, s)) == s
  {
    PlainNames();
    IntegerNames(d);
    OtherNames(t);
    if d != "" {
      BytesNames(d);
    }
    hide KindOf, Encode, Decode, IsOther;
    assert s[2..][..24] == s[2..26];
    StableIffCanonical("address", s);
    StableIffCanonical("uint" + d, s);
    StableIffCanonical("int" + d, s);
    StableIffCanonical("bool", s);
    StableIffCanonical(t, s);
    StableIffCanonical("bytes" + d, s);
  }
}
