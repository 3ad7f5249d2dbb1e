/**
 * Java's 32-bit `int`, with `Integer.parseInt` (radix 10) and
 * `Integer.toString`, as the shop uses them to turn configuration keys and
 * command arguments into item ids and minimum amounts and back.
 */
module JavaInt {
  import opened Wrappers

  const MinValue: int := -0x8000_0000
  const MaxValue: int := 0x7fff_ffff

  /** A value of Java's `int` type. */
  newtype int32 = x: int | -0x8000_0000 <= x < 0x8000_0000

  predicate InRange(v: int) {
    MinValue <= v <= MaxValue
  }

  predicate IsDigit(c: char) {
    '0' <= c <= '9'
  }

  predicate AllDigits(ds: string) {
    forall i :: 0 <= i < |ds| ==> IsDigit(ds[i])
  }

  function DigitValue(c: char): (d: nat)
    requires IsDigit(c)
    ensures d < 10
  {
    c as int - '0' as int
  }

  function DigitChar(d: nat): (c: char)
    requires d < 10
    ensures IsDigit(c) && DigitValue(c) == d
  {
    ('0' as int + d) as char
  }

  /** The value of a string of decimal digits, read most significant first. */
  function DigitsValue(ds: string): (v: nat)
    requires AllDigits(ds)
  {
    if ds == [] then 0
    else DigitsValue(ds[..|ds| - 1]) * 10 + DigitValue(ds[|ds| - 1])
  }

  /**
   * `Integer.parseInt(s)`: an optional `+` or `-`, then one or more ASCII
   * digits whose signed value fits in an `int`; anything else is a
   * `NumberFormatException`, here `None`.
   */
  function ParseInt(s: string): (r: Option<int32>)
    ensures s == [] ==> r == None
    ensures r.Some? ==> |s| >= 1 && (s[0] == '-' || s[0] == '+' || IsDigit(s[0]))
    ensures r.Some? ==> AllDigits(s[1..])
    ensures r.Some? && r.value < 0 ==> s[0] == '-'
  {
    if s == [] then None
    else
      var negative := s[0] == '-';
      var digits := if s[0] == '-' || s[0] == '+' then s[1..] else s;
      if digits == [] || !AllDigits(digits) then None
      else
        var v: int := if negative then -(DigitsValue(digits) as int) else DigitsValue(digits);
        if InRange(v) then Some(v as int32) else None
  }

  /** The shortest decimal digits of `n`, without leading zeros. */
  function NatToDigits(n: nat): (ds: string)
    ensures |ds| >= 1 && AllDigits(ds)
    ensures DigitsValue(ds) == n
    ensures |ds| > 1 ==> ds[0] != '0'
    decreases n
  {
    if n < 10 then [DigitChar(n)]
    else
      var prefix := NatToDigits(n / 10);
      var ds := prefix + [DigitChar(n % 10)];
      assert ds[..|ds| - 1] == prefix;
      ds
  }

  /** `Integer.toString(k)`: a `-` for negative values, then the digits of `|k|`. */
  function IntToString(k: int32): (s: string)
    ensures |s| >= 1
    ensures (s[0] == '-') <==> k < 0
    ensures k < 0 ==> |s| >= 2 && AllDigits(s[1..]) && DigitsValue(s[1..]) == -(k as int)
    ensures k >= 0 ==> AllDigits(s) && DigitsValue(s) == k as int
  {
    if k < 0 then "-" + NatToDigits(-(k as int)) else NatToDigits(k as int)
  }

  /** Parsing what `Integer.toString` prints gives the value back. */
  lemma ParseIntToString(k: int32)
    ensures ParseInt(IntToString(k)) == Some(k)
  {
    var s := IntToString(k);
    if k < 0 {
      assert s[1..] == NatToDigits(-(k as int));
    }
  }

  /** Distinct ids print as distinct keys, so a saved section never repeats a key. */
  lemma IntToStringInjective(j: int32, k: int32)
    requires IntToString(j) == IntToString(k)
    ensures j == k
  {
    ParseIntToString(j);
    ParseIntToString(k);
  }

  lemma {:induction false} LeadingZeroValue(ds: string)
    requires AllDigits(ds)
    ensures AllDigits("0" + ds) && DigitsValue("0" + ds) == DigitsValue(ds)
    decreases |ds|
  {
    var zs := "0" + ds;
    assert AllDigits(zs) by {
      forall i | 0 <= i < |zs| ensures IsDigit(zs[i]) {
        if i > 0 { assert zs[i] == ds[i - 1]; }
      }
    }
    if ds != [] {
      var init := ds[..|ds| - 1];
      assert zs[..|zs| - 1] == "0" + init;
      assert AllDigits(init) by {
        forall i | 0 <= i < |init| ensures IsDigit(init[i]) { assert init[i] == ds[i]; }
      }
      LeadingZeroValue(init);
    }
  }

  /** Leading zeros are accepted and do not change the value: `parseInt("007") == 7`. */
  lemma LeadingZeroIgnored(ds: string)
    requires ds != [] && AllDigits(ds)
    ensures ParseInt("0" + ds) == ParseInt(ds)
  {
    LeadingZeroValue(ds);
    assert ("0" + ds)[0] == '0';
  }

  /** A leading `+` is accepted and does not change the value. */
  lemma PlusSignIgnored(ds: string)
    requires ds != [] && AllDigits(ds)
    ensures ParseInt("+" + ds) == ParseInt(ds)
  {
    assert ("+" + ds)[1..] == ds;
  }

  /**
   * The general rule behind the range edges: unsigned digits parse to
   * their value when it is at most 2147483647, and `-` followed by digits
   * parses to the negated value when that is at least -2147483648; leading
   * zeros are allowed on both.
   */
  lemma ParseSignedDigits(ds: string)
    requires ds != [] && AllDigits(ds)
    ensures ParseInt(ds) ==
              (if DigitsValue(ds) <= MaxValue then Some(DigitsValue(ds) as int32) else None)
    ensures ParseInt("-" + ds) ==
              (if DigitsValue(ds) <= -MinValue then Some((-(DigitsValue(ds) as int)) as int32) else None)
  {
    assert ("-" + ds)[1..] == ds;
  }

  /** A character other than a digit after the optional sign makes the parse fail. */
  lemma NonDigitRejected(s: string, i: nat)
    requires 0 < i < |s| && !IsDigit(s[i])
    ensures ParseInt(s) == None
  {
    if s[0] == '-' || s[0] == '+' {
      assert s[1..][i - 1] == s[i];
    }
  }

  /** A lone sign, or a first character that is neither a sign nor a digit, fails. */
  lemma BadStartRejected(s: string)
    requires s == "-" || s == "+" || (|s| >= 1 && s[0] != '-' && s[0] != '+' && !IsDigit(s[0]))
    ensures ParseInt(s) == None
  {
  }

  lemma LeadingDigitsOfBound()
    ensures DigitsValue("214748364") == 214748364
  {
    assert DigitsValue("2") == 2;
    assert "21"[..1] == "2";
    assert DigitsValue("21") == 21;
    assert "214"[..2] == "21";
    assert DigitsValue("214") == 214;
    assert "2147"[..3] == "214";
    assert DigitsValue("2147") == 2147;
    assert "21474"[..4] == "2147";
    assert DigitsValue("21474") == 21474;
    assert "214748"[..5] == "21474";
    assert DigitsValue("214748") == 214748;
    assert "2147483"[..6] == "214748";
    assert DigitsValue("2147483") == 2147483;
    assert "21474836"[..7] == "2147483";
    assert DigitsValue("21474836") == 21474836;
    assert "214748364"[..8] == "21474836";
  }

  /** The bounds of `int`: `-2147483648` parses, one past either end does not. */
  lemma RangeEdges()
    ensures ParseInt("2147483647") == Some(MaxValue as int32)
    ensures ParseInt("-2147483648") == Some(MinValue as int32)
    ensures ParseInt("2147483648") == None
    ensures ParseInt("-2147483649") == None
  {
    LeadingDigitsOfBound();
    assert "2147483647"[..9] == "214748364";
    assert "2147483648"[..9] == "214748364";
    assert "2147483649"[..9] == "214748364";
    assert DigitsValue("2147483647") == MaxValue;
    assert DigitsValue("2147483648") == -MinValue;
    assert DigitsValue("2147483649") == -MinValue + 1;
    assert "-2147483648"[1..] == "2147483648";
    assert "-2147483649"[1..] == "2147483649";
  }
}
