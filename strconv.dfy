/** `strconv.ParseInt(s, 10, 64)` and its inverse `strconv.FormatInt(v, 10)`. */
module Strconv {
  import opened Base

  const MinInt64: int := -0x8000_0000_0000_0000
  const MaxInt64: int := 0x7fff_ffff_ffff_ffff

  predicate IsDigit(c: char) {
    '0' <= c <= '9'
  }

  predicate AllDigits(s: string) {
    forall i :: 0 <= i < |s| ==> IsDigit(s[i])
  }

  /** The value of a string of decimal digits, most significant first. */
  function DigitsValue(s: string): nat
    requires AllDigits(s)
  {
    if s == [] then 0 else DigitsValue(s[..|s| - 1]) * 10 + (s[|s| - 1] as int - '0' as int)
  }

  /** An optional leading '+' or '-', and whether it was '-'. */
  function SplitSign(s: string): (r: (bool, string))
    ensures r.1 == s || (|s| > 0 && r.1 == s[1..] && (s[0] == '+' || s[0] == '-'))
    ensures r.0 <==> |s| > 0 && s[0] == '-'
  {
    if |s| > 0 && (s[0] == '+' || s[0] == '-') then (s[0] == '-', s[1..]) else (false, s)
  }

  /** `strconv.ParseInt(s, 10, 64)`: a syntax error for anything but an optional
      sign followed by at least one decimal digit, a range error outside the
      signed 64-bit range; both are `None`. */
  function ParseInt64(s: string): (r: Option<int>)
    ensures r.Some? ==> MinInt64 <= r.value <= MaxInt64
    ensures r.Some? ==> |SplitSign(s).1| > 0 && AllDigits(SplitSign(s).1)
    ensures s == [] ==> r == None
  {
    var (neg, digits) := SplitSign(s);
    if digits == [] || !AllDigits(digits) then None
    else
      var m: int := DigitsValue(digits);
      var v := if neg then -m else m;
      if MinInt64 <= v <= MaxInt64 then Some(v) else None
  }

  /** The decimal digits of a natural number, without leading zeros. */
  function NatDigits(m: nat): (s: string)
    ensures |s| > 0 && AllDigits(s)
    ensures DigitsValue(s) == m
    decreases m
  {
    var d := ['0' + (m % 10) as char];
    if m < 10 then d
    else
      var s := NatDigits(m / 10) + d;
      assert s[..|s| - 1] == NatDigits(m / 10);
      s
  }

  /** `strconv.FormatInt(v, 10)`. */
  function FormatInt(v: int): string {
    if v < 0 then "-" + NatDigits(-v) else NatDigits(v)
  }

  /** Parsing what `FormatInt` prints gives the number back for every 64-bit value. */
  lemma ParseFormatInt(v: int)
    requires MinInt64 <= v <= MaxInt64
    ensures ParseInt64(FormatInt(v)) == Some(v)
  {
    var s := FormatInt(v);
    if v < 0 {
      assert SplitSign(s) == (true, NatDigits(-v));
    } else {
      assert IsDigit(s[0]);
      assert SplitSign(s) == (false, s);
    }
  }

  /** A decimal number outside the signed 64-bit range is a range error. */
  lemma ParseOutOfRange(v: int)
    requires v < MinInt64 || v > MaxInt64
    ensures ParseInt64(FormatInt(v)) == None
  {
    var s := FormatInt(v);
    if v < 0 {
      assert SplitSign(s) == (true, NatDigits(-v));
    } else {
      assert IsDigit(s[0]);
      assert SplitSign(s) == (false, s);
    }
  }

  /** A lone sign or a non-digit is a syntax error. */
  lemma ParseRejectsSyntax()
    ensures ParseInt64("") == None && ParseInt64("-") == None && ParseInt64("+") == None
    ensures ParseInt64("1x") == None && ParseInt64("-1x") == None
  {
    assert !IsDigit("1x"[1]);
    assert SplitSign("-1x").1 == "1x";
  }
}
