/** Decimal digit strings. The compiler classifies and converts numbers with the
    host language's `Number`, `parseInt` and number-to-string conversion; this
    model restricts all of them to non-negative decimal integers written as
    plain digit strings (and their negations, for rendering). */
module Numbers {
  import opened Results

  predicate IsDigit(c: char) {
    '0' <= c <= '9'
  }

  predicate AllDigits(s: string) {
    forall i :: 0 <= i < |s| ==> IsDigit(s[i])
  }

  /** A fragment that counts as a number: a non-empty run of decimal digits. */
  predicate IsNumeric(s: string) {
    |s| > 0 && AllDigits(s)
  }

  function DigitValue(c: char): (d: nat)
    requires IsDigit(c)
    ensures d < 10
  {
    c as int - '0' as int
  }

  function DigitChar(d: nat): (c: char)
    requires d < 10
    ensures IsDigit(c) && DigitValue(c) == d
  {
    ('0' as int + d) as char
  }

  /** The value of a digit string, most significant digit first. */
  function DigitsValue(s: string): nat
    requires AllDigits(s)
    decreases |s|
  {
    if |s| == 0 then 0 else 10 * DigitsValue(s[..|s| - 1]) + DigitValue(s[|s| - 1])
  }

  /** Decimal rendering of a natural number; parsing it back gives the number. */
  function NatToString(n: nat): (r: string)
    ensures IsNumeric(r)
    ensures DigitsValue(r) == n
    ensures n < 10 <==> |r| == 1
    decreases n
  {
    if n < 10 then
      [DigitChar(n)]
    else
      var prefix := NatToString(n / 10);
      var r := prefix + [DigitChar(n % 10)];
      assert r[..|r| - 1] == prefix;
      r
  }

  /** Decimal rendering of an integer, with a leading '-' when negative. */
  function IntToString(i: int): (r: string)
    ensures i >= 0 ==> IsNumeric(r) && DigitsValue(r) == i
    ensures i < 0 ==> |r| >= 2 && r[0] == '-' && IsNumeric(r[1..]) && DigitsValue(r[1..]) == -i
    ensures forall k :: 0 <= k < |r| ==> IsDigit(r[k]) || (k == 0 && r[k] == '-')
  {
    if i < 0 then
      var digits := NatToString(-i);
      var r := "-" + digits;
      assert forall k :: 0 < k < |r| ==> r[k] == digits[k - 1];
      r
    else NatToString(i)
  }

  /** A digit string without its redundant leading zeros; a lone `0` stays. */
  function StripZeros(s: string): string
    decreases |s|
  {
    if |s| > 1 && s[0] == '0' then StripZeros(s[1..]) else s
  }

  /** A leading zero adds nothing to the value. */
  lemma {:induction false} LeadingZero(s: string)
    requires AllDigits(s) && |s| > 0 && s[0] == '0'
    ensures DigitsValue(s) == DigitsValue(s[1..])
    decreases |s|
  {
    if |s| > 1 {
      var front := s[..|s| - 1];
      LeadingZero(front);
      assert s[1..][..|s| - 2] == front[1..];
    }
  }

  /** A digit string that does not start with `0` has a positive value. */
  lemma {:induction false} LeadingDigit(s: string)
    requires AllDigits(s) && |s| > 0 && s[0] != '0'
    ensures DigitsValue(s) >= 1
    decreases |s|
  {
    if |s| > 1 {
      LeadingDigit(s[..|s| - 1]);
    }
  }

  /** A digit string in canonical form is the rendering of its own value. */
  lemma {:induction false} CanonicalDigits(s: string)
    requires IsNumeric(s) && (|s| == 1 || s[0] != '0')
    ensures NatToString(DigitsValue(s)) == s
    decreases |s|
  {
    var v := DigitsValue(s);
    var last := s[|s| - 1];
    if |s| == 1 {
      assert s[..|s| - 1] == "";
      assert DigitsValue(s[..|s| - 1]) == 0;
      assert DigitChar(v) == last;
      assert NatToString(v) == [last];
    } else {
      var front := s[..|s| - 1];
      LeadingDigit(front);
      CanonicalDigits(front);
      assert v / 10 == DigitsValue(front) && v % 10 == DigitValue(last);
      assert DigitChar(v % 10) == last;
      assert NatToString(v) == front + [last];
    }
  }

  /** Parsing a digit string and rendering the value gives the string without
      its leading zeros. */
  lemma {:induction false} RenderParsed(s: string)
    requires IsNumeric(s)
    ensures NatToString(DigitsValue(s)) == StripZeros(s)
    decreases |s|
  {
    if |s| > 1 && s[0] == '0' {
      LeadingZero(s);
      RenderParsed(s[1..]);
    } else {
      CanonicalDigits(s);
    }
  }

  /** `Number(s)` on the strings this model admits: the empty string is 0, a digit
      string is its value, anything else is not a number (`None`). */
  function ToNumber(s: string): (r: Option<int>)
    ensures r.Some? <==> s == "" || IsNumeric(s)
    ensures IsNumeric(s) ==> r == Some(DigitsValue(s))
    ensures r.Some? ==> r.value >= 0
    ensures r.Some? && s != "" ==> IntToString(r.value) == StripZeros(s)
  {
    if s == "" then Some(0)
    else if IsNumeric(s) then RenderParsed(s); Some(DigitsValue(s))
    else None
  }

  /** `parseInt(s, 10)` on digit strings; anything else is not a number. */
  function ParseInt(s: string): (r: Option<int>)
    ensures r.Some? <==> IsNumeric(s)
    ensures r.Some? ==> r.value == DigitsValue(s)
    ensures r.Some? ==> r.value >= 0 && IntToString(r.value) == StripZeros(s)
  {
    if IsNumeric(s) then RenderParsed(s); Some(DigitsValue(s)) else None
  }

  /** The renderings of the ends of the 0..100 scale. */
  lemma ScaleEnds()
    ensures IntToString(0) == "0" && IntToString(100) == "100"
  {
    assert DigitChar(0) == '0' && DigitChar(1) == '1';
    assert NatToString(1) == "1";
    assert NatToString(10) == NatToString(1) + "0";
    assert NatToString(100) == NatToString(10) + "0";
  }
}
