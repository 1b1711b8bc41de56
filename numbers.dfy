/** `int.TryParse(s, NumberStyles.Integer, CultureInfo.InvariantCulture, out n)`:
    optional white space, an optional leading '+' or '-', one or more decimal
    digits, optional white space, and a value that fits in a 32-bit `int`. */
module Numbers {
  import opened Wrappers
  import opened Text

  const MinInt32: int := -0x8000_0000
  const MaxInt32: int := 0x7FFF_FFFF

  predicate IsInt32(n: int) {
    MinInt32 <= n <= MaxInt32
  }

  /** The white space that `NumberStyles.AllowLeadingWhite` and
      `AllowTrailingWhite` accept: U+0009 to U+000D and U+0020. */
  predicate IsNumberWhite(c: char) {
    ('\U{9}' <= c <= '\U{D}') || c == ' '
  }

  predicate IsDigit(c: char) {
    '0' <= c <= '9'
  }

  predicate AllDigits(s: string) {
    forall i | 0 <= i < |s| :: IsDigit(s[i])
  }

  function DigitValue(c: char): (d: nat)
    requires IsDigit(c)
    ensures d < 10
  {
    c as int - '0' as int
  }

  function DigitChar(d: nat): (c: char)
    requires d < 10
    ensures IsDigit(c) && DigitValue(c) == d
  {
    ('0' as int + d) as char
  }

  /** The value of a string of decimal digits, most significant first. */
  function DigitsValue(s: string): nat
    requires AllDigits(s)
  {
    if s == [] then 0 else DigitsValue(s[..|s| - 1]) * 10 + DigitValue(s[|s| - 1])
  }

  /** The text between the leading and the trailing number white space. */
  function StripNumberWhite(s: string): string {
    TrimEnd(TrimStart(s, IsNumberWhite), IsNumberWhite)
  }

  /** `int.TryParse` with `NumberStyles.Integer` under the invariant culture:
      `Some(n)` exactly when the call returns true with `n`. */
  function ParseInt32(s: string): (r: Option<int>)
    ensures r.Some? ==> IsInt32(r.value)
  {
    ParseSigned(StripNumberWhite(s))
  }

  /** The numeral itself, once the surrounding white space is gone. */
  function ParseSigned(t: string): (r: Option<int>)
    ensures r.Some? ==> IsInt32(r.value)
  {
    if |t| == 0 then None
    else if t[0] == '-' then ParseMagnitude(t[1..], true)
    else if t[0] == '+' then ParseMagnitude(t[1..], false)
    else ParseMagnitude(t, false)
  }

  function ParseMagnitude(digits: string, negative: bool): (r: Option<int>)
    ensures r.Some? ==> IsInt32(r.value)
  {
    if |digits| == 0 || !AllDigits(digits) then None
    else
      var v: int := DigitsValue(digits);
      var n := if negative then -v else v;
      if IsInt32(n) then Some(n) else None
  }

  /** The decimal rendering of a natural number, without sign or padding. */
  function Digits(n: nat): (s: string)
    ensures |s| > 0 && AllDigits(s)
    decreases n
  {
    if n < 10 then [DigitChar(n)] else Digits(n / 10) + [DigitChar(n % 10)]
  }

  /** `n.ToString()` under the invariant culture. */
  function Decimal(n: int): string {
    if n < 0 then "-" + Digits(-n) else Digits(n)
  }

  lemma {:induction false} DigitsValueOfDigits(n: nat)
    ensures DigitsValue(Digits(n)) == n
    decreases n
  {
    if n >= 10 {
      var s := Digits(n);
      assert s[..|s| - 1] == Digits(n / 10);
      DigitsValueOfDigits(n / 10);
    }
  }

  /** A string that neither starts nor ends with number white space is its own
      stripped form. */
  lemma StripUnpadded(s: string)
    requires |s| > 0 && !IsNumberWhite(s[0]) && !IsNumberWhite(s[|s| - 1])
    ensures StripNumberWhite(s) == s
  {
    assert [] + s + [] == s;
    TrimBothPadded([], s, [], IsNumberWhite);
  }

  /** Round trip: every 32-bit integer, written in decimal, parses back to itself. */
  lemma DecimalRoundTrip(n: int)
    requires IsInt32(n)
    ensures ParseInt32(Decimal(n)) == Some(n)
  {
    var s := Decimal(n);
    var m: nat := if n < 0 then -n else n;
    DigitsValueOfDigits(m);
    StripUnpadded(s);
    if n < 0 {
      assert s[1..] == Digits(m);
    }
  }

  /** Number white space around a numeral changes nothing. */
  lemma Padded(pre: string, numeral: string, post: string)
    requires forall c | c in pre :: IsNumberWhite(c)
    requires forall c | c in post :: IsNumberWhite(c)
    requires |numeral| > 0 && !IsNumberWhite(numeral[0]) && !IsNumberWhite(numeral[|numeral| - 1])
    ensures ParseInt32(pre + numeral + post) == ParseInt32(numeral)
  {
    TrimBothPadded(pre, numeral, post, IsNumberWhite);
    StripUnpadded(numeral);
  }

  /** A leading '+' changes nothing. */
  lemma PlusSign(digits: string)
    requires |digits| > 0 && AllDigits(digits)
    ensures ParseInt32("+" + digits) == ParseInt32(digits)
  {
    StripUnpadded("+" + digits);
    StripUnpadded(digits);
    assert ("+" + digits)[1..] == digits;
  }

  /** A character that is neither a digit, a sign nor number white space makes the
      parse fail: such text never reaches the integer branch. */
  lemma ForeignCharFails(s: string, k: int)
    requires 0 <= k < |s|
    requires !IsDigit(s[k]) && s[k] != '+' && s[k] != '-' && !IsNumberWhite(s[k])
    ensures ParseInt32(s) == None
  {
    TrimBothKeeps(s, IsNumberWhite, k);
    var t := StripNumberWhite(s);
    SignedRejectsForeign(t, k - (|s| - |TrimStart(s, IsNumberWhite)|));
  }

  lemma SignedRejectsForeign(t: string, j: int)
    requires 0 <= j < |t| && !IsDigit(t[j]) && t[j] != '+' && t[j] != '-'
    ensures ParseSigned(t) == None
  {
    if t[0] == '+' || t[0] == '-' {
      assert t[1..][j - 1] == t[j];
    }
  }

  /** `"99999999999"` is a numeral whose value does not fit in 32 bits. */
  lemma OutOfRangeFails(s: string)
    requires s == "99999999999"
    ensures ParseInt32(s) == None
  {
    TooLargeFails(s);
  }

  /** A numeral of eleven or more digits, the first of them not '0', overflows. */
  lemma TooLargeFails(s: string)
    requires |s| >= 11 && AllDigits(s) && s[0] != '0'
    ensures ParseInt32(s) == None
  {
    assert IsDigit(s[0]) && IsDigit(s[|s| - 1]);
    StripUnpadded(s);
    DigitsValueAtLeast(s);
    Pow10Monotone(10, |s| - 1);
    assert Pow10(10) == 10000000000;
  }

  lemma {:induction false} Pow10Monotone(j: nat, k: nat)
    requires j <= k
    ensures Pow10(j) <= Pow10(k)
  {
    if j < k {
      Pow10Monotone(j, k - 1);
    }
  }

  /** A numeral of `k` digits with a non-zero first digit is at least 10^(k-1). */
  lemma {:induction false} DigitsValueAtLeast(s: string)
    requires |s| > 0 && AllDigits(s) && s[0] != '0'
    ensures DigitsValue(s) >= Pow10(|s| - 1)
  {
    if |s| > 1 {
      DigitsValueAtLeast(s[..|s| - 1]);
    }
  }

  function Pow10(k: nat): (p: nat)
    ensures p >= 1
  {
    if k == 0 then 1 else 10 * Pow10(k - 1)
  }
}
