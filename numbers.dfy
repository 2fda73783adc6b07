/**
 * The two integer conversions the redirect counter goes through: `parseInt(s, 10)`
 * when a request is read, and the decimal rendering of a number when
 * `querystring.stringify` writes it back into a URL.
 */
module JsNumbers {
  import opened Common
  import opened JsStrings

  predicate IsDigit(c: char) {
    '0' <= c <= '9'
  }

  predicate AllDigits(s: string) {
    forall i :: 0 <= i < |s| ==> IsDigit(s[i])
  }

  function DigitValue(c: char): (d: nat)
    requires IsDigit(c)
    ensures d < 10
  {
    c as int - '0' as int
  }

  function DigitChar(d: nat): (c: char)
    requires d < 10
    ensures IsDigit(c) && DigitValue(c) == d
  {
    ('0' as int + d) as char
  }

  /** The longest prefix of `s` made of decimal digits. */
  function DigitPrefix(s: string): (p: string)
    ensures p <= s && AllDigits(p)
    ensures |p| < |s| ==> !IsDigit(s[|p|])
  {
    if s != [] && IsDigit(s[0]) then [s[0]] + DigitPrefix(s[1..]) else []
  }

  /** The value of a string of decimal digits, most significant first. */
  function DecimalValue(ds: string): nat
    requires AllDigits(ds)
  {
    if ds == [] then 0 else 10 * DecimalValue(ds[..|ds| - 1]) + DigitValue(ds[|ds| - 1])
  }

  /**
   * `parseInt(s, 10)`: leading whitespace is skipped, one optional sign is read, then
   * the longest run of digits; `None` stands for `NaN`, the result when there is no digit.
   */
  function ParseInt(s: string): (r: Option<int>)
    ensures TrimStart(s) == [] ==> r.None?
    ensures s != [] && AllDigits(s) ==> r == Some(DecimalValue(s) as int)
  {
    if s != [] && AllDigits(s) then
      assert IsDigit(s[0]);
      TrimStartNoSpace(s);
      ParseSignedDigits(s);
      ParseSigned(TrimStart(s))
    else ParseSigned(TrimStart(s))
  }

  /** `parseInt` once the leading whitespace is gone. */
  function ParseSigned(t: string): Option<int> {
    var negative := t != [] && t[0] == '-';
    var body := if t != [] && (t[0] == '-' || t[0] == '+') then t[1..] else t;
    var ds := DigitPrefix(body);
    var magnitude: int := if ds == [] then 0 else DecimalValue(ds);
    if ds == [] then None
    else if negative then Some(-magnitude)
    else Some(magnitude)
  }

  /** The decimal rendering of a natural number, without leading zeros. */
  function NatToDecimal(n: nat): (s: string)
    ensures |s| >= 1 && AllDigits(s)
    ensures s[0] == '0' ==> n == 0
  {
    if n < 10 then [DigitChar(n)] else NatToDecimal(n / 10) + [DigitChar(n % 10)]
  }

  /** `String(n)` for an integer-valued number. */
  function IntToDecimal(n: int): (s: string)
    ensures |s| >= 1
    ensures n >= 0 ==> AllDigits(s)
    ensures n < 0 ==> |s| >= 2 && s[0] == '-' && AllDigits(s[1..])
  {
    if n < 0 then "-" + NatToDecimal(-n) else NatToDecimal(n)
  }

  lemma {:induction false} DecimalValueOfDecimal(n: nat)
    ensures DecimalValue(NatToDecimal(n)) == n
  {
    var s := NatToDecimal(n);
    if n >= 10 {
      DecimalValueOfDecimal(n / 10);
      assert s[..|s| - 1] == NatToDecimal(n / 10);
    }
  }

  lemma {:induction false} DigitPrefixOfDigits(s: string, t: string)
    requires AllDigits(s)
    requires t == [] || !IsDigit(t[0])
    ensures DigitPrefix(s + t) == s
  {
    if s != [] {
      DigitPrefixOfDigits(s[1..], t);
      assert (s + t)[1..] == s[1..] + t;
    } else {
      assert s + t == t;
    }
  }

  /** Nothing is trimmed from a string that does not start with whitespace. */
  lemma TrimStartNoSpace(s: string)
    requires s != [] && !IsSpace(s[0])
    ensures TrimStart(s) == s
  {
  }

  /** `ParseSigned` reads back digits alone. */
  lemma ParseSignedDigits(digits: string)
    requires digits != [] && AllDigits(digits)
    ensures ParseSigned(digits) == Some(DecimalValue(digits) as int)
  {
    DigitPrefixOfDigits(digits, []);
    assert digits + [] == digits;
    assert IsDigit(digits[0]);
    assert digits[0] != '-' && digits[0] != '+';
  }

  /** `ParseSigned` reads back a minus sign followed by digits. */
  lemma ParseSignedNegative(t: string)
    requires |t| >= 2 && t[0] == '-' && AllDigits(t[1..])
    ensures ParseSigned(t) == Some(-(DecimalValue(t[1..]) as int))
  {
    var digits := t[1..];
    DigitPrefixOfDigits(digits, []);
    assert digits + [] == digits;
  }

  /** Reading back a rendered integer with `parseInt` gives the integer. */
  lemma ParseIntOfDecimal(n: int)
    ensures ParseInt(IntToDecimal(n)) == Some(n)
  {
    var m: nat := if n < 0 then -n else n;
    var digits := NatToDecimal(m);
    DecimalValueOfDecimal(m);
    var s := IntToDecimal(n);
    assert s == if n < 0 then "-" + digits else digits;
    assert s[0] == '-' || IsDigit(s[0]);
    TrimStartNoSpace(s);
    if n < 0 {
      assert s[1..] == digits;
      ParseSignedNegative(s);
    } else {
      ParseSignedDigits(digits);
    }
  }
}
