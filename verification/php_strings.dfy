/**
 * The few PHP string primitives the backend relies on: decimal rendering of
 * integers (string interpolation), the `(int)` cast and `is_numeric` on
 * decimal strings, `explode`/`implode`, `strtoupper` and `empty`.
 */
module PhpStrings {

  /** PHP_INT_MAX and PHP_INT_MIN on a 64-bit build. */
  const IntMax: int := 0x7FFF_FFFF_FFFF_FFFF
  const IntMin: int := -0x8000_0000_0000_0000

  predicate IsDigit(c: char) {
    '0' <= c <= '9'
  }

  predicate AllDigits(s: string) {
    forall i :: 0 <= i < |s| ==> IsDigit(s[i])
  }

  function DigitChar(d: nat): (c: char)
    requires d < 10
    ensures IsDigit(c)
  {
    ['0', '1', '2', '3', '4', '5', '6', '7', '8', '9'][d]
  }

  function DigitValue(c: char): (d: nat)
    requires IsDigit(c)
    ensures d < 10 && DigitChar(d) == c
  {
    (c as int - '0' as int) as nat
  }

  /** The value of a string of decimal digits (most significant first). */
  function DecimalValue(s: string): nat
    requires AllDigits(s)
  {
    if s == [] then 0 else DecimalValue(s[..|s| - 1]) * 10 + DigitValue(s[|s| - 1])
  }

  /** How PHP renders a non-negative integer inside a string: decimal, no leading zero. */
  function NatToText(n: nat): (s: string)
    ensures |s| > 0 && AllDigits(s)
    ensures s[0] == '0' ==> n == 0
  {
    if n < 10 then [DigitChar(n)] else NatToText(n / 10) + [DigitChar(n % 10)]
  }

  /** How PHP renders any integer inside a string. */
  function IntToText(n: int): (s: string)
    ensures |s| > 0
    ensures forall i :: 0 <= i < |s| ==> IsDigit(s[i]) || (i == 0 && s[i] == '-')
  {
    if n < 0 then "-" + NatToText(-n) else NatToText(n)
  }

  /** Reading back a rendered natural number gives the number. */
  lemma {:induction false} DecimalOfNatToText(n: nat)
    ensures DecimalValue(NatToText(n)) == n
  {
    if n >= 10 {
      var s := NatToText(n);
      assert s[..|s| - 1] == NatToText(n / 10);
      DecimalOfNatToText(n / 10);
    }
  }

  /** The longest prefix of `s` made of decimal digits. */
  function DigitRun(s: string): (r: string)
    ensures |r| <= |s| && r == s[..|r|] && AllDigits(r)
    ensures |r| < |s| ==> !IsDigit(s[|r|])
  {
    if s != [] && IsDigit(s[0]) then [s[0]] + DigitRun(s[1..]) else []
  }

  /** A digit string followed by a non-digit is exactly the digit run. */
  lemma {:induction false} DigitRunOfDigitsThen(d: string, rest: string)
    requires AllDigits(d)
    requires rest == [] || !IsDigit(rest[0])
    ensures DigitRun(d + rest) == d
  {
    if d != [] {
      assert (d + rest)[1..] == d[1..] + rest;
      DigitRunOfDigitsThen(d[1..], rest);
    }
  }

  function Clamp(v: int): (r: int)
    ensures IntMin <= r <= IntMax
    ensures IntMin <= v <= IntMax ==> r == v
  {
    if v > IntMax then IntMax else if v < IntMin then IntMin else v
  }

  /**
   * PHP's `(int)` cast of a string, for strings without leading blanks or
   * exponents: an optional sign and the leading digits, 0 when there are
   * none, saturated at the 64-bit bounds as PHP 8 does for overflowing
   * numeric strings.
   */
  function ToInt(s: string): (r: int)
    ensures IntMin <= r <= IntMax
  {
    if |s| > 0 && s[0] == '-' then Clamp(-(DecimalValue(DigitRun(s[1..])) as int))
    else if |s| > 0 && s[0] == '+' then Clamp(DecimalValue(DigitRun(s[1..])))
    else Clamp(DecimalValue(DigitRun(s)))
  }

  /** The digit run of a rendered natural number is all of it, and reads back as the number. */
  lemma DigitsOfNatToText(n: nat)
    ensures DigitRun(NatToText(n)) == NatToText(n)
    ensures DecimalValue(DigitRun(NatToText(n))) == n
  {
    var t := NatToText(n);
    DigitRunOfDigitsThen(t, []);
    assert t + [] == t;
    DecimalOfNatToText(n);
  }

  /** Every 64-bit integer PHP renders into text is read back unchanged by `(int)`. */
  lemma IntTextRoundTrip(n: int)
    requires IntMin <= n <= IntMax
    ensures ToInt(IntToText(n)) == n
  {
    DigitsOfNatToText(if n < 0 then -n else n);
    if n < 0 {
      assert IntToText(n)[1..] == NatToText(-n);
    }
  }

  /** PHP's `is_numeric`, restricted to integers written in decimal. */
  function IsNumeric(s: string): (r: bool)
    ensures r <==> |s| > 0 && (forall i :: 0 <= i < |s| ==> IsDigit(s[i]) || (i == 0 && (s[i] == '-' || s[i] == '+')))
                   && exists i :: 0 <= i < |s| && IsDigit(s[i])
  {
    if |s| > 0 && (s[0] == '-' || s[0] == '+') then
      assert forall i :: 1 <= i < |s| ==> s[i] == s[1..][i - 1];
      assert |s| > 1 ==> s[1] == s[1..][0];
      |s| > 1 && AllDigits(s[1..])
    else
      |s| > 0 && AllDigits(s)
  }

  /** PHP's `empty` on a query-string value: absent, "" and "0" all count as empty. */
  function Empty<K>(params: map<K, string>, key: K): (r: bool)
    ensures !r ==> key in params && |params[key]| >= 1
    ensures key in params && |params[key]| >= 2 ==> !r
  {
    key !in params || params[key] == "" || params[key] == "0"
  }

  /** PHP's `strtoupper` (locale-independent, as in PHP 8.2): only a..z change. */
  function Upper(s: string): (r: string)
    ensures |r| == |s|
    ensures forall i :: 0 <= i < |s| ==> r[i] == UpperChar(s[i])
  {
    if s == [] then [] else [UpperChar(s[0])] + Upper(s[1..])
  }

  function UpperChar(c: char): char {
    if 'a' <= c <= 'z' then (c as int - 32) as char else c
  }

  /** PHP's `explode(',', s)`: the pieces between commas, empty pieces included. */
  function Explode(s: string): (r: seq<string>)
    ensures |r| >= 1
    ensures forall k :: 0 <= k < |r| ==> ',' !in r[k]
  {
    if s == [] then [[]]
    else
      var rest := Explode(s[1..]);
      if s[0] == ',' then [[]] + rest else [[s[0]] + rest[0]] + rest[1..]
  }

  /** PHP's `implode(sep, parts)`. */
  function Implode(sep: string, parts: seq<string>): (r: string)
    ensures parts == [] ==> r == []
    ensures parts != [] ==> parts[0] <= r
    ensures |parts| >= 2 ==> parts[0] + sep <= r
  {
    if parts == [] then []
    else if |parts| == 1 then parts[0]
    else parts[0] + sep + Implode(sep, parts[1..])
  }

  function CountChar(c: char, s: string): nat {
    if s == [] then 0 else (if s[0] == c then 1 else 0) + CountChar(c, s[1..])
  }

  /** Gluing the pieces back together with commas gives the original string. */
  lemma {:induction false} ImplodeExplode(s: string)
    ensures Implode(",", Explode(s)) == s
  {
    if s != [] {
      var rest := Explode(s[1..]);
      ImplodeExplode(s[1..]);
      if s[0] == ',' {
        assert Explode(s) == [[]] + rest;
        assert Implode(",", Explode(s)) == [] + "," + Implode(",", rest);
      } else if |rest| == 1 {
        assert Explode(s) == [[s[0]] + rest[0]];
      } else {
        assert Explode(s)[1..] == rest[1..];
        assert Implode(",", rest) == rest[0] + "," + Implode(",", rest[1..]);
      }
    }
  }

  /** There is one more piece than there are commas. */
  lemma {:induction false} ExplodeCount(s: string)
    ensures |Explode(s)| == CountChar(',', s) + 1
  {
    if s != [] {
      ExplodeCount(s[1..]);
    }
  }
}
