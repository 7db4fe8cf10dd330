/** Decimal numbers as text: `%d`, `strconv.ParseInt(s, 10, 64)` and `strconv.ParseUint(s, 10, 64)`. */
module Decimal {
  import opened Options

  const TWO63 := 0x8000_0000_0000_0000
  const TWO64 := 0x1_0000_0000_0000_0000

  predicate IsInt64(n: int) {
    -TWO63 <= n < TWO63
  }

  /** Two's complement wrap-around of a 64-bit product. */
  function Wrap64(n: int): (r: int)
    ensures IsInt64(r) && (IsInt64(n) ==> r == n)
  {
    (n + TWO63) % TWO64 - TWO63
  }

  function Digit(d: nat): char
    requires d < 10
  {
    "0123456789"[d]
  }

  predicate IsDigit(c: char) {
    '0' <= c <= '9'
  }

  function DigitValue(c: char): nat
    requires IsDigit(c)
  {
    c as int - '0' as int
  }

  lemma DigitRoundTrip(d: nat)
    requires d < 10
    ensures IsDigit(Digit(d)) && DigitValue(Digit(d)) == d
  {
  }

  function Digits(n: nat): (s: string)
    ensures s != ""
  {
    if n < 10 then [Digit(n)] else Digits(n / 10) + [Digit(n % 10)]
  }

  predicate AllDigits(s: string) {
    forall i :: 0 <= i < |s| ==> IsDigit(s[i])
  }

  function Value(s: string): nat
    requires AllDigits(s)
  {
    if s == "" then 0 else Value(s[..|s| - 1]) * 10 + DigitValue(s[|s| - 1])
  }

  function FormatInt(n: int): string {
    if n < 0 then "-" + Digits(-n) else Digits(n)
  }

  function ParseUint(s: string): Option<nat> {
    if s == "" || !AllDigits(s) || Value(s) >= TWO64 then None else Some(Value(s))
  }

  function ParseInt(s: string): Option<int> {
    if s == "" then None
    else
      var negative := s[0] == '-';
      var digits := if s[0] == '-' || s[0] == '+' then s[1..] else s;
      match ParseUint(digits)
      case None => None
      case Some(n) =>
        var i: int := n;
        var value := if negative then -i else i;
        if IsInt64(value) then Some(value) else None
  }

  lemma {:induction false} DigitsValue(n: nat)
    ensures AllDigits(Digits(n)) && Value(Digits(n)) == n
  {
    if n < 10 {
      DigitRoundTrip(n);
      assert Value([Digit(n)][..0]) == 0;
    } else {
      DigitsValue(n / 10);
      DigitRoundTrip(n % 10);
      assert Digits(n)[..|Digits(n)| - 1] == Digits(n / 10);
    }
  }

  /** Printing and parsing is the identity on 64-bit integers, and only there. */
  lemma ParseFormat(n: int)
    ensures ParseInt(FormatInt(n)) == if IsInt64(n) then Some(n) else None
  {
    var s := FormatInt(n);
    DigitsValue(if n < 0 then -n else n);
    if n < 0 {
      assert s[1..] == Digits(-n);
    } else {
      assert IsDigit(s[0]);
    }
  }

  /** What text parses to, from its last character: the parts before it count ten times. */
  lemma ParseByPlaces(s: string, c: char)
    ensures ParseUint("") == None
    ensures ParseUint([c]) == if '0' <= c <= '9' then Some(c as int - 48) else None
    ensures s == "" || ParseUint(s + [c]) ==
            match ParseUint(s)
            case None => None
            case Some(n) =>
              if '0' <= c <= '9' && 10 * n + c as int - 48 < 18_446_744_073_709_551_616
              then Some(10 * n + c as int - 48) else None
  {
    OneMoreDigit("", c);
    assert "" + [c] == [c];
    OneMoreDigit(s, c);
  }

  lemma OneMoreDigit(s: string, c: char)
    ensures AllDigits(s + [c]) <==> AllDigits(s) && IsDigit(c)
    ensures AllDigits(s + [c]) ==> Value(s + [c]) == 10 * Value(s) + (c as int - 48)
  {
    var t := s + [c];
    assert t[..|t| - 1] == s && t[|s|] == c;
    assert forall i :: 0 <= i < |s| ==> t[i] == s[i];
  }

  function Signed(n: Option<nat>, sign: int): Option<int> {
    if n.Some? && -9_223_372_036_854_775_808 <= sign * n.value < 9_223_372_036_854_775_808 then Some(sign * n.value)
    else None
  }

  /** A sign may stand in front, and the result has to fit 64 bits. */
  lemma ParseSigned(s: string)
    ensures ParseInt("-" + s) == Signed(ParseUint(s), -1) && ParseInt("+" + s) == Signed(ParseUint(s), 1)
    ensures s == "" || s[0] == '-' || s[0] == '+' || ParseInt(s) == Signed(ParseUint(s), 1)
  {
    assert ("-" + s)[1..] == s && ("+" + s)[1..] == s;
  }

  /** Numbers are printed without a needless zero or sign. */
  lemma FormatIsShort(n: int)
    ensures var s := FormatInt(n);
            var digits := if n < 0 then s[1..] else s;
            && (n < 0 ==> s[0] == '-') && AllDigits(digits) && digits != "" && (digits[0] == '0' ==> digits == "0")
  {
    var m := if n < 0 then -n else n;
    DigitsShort(m);
    DigitsValue(m);
    assert n < 0 ==> FormatInt(n)[1..] == Digits(m);
  }

  lemma {:induction false} DigitsShort(n: nat)
    ensures Digits(n)[0] == '0' ==> n == 0 && Digits(n) == "0"
  {
    if n >= 10 {
      DigitsShort(n / 10);
    }
  }

  /** Printed numbers are never taken for an absent property or broken at a tab. */
  lemma FormatIsPlain(n: int)
    ensures FormatInt(n) != "" && FormatInt(n) != "-" && '\t' !in FormatInt(n)
  {
    DigitsValue(if n < 0 then -n else n);
  }
}
