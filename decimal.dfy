/**
 * The two conversions the session code applies to user ids: JavaScript's
 * `Number.prototype.toString` on an integer id when a claim is built, and the
 * global `parseInt` on the claim's `userId` string when it is read back.
 */
module Decimal {

  /** A JavaScript number as far as user ids need one: an integer or NaN. */
  datatype JsInt = Num(value: int) | NaN

  predicate IsDigit(c: char) {
    '0' <= c <= '9'
  }

  predicate AllDigits(s: string) {
    forall i :: 0 <= i < |s| ==> IsDigit(s[i])
  }

  function DigitValue(c: char): nat
    requires IsDigit(c)
  {
    c as int - '0' as int
  }

  function DigitChar(d: nat): (c: char)
    requires d < 10
    ensures IsDigit(c) && DigitValue(c) == d
  {
    ('0' as int + d) as char
  }

  /** Decimal text of a non-negative integer: at least one digit, no leading zero. */
  function NatToString(n: nat): (s: string)
    ensures |s| >= 1 && AllDigits(s)
    ensures |s| > 1 ==> s[0] != '0'
    decreases n
  {
    if n < 10 then [DigitChar(n)] else NatToString(n / 10) + [DigitChar(n % 10)]
  }

  /** `toString` of a JavaScript number that holds an integer, or NaN. */
  function JsToString(x: JsInt): (s: string)
    ensures s != []
    ensures x.Num? ==> (s[0] == '-' <==> x.value < 0)
  {
    match x
    case NaN => "NaN"
    case Num(i) => if i < 0 then "-" + NatToString(-i) else NatToString(i)
  }

  /** Length of the longest prefix of `s` made of decimal digits. */
  function DigitPrefixLength(s: string): (k: nat)
    ensures k <= |s| && AllDigits(s[..k])
    ensures k < |s| ==> !IsDigit(s[k])
  {
    if s == [] || !IsDigit(s[0]) then 0
    else
      var k := 1 + DigitPrefixLength(s[1..]);
      assert s[..k] == [s[0]] + s[1..][..k - 1];
      k
  }

  /** Value of a string of decimal digits, most significant digit first. */
  function DigitsValue(s: string): (v: nat)
    requires AllDigits(s)
    decreases |s|
  {
    if s == [] then 0 else DigitsValue(s[..|s| - 1]) * 10 + DigitValue(s[|s| - 1])
  }

  /**
   * `parseInt(s)` with no radix: an optional sign, then the longest run of
   * decimal digits; NaN when no digit follows the sign. Characters after the
   * run are ignored.
   */
  function ParseInt(s: string): (r: JsInt)
    ensures s == [] ==> r == NaN
    ensures s != [] && !IsDigit(s[0]) && s[0] != '-' && s[0] != '+' ==> r == NaN
    ensures s != [] && AllDigits(s) ==> r == Num(DigitsValue(s))
  {
    var negative := |s| > 0 && s[0] == '-';
    var rest := if |s| > 0 && (s[0] == '-' || s[0] == '+') then s[1..] else s;
    var k := DigitPrefixLength(rest);
    assert s != [] && AllDigits(s) ==> k == |s| && rest[..k] == s by {
      if s != [] && AllDigits(s) {
        DigitPrefixOfDigits(s);
      }
    }
    if k == 0 then NaN
    else if negative then Num(0 - DigitsValue(rest[..k]) as int)
    else Num(DigitsValue(rest[..k]))
  }

  lemma {:induction false} NatToStringValue(n: nat)
    ensures DigitsValue(NatToString(n)) == n
    decreases n
  {
    var s := NatToString(n);
    if n >= 10 {
      NatToStringValue(n / 10);
      assert s[..|s| - 1] == NatToString(n / 10);
    }
  }

  lemma {:induction false} DigitPrefixOfDigits(s: string)
    requires AllDigits(s)
    ensures DigitPrefixLength(s) == |s|
    decreases |s|
  {
    if s != [] {
      DigitPrefixOfDigits(s[1..]);
    }
  }

  /** Reading back what `toString` wrote gives the same id. */
  lemma ParseNatToString(n: nat)
    ensures ParseInt(NatToString(n)) == Num(n)
  {
    var s := NatToString(n);
    DigitPrefixOfDigits(s);
    NatToStringValue(n);
    assert s[..|s|] == s;
  }

  lemma ParseEveryNatToString()
    ensures forall n: nat :: ParseInt(NatToString(n)) == Num(n)
  {
    forall n: nat
      ensures ParseInt(NatToString(n)) == Num(n)
    {
      ParseNatToString(n);
    }
  }

  /** The same round trip for every integer, negative ones included, and for NaN. */
  lemma ParseJsToString(x: JsInt)
    ensures ParseInt(JsToString(x)) == x
  {
    if x.NaN? {
      assert !IsDigit("NaN"[0]);
    } else if x.value < 0 {
      var i := x.value;
      var s := NatToString(-i);
      var t := "-" + s;
      assert t[1..] == s;
      DigitPrefixOfDigits(s);
      NatToStringValue(-i);
      assert s[..|s|] == s;
    } else {
      ParseNatToString(x.value);
    }
  }

  /** Distinct ids are written as distinct strings. */
  lemma NatToStringInjective(m: nat, n: nat)
    ensures NatToString(m) == NatToString(n) <==> m == n
  {
    ParseNatToString(m);
    ParseNatToString(n);
  }

  /** Writing an id, reading it, and writing it again gives the first text. */
  lemma RewriteIsIdentity(n: nat)
    ensures JsToString(ParseInt(NatToString(n))) == NatToString(n)
  {
    ParseNatToString(n);
  }
}
