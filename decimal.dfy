/** Decimal text of integers: the model of `Number.prototype.toString` on an
    integer and of `parseInt` with no radix. */
module Decimal {
  import opened Schema

  predicate IsDigit(c: char)
  {
    '0' <= c <= '9'
  }

  function DigitChar(d: nat): (c: char)
    requires d < 10
    ensures IsDigit(c) && c as int - '0' as int == d
  {
    "0123456789"[d]
  }

  /** The decimal digits of `n`, most significant first, without leading zeros. */
  function Digits(n: nat): (s: string)
    ensures |s| >= 1
    ensures forall i :: 0 <= i < |s| ==> IsDigit(s[i])
    ensures (|s| == 1) == (n < 10)
    decreases n
  {
    if n < 10 then [DigitChar(n)] else Digits(n / 10) + [DigitChar(n % 10)]
  }

  /** The number a string of digits denotes. */
  function ValueOf(s: string): nat
    requires forall i :: 0 <= i < |s| ==> IsDigit(s[i])
  {
    if s == [] then 0
    else
      assert IsDigit(s[|s| - 1]);
      ValueOf(s[..|s| - 1]) * 10 + (s[|s| - 1] as int - '0' as int)
  }

  /** `i.toString()` for an integer `i`. */
  function IntToString(i: int): (s: string)
    ensures |s| >= 1
    ensures (s[0] == '-') <==> i < 0
    ensures forall k :: (if i < 0 then 1 else 0) <= k < |s| ==> IsDigit(s[k])
  {
    if i < 0 then "-" + Digits(-i) else Digits(i)
  }

  /** How many digits `s` starts with. */
  function LeadingDigits(s: string): (k: nat)
    ensures k <= |s|
    ensures forall i :: 0 <= i < k ==> IsDigit(s[i])
    ensures k < |s| ==> !IsDigit(s[k])
  {
    if s == [] || !IsDigit(s[0]) then 0 else 1 + LeadingDigits(s[1..])
  }

  /** `parseInt(s)`: an optional sign, then the longest run of digits; `None`
      stands for `NaN`, the result when no digit follows the sign. */
  function ParseInt(s: string): (r: Option<int>)
    ensures var body := if |s| > 0 && (s[0] == '-' || s[0] == '+') then s[1..] else s;
      r.None? <==> body == [] || !IsDigit(body[0])
    ensures r.Some? && r.value < 0 ==> s[0] == '-'
    ensures |s| > 0 && (forall k :: 0 <= k < |s| ==> IsDigit(s[k])) ==> r == Some(ValueOf(s) as int)
  {
    var negative := |s| > 0 && s[0] == '-';
    var body := if |s| > 0 && (s[0] == '-' || s[0] == '+') then s[1..] else s;
    var k := LeadingDigits(body);
    LeadingDigitsAll(body);
    assert body[..|body|] == body;
    if k == 0 then None
    else if negative then Some(-(ValueOf(body[..k]) as int))
    else Some(ValueOf(body[..k]) as int)
  }

  lemma {:induction false} ValueOfDigits(n: nat)
    ensures ValueOf(Digits(n)) == n
    decreases n
  {
    var s := Digits(n);
    if n >= 10 {
      ValueOfDigits(n / 10);
      assert s[..|s| - 1] == Digits(n / 10);
    }
  }

  /** An all-digit string is read to its end. */
  lemma LeadingDigitsAll(s: string)
    ensures (forall i :: 0 <= i < |s| ==> IsDigit(s[i])) ==> LeadingDigits(s) == |s|
  {
  }

  /** Reading back the text of an integer gives the integer. */
  lemma ParseIntToString(i: int)
    ensures ParseInt(IntToString(i)) == Some(i)
  {
    var d := if i < 0 then Digits(-i) else Digits(i);
    var s := IntToString(i);
    if i < 0 {
      assert s[1..] == d;
    } else {
      assert s == d && s[0] != '-' && s[0] != '+';
    }
    LeadingDigitsAll(d);
    assert d[..|d|] == d;
    ValueOfDigits(if i < 0 then -i else i);
  }

  /** Distinct numbers have distinct digit strings. */
  lemma DigitsInjective(a: nat, b: nat)
    requires Digits(a) == Digits(b)
    ensures a == b
  {
    ValueOfDigits(a);
    ValueOfDigits(b);
  }
}
