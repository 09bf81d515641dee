/** Decimal numerals, as ECMAScript prints non-negative integers and as the sources read them. */
module Decimal {
  import opened Wrappers

  const MAX_SAFE_INTEGER: nat := 0x1F_FFFF_FFFF_FFFF

  predicate IsDigit(c: char) {
    '0' <= c <= '9'
  }

  predicate AllDigits(s: string) {
    forall k :: 0 <= k < |s| ==> IsDigit(s[k])
  }

  function DigitOf(d: nat): (c: char)
    requires d < 10
    ensures IsDigit(c) && DigitValue(c) == d
  {
    '0' + d as char
  }

  function DigitValue(c: char): (d: nat)
    requires IsDigit(c)
    ensures d < 10
  {
    c as int - '0' as int
  }

  function Print(n: nat): (s: string)
    ensures |s| > 0 && AllDigits(s)
    decreases n
  {
    if n < 10 then [DigitOf(n)] else Print(n / 10) + [DigitOf(n % 10)]
  }

  function Value(s: string): nat
    requires AllDigits(s)
  {
    if s == "" then 0 else Value(s[..|s| - 1]) * 10 + DigitValue(s[|s| - 1])
  }

  /** No leading zero, except in "0" itself. */
  predicate IsCanonical(s: string) {
    s != "" && AllDigits(s) && (|s| > 1 ==> s[0] != '0')
  }

  lemma {:induction false} ValueOfPrint(n: nat)
    ensures IsCanonical(Print(n)) && Value(Print(n)) == n
    ensures n > 0 ==> Print(n)[0] != '0'
    decreases n
  {
    if n >= 10 {
      ValueOfPrint(n / 10);
      assert Print(n)[..|Print(n)| - 1] == Print(n / 10);
    }
  }

  lemma {:induction false} CanonicalIsPositive(s: string)
    requires IsCanonical(s) && s != "0"
    ensures Value(s) > 0
    decreases |s|
  {
    if |s| > 1 {
      CanonicalIsPositive(s[..|s| - 1]);
    }
  }

  lemma {:induction false} PrintOfValue(s: string)
    requires IsCanonical(s)
    ensures Print(Value(s)) == s
    decreases |s|
  {
    if |s| > 1 {
      CanonicalIsPositive(s[..|s| - 1]);
      PrintOfValue(s[..|s| - 1]);
    } else {
      assert Value(s[..0]) == 0;
      assert s == [DigitOf(DigitValue(s[0]))];
    }
  }
}
