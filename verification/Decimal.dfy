/** Unsigned decimal numbers as the standard formatter prints them and the
    standard parser reads them back. */
module Decimal {
  import opened Wrappers

  const U64_MAX: nat := 0xFFFF_FFFF_FFFF_FFFF
  const U32_MAX: nat := 0xFFFF_FFFF

  predicate IsDigit(c: char) {
    '0' <= c <= '9'
  }

  predicate AllDigits(s: string) {
    forall i :: 0 <= i < |s| ==> IsDigit(s[i])
  }

  function Digit(d: nat): (c: char)
    requires d < 10
    ensures IsDigit(c)
  {
    ('0' as int + d) as char
  }

  /** The number as printed: no sign, no leading zero. */
  function Print(n: nat): (s: string)
    ensures s != "" && AllDigits(s)
  {
    if n < 10 then [Digit(n)] else Print(n / 10) + [Digit(n % 10)]
  }

  function Value(s: string): nat
    requires AllDigits(s)
  {
    if s == "" then 0
    else 10 * Value(s[..|s| - 1]) + (s[|s| - 1] as int - '0' as int)
  }

  /** Reading: an optional plus sign, at least one digit, nothing else, and no
      value above the width's maximum. */
  function Parse(s: string, max: nat): Option<nat>
  {
    var digits := if s != "" && s[0] == '+' then s[1..] else s;
    if digits != "" && AllDigits(digits) && Value(digits) <= max
    then Some(Value(digits))
    else None
  }

  lemma {:induction false} ValueOfPrint(n: nat)
    ensures Value(Print(n)) == n
  {
    if 10 <= n {
      ValueOfPrint(n / 10);
      assert Print(n)[..|Print(n)| - 1] == Print(n / 10);
    }
  }

  /** Printing and then reading gives the number back exactly when it fits. */
  lemma PrintThenParse(n: nat, max: nat)
    ensures Parse(Print(n), max) == if n <= max then Some(n) else None
  {
    ValueOfPrint(n);
    assert IsDigit(Print(n)[0]);
  }

  /** A printed number has no leading zero. */
  lemma {:induction false} PrintLeads(n: nat)
    ensures |Print(n)| > 1 ==> Print(n)[0] != '0'
    ensures n > 0 ==> Print(n)[0] != '0'
  {
    if 10 <= n { PrintLeads(n / 10); }
  }

  /** Reading and then printing gives the text back exactly when it is written
      the way numbers print: digits only, no leading zero. */
  lemma ParseThenPrint(s: string, max: nat)
    requires Parse(s, max).Some?
    ensures Print(Parse(s, max).value) == s <==> IsDigit(s[0]) && (s[0] != '0' || |s| == 1)
  {
    if IsDigit(s[0]) && (s[0] != '0' || |s| == 1) {
      PrintOfValue(s);
    } else if Print(Parse(s, max).value) == s {
      PrintLeads(Parse(s, max).value);
    }
  }

  lemma {:induction false} PrintOfValue(s: string)
    requires s != "" && AllDigits(s) && (s[0] != '0' || |s| == 1)
    ensures Print(Value(s)) == s
    ensures |s| > 1 ==> Value(s) >= 10
  {
    var n := |s| - 1;
    if n > 0 {
      var front := s[..n];
      PrintOfValue(front);
      assert |front| == 1 ==> front[..0] == "" && Value(front) == front[0] as int - '0' as int;
      assert s == front + [s[n]];
    } else {
      assert s[..0] == "";
    }
  }

  /** What reads as a number: digits, with a plus sign before them or not, that
      come to no more than the maximum. */
  lemma ParseReads(s: string, max: nat)
    ensures AllDigits(s) && s != "" ==>
              Parse("+" + s, max) == Parse(s, max) == if Value(s) <= max then Some(Value(s)) else None
    ensures Parse(s, max).Some? ==> s != "" && s != "+" && AllDigits(s[1..]) && (s[0] == '+' || IsDigit(s[0]))
  {
    assert ("+" + s)[1..] == s;
    if AllDigits(s) && s != "" { assert IsDigit(s[0]); }
  }

  lemma PrintInjective(m: nat, n: nat)
    requires Print(m) == Print(n)
    ensures m == n
  {
    ValueOfPrint(m);
    ValueOfPrint(n);
  }
}
