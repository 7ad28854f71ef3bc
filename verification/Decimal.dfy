/** Decimal text, as written by `std::to_string` and read back by `std::stoull`. */
module Decimal {
  import opened Common

  predicate IsDigit(c: char) { '0' <= c <= '9' }

  function Digit(d: nat): (c: char)
    requires d < 10
    ensures IsDigit(c) && DigitValue(c) == d
  {
    '0' + d as char
  }

  function DigitValue(c: char): nat
    requires IsDigit(c)
  {
    c as int - '0' as int
  }

  /** `std::to_string` on a non-negative number. */
  function Print(n: nat): (s: string)
    ensures |s| > 0 && forall i | 0 <= i < |s| :: IsDigit(s[i])
  {
    if n < 10 then [Digit(n)] else Print(n / 10) + [Digit(n % 10)]
  }

  /** The value of a run of digits, most significant first. */
  function Value(s: string): nat
    requires forall i | 0 <= i < |s| :: IsDigit(s[i])
  {
    if s == [] then 0 else 10 * Value(s[..|s| - 1]) + DigitValue(s[|s| - 1])
  }

  lemma {:induction false} ValueOfPrint(n: nat)
    ensures Value(Print(n)) == n
  {
    if n >= 10 {
      ValueOfPrint(n / 10);
      assert Print(n)[..|Print(n)| - 1] == Print(n / 10);
    } else {
      assert Print(n)[..|Print(n)| - 1] == [];
    }
  }

  lemma PrintInjective(m: nat, n: nat)
    requires Print(m) == Print(n)
    ensures m == n
  {
    ValueOfPrint(m);
    ValueOfPrint(n);
  }

  predicate IsSpace(c: char) { c == ' ' || '\t' <= c <= '\r' }

  /** Length of the leading run of characters that satisfy `p`. */
  function Span(p: char -> bool, s: string): (k: nat)
    ensures k <= |s|
    ensures forall i | 0 <= i < k :: p(s[i])
    ensures k < |s| ==> !p(s[k])
  {
    if s == [] || !p(s[0]) then 0 else 1 + Span(p, s[1..])
  }

  const UINT64_LIMIT: nat := 0x1_0000_0000_0000_0000

  /** `std::stoull`: blanks, an optional sign, then digits up to the first other
      character. `None` is the thrown `invalid_argument` or `out_of_range`. A
      minus sign negates modulo 2^64. */
  function Stoull(s: string): (r: Option<nat>)
    ensures r.Some? ==> r.value < UINT64_LIMIT
  {
    var t := s[Span(IsSpace, s)..];
    var negative := |t| > 0 && t[0] == '-';
    var u := if |t| > 0 && (t[0] == '-' || t[0] == '+') then t[1..] else t;
    var k := Span(IsDigit, u);
    if k == 0 then None
    else
      var v := Value(u[..k]);
      if v >= UINT64_LIMIT then None
      else if negative then Some((UINT64_LIMIT - v) % UINT64_LIMIT)
      else Some(v)
  }

  lemma StoullOfPrint(n: nat)
    requires n < UINT64_LIMIT
    ensures Stoull(Print(n)) == Some(n)
  {
    var s := Print(n);
    assert IsDigit(s[0]);
    assert Span(IsSpace, s) == 0;
    assert s[0..] == s;
    assert Span(IsDigit, s) == |s|;
    assert s[..|s|] == s;
    ValueOfPrint(n);
  }
}
