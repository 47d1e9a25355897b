/**
 * The string helpers the rule factory and the log message rely on: prefix test,
 * first-occurrence search, and decimal rendering of counts.
 */
module Strings {

  predicate StartsWith(s: string, prefix: string)
  {
    |prefix| <= |s| && s[..|prefix|] == prefix
  }

  /** `target` occurs in `s` starting at index `i`. */
  predicate OccursAt(s: string, target: string, i: int)
  {
    0 <= i && i + |target| <= |s| && s[i..i + |target|] == target
  }

  /** Index of the first occurrence of `target` in `s` at or after `from`, or -1. */
  function IndexFrom(s: string, target: string, from: nat): (r: int)
    ensures r == -1 || (from <= r && OccursAt(s, target, r))
    ensures forall i :: from <= i && (r == -1 || i < r) ==> !OccursAt(s, target, i)
    decreases |s| - from
  {
    if from + |target| > |s| then -1
    else if s[from..from + |target|] == target then from
    else IndexFrom(s, target, from + 1)
  }

  /** Index of the first occurrence of `target` in `s`, or -1 when there is none. */
  function IndexOf(s: string, target: string): (r: int)
    ensures r == -1 <==> forall i :: !OccursAt(s, target, i)
    ensures r != -1 ==> OccursAt(s, target, r) && forall i :: 0 <= i < r ==> !OccursAt(s, target, i)
  {
    IndexFrom(s, target, 0)
  }

  predicate IsDigit(c: char)
  {
    '0' <= c <= '9'
  }

  /** Decimal rendering of a count, as string interpolation prints it. */
  function Decimal(n: nat): (s: string)
    ensures |s| > 0
    ensures forall i :: 0 <= i < |s| ==> IsDigit(s[i])
  {
    if n < 10 then [('0' as int + n) as char]
    else Decimal(n / 10) + [('0' as int + n % 10) as char]
  }

  /** Value of a string of decimal digits. */
  function ParseDecimal(s: string): nat
  {
    if s == [] then 0
    else 10 * ParseDecimal(s[..|s| - 1]) + ((s[|s| - 1] as int - '0' as int) % 10)
  }

  /** Rendering then reading back a count gives the count. */
  lemma {:induction false} DecimalRoundTrip(n: nat)
    ensures ParseDecimal(Decimal(n)) == n
  {
    var s := Decimal(n);
    if n >= 10 {
      DecimalRoundTrip(n / 10);
      assert s[..|s| - 1] == Decimal(n / 10);
    }
  }

  /** Distinct counts have distinct renderings. */
  lemma DecimalInjective(x: nat, y: nat)
    requires Decimal(x) == Decimal(y)
    ensures x == y
  {
    DecimalRoundTrip(x);
    DecimalRoundTrip(y);
  }

  /** A rendered count followed by text that does not start with a digit can be
      separated again: the count and the rest are both determined. */
  lemma DecimalPrefixUnique(x: nat, y: nat, rest1: string, rest2: string)
    requires rest1 == [] || !IsDigit(rest1[0])
    requires rest2 == [] || !IsDigit(rest2[0])
    requires Decimal(x) + rest1 == Decimal(y) + rest2
    ensures x == y && rest1 == rest2
  {
    var dx, dy := Decimal(x), Decimal(y);
    var whole := dx + rest1;
    assert rest1 != [] ==> whole[|dx|] == rest1[0];
    assert rest2 != [] ==> whole[|dy|] == rest2[0];
    assert forall i :: 0 <= i < |dx| ==> whole[i] == dx[i];
    assert forall i :: 0 <= i < |dy| ==> whole[i] == dy[i];
    assert |dx| == |dy|;
    assert dx == whole[..|dx|] == dy;
    DecimalInjective(x, y);
    assert rest1 == whole[|dx|..] == rest2;
  }
}
