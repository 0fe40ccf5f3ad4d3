/** Strings as the pages build and read them: decimal rendering of numbers (the
    `${n}` of a template literal) and the first piece of `String.split`. */
module Text {

  /** The decimal digit character for `d`. */
  function DigitChar(d: nat): (c: char)
    requires d < 10
    ensures '0' <= c <= '9'
    ensures c as int - '0' as int == d
  {
    ('0' as int + d) as char
  }

  /** Decimal rendering of a natural number, without leading zeros. */
  function NatToString(n: nat): (s: string)
    ensures 1 <= |s|
    ensures forall i :: 0 <= i < |s| ==> '0' <= s[i] <= '9'
    ensures n >= 10 ==> 2 <= |s|
    decreases n
  {
    if n < 10 then [DigitChar(n)] else NatToString(n / 10) + [DigitChar(n % 10)]
  }

  /** Decimal rendering of an integer, with a leading '-' when negative
      (JavaScript's rendering of an integral number). */
  function IntToString(i: int): (s: string)
    ensures 1 <= |s|
    ensures (s[0] == '-') <==> i < 0
  {
    if i < 0 then "-" + NatToString(-i) else NatToString(i)
  }

  /** Distinct numbers are rendered as distinct strings. */
  lemma {:induction false} NatToStringInjective(a: nat, b: nat)
    requires NatToString(a) == NatToString(b)
    ensures a == b
    decreases a
  {
    var sa, sb := NatToString(a), NatToString(b);
    if a < 10 && b < 10 {
      assert DigitChar(a) == sa[0] == sb[0] == DigitChar(b);
    } else if a >= 10 && b >= 10 {
      assert sa[..|sa| - 1] == NatToString(a / 10);
      assert sb[..|sb| - 1] == NatToString(b / 10);
      NatToStringInjective(a / 10, b / 10);
      assert DigitChar(a % 10) == sa[|sa| - 1] == sb[|sb| - 1] == DigitChar(b % 10);
    }
  }

  lemma IntToStringInjective(a: int, b: int)
    requires IntToString(a) == IntToString(b)
    ensures a == b
  {
    if a < 0 {
      assert IntToString(a)[1..] == NatToString(-a);
      assert IntToString(b)[1..] == NatToString(-b);
      NatToStringInjective(-a, -b);
    } else {
      NatToStringInjective(a, b);
    }
  }

  /** True when `sep` occurs in `s` starting at index `i`. */
  predicate OccursAt(s: string, sep: string, i: nat)
  {
    i + |sep| <= |s| && s[i..i + |sep|] == sep
  }

  /** `s.split(sep)[0]`: the part of `s` before the first occurrence of `sep`,
      or the whole of `s` when `sep` does not occur. */
  function SplitHead(s: string, sep: string): (r: string)
    requires |sep| > 0
    ensures r <= s
    ensures r == s || OccursAt(s, sep, |r|)
    ensures forall i :: 0 <= i < |r| ==> !OccursAt(s, sep, i)
    decreases |s|
  {
    if |s| < |sep| then s
    else if s[..|sep|] == sep then []
    else
      var tail := SplitHead(s[1..], sep);
      assert forall i :: 1 <= i <= |tail| ==> (OccursAt(s, sep, i) <==> OccursAt(s[1..], sep, i - 1)) by {
        forall i | 1 <= i <= |tail| ensures OccursAt(s, sep, i) <==> OccursAt(s[1..], sep, i - 1) {
          if i + |sep| <= |s| {
            assert s[i..i + |sep|] == s[1..][i - 1..i - 1 + |sep|];
          }
        }
      }
      [s[0]] + tail
  }

  /** When `sep` first occurs in `p + rest` exactly where `rest` begins,
      splitting on `sep` gives back `p`. */
  lemma SplitHeadAtBoundary(p: string, rest: string, sep: string)
    requires |sep| > 0
    requires OccursAt(p + rest, sep, |p|)
    requires forall i :: 0 <= i < |p| ==> !OccursAt(p + rest, sep, i)
    ensures SplitHead(p + rest, sep) == p
  {
    var s := p + rest;
    var r := SplitHead(s, sep);
    assert r == s[..|r|] && p == s[..|p|];
  }
}
