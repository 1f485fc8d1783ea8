/** The string operations the notebook relies on: Python's substring test
    `sub in s` and the decimal rendering of an integer by `"{}".format(i)`. */
module Text {

  /** Python's `sub in s`: `sub` occurs somewhere in `s` (the empty string occurs everywhere). */
  predicate Contains(s: string, sub: string)
    decreases |s|
  {
    sub <= s || (|s| > 0 && Contains(s[1..], sub))
  }

  /** `sub` occurs in `s` starting at position `i`. */
  ghost predicate OccursAt(s: string, sub: string, i: int)
  {
    0 <= i && i + |sub| <= |s| && s[i..i + |sub|] == sub
  }

  /** An occurrence at any position makes the recursive test succeed. */
  lemma {:induction false} OccurrenceIsContained(s: string, sub: string, i: int)
    requires OccursAt(s, sub, i)
    ensures Contains(s, sub)
    decreases i
  {
    if i == 0 {
      assert s[..|sub|] == sub;
    } else {
      assert s[1..][i - 1..i - 1 + |sub|] == s[i..i + |sub|];
      OccurrenceIsContained(s[1..], sub, i - 1);
    }
  }

  /** A successful recursive test has an occurrence at some position. */
  lemma {:induction false} ContainedOccurs(s: string, sub: string)
    requires Contains(s, sub)
    ensures exists i :: OccursAt(s, sub, i)
    decreases |s|
  {
    if sub <= s {
      assert s[0..|sub|] == sub;
      assert OccursAt(s, sub, 0);
    } else {
      ContainedOccurs(s[1..], sub);
      var i :| OccursAt(s[1..], sub, i);
      assert s[i + 1..i + 1 + |sub|] == s[1..][i..i + |sub|];
      assert OccursAt(s, sub, i + 1);
    }
  }

  /** The recursive test agrees with the positional definition of an occurrence. */
  lemma ContainsIffOccurs(s: string, sub: string)
    ensures Contains(s, sub) <==> exists i :: OccursAt(s, sub, i)
  {
    forall i | OccursAt(s, sub, i)
      ensures Contains(s, sub)
    {
      OccurrenceIsContained(s, sub, i);
    }
    if Contains(s, sub) {
      ContainedOccurs(s, sub);
    }
  }

  /** Prefixing a string keeps every occurrence it already had. */
  lemma {:induction false} ContainsAfterPrefix(p: string, s: string, sub: string)
    requires Contains(s, sub)
    ensures Contains(p + s, sub)
  {
    ContainsIffOccurs(s, sub);
    var i :| OccursAt(s, sub, i);
    assert (p + s)[|p| + i..|p| + i + |sub|] == s[i..i + |sub|];
    assert OccursAt(p + s, sub, |p| + i);
    ContainsIffOccurs(p + s, sub);
  }

  /** The character of a decimal digit. */
  function DigitChar(d: nat): (c: char)
    requires d < 10
    ensures '0' <= c <= '9'
    ensures c as int - '0' as int == d
  {
    ('0' as int + d) as char
  }

  predicate IsDigit(c: char)
  {
    '0' <= c <= '9'
  }

  /** Python's `str(n)` for a natural number: the shortest decimal digit string. */
  function NatText(n: nat): (s: string)
    ensures |s| >= 1
    ensures forall k :: 0 <= k < |s| ==> IsDigit(s[k])
    ensures s[0] == '0' ==> n == 0
    decreases n
  {
    if n < 10 then [DigitChar(n)] else NatText(n / 10) + [DigitChar(n % 10)]
  }

  /** Python's `str(i)` for any integer: a minus sign before the digits of a negative. */
  function IntText(i: int): (s: string)
    ensures |s| >= 1
    ensures i < 0 <==> s[0] == '-'
    ensures forall k :: 0 <= k < |s| ==> s[k] == '-' || IsDigit(s[k])
  {
    if i < 0 then "-" + NatText(-i) else NatText(i)
  }

  /** Reads back a string of decimal digits, most significant first. */
  function ParseNat(s: string): nat
    requires forall k :: 0 <= k < |s| ==> IsDigit(s[k])
  {
    if s == [] then 0
    else
      assert IsDigit(s[|s| - 1]);
      ParseNat(s[..|s| - 1]) * 10 + (s[|s| - 1] as int - '0' as int)
  }

  /** Reads back the rendering of an integer. */
  function ParseInt(s: string): int
  {
    if |s| > 0 && s[0] == '-' && forall k :: 1 <= k < |s| ==> IsDigit(s[k])
    then -(ParseNat(s[1..]) as int)
    else if forall k :: 0 <= k < |s| ==> IsDigit(s[k]) then ParseNat(s)
    else 0
  }

  /** Reading a natural number's rendering gives the number back. */
  lemma {:induction false} NatTextRoundTrip(n: nat)
    ensures ParseNat(NatText(n)) == n
    decreases n
  {
    if n >= 10 {
      var s := NatText(n);
      assert s[..|s| - 1] == NatText(n / 10);
      NatTextRoundTrip(n / 10);
    }
  }

  /** Reading an integer's rendering gives the integer back, so distinct
      integers are rendered as distinct strings. */
  lemma IntTextRoundTrip(i: int)
    ensures ParseInt(IntText(i)) == i
  {
    if i < 0 {
      var s := IntText(i);
      assert s[1..] == NatText(-i);
      NatTextRoundTrip(-i);
    } else {
      NatTextRoundTrip(i);
    }
  }

  /** Two integers with the same rendering are equal. */
  lemma IntTextInjective(i: int, j: int)
    requires IntText(i) == IntText(j)
    ensures i == j
  {
    IntTextRoundTrip(i);
    IntTextRoundTrip(j);
  }
}
