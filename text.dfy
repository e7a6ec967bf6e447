/** String helpers that stand in for the JavaScript runtime's string operations. */
module Text {

  /** Lower-casing of one character (ASCII letters only). */
  function LowerChar(c: char): (r: char)
  {
    if 'A' <= c <= 'Z' then (c as int + 32) as char else c
  }

  /** `toLocaleLowerCase`, reduced to ASCII letters. */
  function Lower(s: string): (r: string)
    ensures |r| == |s|
    ensures forall i :: 0 <= i < |s| ==> r[i] == LowerChar(s[i])
  {
    if s == [] then [] else [LowerChar(s[0])] + Lower(s[1..])
  }

  /**
   * The `<` of JavaScript on strings, taken character by character. A Dafny `char` is a Unicode
   * scalar value, so this compares code points where JavaScript compares UTF-16 code units; the
   * two orders differ only between a character above U+FFFF and one from U+E000 to U+FFFF.
   */
  predicate LexLess(a: string, b: string)
  {
    if a == [] then b != []
    else if b == [] then false
    else if a[0] < b[0] then true
    else if a[0] > b[0] then false
    else LexLess(a[1..], b[1..])
  }

  lemma {:induction false} LexLessIrreflexive(a: string)
    ensures !LexLess(a, a)
  {
    if a != [] {
      LexLessIrreflexive(a[1..]);
    }
  }

  lemma {:induction false} LexLessAsymmetric(a: string, b: string)
    ensures !(LexLess(a, b) && LexLess(b, a))
  {
    if a != [] && b != [] && a[0] == b[0] {
      LexLessAsymmetric(a[1..], b[1..]);
    }
  }

  /** Two different strings are always ordered one way or the other. */
  lemma {:induction false} LexLessTotal(a: string, b: string)
    requires a != b
    ensures LexLess(a, b) || LexLess(b, a)
  {
    if a != [] && b != [] && a[0] == b[0] {
      assert a == [a[0]] + a[1..] && b == [b[0]] + b[1..];
      LexLessTotal(a[1..], b[1..]);
    }
  }

  /** The character of a decimal digit. */
  function DigitChar(d: nat): (r: char)
    requires d < 10
  {
    ('0' as int + d) as char
  }

  /** The decimal spelling JavaScript gives a non-negative integer when it is concatenated to a string. */
  function NatToDecimal(n: nat): (r: string)
    ensures |r| >= 1
    ensures n >= 10 ==> |r| >= 2
    ensures r[|r| - 1] == DigitChar(n % 10)
  {
    if n < 10 then [DigitChar(n)] else NatToDecimal(n / 10) + [DigitChar(n % 10)]
  }

  /** Different numbers are spelt differently. */
  lemma {:induction false} NatToDecimalInjective(n: nat, m: nat)
    requires NatToDecimal(n) == NatToDecimal(m)
    ensures n == m
  {
    var dn, dm := NatToDecimal(n), NatToDecimal(m);
    if n < 10 && m < 10 {
      assert DigitChar(n) == dn[0] == dm[0] == DigitChar(m);
    } else if n < 10 || m < 10 {
      assert false;
    } else {
      assert n % 10 == m % 10 by {
        assert DigitChar(n % 10) == dn[|dn| - 1] == dm[|dm| - 1] == DigitChar(m % 10);
      }
      assert NatToDecimal(n / 10) == dn[..|dn| - 1] == dm[..|dm| - 1] == NatToDecimal(m / 10);
      NatToDecimalInjective(n / 10, m / 10);
    }
  }

  /** A fixed prefix followed by a string determines that string. */
  lemma PrefixCancels(p: string, a: string, b: string)
    requires p + a == p + b
    ensures a == b
  {
    assert a == (p + a)[|p|..];
    assert b == (p + b)[|p|..];
  }

  /** A string framed by a fixed prefix and suffix determines that string. */
  lemma FrameCancels(p: string, a: string, b: string, q: string)
    requires p + a + q == p + b + q
    ensures a == b
  {
    assert |a| == |b|;
    assert a == (p + a + q)[|p|..|p| + |a|];
    assert b == (p + b + q)[|p|..|p| + |b|];
  }
}
