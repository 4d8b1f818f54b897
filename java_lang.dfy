/**
 * The few pieces of the Java platform the data dump relies on, written out:
 * fixed-width integers and the narrowing `Number.intValue()`, the ordering of
 * `String.compareTo`, ASCII case mapping for `toLowerCase`/`equalsIgnoreCase`,
 * and the decimal text of `Integer.toString`/`Long.toString`.
 */
module JavaLang {

  const TWO_32: int := 0x1_0000_0000
  const MIN_INT: int := -0x8000_0000
  const MAX_INT: int := 0x7fff_ffff

  type Int8 = x: int | -0x80 <= x < 0x80
  type Int16 = x: int | -0x8000 <= x < 0x8000
  type Int32 = x: int | -0x8000_0000 <= x < 0x8000_0000
  type Int64 = x: int | -0x8000_0000_0000_0000 <= x < 0x8000_0000_0000_0000

  /** `(int) x` in Java: keep the low 32 bits, read them in two's complement. */
  function Low32(x: int): (r: Int32)
    ensures (r - x) % TWO_32 == 0
    ensures MIN_INT <= x <= MAX_INT ==> r == x
  {
    var m := (x - MIN_INT) % TWO_32;
    m + MIN_INT
  }

  /** Narrowing keeps a value exactly when it already fits in 32 bits. */
  lemma Low32Exact(x: int)
    ensures Low32(x) == x <==> MIN_INT <= x <= MAX_INT
  {
  }

  /** Two inputs narrow to the same int exactly when they agree modulo 2^32. */
  lemma Low32Congruent(x: int, y: int)
    ensures Low32(x) == Low32(y) <==> (x - y) % TWO_32 == 0
  {
    var rx, ry := Low32(x), Low32(y);
    assert (rx - x) % TWO_32 == 0 && (ry - y) % TWO_32 == 0;
    if (x - y) % TWO_32 == 0 {
      assert (rx - ry) % TWO_32 == ((rx - x) + (x - y) - (ry - y)) % TWO_32;
      assert -TWO_32 < rx - ry < TWO_32;
    }
  }

  // ---------------------------------------------------------------------
  // String.compareTo

  /**
   * `a.compareTo(b) < 0`: at the first index where the two differ the
   * character of `a` is smaller, or `a` is a proper prefix of `b`.
   */
  predicate LexLess(a: string, b: string)
  {
    if |a| == 0 then |b| > 0
    else if |b| == 0 then false
    else if a[0] != b[0] then a[0] < b[0]
    else LexLess(a[1..], b[1..])
  }

  /** `a.compareTo(b) <= 0`. */
  predicate LexLessEq(a: string, b: string)
  {
    a == b || LexLess(a, b)
  }

  lemma {:induction false} LexLessIrreflexive(a: string)
    ensures !LexLess(a, a)
  {
    if |a| > 0 {
      LexLessIrreflexive(a[1..]);
    }
  }

  lemma {:induction false} LexLessTransitive(a: string, b: string, c: string)
    requires LexLess(a, b) && LexLess(b, c)
    ensures LexLess(a, c)
  {
    if |a| > 0 && |b| > 0 && |c| > 0 && a[0] == b[0] && b[0] == c[0] {
      LexLessTransitive(a[1..], b[1..], c[1..]);
    }
  }

  /** compareTo orders any two different strings one way or the other. */
  lemma {:induction false} LexLessTotal(a: string, b: string)
    ensures a == b || LexLess(a, b) || LexLess(b, a)
  {
    if |a| > 0 && |b| > 0 && a[0] == b[0] {
      LexLessTotal(a[1..], b[1..]);
      if a[1..] == b[1..] {
        assert a == [a[0]] + a[1..] && b == [b[0]] + b[1..];
      }
    }
  }

  lemma {:induction false} LexLessAsymmetric(a: string, b: string)
    requires LexLess(a, b)
    ensures !LexLess(b, a)
  {
    if |a| > 0 && |b| > 0 && a[0] == b[0] {
      LexLessAsymmetric(a[1..], b[1..]);
    }
  }

  lemma LexLessEqTransitive(a: string, b: string, c: string)
    requires LexLessEq(a, b) && LexLessEq(b, c)
    ensures LexLessEq(a, c)
  {
    if LexLess(a, b) && LexLess(b, c) {
      LexLessTransitive(a, b, c);
    }
  }

  // ---------------------------------------------------------------------
  // Case mapping, restricted to ASCII letters

  function LowerChar(c: char): (r: char)
    ensures 'A' <= c <= 'Z' ==> 'a' <= r <= 'z' && r as int == c as int + 32
    ensures !('A' <= c <= 'Z') ==> r == c
  {
    if 'A' <= c <= 'Z' then (c as int + 32) as char else c
  }

  /** `s.toLowerCase()` for text whose letters are ASCII. */
  function ToLower(s: string): (r: string)
    ensures |r| == |s|
    ensures forall i :: 0 <= i < |s| ==> r[i] == LowerChar(s[i])
  {
    seq(|s|, i requires 0 <= i < |s| => LowerChar(s[i]))
  }

  /** `a.equalsIgnoreCase(b)` for text whose letters are ASCII. */
  predicate EqualsIgnoreCase(a: string, b: string)
  {
    ToLower(a) == ToLower(b)
  }

  /** A text already in lower case matches, ignoring case, exactly the texts that lower-case to it. */
  lemma EqualsIgnoreCaseLowered(s: string, lowered: string)
    requires ToLower(lowered) == lowered
    ensures EqualsIgnoreCase(s, lowered) <==> ToLower(s) == lowered
  {
  }

  // ---------------------------------------------------------------------
  // Integer.toString / Long.toString

  function DigitChar(d: nat): (c: char)
    requires d < 10
    ensures '0' <= c <= '9'
  {
    ('0' as int + d) as char
  }

  function NatText(n: nat): (s: string)
    ensures |s| > 0
    ensures forall i :: 0 <= i < |s| ==> '0' <= s[i] <= '9'
    ensures n > 0 ==> s[0] != '0'
  {
    if n < 10 then [DigitChar(n)] else NatText(n / 10) + [DigitChar(n % 10)]
  }

  /** Decimal text of an integer: an optional minus sign, then digits without a leading zero. */
  function IntText(i: int): (s: string)
    ensures |s| > 0
    ensures (s[0] == '-') <==> i < 0
  {
    if i < 0 then "-" + NatText(-i) else NatText(i)
  }

  /** Reading the digits back gives the number: the text determines the value. */
  function NatValue(s: string): nat
  {
    if s == [] then 0
    else NatValue(s[..|s| - 1]) * 10 + (if '0' <= s[|s| - 1] <= '9' then s[|s| - 1] as int - '0' as int else 0)
  }

  lemma {:induction false} NatTextRoundTrip(n: nat)
    ensures NatValue(NatText(n)) == n
  {
    var s := NatText(n);
    if n >= 10 {
      NatTextRoundTrip(n / 10);
      assert s[..|s| - 1] == NatText(n / 10);
    }
  }

  /** Different naturals never print the same. */
  lemma NatTextInjective(m: nat, n: nat)
    requires NatText(m) == NatText(n)
    ensures m == n
  {
    NatTextRoundTrip(m);
    NatTextRoundTrip(n);
  }

  /** Different integers never print the same. */
  lemma IntTextInjective(i: int, j: int)
    requires IntText(i) == IntText(j)
    ensures i == j
  {
    if i < 0 && j < 0 {
      assert IntText(i)[1..] == NatText(-i);
      assert IntText(j)[1..] == NatText(-j);
      NatTextInjective(-i, -j);
    } else if i >= 0 && j >= 0 {
      NatTextInjective(i, j);
    }
  }
}
