/**
 * String helpers shared by the model: prefix/substring tests and the
 * formatting of integers the way JavaScript's `Number.prototype.toString`
 * does for integral values (base 10 or 16, lower-case digits, a leading
 * `-` for negative values).
 */
module Text {

  predicate StartsWith(s: string, p: string) {
    |p| <= |s| && s[..|p|] == p
  }

  predicate EndsWith(s: string, p: string) {
    |p| <= |s| && s[|s| - |p|..] == p
  }

  /** `t` occurs in `s` starting at index `i`. */
  predicate OccursAt(s: string, t: string, i: int) {
    0 <= i <= |s| - |t| && s[i..i + |t|] == t
  }

  /** `s.includes(t)` */
  predicate Contains(s: string, t: string) {
    exists i | 0 <= i <= |s| - |t| :: OccursAt(s, t, i)
  }

  /** Index of the first `c`, or `|s|`. */
  function FirstIndex(s: string, c: char): (r: nat)
    ensures r <= |s| && (r < |s| ==> s[r] == c)
    ensures forall j | 0 <= j < r :: s[j] != c
  {
    if |s| == 0 || s[0] == c then 0 else 1 + FirstIndex(s[1..], c)
  }

  /** The first occurrence is pinned by its position and the absence of earlier ones. */
  lemma FirstIndexAt(s: string, c: char, k: nat)
    requires k <= |s| && (k < |s| ==> s[k] == c)
    requires forall j | 0 <= j < k :: s[j] != c
    ensures FirstIndex(s, c) == k
  {
  }

  /** Two strings cut at their first separator: equal joins mean equal halves when the left parts hold no separator. */
  lemma SplitAtFirst(a: string, b: string, x: string, y: string, c: char)
    requires c !in a && c !in x
    requires a + [c] + b == x + [c] + y
    ensures a == x && b == y
  {
    var s := a + [c] + b;
    assert s[|a|] == c && forall j | 0 <= j < |a| :: s[j] != c by {
      forall j | 0 <= j < |a| ensures s[j] != c { assert s[j] == a[j]; }
    }
    FirstIndexAt(s, c, |a|);
    var t := x + [c] + y;
    assert t[|x|] == c && forall j | 0 <= j < |x| :: t[j] != c by {
      forall j | 0 <= j < |x| ensures t[j] != c { assert t[j] == x[j]; }
    }
    FirstIndexAt(t, c, |x|);
    assert a == s[..|a|] && x == t[..|x|];
    assert b == s[|a| + 1..] && y == t[|x| + 1..];
  }

  /** The character for digit `d`: `0`-`9`, then `a`-`f`. */
  function DigitChar(d: nat): (c: char)
    requires d < 16
    ensures c != '-' && c != '"'
  {
    if d < 10 then ('0' as int + d) as char else ('a' as int + d - 10) as char
  }

  /** The digits of `n` in `base`, most significant first, without leading zeros. */
  function NatDigits(n: nat, base: nat): (r: string)
    requires 2 <= base <= 16
    ensures |r| >= 1
    ensures n >= base ==> |r| >= 2
    ensures '-' !in r && '"' !in r
    decreases n
  {
    if n < base then [DigitChar(n)] else NatDigits(n / base, base) + [DigitChar(n % base)]
  }

  /** `n.toString(base)` for an integral number `n`. */
  function IntToString(n: int, base: nat): string
    requires 2 <= base <= 16
  {
    if n < 0 then "-" + NatDigits(-n, base) else NatDigits(n, base)
  }

  function Decimal(n: int): string { IntToString(n, 10) }

  function Hex(n: int): string { IntToString(n, 16) }

  lemma DigitCharInjective(a: nat, b: nat)
    requires a < 16 && b < 16 && DigitChar(a) == DigitChar(b)
    ensures a == b
  {
  }

  lemma DivModDetermines(a: nat, b: nat, base: nat)
    requires base >= 2 && a / base == b / base && a % base == b % base
    ensures a == b
  {
    assert a == base * (a / base) + a % base;
    assert b == base * (b / base) + b % base;
  }

  lemma QuotientSmaller(n: nat, base: nat)
    requires base >= 2 && n >= base
    ensures 0 < n / base < n
  {
  }

  /** A digit string of at least two digits splits into the digits of the quotient and the last digit. */
  lemma NatDigitsSplit(n: nat, base: nat)
    requires 2 <= base <= 16 && n >= base
    ensures NatDigits(n, base)[..|NatDigits(n, base)| - 1] == NatDigits(n / base, base)
    ensures NatDigits(n, base)[|NatDigits(n, base)| - 1] == DigitChar(n % base)
  {
  }

  /** Distinct numbers have distinct digit strings. */
  lemma {:induction false} NatDigitsInjective(a: nat, b: nat, base: nat)
    requires 2 <= base <= 16
    requires NatDigits(a, base) == NatDigits(b, base)
    ensures a == b
    decreases a
  {
    if a < base {
      DigitCharInjective(a, b);
    } else {
      NatDigitsSplit(a, base);
      NatDigitsSplit(b, base);
      DigitCharInjective(a % base, b % base);
      QuotientSmaller(a, base);
      NatDigitsInjective(a / base, b / base, base);
      DivModDetermines(a, b, base);
    }
  }

  /** The JavaScript rendering of integers is injective. */
  lemma IntToStringInjective(a: int, b: int, base: nat)
    requires 2 <= base <= 16
    requires IntToString(a, base) == IntToString(b, base)
    ensures a == b
  {
    var ra, rb := IntToString(a, base), IntToString(b, base);
    if a < 0 && b < 0 {
      assert NatDigits(-a, base) == ra[1..] == rb[1..] == NatDigits(-b, base);
      NatDigitsInjective(-a, -b, base);
    } else if a >= 0 && b >= 0 {
      NatDigitsInjective(a, b, base);
    }
  }
}
