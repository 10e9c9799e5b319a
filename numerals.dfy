/** Rendering of integers as digit strings, the way `Number.prototype.toString(radix)`
    renders an integral number: lower-case digits, no leading zeros, a leading '-'
    for negative numbers. Used for the base-36 timestamp of `uniqueId` and for the
    decimal index keys that object spread produces from arrays and strings. */
module Numerals {

  /** The character for digit `d` (0-9 then a-z). */
  function DigitChar(d: nat): (c: char)
    requires d < 36
  {
    if d < 10 then '0' + d as char else 'a' + (d - 10) as char
  }

  predicate IsDigit(c: char, base: nat) {
    ('0' <= c <= '9' && (c as int - '0' as int) < base)
    || ('a' <= c <= 'z' && (c as int - 'a' as int) + 10 < base)
  }

  /** The value of digit character `c` (the inverse of DigitChar). */
  function DigitValue(c: char): nat {
    if '0' <= c <= '9' then c as int - '0' as int
    else if 'a' <= c <= 'z' then c as int - 'a' as int + 10
    else 0
  }

  lemma DigitRoundTrip(d: nat)
    requires d < 36
    ensures DigitValue(DigitChar(d)) == d
  {
  }

  /** The digits of `n` in the given base, most significant first. */
  function ToRadix(n: nat, base: nat): (r: string)
    requires 2 <= base <= 36
    ensures |r| >= 1
    ensures forall i :: 0 <= i < |r| ==> IsDigit(r[i], base)
    decreases n
  {
    if n < base then [DigitChar(n)]
    else
      DivisionShrinks(n, base);
      ToRadix(n / base, base) + [DigitChar(n % base)]
  }

  lemma DivisionShrinks(n: nat, base: nat)
    requires 2 <= base <= n
    ensures n / base < n && n % base < base
    ensures (n / base) * base + n % base == n
  {
    var q, r := n / base, n % base;
    assert q * base + r == n;
  }

  /** Reads a digit string back as a number (most significant digit first). */
  function FromRadix(s: string, base: nat): nat {
    if |s| == 0 then 0 else FromRadix(s[..|s| - 1], base) * base + DigitValue(s[|s| - 1])
  }

  /** Reading back a rendered number gives the number. */
  lemma {:induction false} RadixRoundTrip(n: nat, base: nat)
    requires 2 <= base <= 36
    ensures FromRadix(ToRadix(n, base), base) == n
    decreases n
  {
    if n < base {
      DigitRoundTrip(n);
    } else {
      DivisionShrinks(n, base);
      var q, d := n / base, n % base;
      var r := ToRadix(n, base);
      assert r == ToRadix(q, base) + [DigitChar(d)];
      assert r[..|r| - 1] == ToRadix(q, base);
      DigitRoundTrip(d);
      RadixRoundTrip(q, base);
      assert FromRadix(r, base) == q * base + d;
    }
  }

  /** Different numbers have different renderings. */
  lemma RadixInjective(n: nat, m: nat, base: nat)
    requires 2 <= base <= 36
    ensures ToRadix(n, base) == ToRadix(m, base) ==> n == m
  {
    RadixRoundTrip(n, base);
    RadixRoundTrip(m, base);
  }

  /** No leading zero: only the number 0 renders with a first digit '0'. */
  lemma {:induction false} RadixNoLeadingZero(n: nat, base: nat)
    requires 2 <= base <= 36
    ensures ToRadix(n, base)[0] == '0' <==> n == 0
    decreases n
  {
    if n >= base {
      DivisionShrinks(n, base);
      var q := n / base;
      assert q != 0;
      assert ToRadix(n, base)[0] == ToRadix(q, base)[0];
      RadixNoLeadingZero(q, base);
    }
  }

  /** `n.toString(base)` for an integral number `n`, negative ones included. */
  function IntToString(n: int, base: nat): (r: string)
    requires 2 <= base <= 36
  {
    if n < 0 then "-" + ToRadix(-n, base) else ToRadix(n, base)
  }

  /** Different integers render differently. */
  lemma IntToStringInjective(n: int, m: int, base: nat)
    requires 2 <= base <= 36
    ensures IntToString(n, base) == IntToString(m, base) ==> n == m
  {
    var sn, sm := IntToString(n, base), IntToString(m, base);
    if n < 0 && m < 0 {
      if sn == sm {
        assert ToRadix(-n, base) == sn[1..] == sm[1..] == ToRadix(-m, base);
        RadixInjective(-n, -m, base);
      }
    } else if n >= 0 && m >= 0 {
      RadixInjective(n, m, base);
    } else if n < 0 {
      assert sm[0] != '-' by { assert IsDigit(ToRadix(m, base)[0], base); }
    } else {
      assert sn[0] != '-' by { assert IsDigit(ToRadix(n, base)[0], base); }
    }
  }

  /** The decimal string of an array or string index, as used for property keys. */
  function IndexKey(i: nat): string {
    ToRadix(i, 10)
  }

  lemma IndexKeyInjective()
    ensures forall i: nat, j: nat {:trigger IndexKey(i), IndexKey(j)} :: IndexKey(i) == IndexKey(j) ==> i == j
  {
    forall i: nat, j: nat | IndexKey(i) == IndexKey(j)
      ensures i == j
    {
      RadixInjective(i, j, 10);
    }
  }
}
