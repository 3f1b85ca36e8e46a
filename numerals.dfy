/**
 * Positional numerals in base 10 and base 16, as Python's `int(s, base)` reads them and
 * as its `format(n, "0<w>d")` / `format(n, "0<w>x")` writes them (lowercase digits,
 * zero padding on the left, never cut).
 */
module Numerals {
  import opened Wrappers

  function Pow(base: nat, e: nat): (p: nat)
    ensures base >= 1 ==> p >= 1
  {
    if e == 0 then 1 else base * Pow(base, e - 1)
  }

  predicate ValidBase(base: nat)
  {
    2 <= base <= 16
  }

  /** The lowercase digit for `d`. */
  function DigitChar(d: nat): char
    requires d < 16
  {
    "0123456789abcdef"[d]
  }

  /** The value of a digit character, in either case, when it is one. */
  function DigitValue(c: char): Option<nat>
  {
    if '0' <= c <= '9' then Some(c as int - '0' as int)
    else if 'a' <= c <= 'f' then Some(c as int - 'a' as int + 10)
    else if 'A' <= c <= 'F' then Some(c as int - 'A' as int + 10)
    else None
  }

  predicate IsDigit(c: char, base: nat)
  {
    DigitValue(c).Some? && DigitValue(c).value < base
  }

  predicate IsDigitString(s: string, base: nat)
  {
    forall i :: 0 <= i < |s| ==> IsDigit(s[i], base)
  }

  predicate IsLowercaseDigit(c: char)
  {
    '0' <= c <= '9' || 'a' <= c <= 'f'
  }

  /** The shortest numeral for `n` (`"0"` for zero). */
  function ToBase(n: nat, base: nat): string
    requires ValidBase(base)
    decreases n
  {
    if n < base then [DigitChar(n)]
    else ToBase(n / base, base) + [DigitChar(n % base)]
  }

  /** The number a digit string denotes. */
  function FromBase(s: string, base: nat): nat
    requires IsDigitString(s, base)
  {
    if s == [] then 0
    else FromBase(s[..|s| - 1], base) * base + DigitValue(s[|s| - 1]).value
  }

  /** `s` preceded by enough copies of `c` to make it `width` long; never shortened. */
  function PadLeft(s: string, width: nat, c: char): (r: string)
    ensures |r| == if |s| < width then width else |s|
    ensures forall i :: 0 <= i < |r| - |s| ==> r[i] == c
    ensures r[|r| - |s|..] == s
  {
    if |s| < width then seq(width - |s|, _ => c) + s else s
  }

  lemma {:induction false} DigitCharValue(d: nat)
    requires d < 16
    ensures DigitValue(DigitChar(d)) == Some(d)
    ensures IsLowercaseDigit(DigitChar(d))
  {
    assert "0123456789abcdef"[d] as int == if d < 10 then '0' as int + d else 'a' as int + d - 10;
  }

  /** A numeral is made of lowercase digits of its base and is at least one digit long. */
  lemma {:induction false} ToBaseDigits(n: nat, base: nat)
    requires ValidBase(base)
    ensures |ToBase(n, base)| >= 1
    ensures IsDigitString(ToBase(n, base), base)
    ensures forall i :: 0 <= i < |ToBase(n, base)| ==> IsLowercaseDigit(ToBase(n, base)[i])
    decreases n
  {
    if n < base {
      DigitCharValue(n);
    } else {
      ToBaseDigits(n / base, base);
      DigitCharValue(n % base);
    }
  }

  /** Reading a written numeral back gives the number. */
  lemma {:induction false} FromToBase(n: nat, base: nat)
    requires ValidBase(base)
    ensures IsDigitString(ToBase(n, base), base) && FromBase(ToBase(n, base), base) == n
    decreases n
  {
    ToBaseDigits(n, base);
    var s := ToBase(n, base);
    if n < base {
      DigitCharValue(n);
      assert s[..|s| - 1] == [];
    } else {
      var q, d := n / base, n % base;
      var t := ToBase(q, base);
      DivMod(n, base);
      MulMonotonic(q, 1, base);
      ToBaseDigits(q, base);
      FromToBase(q, base);
      DigitCharValue(d);
      assert s == t + [DigitChar(d)];
      assert s[..|s| - 1] == t;
      assert FromBase(s, base) == FromBase(t, base) * base + d;
      assert q * base == base * q;
    }
  }

  /** Leading zeros do not change the number. */
  lemma {:induction false} LeadingZeros(z: string, s: string, base: nat)
    requires ValidBase(base)
    requires forall i :: 0 <= i < |z| ==> z[i] == '0'
    requires IsDigitString(s, base)
    ensures IsDigitString(z + s, base)
    ensures FromBase(z + s, base) == FromBase(s, base)
    decreases |s|
  {
    assert IsDigitString(z + s, base) by {
      forall i | 0 <= i < |z + s| ensures IsDigit((z + s)[i], base) {
        if i < |z| { assert (z + s)[i] == '0'; } else { assert (z + s)[i] == s[i - |z|]; }
      }
    }
    if s == [] {
      assert z + s == z;
      ZerosAreZero(z, base);
    } else {
      var s' := s[..|s| - 1];
      assert (z + s)[..|z + s| - 1] == z + s';
      LeadingZeros(z, s', base);
    }
  }

  lemma {:induction false} ZerosAreZero(z: string, base: nat)
    requires ValidBase(base)
    requires forall i :: 0 <= i < |z| ==> z[i] == '0'
    ensures IsDigitString(z, base) && FromBase(z, base) == 0
    decreases |z|
  {
    if z != [] {
      ZerosAreZero(z[..|z| - 1], base);
    }
  }

  /** A numeral fits in `width` digits exactly when the number is below base^width. */
  lemma {:induction false} ToBaseLength(n: nat, base: nat, width: nat)
    requires ValidBase(base) && width >= 1
    ensures |ToBase(n, base)| <= width <==> n < Pow(base, width)
    decreases n
  {
    if n < base {
      PowAtLeastBase(base, width);
    } else if width == 1 {
      ToBaseDigits(n / base, base);
      assert Pow(base, 1) == base;
    } else {
      ToBaseLength(n / base, base, width - 1);
      DivBound(n, base, Pow(base, width - 1));
    }
  }

  lemma {:induction false} PowAtLeastBase(base: nat, width: nat)
    requires ValidBase(base) && width >= 1
    ensures Pow(base, width) >= base
    decreases width
  {
    if width > 1 {
      PowAtLeastBase(base, width - 1);
    }
  }

  lemma DivBound(n: nat, base: nat, p: nat)
    requires base >= 2
    ensures n / base < p <==> n < base * p
  {
    var q, r := n / base, n % base;
    DivMod(n, base);
    if q < p {
      MulMonotonic(base, q + 1, p);
      assert base * (q + 1) == base * q + base;
    } else {
      MulMonotonic(base, p, q);
    }
  }

  lemma DivMod(n: nat, base: nat)
    requires base >= 2
    ensures base * (n / base) + n % base == n && 0 <= n % base < base
  {
  }

  lemma MulMonotonic(a: nat, x: nat, y: nat)
    requires x <= y
    ensures a * x <= a * y
  {
    assert a * y == a * x + a * (y - x);
  }
}
