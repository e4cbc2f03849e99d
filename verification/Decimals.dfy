/** Integers as `str` prints them. */
module Decimals {

  function Digit(d: nat): char
    requires d < 10
  {
    ('0' as int + d) as char
  }

  function Decimal(n: nat): (s: string)
    ensures |s| >= 1
  {
    if n < 10 then [Digit(n)] else Decimal(n / 10) + [Digit(n % 10)]
  }

  function Shown(n: int): string {
    if n < 0 then "-" + Decimal(-n) else Decimal(n)
  }

  predicate IsDigit(c: char) {
    '0' <= c <= '9'
  }

  lemma {:induction false} DecimalDigits(n: nat, i: nat)
    requires i < |Decimal(n)|
    ensures IsDigit(Decimal(n)[i])
  {
    if n >= 10 && i < |Decimal(n / 10)| { DecimalDigits(n / 10, i); }
  }

  lemma {:induction false} DecimalInjective(m: nat, n: nat)
    requires Decimal(m) == Decimal(n)
    ensures m == n
  {
    var a, b := Decimal(m), Decimal(n);
    assert a[|a| - 1] == Digit(m % 10) && b[|b| - 1] == Digit(n % 10);
    if m >= 10 && n >= 10 {
      assert a[..|a| - 1] == Decimal(m / 10) && b[..|b| - 1] == Decimal(n / 10);
      DecimalInjective(m / 10, n / 10);
    }
  }

  lemma ShownInjective(m: int, n: int)
    requires Shown(m) == Shown(n)
    ensures m == n
  {
    if m >= 0 { DecimalDigits(m, 0); }
    if n >= 0 { DecimalDigits(n, 0); }
    if m < 0 && n < 0 {
      assert Shown(m)[1..] == Decimal(-m) && Shown(n)[1..] == Decimal(-n);
      DecimalInjective(-m, -n);
    } else if m >= 0 && n >= 0 {
      DecimalInjective(m, n);
    }
  }

  /** A printed integer contains nothing but digits and perhaps a sign. */
  lemma ShownChars(n: int, i: nat)
    requires i < |Shown(n)|
    ensures IsDigit(Shown(n)[i]) || Shown(n)[i] == '-'
  {
    if n >= 0 { DecimalDigits(n, i); } else if i > 0 { DecimalDigits(-n, i - 1); }
  }
}
