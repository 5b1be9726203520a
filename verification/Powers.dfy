/** Products and natural powers of reals. */
module Powers {

  /** Multiplication under a name: equal factors give equal products by congruence. */
  function Mul(x: real, y: real): real {
    x * y
  }

  lemma MulLe(a: real, b: real, c: real)
    requires a <= b && c >= 0.0
    ensures a * c <= b * c
  {
  }

  lemma ProductLe(a: real, b: real, c: real, d: real)
    requires 0.0 <= a <= b && 0.0 <= c <= d
    ensures a * c <= b * d
  {
    MulLe(a, b, c);
    MulLe(c, d, b);
  }

  /** Scaling by a factor in [0, 1] moves a number towards zero. */
  lemma Shrinks(a: real, s: real)
    requires 0.0 <= s <= 1.0
    ensures a >= 0.0 ==> 0.0 <= a * s <= a
    ensures a <= 0.0 ==> a <= a * s <= 0.0
  {
    if a >= 0.0 {
      MulLe(s, 1.0, a);
    } else {
      MulLe(s, 1.0, -a);
    }
  }

  lemma MulPositive(a: real, b: real, p: real)
    requires a > 0.0 && b > 0.0 && p == a * b
    ensures p > 0.0
  {
    MulLt(0.0, a, b);
  }

  lemma QuotientPositive(a: real, b: real)
    requires a > 0.0 && b > 0.0
    ensures a / b > 0.0
  {
  }

  lemma MulLt(a: real, b: real, c: real)
    requires a < b && c > 0.0
    ensures a * c < b * c
  {
  }

  function Pow(x: real, n: nat): real {
    if n == 0 then 1.0 else x * Pow(x, n - 1)
  }

  lemma {:induction false} PowPositive(x: real, n: nat)
    requires x > 0.0
    ensures Pow(x, n) > 0.0
  {
    if n > 0 {
      PowPositive(x, n - 1);
      MulLt(0.0, x, Pow(x, n - 1));
    }
  }

  lemma {:induction false} PowAdd(x: real, m: nat, n: nat)
    ensures Pow(x, m + n) == Pow(x, m) * Pow(x, n)
  {
    if m > 0 {
      PowAdd(x, m - 1, n);
      assert Pow(x, m + n) == x * Pow(x, m - 1 + n);
      assert x * (Pow(x, m - 1) * Pow(x, n)) == (x * Pow(x, m - 1)) * Pow(x, n);
    }
  }

  lemma {:induction false} PowOfPow(x: real, m: nat, n: nat)
    ensures Pow(Pow(x, m), n) == Pow(x, m * n)
  {
    if n > 0 {
      PowOfPow(x, m, n - 1);
      PowAdd(x, m, m * (n - 1));
      assert m + m * (n - 1) == m * n;
    }
  }

  lemma {:induction false} PowOfProduct(x: real, y: real, n: nat)
    ensures Pow(x * y, n) == Pow(x, n) * Pow(y, n)
  {
    if n > 0 {
      PowOfProduct(x, y, n - 1);
      var p, q := Pow(x, n - 1), Pow(y, n - 1);
      assert (x * y) * (p * q) == (x * p) * (y * q);
    }
  }

  lemma {:induction false} PowMonotone(x: real, y: real, n: nat)
    requires 0.0 < x <= y
    ensures 0.0 < Pow(x, n) <= Pow(y, n)
  {
    PowPositive(x, n);
    if n > 0 {
      PowMonotone(x, y, n - 1);
      MulLe(Pow(x, n - 1), Pow(y, n - 1), x);
      PowPositive(y, n - 1);
      MulLe(x, y, Pow(y, n - 1));
    }
  }

  lemma {:induction false} PowStrict(x: real, y: real, n: nat)
    requires 0.0 < x < y && n > 0
    ensures 0.0 < Pow(x, n) < Pow(y, n)
  {
    PowMonotone(x, y, n - 1);
    PowPositive(x, n);
    MulLe(Pow(x, n - 1), Pow(y, n - 1), x);
    MulLt(x, y, Pow(y, n - 1));
  }

  /** Powers of numbers above one grow with the exponent. */
  lemma {:induction false} PowGrows(x: real, m: nat, n: nat)
    requires x >= 1.0 && m <= n
    ensures 1.0 <= Pow(x, m) <= Pow(x, n)
    decreases n
  {
    if m < n {
      PowGrows(x, m, n - 1);
      MulLe(1.0, x, Pow(x, n - 1));
    } else if n > 0 {
      PowGrows(x, n - 1, n - 1);
      MulLe(1.0, x, Pow(x, n - 1));
    }
  }
}
