/** Divisibility, remainders and powers of two over the integers. */
module Divisibility {

  function Pow2(k: nat): (p: nat)
    ensures p > 0
  {
    if k == 0 then 1 else 2 * Pow2(k - 1)
  }

  lemma {:induction false} Pow2Add(a: nat, b: nat)
    ensures Pow2(a + b) == Pow2(a) * Pow2(b)
  {
    if b == 0 {
    } else {
      Pow2Add(a, b - 1);
      TwiceProduct(Pow2(a), Pow2(b - 1));
    }
  }

  ghost predicate Divides(d: int, x: int)
    requires d > 0
  {
    exists q: int :: x == d * q
  }

  ghost function Quotient(d: int, x: int): (q: int)
    requires d > 0 && Divides(d, x)
    ensures x == d * q
  {
    var q :| x == d * q; q
  }

  lemma OddFactorDropsOut(k: nat, odd: int, x: int)
    requires odd % 2 == 1
    ensures Divides(Pow2(k), odd * x) <==> Divides(Pow2(k), x)
  {
    if Divides(Pow2(k), x) {
      var p, q := Pow2(k), Quotient(Pow2(k), x);
      assert odd * (p * q) == p * (odd * q);
    }
    if Divides(Pow2(k), odd * x) {
      CancelOdd(k, odd, x);
    }
  }

  lemma {:induction false} CancelOdd(k: nat, odd: int, x: int)
    requires odd % 2 == 1 && Divides(Pow2(k), odd * x)
    ensures Divides(Pow2(k), x)
  {
    if k == 0 {
      assert x == Pow2(0) * x;
    } else {
      var p, q := Pow2(k - 1), Quotient(Pow2(k), odd * x);
      var y := HalfOfEven(odd, x, p, q);
      CancelOdd(k - 1, odd, y);
      var r := Quotient(p, y);
      TwiceProduct(p, r);
    }
  }

  lemma HalfOfEven(odd: int, x: int, p: int, q: int) returns (y: int)
    requires p > 0 && odd % 2 == 1 && odd * x == (2 * p) * q
    ensures x == 2 * y && Divides(p, odd * y)
  {
    TwiceProduct(p, q);
    ParityOfProduct(odd, x);
    y := x / 2;
    TwiceProduct(y, odd);
    assert odd * y == p * q;
  }

  lemma TwiceProduct(p: int, q: int)
    ensures (2 * p) * q == 2 * (p * q) == p * (2 * q) == 2 * (q * p)
  {
  }

  lemma ParityOfProduct(odd: int, x: int)
    requires odd % 2 == 1
    ensures (odd * x) % 2 == x % 2
  {
    var h := odd / 2;
    assert odd * x == 2 * (h * x) + x;
  }

  /** One affine step with odd coefficients flips the parity, whatever even
      modulus it is reduced by. */
  lemma AffineFlipsParity(s: int, m: int, c: int, half: int)
    requires m % 2 == 1 && c % 2 == 1 && half > 0
    ensures ((s * m + c) % (2 * half)) % 2 == (s + 1) % 2
  {
    ParityOfProduct(m, s);
    var p := m * s;
    assert s * m == p;
    OddShift(p, s, c);
    ModOfMod(p + c, 2, half);
  }

  lemma OddShift(x: int, y: int, c: int)
    requires x % 2 == y % 2 && c % 2 == 1
    ensures (x + c) % 2 == (y + 1) % 2
  {
  }

  lemma OddIsNotDivisible(k: nat, x: int)
    requires k > 0 && x % 2 == 1
    ensures !Divides(Pow2(k), x)
  {
    if Divides(Pow2(k), x) {
      TwiceProduct(Pow2(k - 1), Quotient(Pow2(k), x));
      assert false;
    }
  }

  lemma HalvingDivides(k: nat, x: int)
    requires k > 0
    ensures Divides(Pow2(k), 2 * x) <==> Divides(Pow2(k - 1), x)
  {
    if Divides(Pow2(k), 2 * x) {
      var q := Quotient(Pow2(k), 2 * x);
      assert 2 * x == 2 * (Pow2(k - 1) * q);
    }
    if Divides(Pow2(k - 1), x) {
      var q := Quotient(Pow2(k - 1), x);
      assert 2 * x == Pow2(k) * q by { assert 2 * (Pow2(k - 1) * q) == (2 * Pow2(k - 1)) * q; }
    }
  }

  lemma AddMultiple(x: int, q: int, d: int)
    requires d > 0
    ensures (x + d * q) % d == x % d
  {
    var a, b := x / d, x % d;
    assert x + d * q == d * (a + q) + b;
    DivisionIsUnique(x + d * q, d, a + q, b);
  }

  lemma DivisionIsUnique(x: int, d: int, q: int, r: int)
    requires d > 0 && 0 <= r < d && x == d * q + r
    ensures x / d == q && x % d == r
  {
    var q', r' := x / d, x % d;
    assert x == d * q' + r';
    assert d * (q - q') == d * q - d * q';
    MultipleIsFar(d, q - q');
  }

  lemma MultipleIsFar(d: int, k: int)
    requires d > 0
    ensures k >= 1 ==> d * k >= d
    ensures k <= -1 ==> d * k <= -d
  {
  }

  lemma CongruentIffDivides(x: int, y: int, d: int)
    requires d > 0
    ensures x % d == y % d <==> Divides(d, x - y)
  {
    if x % d == y % d {
      assert x - y == d * (x / d - y / d);
    }
    if Divides(d, x - y) {
      var q := Quotient(d, x - y);
      assert x == y + d * q;
      AddMultiple(y, q, d);
    }
  }

  lemma ModOfMod(x: int, d: int, e: int)
    requires d > 0 && e > 0
    ensures (x % (d * e)) % d == x % d
  {
    var q, r := x / (d * e), x % (d * e);
    assert x == r + d * (e * q);
    AddMultiple(r, e * q, d);
  }
}
