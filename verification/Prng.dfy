/** The 64-bit linear congruential generator behind the isolation forest
    (internal/ml/ml.go). The state is a `uint64`, so multiplication and
    addition wrap modulo 2^64; that wrap is written out here. */
module Prng {
  import opened Divisibility
  import opened FiniteSets

  const MODULUS: int := 0x1_0000_0000_0000_0000
  const MULTIPLIER: int := 6364136223846793005
  const INCREMENT: int := 1442695040888963407

  const TWO_TO_53: real := 9007199254740992.0

  /** Values of a Go `uint64`. */
  type Word = w: int | 0 <= w < 0x1_0000_0000_0000_0000 witness 0

  function Step(s: Word): Word {
    (s * MULTIPLIER + INCREMENT) % MODULUS
  }

  /** The state after `n` draws from state `s`. */
  function Iterate(n: nat, s: Word): Word {
    if n == 0 then s else Step(Iterate(n - 1, s))
  }

  /** `Float64` on the freshly drawn state: the top 53 bits over 2^53. */
  function ToUnit(s: Word): (r: real)
    ensures 0.0 <= r < 1.0
  {
    (s / 0x800) as real / TWO_TO_53
  }

  /** `Intn(n)` on the freshly drawn state, for a positive bound. */
  function ToIndex(s: Word, n: int): (k: nat)
    requires n > 0
    ensures k < n
  {
    s % n
  }

  /** The source's `prng`: one mutable word. */
  class Generator {
    var state: Word

    constructor (seed: Word)
      ensures state == seed
    {
      state := seed;
    }

    method Next() returns (w: Word)
      modifies this
      ensures w == state == Step(old(state))
    {
      state := (state * MULTIPLIER + INCREMENT) % MODULUS;
      w := state;
    }

    method Float64() returns (r: real)
      modifies this
      ensures state == Step(old(state))
      ensures r == ToUnit(state) && 0.0 <= r < 1.0
    {
      var w := Next();
      r := ToUnit(w);
    }

    /** A non-positive bound yields 0 and draws nothing. */
    method Intn(n: int) returns (k: nat)
      modifies this
      ensures n <= 0 ==> k == 0 && state == old(state)
      ensures n > 0 ==> state == Step(old(state)) && k == ToIndex(state, n) && k < n
    {
      if n <= 0 {
        return 0;
      }
      var w := Next();
      k := ToIndex(w, n);
    }
  }

  /** Each draw is the affine step of the source's two constants, wrapped to 64 bits. */
  lemma StepWraps(s: Word)
    ensures exists wraps: nat ::
      6364136223846793005 * s + 1442695040888963407 == wraps * 18446744073709551616 + Step(s)
  {
    var x := 6364136223846793005 * s + 1442695040888963407;
    assert x == (x / 18446744073709551616) * 18446744073709551616 + Step(s);
  }

  /** What the forest's seed draws first. */
  lemma FirstDraws()
    ensures Iterate(1, 42) == 10481999410520546993
    ensures Iterate(2, 42) == 4159066171780167020
    ensures Iterate(3, 42) == 7615522811268512075
  {
    assert Iterate(0, 42) == 42;
    assert Iterate(1, 42) == Step(42);
    assert Iterate(2, 42) == Step(Iterate(1, 42));
    assert Iterate(3, 42) == Step(Iterate(2, 42));
  }

  /** A draw reads as its fraction of 2^64, cut to 53 bits. */
  lemma UnitIsFraction(s: Word)
    ensures ToUnit(s) <= s as real / 18446744073709551616.0 < ToUnit(s) + 1.0 / 9007199254740992.0
  {
    var q := s / 0x800;
    assert 2048 * q <= s < 2048 * q + 2048;
  }

  // ----- Powers of the multiplier and the two-adic order of their sum ---------

  lemma WordBits() returns (k: nat)
    ensures k == 64 && Pow2(k) == MODULUS
  {
    k := 64;
    assert Pow2(8) == 256;
    Pow2Add(8, 8); Pow2Add(16, 16); Pow2Add(32, 32);
  }

  /** `MULTIPLIER` to the `n`-th power. */
  function MultPow(n: nat): nat {
    if n == 0 then 1 else MULTIPLIER * MultPow(n - 1)
  }

  /** 1 + MULTIPLIER + ... + MULTIPLIER^(n-1). */
  function Geometric(n: nat): nat {
    if n == 0 then 0 else MULTIPLIER * Geometric(n - 1) + 1
  }

  lemma {:induction false} MultPowFacts(n: nat)
    ensures MultPow(n) % 4 == 1
    ensures MultPow(n) == (MULTIPLIER - 1) * Geometric(n) + 1
  {
    if n > 0 {
      MultPowFacts(n - 1);
    }
  }

  lemma {:induction false} GeometricAdd(m: nat, n: nat)
    ensures MultPow(m + n) == MultPow(m) * MultPow(n)
    ensures Geometric(m + n) == Geometric(m) * MultPow(n) + Geometric(n)
  {
    if m > 0 {
      GeometricAdd(m - 1, n);
      MultPowFacts(n);
      assert m + n - 1 == m - 1 + n;
      GeometricStep(MULTIPLIER, MultPow(m - 1), Geometric(m - 1), MultPow(n), Geometric(n));
    }
  }

  lemma GeometricStep(a: int, p: int, g: int, q: int, h: int)
    requires q == (a - 1) * h + 1
    ensures a * (p * q) == (a * p) * q
    ensures a * (g * q + h) + 1 == (a * g + 1) * q + h
  {
    calc {
      a * (g * q + h) + 1;
      a * (g * q) + a * h + 1;
      (a * g) * q + (a - 1) * h + h + 1;
      (a * g) * q + q + h;
      (a * g + 1) * q + h;
    }
  }

  /** Both 2^k | S(n) and 2^k | n hold for the same k: the sum has exactly the
      two-adic order of its length. */
  lemma {:induction false} GeometricOrder(k: nat, n: nat)
    ensures Divides(Pow2(k), Geometric(n)) <==> Divides(Pow2(k), n)
    decreases n
  {
    if k == 0 {
      assert Geometric(n) == Pow2(0) * Geometric(n) && n == Pow2(0) * n;
    } else if n == 0 {
    } else if n % 2 == 1 {
      GeometricParity(n);
      OddIsNotDivisible(k, n);
      OddIsNotDivisible(k, Geometric(n));
    } else {
      var m := n / 2;
      var h := EvenGeometric(m);
      HalvingDivides(k, h * Geometric(m));
      OddFactorDropsOut(k - 1, h, Geometric(m));
      GeometricOrder(k - 1, m);
      HalvingDivides(k, m);
    }
  }

  /** S(2m) = S(m) * (a^m + 1), and the second factor is twice an odd number. */
  lemma EvenGeometric(m: nat) returns (h: int)
    ensures h % 2 == 1 && Geometric(2 * m) == 2 * (h * Geometric(m))
  {
    GeometricAdd(m, m);
    MultPowFacts(m);
    assert 2 * m == m + m;
    h := HalfSuccessor(Geometric(m), MultPow(m));
  }

  lemma HalfSuccessor(g: int, p: int) returns (h: int)
    requires p % 4 == 1
    ensures h % 2 == 1 && g * p + g == 2 * (h * g)
  {
    h := (p + 1) / 2;
    assert p == 2 * h - 1;
    assert g * p + g == g * (2 * h);
    TwiceProduct(h, g);
  }

  lemma {:induction false} GeometricParity(n: nat)
    ensures Geometric(n) % 2 == n % 2
  {
    if n > 0 {
      GeometricParity(n - 1);
      ParityOfProduct(MULTIPLIER, Geometric(n - 1));
      SuccessorParity(MULTIPLIER * Geometric(n - 1), n - 1);
    }
  }

  // ----- From the closed form to the period ----------------------------------

  /** The state after `n` draws is the affine closed form, modulo 2^64. */
  lemma {:induction false} ClosedForm(n: nat, s: Word)
    ensures Iterate(n, s) == (MultPow(n) * s + INCREMENT * Geometric(n)) % MODULUS
  {
    if n == 0 {
      assert MultPow(0) * s + INCREMENT * Geometric(0) == s;
    } else {
      ClosedForm(n - 1, s);
      var x := MultPow(n - 1) * s + INCREMENT * Geometric(n - 1);
      AffineStep(MULTIPLIER, INCREMENT, s, MultPow(n - 1), Geometric(n - 1));
      assert MultPow(n) * s + INCREMENT * Geometric(n) == x * MULTIPLIER + INCREMENT;
      ModThroughStep(x);
    }
  }

  lemma AffineStep(a: int, c: int, s: int, p: int, g: int)
    ensures (p * s + c * g) * a + c == (a * p) * s + c * (a * g + 1)
  {
    assert (p * s + c * g) * a == (p * s) * a + (c * g) * a;
    assert (p * s) * a == (a * p) * s;
    assert (c * g) * a == c * (a * g);
  }

  lemma ModThroughStep(x: int)
    ensures ((x % MODULUS) * MULTIPLIER + INCREMENT) % MODULUS == (x * MULTIPLIER + INCREMENT) % MODULUS
  {
    var q, r := x / MODULUS, x % MODULUS;
    assert x == MODULUS * q + r;
    assert x * MULTIPLIER + INCREMENT == (r * MULTIPLIER + INCREMENT) + MODULUS * (q * MULTIPLIER);
    AddMultiple(r * MULTIPLIER + INCREMENT, q * MULTIPLIER, MODULUS);
  }

  /** The displacement after `n` draws is S(n) times an odd number. */
  lemma Displacement(n: nat, s: Word) returns (odd: int)
    ensures odd % 2 == 1
    ensures MultPow(n) * s + INCREMENT * Geometric(n) - s == odd * Geometric(n)
  {
    MultPowFacts(n);
    odd := (MULTIPLIER - 1) * s + INCREMENT;
  }

  /** The low `k` bits of the state return exactly at the multiples of 2^k. */
  lemma LowBitsPeriod(k: nat, n: nat, s: Word)
    requires k <= 64
    ensures Iterate(n, s) % Pow2(k) == s % Pow2(k) <==> n % Pow2(k) == 0
  {
    ClosedForm(n, s);
    var odd := Displacement(n, s);
    var x := MultPow(n) * s + INCREMENT * Geometric(n);
    assert MODULUS == Pow2(k) * Pow2(64 - k) by {
      var bits := WordBits();
      Pow2Add(k, bits - k);
    }
    ModOfMod(x, Pow2(k), Pow2(64 - k));
    CongruentIffDivides(x, s, Pow2(k));
    OddFactorDropsOut(k, odd, Geometric(n));
    GeometricOrder(k, n);
    CongruentIffDivides(n, 0, Pow2(k));
    DivisionIsUnique(0, Pow2(k), 0, 0);
  }

  /** Full period: a state recurs after `n` draws if and only if 2^64 divides `n`. */
  lemma FullPeriod(n: nat, s: Word)
    ensures Iterate(n, s) == s <==> n % MODULUS == 0
  {
    var bits := WordBits();
    FullPeriodAt(bits, n, s);
  }

  lemma FullPeriodAt(bits: nat, n: nat, s: Word)
    requires bits <= 64 && Pow2(bits) == MODULUS
    ensures Iterate(n, s) == s <==> n % MODULUS == 0
  {
    LowBitsPeriod(bits, n, s);
    ResidueOfSmall(Iterate(n, s), Pow2(bits));
    ResidueOfSmall(s, Pow2(bits));
  }

  lemma ResidueOfSmall(x: int, m: int)
    requires 0 <= x < m
    ensures x % m == x
  {
  }

  lemma NoEarlyReturn(n: nat, s: Word)
    requires 0 < n < MODULUS
    ensures Iterate(n, s) != s
  {
    FullPeriod(n, s);
  }

  lemma {:induction false} IterateAdd(m: nat, n: nat, s: Word)
    ensures Iterate(m + n, s) == Iterate(m, Iterate(n, s))
  {
    if m > 0 {
      IterateAdd(m - 1, n, s);
    }
  }

  /** The first 2^64 states are pairwise distinct. */
  lemma DistinctWithinPeriod(i: nat, j: nat, s: Word)
    requires i < j < MODULUS
    ensures Iterate(i, s) != Iterate(j, s)
  {
    IterateAdd(j - i, i, s);
    NoEarlyReturn(j - i, Iterate(i, s));
  }

  lemma DoubleDoesNotDivide(k: nat)
    ensures !Divides(Pow2(k + 1), Pow2(k))
  {
    if Divides(Pow2(k + 1), Pow2(k)) {
      MultipleIsFar(Pow2(k + 1), Quotient(Pow2(k + 1), Pow2(k)));
      assert false;
    }
  }

  /** 2^k draws move the state by an odd multiple of 2^k, modulo 2^64. */
  lemma JumpIsOddMultiple(k: nat, s: Word) returns (odd: int)
    ensures odd % 2 == 1
    ensures Iterate(Pow2(k), s) == (s + odd * Pow2(k)) % MODULUS
  {
    var n := Pow2(k);
    var o := Displacement(n, s);
    var h := OddQuotient(k);
    ClosedForm(n, s);
    odd := o * h;
    ParityOfProduct(o, h);
    TripleProduct(o, n, h);
  }

  lemma TripleProduct(o: int, n: int, h: int)
    ensures o * (n * h) == (o * h) * n
  {
  }

  lemma OddQuotient(k: nat) returns (h: int)
    ensures h % 2 == 1 && Geometric(Pow2(k)) == Pow2(k) * h
  {
    var n := Pow2(k);
    assert n == n * 1;
    GeometricOrder(k, n);
    h := Quotient(n, Geometric(n));
    if h % 2 == 0 {
      TwiceProduct(n, h / 2);
      assert Geometric(n) == Pow2(k + 1) * (h / 2);
      GeometricOrder(k + 1, n);
      DoubleDoesNotDivide(k);
      assert false;
    }
  }

  /** Every 64-bit word is drawn: the orbit of any seed is the whole state space. */
  lemma EveryWordIsReached(s: Word, target: Word)
    ensures exists n: nat :: n < MODULUS && Iterate(n, s) == target
  {
    forall i: nat, j: nat | i < j < MODULUS
      ensures Iterate(i, s) != Iterate(j, s)
    {
      DistinctWithinPeriod(i, j, s);
    }
    Pigeonhole(MODULUS, (i: nat) => Iterate(i, s), target);
  }

  /** The lowest bit alternates: the parity of the state counts the draws. */
  lemma {:induction false} ParityCountsDraws(n: nat, s: Word)
    ensures Iterate(n, s) % 2 == (s + n) % 2
  {
    if n > 0 {
      var t := Iterate(n - 1, s);
      ParityCountsDraws(n - 1, s);
      StepFlipsParity(t);
      SuccessorParity(t, s + n - 1);
    }
  }

  lemma SuccessorParity(x: int, y: int)
    requires x % 2 == y % 2
    ensures (x + 1) % 2 == (y + 1) % 2
  {
  }

  lemma StepFlipsParity(s: Word)
    ensures Step(s) % 2 == (s + 1) % 2
  {
    AffineFlipsParity(s, MULTIPLIER, INCREMENT, MODULUS / 2);
  }
}
