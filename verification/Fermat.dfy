/** Fermat's little theorem, square roots of one, and safe primes. */
module Fermat {

  import opened Numbers

  // ------------------------------------------------------ the binomial theorem

  function Choose(n: nat, k: nat): nat {
    if k == 0 then 1
    else if n == 0 then 0
    else Choose(n - 1, k - 1) + Choose(n - 1, k)
  }

  /** The first `k` terms of the expansion of `(x + 1)^n`. */
  function Expansion(x: int, n: nat, k: nat): int {
    if k == 0 then 0 else Expansion(x, n, k - 1) + Choose(n, k - 1) * Pow(x, k - 1)
  }

  lemma {:induction false} ChooseEnds(n: nat, k: nat)
    requires k >= n
    ensures Choose(n, k) == if k == n then 1 else 0
  {
    if n > 0 {
      ChooseEnds(n - 1, k - 1);
      ChooseEnds(n - 1, k);
    }
  }

  lemma ExpansionTerm(x: int, n: nat, k: nat, c: nat, y: int)
    requires c == Choose(n, k) && y == Pow(x, k)
    ensures Expansion(x, n, k + 1) == Expansion(x, n, k) + c * y
  {
  }

  lemma PascalTerm(a: int, b: int, x: int, y: int, z: int, e: int)
    requires z == x * y
    ensures (a + b) * z + x * e == b * z + x * (e + a * y)
  {
    assert (a + b) * z == a * z + b * z;
    assert x * (e + a * y) == x * e + x * (a * y);
    assert x * (a * y) == a * (x * y);
  }

  lemma ExpansionStarts(x: int, n: nat)
    ensures Expansion(x, n, 0) == 0 && Expansion(x, n, 1) == 1
  {
  }

  lemma PowStep(x: int, k: nat)
    ensures Pow(x, k + 1) == x * Pow(x, k)
  {
  }

  lemma PascalRule(n: nat, k: nat)
    ensures Choose(n + 1, k + 1) == Choose(n, k) + Choose(n, k + 1)
  {
  }

  lemma {:induction false} ExpansionGrows(x: int, n: nat, k: nat)
    ensures Expansion(x, n + 1, k + 1) == Expansion(x, n, k + 1) + x * Expansion(x, n, k)
  {
    hide *;
    if k == 0 {
      ExpansionStarts(x, n);
      ExpansionStarts(x, n + 1);
    } else {
      ExpansionGrows(x, n, k - 1);
      PascalRule(n, k - 1);
      PowStep(x, k - 1);
      var a, b, y, z := Choose(n, k - 1), Choose(n, k), Pow(x, k - 1), Pow(x, k);
      ExpansionTerm(x, n + 1, k, a + b, z);
      ExpansionTerm(x, n, k, b, z);
      ExpansionTerm(x, n, k - 1, a, y);
      PascalTerm(a, b, x, y, z, Expansion(x, n, k - 1));
    }
  }

  lemma {:induction false} Binomial(x: int, n: nat)
    ensures Pow(x + 1, n) == Expansion(x, n, n + 1)
  {
    if n == 0 {
      assert Expansion(x, 0, 1) == 1;
    } else {
      hide Expansion, Choose;
      Binomial(x, n - 1);
      ExpansionGrows(x, n - 1, n);
      ChooseEnds(n - 1, n);
      ExpansionTerm(x, n - 1, n, 0, Pow(x, n));
      SuccessorTimes(x, Expansion(x, n - 1, n));
    }
  }

  lemma SuccessorTimes(x: int, e: int)
    ensures (x + 1) * e == x * e + e
  {
  }

  lemma AbsorptionStep(n: int, k: int, a: int, b: int, c: int)
    requires k * c == (n - 1) * b && (k - 1) * (a + b) == (n - 1) * a
    ensures k * (a + b + c) == n * (a + b)
  {
    assert k * (a + b + c) == (a + b) + (k - 1) * (a + b) + k * c;
    assert n * (a + b) == (a + b) + (n - 1) * a + (n - 1) * b;
  }

  lemma {:induction false} Absorption(n: nat, k: nat)
    requires n > 0 && k > 0
    ensures k * Choose(n, k) == n * Choose(n - 1, k - 1)
  {
    if n == 1 {
      ChooseEnds(1, k);
      ChooseEnds(0, k - 1);
    } else if k == 1 {
      Absorption(n - 1, 1);
    } else {
      Absorption(n - 1, k);
      Absorption(n - 1, k - 1);
      var a, b, c := Choose(n - 2, k - 2), Choose(n - 2, k - 1), Choose(n - 1, k);
      assert Choose(n - 1, k - 1) == a + b;
      assert Choose(n, k) == a + b + c;
      hide *;
      AbsorptionStep(n, k, a, b, c);
    }
  }

  lemma PrimeDividesChoose(p: nat, k: nat)
    requires Prime(p) && 0 < k < p
    ensures Divides(p, Choose(p, k))
  {
    Absorption(p, k);
    DividesBy(p, k * Choose(p, k), Choose(p - 1, k - 1));
    if Divides(p, k) {
      DividesAtMost(p, k);
      assert false;
    }
    EuclidsLemma(p, k, Choose(p, k));
  }

  lemma {:induction false} ExpansionModulo(x: int, p: nat, k: nat)
    requires Prime(p) && 1 <= k <= p
    ensures Same(Expansion(x, p, k), 1, p)
  {
    if k == 1 {
      assert Expansion(x, p, 1) == 1;
      SameRefl(1, p);
    } else {
      ExpansionModulo(x, p, k - 1);
      PrimeDividesChoose(p, k - 1);
      var y := Pow(x, k - 1);
      SameRefl(y, p);
      SameMul(Choose(p, k - 1), 0, y, y, p);
      SameAdd(Expansion(x, p, k - 1), 1, Choose(p, k - 1) * y, 0, p);
    }
  }

  // ------------------------------------------------------------------- Fermat

  lemma {:induction false} FermatPower(a: nat, p: nat)
    requires Prime(p)
    ensures Same(Pow(a, p), a, p)
  {
    if a == 0 {
      SameRefl(0, p);
    } else {
      var b := a - 1;
      FermatPower(b, p);
      Binomial(b, p);
      ExpansionModulo(b, p, p);
      ChooseEnds(p, p);
      SameAdd(Expansion(b, p, p), 1, Pow(b, p), b, p);
    }
  }

  lemma FermatLittle(a: nat, p: nat)
    requires Prime(p) && !Divides(p, a)
    ensures Same(Pow(a, p - 1), 1, p)
  {
    FermatPower(a, p);
    var x := Pow(a, p - 1);
    SameRefl(a, p);
    SameAdd(a * x, a, a, a, p);
    assert a * x - a == a * (x - 1);
    EuclidsLemma(p, a, x - 1);
    SameRefl(1, p);
    SameAdd(x - 1, 0, 1, 1, p);
  }

  /** Modulo a prime, one has no square roots but one and minus one. */
  lemma RootsOfOne(v: nat, p: nat)
    requires Prime(p) && Same(v * v, 1, p)
    ensures Same(v, 1, p) || Same(v, -1, p)
  {
    if v == 0 {
      SameSym(0, 1, p);
      DividesAtMost(p, 1);
      assert false;
    } else {
      SameRefl(1, p);
      SameAdd(v * v, 1, 1, 1, p);
      assert v * v - 1 == (v - 1) * (v + 1);
      if Divides(p, v - 1) {
        SameAdd(v - 1, 0, 1, 1, p);
      } else {
        EuclidsLemma(p, v - 1, v + 1);
        SameAdd(v + 1, 0, 1, 1, p);
      }
    }
  }

  // -------------------------------------------------------------- safe primes

  lemma PowTwoTwice(q: nat, n: nat)
    requires Same(Pow(2, q), -1, n)
    ensures Same(Pow(2, 2 * q), 1, n)
  {
    hide *;
    PowAdd(2, q, q);
    SameMul(Pow(2, q), -1, Pow(2, q), -1, n);
  }

  lemma EvenCombination(g: int, x: int, q: int, y: int, f: int)
    requires g == x * (2 * q) + y * (2 * f)
    ensures g == 2 * (x * q + y * f)
  {
    assert x * (2 * q) == 2 * (x * q);
    assert y * (2 * f) == 2 * (y * f);
  }

  lemma HalvedMultiple(q: nat, h: nat)
    requires Divides(2 * h, 2 * q)
    ensures Divides(h, q)
  {
    var k :| (2 * q) as int == 0 + Times(k, 2 * h);
    assert k * (2 * h) == 2 * (k * h);
    DividesBy(h, q, k);
  }

  /** An even common divisor of `2q` and an even number is 2 or `2q` when `q` is prime. */
  lemma EvenGcd(q: nat, f: nat) returns (h: nat)
    requires Prime(q)
    ensures Gcd(2 * q, 2 * f) == 2 * h && (h == 1 || h == q)
    ensures Divides(2 * h, 2 * f)
  {
    hide *;
    PrimeIsAtLeastTwo(q);
    var x, y := GcdBezout(2 * q, 2 * f);
    var g := Gcd(2 * q, 2 * f);
    DividesAtMost(g, 2 * q);
    EvenCombination(g, x, q, y, f);
    h := g / 2;
    HalvedMultiple(q, h);
    PrimeDivisor(q, h);
  }

  /** A prime factor of `2q + 1`, where `2^q` is minus one, is 3 or everything. */
  lemma FactorOfSafePrime(n: nat, q: nat, p: nat)
    requires Prime(q) && n == 2 * q + 1 && Same(Pow(2, q), -1, n)
    requires Prime(p) && Divides(p, n)
    ensures p == 3 || p == n
  {
    hide *;
    DividesAtMost(p, n);
    OddFactor(p, n);
    PrimeIsAtLeastTwo(p);
    if Divides(p, 2) {
      DividesAtMost(p, 2);
      assert false;
    }
    FermatLittle(2, p);
    SameDivisor(Pow(2, q), -1, p, n);
    PowTwoTwice(q, p);
    PowerGcd(2, 2 * q, p - 1, p);
    assert p - 1 == 2 * ((p - 1) / 2);
    var h := EvenGcd(q, (p - 1) / 2);
    if h == 1 {
      FourIsOne(p);
    } else {
      DividesAtMost(2 * q, p - 1);
    }
  }

  lemma PrimeIsAtLeastTwo(p: nat)
    requires Prime(p)
    ensures p >= 2
  {
  }

  lemma OddFactor(p: nat, n: nat)
    requires Divides(p, n) && n % 2 == 1
    ensures p % 2 == 1
  {
    var k :| (n as int) == 0 + Times(k, p);
    assert p == 2 * (p / 2) + p % 2;
    assert k * (2 * (p / 2)) == 2 * (k * (p / 2));
  }

  lemma FourIsOne(p: nat)
    requires Same(Pow(2, 2), 1, p)
    ensures Divides(p, 3) && 0 < p <= 3
  {
    assert Pow(2, 2) == 4;
    SameRefl(1, p);
    SameAdd(4, 1, 1, 1, p);
    DividesAtMost(p, 3);
  }

  /** `2q + 1` is prime when `q` is and `2^q` is minus one. */
  lemma SafePrimeIsPrime(n: nat, q: nat)
    requires Prime(q) && n == 2 * q + 1 && Same(Pow(2, q), -1, n)
    ensures Prime(n)
  {
    var p := PrimeFactor(n);
    FactorOfSafePrime(n, q, p);
    if p != n {
      var m :| (n as int) == 0 + Times(m, 3);
      assert 1 < m < n;
      var r := PrimeFactor(m);
      DividesBy(m, n, 3);
      DividesTrans(r, m, n);
      FactorOfSafePrime(n, q, r);
      DividesAtMost(r, m);
      var l :| (m as int) == 0 + Times(l, 3);
      DividesBy(9, n, l);
      NineDoesNotDivide(n, q);
      assert false;
    }
  }

  lemma NineDoesNotDivide(n: nat, q: nat)
    requires Prime(q) && n == 2 * q + 1 && Same(Pow(2, q), -1, n)
    ensures !Divides(9, n)
  {
    if Divides(9, n) {
      SameDivisor(Pow(2, q), -1, 9, n);
      PowTwoTwice(q, 9);
      assert Pow(2, 6) == 64 by {
        assert Pow(2, 3) == 8;
        PowAdd(2, 3, 3);
      }
      SameBy(Pow(2, 6), 1, 9, 7);
      PowerGcd(2, 2 * q, 6, 9);
      var h := EvenGcd(q, 3);
      if h == 1 {
        FourIsOne(9);
        assert false;
      }
      DividesAtMost(2 * q, 6);
      DividesAtMost(9, n);
      assert false;
    }
  }

  /** When half of a prime's predecessor is prime, 2 generates every residue but zero. */
  lemma TwoGenerates(n: nat, q: nat, e: nat)
    requires Prime(q) && n == 2 * q + 1 && n > 3 && Same(Pow(2, q), -1, n) && Prime(n)
    requires 0 < e < n - 1
    ensures !Same(Pow(2, e), 1, n)
  {
    if Same(Pow(2, e), 1, n) {
      PowTwoTwice(q, n);
      PowerGcd(2, 2 * q, e, n);
      var g := Gcd(2 * q, e);
      var x, y := GcdBezout(2 * q, e);
      DividesAtMost(g, e);
      ProperDivisor(q, g);
      if g == q {
        SameSym(Pow(2, q), 1, n);
        SameTrans(1, Pow(2, q), -1, n);
        SameRefl(1, n);
        SameAdd(1, -1, 1, 1, n);
        DividesAtMost(n, 2);
      } else if g == 1 {
        assert Pow(2, 1) == 2;
        SameRefl(1, n);
        SameAdd(2, 1, 1, 1, n);
        DividesAtMost(n, 1);
      } else {
        FourIsOne(n);
      }
      assert false;
    }
  }

  lemma OddMultiple(q: int, k: int, b: int)
    requires 2 * q == k * (2 * b + 1)
    ensures q == (q - k * b) * (2 * b + 1)
  {
    assert k == 2 * (q - k * b) by {
      assert k * (2 * b + 1) == 2 * (k * b) + k;
    }
    assert 2 * ((q - k * b) * (2 * b + 1)) == (2 * (q - k * b)) * (2 * b + 1);
  }

  lemma ProperDivisor(q: nat, g: nat)
    requires Prime(q) && Divides(g, 2 * q) && 0 < g < 2 * q
    ensures g == 1 || g == 2 || g == q
  {
    hide Prime;
    if g % 2 == 0 {
      HalvedMultiple(q, g / 2);
      PrimeDivisor(q, g / 2);
    } else {
      var k :| (2 * q) as int == 0 + Times(k, g);
      var b: int := g / 2;
      assert g == 2 * b + 1;
      OddMultiple(q, k, b);
      DividesBy(g, q, q - k * b);
      PrimeDivisor(q, g);
    }
  }

  // ------------------------------------- two is no square modulo 3 modulo eight

  function Factorial(n: nat): nat { if n == 0 then 1 else n * Factorial(n - 1) }

  function Evens(j: nat): nat { if j == 0 then 1 else 2 * j * Evens(j - 1) }

  function Odds(j: nat): nat { if j == 0 then 1 else (2 * j - 1) * Odds(j - 1) }

  /** `(n - 1)(n - 3)...(n - (2j - 1))`. */
  function Upper(n: nat, j: nat): int { if j == 0 then 1 else (n - (2 * j - 1)) * Upper(n, j - 1) }

  lemma {:induction false} EvensAreDoubled(j: nat)
    ensures Evens(j) == Pow(2, j) * Factorial(j)
  {
    if j > 0 {
      EvensAreDoubled(j - 1);
      Interchange(2, j, Pow(2, j - 1), Factorial(j - 1));
    }
  }

  lemma {:induction false} FactorialSplits(h: nat)
    requires h > 0
    ensures Factorial(2 * h - 1) == Odds(h) * Evens(h - 1)
  {
    if h == 1 {
      assert Factorial(1) == 1 && Odds(1) == 1;
    } else {
      FactorialSplits(h - 1);
      var n := 2 * h - 1;
      assert Factorial(n) == n * ((n - 1) * Factorial(n - 2)) by {
        assert Factorial(n - 1) == (n - 1) * Factorial(n - 2);
      }
      var o, e := Odds(h - 1), Evens(h - 2);
      assert n * ((n - 1) * (o * e)) == (n * (n - 1)) * (o * e);
      Interchange(n, n - 1, o, e);
    }
  }

  lemma EvensStep(j: nat)
    ensures Evens(j + 1) == (2 * (j + 1)) * Evens(j)
  {
  }

  lemma UpperStep(n: nat, j: nat, f: int)
    requires f == n - (2 * j + 1)
    ensures Upper(n, j + 1) == f * Upper(n, j)
  {
  }

  lemma {:induction false} EvensSplit(m: nat, j: nat)
    requires j <= m
    ensures Evens(m) == Evens(m - j) * Upper(2 * m + 1, j)
  {
    if j > 0 {
      hide *;
      EvensSplit(m, j - 1);
      var e, u, f := Evens(m - j), Upper(2 * m + 1, j - 1), 2 * (m - j + 1);
      EvensStep(m - j);
      UpperStep(2 * m + 1, j - 1, f);
      Rotated(f, e, u);
    }
  }

  lemma Rotated(f: int, e: int, u: int)
    ensures (f * e) * u == e * (f * u)
  {
  }

  lemma {:induction false} UpperModulo(n: nat, j: nat)
    ensures Same(Upper(n, j), Pow(-1, j) * Odds(j), n)
  {
    if j == 0 {
      SameRefl(1, n);
    } else {
      UpperModulo(n, j - 1);
      var o := 2 * j - 1;
      SameBy(n - o, -o, n, 1);
      SameMul(n - o, -o, Upper(n, j - 1), Pow(-1, j - 1) * Odds(j - 1), n);
      Interchange(-1, o, Pow(-1, j - 1), Odds(j - 1));
    }
  }

  lemma {:induction false} OddPowerOfMinusOne(t: nat)
    ensures Pow(-1, 2 * t + 1) == -1
  {
    if t == 0 {
      assert Pow(-1, 1) == -1;
    } else {
      OddPowerOfMinusOne(t - 1);
      assert Pow(-1, 2 * t + 1) == -1 * (-1 * Pow(-1, 2 * t - 1));
    }
  }

  lemma {:induction false} PrimeAvoidsFactorial(p: nat, m: nat)
    requires Prime(p) && m < p
    ensures !Divides(p, Factorial(m))
  {
    if m == 0 {
      if Divides(p, 1) {
        DividesAtMost(p, 1);
        assert false;
      }
    } else {
      PrimeAvoidsFactorial(p, m - 1);
      if Divides(p, m) {
        DividesAtMost(p, m);
        assert false;
      }
      if Divides(p, m * Factorial(m - 1)) {
        EuclidsLemma(p, m, Factorial(m - 1));
        assert false;
      }
    }
  }

  lemma MinusFactorial(e: int, o: int, f: int)
    requires f == o * e
    ensures e * (-1 * o) == -f
  {
    assert e * (-1 * o) == -(o * e);
  }

  /** Gauss: doubling the numbers up to `m = 2h - 1`, for odd `h`, changes the sign of their product. */
  lemma DoublingChangesSign(m: nat, t: nat)
    requires m == 4 * t + 1
    ensures Same(Pow(2, m) * Factorial(m), -(Factorial(m) as int), 2 * m + 1)
  {
    var n, h := 2 * m + 1, 2 * t + 1;
    FactorialSplits(h);
    EvensAreDoubled(m);
    EvensSplit(m, h);
    UpperModulo(n, h);
    OddPowerOfMinusOne(t);
    hide *;
    var e, o := Evens(h - 1), Odds(h);
    SameRefl(e, n);
    SameMul(e, e, Upper(n, h), Pow(-1, h) * o, n);
    MinusFactorial(e, o, Factorial(m));
  }

  lemma CancelFactor(x: int, f: nat, n: nat)
    requires Prime(n) && !Divides(n, f) && Same(x * f, -(f as int), n)
    ensures Same(x, -1, n)
  {
    hide Prime, Same;
    SameRefl(f, n);
    SameAdd(x * f, -(f as int), f, f, n);
    assert x * f + f == f * (x + 1);
    EuclidsLemma(n, f, x + 1);
    SameRefl(1, n);
    SameAdd(x + 1, 0, 1, 1, n);
  }

  /** For a prime that is 3 modulo 8, 2 raised to half its predecessor is minus one. */
  lemma TwoIsNoSquare(n: nat)
    requires Prime(n) && n % 8 == 3
    ensures Same(Pow(2, (n - 1) / 2), -1, n)
  {
    hide *;
    var m, t := (n - 1) / 2, n / 8;
    assert n == 8 * t + 3;
    DoublingChangesSign(m, t);
    PrimeAvoidsFactorial(n, m);
    CancelFactor(Pow(2, m), Factorial(m), n);
  }
}
