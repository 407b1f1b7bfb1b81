/** Congruences, powers, divisors and primes, as far as the SRP arithmetic needs them. */
module Numbers {

  function Times(k: int, n: int): int { k * n }

  /** `a` and `b` are congruent modulo `n`. */
  ghost predicate Same(a: int, b: int, n: nat) {
    exists k :: a == b + Times(k, n)
  }

  function Pow(base: int, e: nat): int {
    if e == 0 then 1 else base * Pow(base, e - 1)
  }

  // ---------------------------------------------------------------- congruence

  lemma SameBy(a: int, b: int, n: nat, k: int)
    requires a == b + k * n
    ensures Same(a, b, n)
  {
    assert a == b + Times(k, n);
  }

  lemma SameRefl(a: int, n: nat)
    ensures Same(a, a, n)
  {
    SameBy(a, a, n, 0);
  }

  lemma SameSym(a: int, b: int, n: nat)
    requires Same(a, b, n)
    ensures Same(b, a, n)
  {
    var k :| a == b + Times(k, n);
    SameBy(b, a, n, -k);
  }

  lemma SameTrans(a: int, b: int, c: int, n: nat)
    requires Same(a, b, n) && Same(b, c, n)
    ensures Same(a, c, n)
  {
    var k :| a == b + Times(k, n);
    var l :| b == c + Times(l, n);
    SameBy(a, c, n, k + l);
  }

  lemma SameAdd(a: int, b: int, c: int, d: int, n: nat)
    requires Same(a, b, n) && Same(c, d, n)
    ensures Same(a + c, b + d, n) && Same(a - c, b - d, n)
  {
    var k :| a == b + Times(k, n);
    var l :| c == d + Times(l, n);
    SameBy(a + c, b + d, n, k + l);
    SameBy(a - c, b - d, n, k - l);
  }

  lemma SameMul(a: int, b: int, c: int, d: int, n: nat)
    requires Same(a, b, n) && Same(c, d, n)
    ensures Same(a * c, b * d, n)
  {
    var k :| a == b + Times(k, n);
    var l :| c == d + Times(l, n);
    calc {
      a * c;
      (b + k * n) * (d + l * n);
      b * d + b * (l * n) + (k * n) * d + (k * n) * (l * n);
      { assert b * (l * n) == (b * l) * n; assert (k * n) * d == (k * d) * n; assert (k * n) * (l * n) == (k * n * l) * n; }
      b * d + (b * l) * n + (k * d) * n + (k * n * l) * n;
      b * d + (b * l + k * d + k * n * l) * n;
    }
    SameBy(a * c, b * d, n, b * l + k * d + k * n * l);
  }

  lemma {:induction false} SamePow(a: int, b: int, e: nat, n: nat)
    requires Same(a, b, n)
    ensures Same(Pow(a, e), Pow(b, e), n)
  {
    if e == 0 {
      SameRefl(1, n);
    } else {
      SamePow(a, b, e - 1, n);
      SameMul(a, b, Pow(a, e - 1), Pow(b, e - 1), n);
    }
  }

  /** Reducing modulo `n` stays in the class, and equal classes reduce alike. */
  lemma SameMod(a: int, n: nat)
    requires n > 0
    ensures Same(a % n, a, n) && Same(a, a % n, n)
  {
    SameBy(a, a % n, n, a / n);
    SameSym(a, a % n, n);
  }

  lemma TimesBounds(k: int, n: nat)
    ensures k >= 1 ==> Times(k, n) >= n
    ensures k == 0 ==> Times(k, n) == 0
    ensures k <= -1 ==> Times(k, n) + n <= 0
  {
    if k >= 1 {
      assert k * n == n + (k - 1) * n;
    } else if k <= -1 {
      assert k * n + n == (k + 1) * n;
    }
  }

  lemma SameMeansEqual(a: int, b: int, n: nat)
    requires Same(a, b, n) && 0 <= a < n && 0 <= b < n
    ensures a == b
  {
    var k :| a == b + Times(k, n);
    TimesBounds(k, n);
  }

  lemma SameReduces(a: int, b: int, n: nat)
    requires n > 0
    ensures Same(a, b, n) <==> a % n == b % n
  {
    SameMod(a, n);
    SameMod(b, n);
    if Same(a, b, n) {
      SameTrans(a % n, a, b, n);
      SameTrans(a % n, b, b % n, n);
      SameMeansEqual(a % n, b % n, n);
    } else if a % n == b % n {
      SameTrans(a, a % n, b, n);
    }
  }

  // -------------------------------------------------------------------- powers

  lemma {:induction false} PowAdd(b: int, x: nat, y: nat)
    ensures Pow(b, x + y) == Pow(b, x) * Pow(b, y)
  {
    if x > 0 {
      PowAdd(b, x - 1, y);
      assert b * (Pow(b, x - 1) * Pow(b, y)) == (b * Pow(b, x - 1)) * Pow(b, y);
    }
  }

  lemma {:induction false} PowMul(b: int, x: nat, y: nat)
    ensures x * y >= 0 && Pow(Pow(b, x), y) == Pow(b, x * y)
  {
    if y > 0 {
      PowMul(b, x, y - 1);
      assert x * y == x + x * (y - 1);
      PowAdd(b, x, x * (y - 1));
    } else {
      assert x * y == 0;
    }
  }

  lemma Interchange(a: int, b: int, x: int, y: int)
    ensures (a * b) * (x * y) == (a * x) * (b * y)
  {
    calc {
      (a * b) * (x * y);
      a * (b * (x * y));
      { assert b * (x * y) == x * (b * y); }
      a * (x * (b * y));
      (a * x) * (b * y);
    }
  }

  lemma {:induction false} PowOne(e: nat)
    ensures Pow(1, e) == 1
  {
    if e > 0 {
      PowOne(e - 1);
    }
  }

  // ------------------------------------------------------------------ divisors

  ghost predicate Divides(d: nat, n: int) {
    Same(n, 0, d)
  }

  ghost predicate Prime(p: nat) {
    p > 1 && forall d: nat :: 1 < d < p ==> !Divides(d, p)
  }

  lemma DividesBy(d: nat, n: int, k: int)
    requires n == k * d
    ensures Divides(d, n)
  {
    SameBy(n, 0, d, k);
  }

  lemma DividesTrans(a: nat, b: nat, n: int)
    requires Divides(a, b) && Divides(b, n)
    ensures Divides(a, n)
  {
    var k :| (b as int) == 0 + Times(k, a);
    var l :| n == 0 + Times(l, b);
    assert n == l * (k * a) == (l * k) * a;
    DividesBy(a, n, l * k);
  }

  lemma DividesAtMost(d: nat, n: nat)
    requires Divides(d, n) && n > 0
    ensures 0 < d <= n
  {
    var k :| (n as int) == 0 + Times(k, d);
    TimesBounds(k, d);
  }

  lemma DividesCombination(d: nat, a: int, b: int, x: int, y: int)
    requires Divides(d, a) && Divides(d, b)
    ensures Divides(d, x * a + y * b)
  {
    SameRefl(x, d);
    SameRefl(y, d);
    SameMul(x, x, a, 0, d);
    SameMul(y, y, b, 0, d);
    SameAdd(x * a, x * 0, y * b, y * 0, d);
  }

  /** Congruence modulo a number implies congruence modulo its divisors. */
  lemma SameDivisor(a: int, b: int, d: nat, n: nat)
    requires Same(a, b, n) && Divides(d, n)
    ensures Same(a, b, d)
  {
    var k :| a == b + Times(k, n);
    var l :| (n as int) == 0 + Times(l, d);
    assert k * (l * d) == (k * l) * d;
    SameBy(a, b, d, k * l);
  }

  function Gcd(a: nat, b: nat): nat
    decreases b
  {
    if b == 0 then a else Gcd(b, a % b)
  }

  /** The greatest common divisor divides both and is an integer combination. */
  lemma {:induction false} GcdBezout(a: nat, b: nat) returns (x: int, y: int)
    ensures Divides(Gcd(a, b), a) && Divides(Gcd(a, b), b)
    ensures Gcd(a, b) == x * a + y * b
    decreases b
  {
    if b == 0 {
      DividesBy(a, a, 1);
      DividesBy(a, 0, 0);
      x, y := 1, 0;
    } else {
      hide Divides;
      var u, v := GcdBezout(b, a % b);
      var q, r := a / b, a % b;
      Division(a, b);
      DividesCombination(Gcd(a, b), b, r, q, 1);
      BezoutStep(a, b, q, r, u, v);
      x, y := v, u - v * q;
    }
  }

  lemma Division(a: nat, b: nat)
    requires b > 0
    ensures a == (a / b) * b + a % b && a == b * (a / b) + a % b
  {
  }

  lemma BezoutStep(a: int, b: int, q: int, r: int, u: int, v: int)
    requires a == q * b + r
    ensures u * b + v * r == v * a + (u - v * q) * b
  {
    calc {
      v * a + (u - v * q) * b;
      v * (q * b + r) + (u * b - (v * q) * b);
      { assert v * (q * b + r) == v * (q * b) + v * r; assert v * (q * b) == (v * q) * b; }
      v * r + u * b;
    }
  }

  lemma PrimeDivisor(q: nat, d: nat)
    requires Prime(q) && Divides(d, q)
    ensures d == 1 || d == q
  {
    DividesAtMost(d, q);
  }

  /** Euclid's lemma. */
  lemma EuclidsLemma(p: nat, a: nat, b: int)
    requires Prime(p) && Divides(p, a * b) && !Divides(p, a)
    ensures Divides(p, b)
  {
    hide *;
    var x, y := GcdBezout(p, a);
    PrimeDivisor(p, Gcd(p, a));
    BezoutTimes(x, p, y, a, b);
    DividesBy(p, p, 1);
    DividesCombination(p, p, a * b, x * b, y);
  }

  lemma BezoutTimes(x: int, p: int, y: int, a: int, b: int)
    requires x * p + y * a == 1
    ensures b == (x * b) * p + y * (a * b)
  {
    calc {
      b;
      (x * p + y * a) * b;
      (x * p) * b + (y * a) * b;
      { assert (x * p) * b == (x * b) * p; }
      (x * b) * p + y * (a * b);
    }
  }

  lemma {:induction false} PrimeFactor(n: nat) returns (p: nat)
    requires n > 1
    ensures Prime(p) && Divides(p, n)
    decreases n
  {
    if Prime(n) {
      DividesBy(n, n, 1);
      p := n;
    } else {
      var d: nat :| 1 < d < n && Divides(d, n);
      p := PrimeFactor(d);
      DividesTrans(p, d, n);
    }
  }

  /** A power that is 1 at two exponents is 1 at their greatest common divisor. */
  lemma {:induction false} PowerGcd(x: int, a: nat, b: nat, n: nat)
    requires Same(Pow(x, a), 1, n) && Same(Pow(x, b), 1, n)
    ensures Same(Pow(x, Gcd(a, b)), 1, n)
    decreases b
  {
    if b > 0 {
      hide Pow, Same;
      var q, r := a / b, a % b;
      Division(a, b);
      WholeRounds(x, b, q, r, n);
      SameTrans(Pow(x, r), Pow(x, a), 1, n);
      PowerGcd(x, b, r, n);
    }
  }

  /** Whole rounds of an exponent whose power is one change no power. */
  lemma WholeRounds(x: int, d: nat, q: nat, r: nat, n: nat)
    requires Same(Pow(x, d), 1, n)
    ensures d * q >= 0 && Same(Pow(x, r), Pow(x, d * q + r), n)
  {
    hide *;
    PowMul(x, d, q);
    PowAdd(x, d * q, r);
    SamePow(Pow(x, d), 1, q, n);
    PowOne(q);
    SameRefl(Pow(x, r), n);
    SameMul(Pow(x, d * q), 1, Pow(x, r), Pow(x, r), n);
    SameSym(Pow(x, d * q + r), Pow(x, r), n);
  }
}
