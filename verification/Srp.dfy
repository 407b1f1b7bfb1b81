/**
 * Secure Remote Password, version 4, over one 2048-bit group: the primality test, the check
 * of the group modulus, and the client's half of the exchange. Random draws are parameters;
 * the hash is an arbitrary function.
 */
module Srp {

  import opened Fermat
  import opened Numbers
  import opened Wrappers

  const GROUP_BYTES: nat := 256
  const ROUNDS: nat := 64
  const ATTEMPTS: nat := 16
  const SMALL_PRIMES: seq<int> := [2, 3, 5, 7, 11, 13, 17, 19, 23, 29, 31, 37]

  type Byte = b: nat | b < 256
  type Bytes = seq<Byte>
  type Hash = Bytes -> Bytes

  datatype SrpError =
    | ModulusParameters
    | NotSafePrime
    | ServerOutOfBounds
    | BadPasswordHash
    | MultiplierOutOfBounds
    | EphemeralFailed
    | DegenerateBase
    | DegenerateExponent
    | ServerProofMismatch

  datatype Proofs = Proofs(clientEphemeral: Bytes, clientProof: Bytes, expectedServerProof: Bytes)

  // -------------------------------------------------------------------- bytes

  function FromLittle(bytes: Bytes): nat {
    if bytes == [] then 0 else bytes[0] + 256 * FromLittle(bytes[1..])
  }

  function ToLittle(n: nat, size: nat): (r: Bytes)
    ensures |r| == size
  {
    if size == 0 then [] else [n % 256] + ToLittle(n / 256, size - 1)
  }

  /** A number that fits survives the trip through its little-endian bytes. */
  lemma {:induction false} LittleEndianRoundTrip(n: nat, size: nat)
    requires n < Pow(256, size)
    ensures FromLittle(ToLittle(n, size)) == n
  {
    if size > 0 {
      LittleEndianRoundTrip(n / 256, size - 1);
      assert ToLittle(n, size)[1..] == ToLittle(n / 256, size - 1);
    }
  }

  lemma GroupFits(n: nat)
    requires n < Pow(2, 2048)
    ensures n < Pow(256, GROUP_BYTES)
  {
    PowMul(2, 8, 256);
    assert Pow(2, 8) == 256 by {
      assert Pow(2, 4) == 16;
      PowAdd(2, 4, 4);
    }
  }

  function ModPow(base: int, e: nat, n: nat): nat
    requires n > 0
  {
    Pow(base, e) % n
  }

  // ----------------------------------------------------------- primality test

  function OddPart(m: nat): nat
    requires m > 0
  {
    if m % 2 == 0 then OddPart(m / 2) else m
  }

  function Twos(m: nat): nat
    requires m > 0
  {
    if m % 2 == 0 then 1 + Twos(m / 2) else 0
  }

  function Doubled(odd: nat, i: nat): nat {
    if i == 0 then odd else 2 * Doubled(odd, i - 1)
  }

  /** The witness raised to the odd part of `n - 1` and then squared `i` times, modulo `n`. */
  function Squared(n: nat, w: nat, i: nat): nat
    requires n > 1
  {
    ModPow(w, Doubled(OddPart(n - 1), i), n)
  }

  /** The strong test of one witness: its power is one, or some squaring of it is minus one. */
  ghost predicate Passes(n: nat, w: nat)
    requires n > 1
  {
    Squared(n, w, 0) == 1 || MeetsMinusOne(n, w)
  }

  ghost predicate MeetsMinusOne(n: nat, w: nat)
    requires n > 1
  {
    exists i: nat :: i < Twos(n - 1) && Squared(n, w, i) == n - 1
  }

  predicate Sieved(number: int) {
    number >= 2 && forall p :: p in SMALL_PRIMES ==> number % p != 0
  }

  /** `secrets.randbelow(number - 3)` was drawn once a round. */
  predicate ValidDraws(number: int, draws: seq<nat>) {
    |draws| == ROUNDS && (number > 3 ==> forall d :: d in draws ==> d < number - 3)
  }

  lemma {:induction false} DoubledSplits(m: nat)
    requires m > 0
    ensures Doubled(OddPart(m), Twos(m)) == m
  {
    if m % 2 == 0 {
      DoubledSplits(m / 2);
    }
  }

  lemma SquaringDoubles(n: nat, w: nat, i: nat)
    requires n > 1
    ensures ModPow(Squared(n, w, i), 2, n) == Squared(n, w, i + 1)
  {
    var e := Doubled(OddPart(n - 1), i);
    var x := Pow(w, e);
    SameMod(x, n);
    SamePow(x % n, x, 2, n);
    PowMul(w, e, 2);
    assert e * 2 == Doubled(OddPart(n - 1), i + 1);
    SameReduces(Pow(x % n, 2), Pow(x, 2), n);
  }

  /** Fermat: squaring all the way gives one. */
  lemma SquaredEndsInOne(n: nat, w: nat)
    requires Prime(n) && 0 < w < n
    ensures Squared(n, w, Twos(n - 1)) == 1
  {
    hide Pow, Twos, OddPart, Doubled, Prime, Same, ModPow;
    if Divides(n, w) {
      DividesAtMost(n, w);
      assert false;
    }
    PrimeIsAtLeastTwo(n);
    FermatLittle(w, n);
    DoubledSplits(n - 1);
    SmallResidues(w, n - 1, n);
  }

  lemma PowTwo(v: int)
    ensures Pow(v, 2) == v * v
  {
    assert Pow(v, 1) == v;
  }

  lemma RootReduced(n: nat, v: nat)
    requires n > 1 && ModPow(v, 2, n) == 1
    ensures Same(v * v, 1, n)
  {
    PowTwo(v);
    hide Pow;
    SameMod(v * v, n);
  }

  /** Modulo a prime, a value whose square is one is one or minus one. */
  lemma RootIsOneOrMinusOne(n: nat, v: nat)
    requires Prime(n) && v < n && ModPow(v, 2, n) == 1
    ensures v == 1 || v == n - 1
  {
    PowTwo(v);
    hide *;
    PrimeIsAtLeastTwo(n);
    RootReduced(n, v);
    RootsOfOne(v, n);
    SameBy(1, 1, n, 0);
    if Same(v, 1, n) {
      SameMeansEqual(v, 1, n);
    } else {
      SameBy(-1, n - 1, n, -1);
      SameTrans(v, -1, n - 1, n);
      SameMeansEqual(v, n - 1, n);
    }
  }

  /** No witness speaks against a prime. */
  lemma PrimePasses(n: nat, w: nat)
    requires Prime(n) && 0 < w < n
    ensures Passes(n, w)
  {
    hide *;
    SquaredEndsInOne(n, w);
    Descend(n, w, Twos(n - 1));
  }

  /** A power that ends in one came from one, unless it met minus one on the way. */
  lemma {:induction false} Descend(n: nat, w: nat, i: nat)
    requires Prime(n) && i <= Twos(n - 1) && Squared(n, w, i) == 1
    ensures Passes(n, w)
  {
    hide Pow, Twos, OddPart, Doubled, Prime;
    PrimeIsAtLeastTwo(n);
    if i > 0 {
      SquaringDoubles(n, w, i - 1);
      RootIsOneOrMinusOne(n, Squared(n, w, i - 1));
      if Squared(n, w, i - 1) == 1 {
        Descend(n, w, i - 1);
      }
    }
  }

  lemma PrimeIsSieved(n: nat)
    requires Prime(n)
    ensures n in SMALL_PRIMES || Sieved(n)
  {
    if n !in SMALL_PRIMES {
      forall p | p in SMALL_PRIMES
        ensures n % p != 0
      {
        if n % p == 0 {
          DividesBy(p, n, n / p);
          DividesAtMost(p, n);
          assert false;
        }
      }
    }
  }

  /** The inner loop of one round: `value` is squared until it is minus one. */
  method SquaringsReach(number: nat, shifts: nat, value: nat, ghost w: nat) returns (found: bool)
    requires number > 1 && shifts == Twos(number - 1) && shifts > 0
    requires value == Squared(number, w, 0) && value != number - 1
    ensures found <==> MeetsMinusOne(number, w)
  {
    hide Pow, Twos, OddPart, Doubled, ModPow, Squared;
    var current := value;
    var j := 0;
    while j < shifts - 1
      invariant 0 <= j <= shifts - 1
      invariant current == Squared(number, w, j)
      invariant forall i: nat :: i <= j ==> Squared(number, w, i) != number - 1
    {
      SquaringDoubles(number, w, j);
      current := ModPow(current, 2, number);
      j := j + 1;
      if current == number - 1 {
        return true;
      }
    }
    return false;
  }

  method SplitOddPart(number: nat) returns (odd: nat, shifts: nat)
    requires number > 1
    ensures odd == OddPart(number - 1) && shifts == Twos(number - 1)
  {
    odd, shifts := number - 1, 0;
    while odd % 2 == 0
      invariant odd > 0
      invariant OddPart(odd) == OddPart(number - 1)
      invariant shifts + Twos(odd) == Twos(number - 1)
      decreases odd
    {
      odd := odd / 2;
      shifts := shifts + 1;
    }
  }

  lemma SievedByTwo(number: int)
    requires Sieved(number)
    ensures number >= 2 && number % 2 != 0
  {
    var p := SMALL_PRIMES[0];
    assert p in SMALL_PRIMES && number % p != 0;
  }

  lemma SieveFacts(number: int)
    requires Sieved(number) && number !in SMALL_PRIMES
    ensures number > 3 && Twos(number - 1) > 0
  {
    assert number != 3 by {
      assert SMALL_PRIMES[1] == 3;
    }
    SievedByTwo(number);
    EvenHasATwo(number - 1);
  }

  lemma EvenHasATwo(m: nat)
    requires m > 0 && m % 2 == 0
    ensures Twos(m) > 0
  {
  }

  /** One round of the loop: whether the witness speaks for the number. */
  method Round(number: nat, odd: nat, shifts: nat, w: nat) returns (passed: bool)
    requires number > 1 && odd == OddPart(number - 1) && shifts == Twos(number - 1) && shifts > 0
    ensures passed <==> Passes(number, w)
  {
    hide Pow, Twos, OddPart;
    var value := ModPow(w, odd, number);
    assert value == Squared(number, w, 0);
    if value == 1 || value == number - 1 {
      return true;
    }
    passed := SquaringsReach(number, shifts, value, w);
  }

  method ProbablePrime(number: int, draws: seq<nat>) returns (result: bool)
    requires ValidDraws(number, draws)
    ensures result <==>
      number in SMALL_PRIMES || (Sieved(number) && forall d :: d in draws ==> Passes(number, d + 2))
    ensures number >= 0 && Prime(number) ==> result
  {
    if number in SMALL_PRIMES {
      return true;
    }
    if !Sieved(number) {
      if number >= 0 && Prime(number) {
        PrimeIsSieved(number);
      }
      return false;
    }
    SieveFacts(number);
    hide *;
    var odd, shifts := SplitOddPart(number);
    result := true;
    var i := 0;
    while i < ROUNDS
      invariant 0 <= i <= ROUNDS
      invariant forall d :: d in draws[..i] ==> Passes(number, d + 2)
    {
      assert draws[i] in draws;
      assert draws[..i + 1] == draws[..i] + [draws[i]];
      var passed := Round(number, odd, shifts, draws[i] + 2);
      if !passed {
        if Prime(number) {
          PrimePasses(number, draws[i] + 2);
          assert false;
        }
        return false;
      }
      i := i + 1;
    }
    assert draws[..i] == draws;
  }

  // -------------------------------------------------------------- the modulus

  predicate WellFormed(modulus: Bytes) {
    var n := FromLittle(modulus);
    |modulus| == GROUP_BYTES && Pow(2, 2047) <= n < Pow(2, 2048) && n % 8 == 3
  }

  function Half(n: nat): int { (n - 1) / 2 }

  /** No power of 2 below the whole group is one: 2 has order `n - 1`. */
  ghost predicate TwoHasFullOrder(n: nat)
    requires n > 0
  {
    forall e: nat :: 0 < e < n - 1 ==> ModPow(2, e, n) != 1
  }

  lemma MinusOneReduced(x: int, n: nat)
    requires n > 1
    ensures x % n == n - 1 <==> Same(x, -1, n)
  {
    SameReduces(x, -1, n);
    SameBy(n - 1, -1, n, 1);
    SameReduces(n - 1, -1, n);
  }

  lemma FullOrder(n: nat, q: nat)
    requires Prime(n) && Prime(q) && n == 2 * q + 1 && n > 3 && Same(Pow(2, q), -1, n)
    ensures TwoHasFullOrder(n)
  {
    hide Pow, Prime, Same;
    forall e: nat | 0 < e < n - 1
      ensures ModPow(2, e, n) != 1
    {
      TwoGenerates(n, q, e);
      SameReduces(Pow(2, e), 1, n);
    }
  }

  /** Given a prime half, the single power checked decides whether the modulus is prime. */
  lemma PowerDecidesModulus(n: nat)
    requires n > 3 && n % 8 == 3 && Prime((n - 1) / 2)
    ensures ModPow(2, (n - 1) / 2, n) == n - 1 <==> Prime(n)
    ensures Prime(n) ==> TwoHasFullOrder(n)
  {
    var q := (n - 1) / 2;
    assert n == 2 * q + 1;
    hide *;
    SmallResidues(2, q, n);
    if Same(Pow(2, q), -1, n) {
      SafePrimeIsPrime(n, q);
    }
    if Prime(n) {
      TwoIsNoSquare(n);
      FullOrder(n, q);
    }
  }

  lemma WellFormedIsLarge(modulus: Bytes)
    requires WellFormed(modulus)
    ensures FromLittle(modulus) > 4098
  {
    PowAdd(2, 13, 2034);
    PowPositive(2, 2034);
    assert Pow(2, 13) == 8192 by {
      assert Pow(2, 4) == 16;
      PowAdd(2, 4, 4);
      PowAdd(2, 8, 5);
      assert Pow(2, 5) == 32;
    }
  }

  lemma {:induction false} PowPositive(b: nat, e: nat)
    requires b > 0
    ensures Pow(b, e) > 0
  {
    if e > 0 {
      PowPositive(b, e - 1);
    }
  }

  method ValidatedModulus(modulus: Bytes, draws: seq<nat>) returns (r: Result<nat, SrpError>)
    requires ValidDraws(Half(FromLittle(modulus)), draws)
    ensures r.Err? ==> r.error == if WellFormed(modulus) then NotSafePrime else ModulusParameters
    ensures r.Ok? ==> WellFormed(modulus) && r.value == FromLittle(modulus) > 4098
    ensures r.Ok? ==> ModPow(2, Half(r.value), r.value) == r.value - 1
    ensures var n := FromLittle(modulus);
      WellFormed(modulus) && Prime(Half(n)) ==>
        (r.Ok? <==> Prime(n)) && (Prime(n) ==> TwoHasFullOrder(n))
  {
    hide Pow, Prime, FromLittle, ModPow;
    var number := FromLittle(modulus);
    if !WellFormed(modulus) {
      return Err(ModulusParameters);
    }
    WellFormedIsLarge(modulus);
    var half := Half(number);
    if Prime(half) {
      PowerDecidesModulus(number);
    }
    var probable := ProbablePrime(half, draws);
    if !probable || ModPow(2, half, number) != number - 1 {
      return Err(NotSafePrime);
    }
    return Ok(number);
  }

  // ------------------------------------------------------------- the exchange

  function Multiplier(n: nat, modulus: Bytes, expand: Hash): nat
    requires n > 0
  {
    FromLittle(expand(ToLittle(2, GROUP_BYTES) + modulus)) % n
  }

  function Ephemeral(n: nat, secret: nat): Bytes
    requires n > 0
  {
    ToLittle(ModPow(2, secret, n), GROUP_BYTES)
  }

  function Scramble(client: Bytes, server: Bytes, expand: Hash): nat {
    FromLittle(expand(client + server))
  }

  /** The difference the client raises to its exponent. */
  function SharedBase(n: nat, k: nat, server: Bytes, x: nat): nat
    requires n > 0
  {
    (FromLittle(server) - k * ModPow(2, x, n)) % n
  }

  function SharedExponent(n: nat, secret: nat, u: nat, x: nat): nat
    requires n > 1
  {
    (secret + u * x) % (n - 1)
  }

  function MakeProofs(client: Bytes, server: Bytes, shared: Bytes, expand: Hash): Proofs {
    var clientProof := expand(client + server + shared);
    Proofs(client, clientProof, expand(client + clientProof + shared))
  }

  /** The client's answer once its secret is drawn. */
  function Respond(n: nat, k: nat, server: Bytes, x: nat, expand: Hash, secret: nat): Result<Proofs, SrpError>
    requires n > 1
  {
    var client := Ephemeral(n, secret);
    var base := SharedBase(n, k, server, x);
    var exponent := SharedExponent(n, secret, Scramble(client, server, expand), x);
    if base == 0 || base == 1 || base == n - 1 then Err(DegenerateBase)
    else if exponent == 0 then Err(DegenerateExponent)
    else Ok(MakeProofs(client, server, ToLittle(ModPow(base, exponent, n), GROUP_BYTES), expand))
  }

  /** What a server holding the verifier `2^x` sends for its own secret `b`. */
  function ServerEphemeral(n: nat, k: nat, x: nat, b: nat): Bytes
    requires n > 0
  {
    ToLittle((k * ModPow(2, x, n) + Pow(2, b)) % n, GROUP_BYTES)
  }

  /** The key that server derives from the client's ephemeral value. */
  function ServerKey(n: nat, client: nat, x: nat, u: nat, b: nat): nat
    requires n > 0
  {
    ModPow(client * Pow(ModPow(2, x, n), u), b, n)
  }

  /** Exponents may be reduced by the order of the group. */
  lemma ExponentReduces(a: nat, m: nat, n: nat)
    requires Prime(n) && !Divides(n, a)
    ensures Same(Pow(a, m % (n - 1)), Pow(a, m), n)
  {
    hide *;
    PrimeIsAtLeastTwo(n);
    FermatLittle(a, n);
    Division(m, n - 1);
    WholeRounds(a, n - 1, m / (n - 1), m % (n - 1), n);
  }

  /** Against an honest server the base is the server's own power of 2. */
  lemma HonestBase(n: nat, k: nat, x: nat, b: nat)
    requires 1 < n < Pow(2, 2048)
    ensures SharedBase(n, k, ServerEphemeral(n, k, x, b), x) == ModPow(2, b, n)
  {
    hide Pow, ToLittle, FromLittle, Same;
    var kv, t := k * ModPow(2, x, n), Pow(2, b);
    var remote := (kv + t) % n;
    GroupFits(remote);
    LittleEndianRoundTrip(remote, GROUP_BYTES);
    SameMod(kv + t, n);
    SameRefl(kv, n);
    SameAdd(remote, kv + t, kv, kv, n);
    SameReduces(remote - kv, t, n);
  }

  /** The server's side of the key, as a power of 2. */
  lemma ServerKeyIsPower(n: nat, secret: nat, x: nat, u: nat, b: nat)
    requires n > 1
    ensures (secret + x * u) * b >= 0
    ensures Same(ServerKey(n, ModPow(2, secret, n), x, u, b), Pow(2, (secret + x * u) * b), n)
  {
    hide Pow, Same;
    var a, v := ModPow(2, secret, n), ModPow(2, x, n);
    SameMod(Pow(2, secret), n);
    SameMod(Pow(2, x), n);
    SamePow(v, Pow(2, x), u, n);
    PowMul(2, x, u);
    SameMul(a, Pow(2, secret), Pow(v, u), Pow(2, x * u), n);
    PowAdd(2, secret, x * u);
    var whole := a * Pow(v, u);
    SamePow(whole, Pow(2, secret + x * u), b, n);
    PowMul(2, secret + x * u, b);
    SameMod(Pow(whole, b), n);
    SameTrans(ServerKey(n, a, x, u, b), Pow(whole, b), Pow(2, (secret + x * u) * b), n);
  }

  /** The client's side of the key, as the same power of 2. */
  lemma ClientKeyIsPower(n: nat, b: nat, m: nat)
    requires Prime(n) && ModPow(2, b, n) != 0
    ensures b * m >= 0
    ensures Same(ModPow(ModPow(2, b, n), m % (n - 1), n), Pow(2, b * m), n)
  {
    hide Pow, Prime, Same;
    PrimeIsAtLeastTwo(n);
    var base := ModPow(2, b, n);
    if Divides(n, base) {
      DividesAtMost(n, base);
      assert false;
    }
    ExponentReduces(base, m, n);
    SameMod(Pow(2, b), n);
    SamePow(base, Pow(2, b), m, n);
    PowMul(2, b, m);
    SameMod(Pow(base, m % (n - 1)), n);
    SameTrans(ModPow(base, m % (n - 1), n), Pow(base, m % (n - 1)), Pow(base, m), n);
    SameTrans(ModPow(base, m % (n - 1), n), Pow(base, m), Pow(2, b * m), n);
  }

  /** Both sides derive the same key. */
  lemma KeysAgree(n: nat, secret: nat, x: nat, u: nat, b: nat)
    requires Prime(n) && ModPow(2, b, n) != 0
    ensures ModPow(ModPow(2, b, n), SharedExponent(n, secret, u, x), n) == ServerKey(n, ModPow(2, secret, n), x, u, b)
  {
    hide Pow, Prime, Same, ModPow, ServerKey;
    PrimeIsAtLeastTwo(n);
    var m := secret + u * x;
    ClientKeyIsPower(n, b, m);
    ServerKeyIsPower(n, secret, x, u, b);
    assert b * m == (secret + x * u) * b;
    var p := Pow(2, b * m);
    var c, d := ModPow(ModPow(2, b, n), SharedExponent(n, secret, u, x), n), ServerKey(n, ModPow(2, secret, n), x, u, b);
    SameSym(d, p, n);
    SameTrans(c, p, d, n);
    KeysReduced(n, secret, x, u, b);
    SameMeansEqual(c, d, n);
  }

  lemma KeysReduced(n: nat, secret: nat, x: nat, u: nat, b: nat)
    requires n > 1
    ensures ModPow(ModPow(2, b, n), SharedExponent(n, secret, u, x), n) < n
    ensures ServerKey(n, ModPow(2, secret, n), x, u, b) < n
  {
  }

  /**
   * Whenever the client answers an honest server, its proofs are the ones made from the
   * server's own key, so each side accepts the other.
   */
  lemma Agreement(n: nat, k: nat, x: nat, expand: Hash, secret: nat, b: nat)
    requires Prime(n) && n < Pow(2, 2048)
    requires Respond(n, k, ServerEphemeral(n, k, x, b), x, expand, secret).Ok?
    ensures
      var server := ServerEphemeral(n, k, x, b);
      var proofs := Respond(n, k, server, x, expand, secret).value;
      var client := proofs.clientEphemeral;
      var key := ServerKey(n, FromLittle(client), x, Scramble(client, server, expand), b);
      proofs == MakeProofs(client, server, ToLittle(key, GROUP_BYTES), expand)
  {
    hide Pow, Prime, ToLittle, FromLittle, ModPow, ServerKey, SharedExponent, SharedBase;
    PrimeIsAtLeastTwo(n);
    var server := ServerEphemeral(n, k, x, b);
    var client := Ephemeral(n, secret);
    HonestBase(n, k, x, b);
    EphemeralRoundTrip(n, secret);
    KeysAgree(n, secret, x, Scramble(client, server, expand), b);
  }

  lemma EphemeralRoundTrip(n: nat, secret: nat)
    requires 1 < n < Pow(2, 2048)
    ensures FromLittle(Ephemeral(n, secret)) == ModPow(2, secret, n)
  {
    hide Pow;
    GroupFits(ModPow(2, secret, n));
    LittleEndianRoundTrip(ModPow(2, secret, n), GROUP_BYTES);
  }

  lemma {:induction false} PowerAvoidsPrime(p: nat, a: nat, e: nat)
    requires Prime(p) && !Divides(p, a)
    ensures !Divides(p, Pow(a, e))
  {
    hide Prime, Same;
    if e == 0 {
      if Divides(p, 1) {
        DividesAtMost(p, 1);
        PrimeIsAtLeastTwo(p);
        assert false;
      }
    } else {
      PowerAvoidsPrime(p, a, e - 1);
      if Divides(p, a * Pow(a, e - 1)) {
        EuclidsLemma(p, a, Pow(a, e - 1));
        assert false;
      }
    }
  }

  lemma {:induction false} MinusOnePowers(k: nat)
    ensures Pow(-1, k) == if k % 2 == 0 then 1 else -1
  {
    if k > 0 {
      MinusOnePowers(k - 1);
    }
  }

  /** In a safe group, 2 reaches one or minus one exactly at the multiples of half the order. */
  lemma SignsAreMultiples(n: nat, q: nat, b: nat)
    requires Prime(n) && Prime(q) && n == 2 * q + 1 && n > 3 && Same(Pow(2, q), -1, n)
    ensures Same(Pow(2, b), 1, n) || Same(Pow(2, b), -1, n) <==> Divides(q, b)
  {
    hide Pow, Prime, Same;
    if Same(Pow(2, b), 1, n) || Same(Pow(2, b), -1, n) {
      SignIsMultiple(n, q, b);
    }
    if Divides(q, b) {
      var k := MultipleOf(q, b);
      PowMul(2, q, k);
      SamePow(Pow(2, q), -1, k, n);
      MinusOnePowers(k);
    }
  }

  lemma MultipleOf(q: nat, b: nat) returns (k: nat)
    requires q > 0 && Divides(q, b)
    ensures b == q * k
  {
    var l :| (b as int) == 0 + Times(l, q);
    TimesBounds(l, q);
    k := l;
  }

  lemma SignIsMultiple(n: nat, q: nat, b: nat)
    requires Prime(n) && Prime(q) && n == 2 * q + 1 && n > 3 && Same(Pow(2, q), -1, n)
    requires Same(Pow(2, b), 1, n) || Same(Pow(2, b), -1, n)
    ensures Divides(q, b)
  {
    hide Pow, Prime, Same;
    if Same(Pow(2, b), 1, n) {
      PowAdd(2, b, b);
      SameMul(Pow(2, b), 1, Pow(2, b), 1, n);
    } else {
      PowTwoTwice(b, n);
    }
    PowTwoTwice(q, n);
    PowerGcd(2, 2 * q, 2 * b, n);
    var g := Gcd(2 * q, 2 * b);
    var x, y := GcdBezout(2 * q, 2 * b);
    DividesAtMost(g, 2 * q);
    if g < n - 1 {
      TwoGenerates(n, q, g);
      assert false;
    }
    var k := MultipleOf(2 * q, 2 * b);
    assert b == k * q by {
      assert 2 * q * k == 2 * (k * q);
    }
    DividesBy(q, b, k);
  }

  /** With an honest server, exactly when the client refuses to answer. */
  lemma HonestRefusal(n: nat, k: nat, x: nat, expand: Hash, secret: nat, b: nat)
    requires 3 < n < Pow(2, 2048) && n % 8 == 3 && Prime(n) && Prime((n - 1) / 2)
    ensures
      var server := ServerEphemeral(n, k, x, b);
      var r := Respond(n, k, server, x, expand, secret);
      && (r == Err(DegenerateBase) <==> Divides((n - 1) / 2, b))
      && (r == Err(DegenerateExponent) <==>
            !Divides((n - 1) / 2, b) && Divides(n - 1, secret + Scramble(Ephemeral(n, secret), server, expand) * x))
  {
    hide Pow, Prime, ToLittle, FromLittle, Divides, SharedBase, ModPow;
    var server := ServerEphemeral(n, k, x, b);
    HonestBase(n, k, x, b);
    SignDecides(n, b);
    DividesReduced(secret + Scramble(Ephemeral(n, secret), server, expand) * x, n - 1);
  }

  lemma SignDecides(n: nat, b: nat)
    requires 3 < n && n % 8 == 3 && Prime(n) && Prime((n - 1) / 2)
    ensures ModPow(2, b, n) != 0
    ensures ModPow(2, b, n) == 1 || ModPow(2, b, n) == n - 1 <==> Divides((n - 1) / 2, b)
  {
    hide *;
    SmallResidues(2, b, n);
    TwoAvoidsPrime(n, b);
    TwoIsNoSquare(n);
    assert n == 2 * ((n - 1) / 2) + 1;
    SignsAreMultiples(n, (n - 1) / 2, b);
  }

  lemma SmallResidues(a: int, e: nat, n: nat)
    requires n > 1
    ensures ModPow(a, e, n) == 0 <==> Divides(n, Pow(a, e))
    ensures ModPow(a, e, n) == 1 <==> Same(Pow(a, e), 1, n)
    ensures ModPow(a, e, n) == n - 1 <==> Same(Pow(a, e), -1, n)
  {
    hide Pow, Same;
    DividesReduced(Pow(a, e), n);
    SameReduces(Pow(a, e), 1, n);
    MinusOneReduced(Pow(a, e), n);
  }

  lemma TwoAvoidsPrime(n: nat, b: nat)
    requires Prime(n) && n > 2
    ensures !Divides(n, Pow(2, b))
  {
    hide *;
    if Divides(n, 2) {
      DividesAtMost(n, 2);
      assert false;
    }
    PowerAvoidsPrime(n, 2, b);
  }

  lemma DividesReduced(m: int, d: nat)
    requires d > 0
    ensures Divides(d, m) <==> m % d == 0
  {
    SameReduces(m, 0, d);
  }

  // -------------------------------------------------------- the client method

  predicate Usable(n: nat, server: Bytes, expand: Hash, secret: nat)
    requires n > 0
  {
    Scramble(Ephemeral(n, secret), server, expand) != 0
  }

  /** The first drawn secret whose scramble is not zero. */
  function FirstUsable(n: nat, server: Bytes, expand: Hash, secrets: seq<nat>): Option<nat>
    requires n > 0
  {
    if secrets == [] then None
    else if Usable(n, server, expand, secrets[0]) then Some(secrets[0])
    else FirstUsable(n, server, expand, secrets[1..])
  }

  /** `secrets.randbelow(number - 4098) + 4097` was drawn for every attempt. */
  predicate ValidSecrets(number: int, secrets: seq<nat>) {
    |secrets| == ATTEMPTS && (number > 4098 ==> forall d :: d in secrets ==> 4097 <= d < number - 1)
  }

  /** The client's answer to a server, for a modulus that passed its check. */
  function Answer(n: nat, modulus: Bytes, server: Bytes, hashed: Bytes, expand: Hash, secrets: seq<nat>)
    : Result<Proofs, SrpError>
    requires n > 1
  {
    var k := Multiplier(n, modulus, expand);
    if |server| != GROUP_BYTES || !(1 < FromLittle(server) < n - 1) then Err(ServerOutOfBounds)
    else if |hashed| != GROUP_BYTES then Err(BadPasswordHash)
    else if !(1 < k < n - 1) then Err(MultiplierOutOfBounds)
    else match FirstUsable(n, server, expand, secrets)
      case None => Err(EphemeralFailed)
      case Some(secret) => Respond(n, k, server, FromLittle(hashed), expand, secret)
  }

  function VerifyServerProof(proofs: Proofs, proof: Bytes): Result<(), SrpError> {
    if proof == proofs.expectedServerProof then Ok(()) else Err(ServerProofMismatch)
  }

  /** The server's answer: it checks the client's proof against its own key first. */
  function ServerReply(client: Bytes, clientProof: Bytes, server: Bytes, key: Bytes, expand: Hash): Option<Bytes> {
    if clientProof == expand(client + server + key) then Some(expand(client + clientProof + key)) else None
  }

  /** The server with secret `b` accepts the client, and the client accepts its reply. */
  ghost predicate MutuallyAccepted(n: nat, server: Bytes, x: nat, expand: Hash, b: nat, proofs: Proofs)
    requires n > 0
  {
    var client := proofs.clientEphemeral;
    var key := ToLittle(ServerKey(n, FromLittle(client), x, Scramble(client, server, expand), b), GROUP_BYTES);
    var reply := ServerReply(client, proofs.clientProof, server, key, expand);
    reply.Some? && VerifyServerProof(proofs, reply.value).Ok?
  }

  method GenerateProofs(modulus: Bytes, server: Bytes, hashed: Bytes, expand: Hash, draws: seq<nat>, secrets: seq<nat>)
    returns (r: Result<Proofs, SrpError>)
    requires ValidDraws(Half(FromLittle(modulus)), draws)
    requires ValidSecrets(FromLittle(modulus), secrets)
    ensures !WellFormed(modulus) ==> r == Err(ModulusParameters)
    ensures WellFormed(modulus) ==>
      var n := FromLittle(modulus);
      n > 1 && (r == Err(NotSafePrime) || r == Answer(n, modulus, server, hashed, expand, secrets))
    ensures var n := FromLittle(modulus);
      WellFormed(modulus) && Prime(n) && Prime(Half(n)) ==>
        r == Answer(n, modulus, server, hashed, expand, secrets)
    ensures var n, x := FromLittle(modulus), FromLittle(hashed);
      r.Ok? && Prime(n) ==>
        forall b: nat | server == ServerEphemeral(n, Multiplier(n, modulus, expand), x, b) ::
          MutuallyAccepted(n, server, x, expand, b, r.value)
  {
    var checked := ValidatedModulus(modulus, draws);
    if checked.Err? {
      return Err(checked.error);
    }
    hide Pow, Prime, ToLittle, FromLittle, ModPow, ServerKey, Respond, Multiplier, Scramble;
    var n, x := checked.value, FromLittle(hashed);
    if |server| != GROUP_BYTES || !(1 < FromLittle(server) < n - 1) {
      return Err(ServerOutOfBounds);
    }
    if |hashed| != GROUP_BYTES {
      return Err(BadPasswordHash);
    }
    var k := Multiplier(n, modulus, expand);
    if !(1 < k < n - 1) {
      return Err(MultiplierOutOfBounds);
    }
    var i := 0;
    while i < ATTEMPTS && !Usable(n, server, expand, secrets[i])
      invariant 0 <= i <= ATTEMPTS
      invariant FirstUsable(n, server, expand, secrets) == FirstUsable(n, server, expand, secrets[i..])
    {
      assert secrets[i..][1..] == secrets[i + 1..];
      i := i + 1;
    }
    if i == ATTEMPTS {
      return Err(EphemeralFailed);
    }
    r := Respond(n, k, server, x, expand, secrets[i]);
    if r.Ok? && Prime(n) {
      forall b: nat | server == ServerEphemeral(n, k, x, b)
        ensures MutuallyAccepted(n, server, x, expand, b, r.value)
      {
        Agreement(n, k, x, expand, secrets[i], b);
      }
    }
  }
}
