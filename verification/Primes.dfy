/** The first 64 primes, from which SHA-256 takes its constants. */
module Primes {

  /** Prime number t, counted from 0. */
  function Prime(t: nat): nat
    requires t < 64
  {
    if t < 8 then [2, 3, 5, 7, 11, 13, 17, 19][t - 0]
    else if t < 16 then [23, 29, 31, 37, 41, 43, 47, 53][t - 8]
    else if t < 24 then [59, 61, 67, 71, 73, 79, 83, 89][t - 16]
    else if t < 32 then [97, 101, 103, 107, 109, 113, 127, 131][t - 24]
    else if t < 40 then [137, 139, 149, 151, 157, 163, 167, 173][t - 32]
    else if t < 48 then [179, 181, 191, 193, 197, 199, 211, 223][t - 40]
    else if t < 56 then [227, 229, 233, 239, 241, 251, 257, 263][t - 48]
    else [269, 271, 277, 281, 283, 293, 307, 311][t - 56]
  }

  // ---- Trial division ----

  predicate Divides(d: nat, n: nat)
    requires d > 0
  {
    n % d == 0
  }

  ghost predicate IsPrime(n: nat) {
    n >= 2 && forall d | 2 <= d < n :: !Divides(d, n)
  }

  predicate HasSmallFactor(n: nat) {
    (n > 2 && n % 2 == 0) || (n > 3 && n % 3 == 0) || (n > 5 && n % 5 == 0) || (n > 7 && n % 7 == 0)
    || (n > 11 && n % 11 == 0) || (n > 13 && n % 13 == 0) || (n > 17 && n % 17 == 0)
  }

  lemma {:induction false} SmallFactorMeans(n: nat)
    ensures HasSmallFactor(n) <==>
            (n > 2 && Divides(2, n)) || (n > 3 && Divides(3, n)) || (n > 5 && Divides(5, n)) || (n > 7 && Divides(7, n))
            || (n > 11 && Divides(11, n)) || (n > 13 && Divides(13, n)) || (n > 17 && Divides(17, n))
  {
  }

  lemma {:induction false} NoRemainder(q: nat, z: int)
    requires 0 <= q * z < q
    ensures z == 0
  {
    assert z >= 1 ==> q * z >= q * 1;
    assert z <= -1 ==> q * z <= q * -1;
  }

  lemma {:induction false} DividesMultiple(q: nat, k: nat)
    requires q > 0
    ensures Divides(q, q * k)
  {
    var y, r := (q * k) / q, (q * k) % q;
    assert q * k == q * y + r;
    assert q * (k - y) == q * k - q * y;
    NoRemainder(q, k - y);
  }

  lemma {:induction false} Regroup(q: nat, f: nat, e: nat)
    ensures (q * f) * e == q * (f * e)
  {
  }

  function SmallPrimeOf(d: nat): (q: nat)
    requires 2 <= d <= 18
    ensures q == 2 || q == 3 || q == 5 || q == 7 || q == 11 || q == 13 || q == 17
    ensures d == q * (d / q)
  {
    if d % 2 == 0 then 2 else if d % 3 == 0 then 3 else if d % 5 == 0 then 5 else if d % 7 == 0 then 7 else d
  }

  lemma {:induction false} SmallDivisor(n: nat, d: nat, e: nat)
    requires 2 <= d <= 18 && d < n && n == d * e
    ensures HasSmallFactor(n)
  {
    hide SmallPrimeOf, Divides, HasSmallFactor;
    SmallFactorMeans(n);
    var q := SmallPrimeOf(d);
    Regroup(q, d / q, e);
    DividesMultiple(q, (d / q) * e);
  }

  lemma {:induction false} Growing(a: nat, b: nat, c: nat)
    requires b <= c
    ensures a * b <= a * c
  {
  }

  lemma {:induction false} Cofactor(n: nat, d: nat, e: nat)
    requires 2 <= d < n < 361 && n == d * e
    ensures 1 < e < n && (d <= 18 || e <= 18)
  {
    if e <= 1 { Growing(d, e, 1); }
    if e >= n { Growing(e, 2, d); }
    if d >= 19 && e >= 19 { Growing(d, 19, e); }
  }

  lemma {:induction false} Quotient(n: nat, d: nat) returns (e: nat)
    requires d > 0 && Divides(d, n)
    ensures n == d * e == e * d
  {
    e := n / d;
  }

  /** Below 19 * 19 a number is prime exactly when no smaller prime up to 17 divides it. */
  lemma {:induction false} SmallFactorsDecide(n: nat)
    requires 2 <= n < 361
    ensures IsPrime(n) <==> !HasSmallFactor(n)
  {
    hide Divides, HasSmallFactor;
    SmallFactorMeans(n);
    if HasSmallFactor(n) {
      assert Divides(2, n) || Divides(3, n) || Divides(5, n) || Divides(7, n)
          || Divides(11, n) || Divides(13, n) || Divides(17, n);
    }
    forall d | 2 <= d < n && Divides(d, n) ensures HasSmallFactor(n) {
      var e := Quotient(n, d);
      Cofactor(n, d, e);
      if d <= 18 { SmallDivisor(n, d, e); } else { SmallDivisor(n, e, d); }
    }
  }

  // ---- The table ----

  /** Every number from a to b - 1 has a small factor. */
  predicate AllComposite(a: nat, b: nat)
    decreases b - a
  {
    a >= b || (HasSmallFactor(a) && AllComposite(a + 1, b))
  }

  /** b has no small factor, and every number between a and b has one. */
  predicate Next(a: nat, b: nat) {
    a < b < 361 && !HasSmallFactor(b) && AllComposite(a + 1, b)
  }

  predicate IsNext(t: nat)
    requires t < 63
  {
    Next(Prime(t), Prime(t + 1))
  }

  lemma {:induction false} NextFrom0()
    ensures IsNext(0) && IsNext(1) && IsNext(2) && IsNext(3)
    ensures IsNext(4) && IsNext(5) && IsNext(6) && IsNext(7)
  {
  }

  lemma {:induction false} NextFrom8()
    ensures IsNext(8) && IsNext(9) && IsNext(10) && IsNext(11)
    ensures IsNext(12) && IsNext(13) && IsNext(14) && IsNext(15)
  {
  }

  lemma {:induction false} NextFrom16()
    ensures IsNext(16) && IsNext(17) && IsNext(18) && IsNext(19)
    ensures IsNext(20) && IsNext(21) && IsNext(22) && IsNext(23)
  {
  }

  lemma {:induction false} NextFrom24()
    ensures IsNext(24) && IsNext(25) && IsNext(26) && IsNext(27)
    ensures IsNext(28) && IsNext(29) && IsNext(30) && IsNext(31)
  {
    assert AllComposite(120, 127);
    assert AllComposite(114, 127);
  }

  lemma {:induction false} NextFrom32()
    ensures IsNext(32) && IsNext(33) && IsNext(34) && IsNext(35)
    ensures IsNext(36) && IsNext(37) && IsNext(38) && IsNext(39)
  {
  }

  lemma {:induction false} NextFrom40()
    ensures IsNext(40) && IsNext(41) && IsNext(42) && IsNext(43)
    ensures IsNext(44) && IsNext(45) && IsNext(46) && IsNext(47)
  {
  }

  lemma {:induction false} NextFrom48()
    ensures IsNext(48) && IsNext(49) && IsNext(50) && IsNext(51)
    ensures IsNext(52) && IsNext(53) && IsNext(54) && IsNext(55)
  {
  }

  lemma {:induction false} NextFrom56()
    ensures IsNext(56) && IsNext(57) && IsNext(58) && IsNext(59)
    ensures IsNext(60) && IsNext(61) && IsNext(62)
  {
    assert AllComposite(300, 307);
    assert AllComposite(294, 307);
  }

  lemma {:induction false} EveryEntryIsNext(t: nat)
    requires t < 63
    ensures IsNext(t)
  {
    hide IsNext;
    if t < 8 {
      NextFrom0();
      assert t == 0 || t == 1 || t == 2 || t == 3 || t == 4 || t == 5 || t == 6 || t == 7;
    } else if t < 16 {
      NextFrom8();
      assert t == 8 || t == 9 || t == 10 || t == 11 || t == 12 || t == 13 || t == 14 || t == 15;
    } else if t < 24 {
      NextFrom16();
      assert t == 16 || t == 17 || t == 18 || t == 19 || t == 20 || t == 21 || t == 22 || t == 23;
    } else if t < 32 {
      NextFrom24();
      assert t == 24 || t == 25 || t == 26 || t == 27 || t == 28 || t == 29 || t == 30 || t == 31;
    } else if t < 40 {
      NextFrom32();
      assert t == 32 || t == 33 || t == 34 || t == 35 || t == 36 || t == 37 || t == 38 || t == 39;
    } else if t < 48 {
      NextFrom40();
      assert t == 40 || t == 41 || t == 42 || t == 43 || t == 44 || t == 45 || t == 46 || t == 47;
    } else if t < 56 {
      NextFrom48();
      assert t == 48 || t == 49 || t == 50 || t == 51 || t == 52 || t == 53 || t == 54 || t == 55;
    } else {
      NextFrom56();
      assert t == 56 || t == 57 || t == 58 || t == 59 || t == 60 || t == 61 || t == 62;
    }
  }

  lemma {:induction false} CompositesBetween(a: nat, b: nat, n: nat)
    requires AllComposite(a, b) && a <= n < b
    ensures HasSmallFactor(n)
    decreases n - a
  {
    hide HasSmallFactor;
    if a < n { CompositesBetween(a + 1, b, n); }
  }

  /** The table starts at 2, every entry is prime, and no prime lies between two neighbours: it holds the
      first 64 primes. */
  lemma {:induction false} TableHoldsFirstPrimes(t: nat)
    requires t < 64
    ensures Prime(0) == 2 && IsPrime(Prime(t))
    ensures t > 0 ==> Prime(t - 1) < Prime(t) && forall n | Prime(t - 1) < n < Prime(t) :: !IsPrime(n)
  {
    hide HasSmallFactor, IsNext;
    assert Prime(0) == 2;
    if t == 0 {
      NoSmallerDivisor();
    } else {
      hide Prime;
      TableHoldsFirstPrimes(t - 1);
      EveryEntryIsNext(t - 1);
      EntryAfter(t - 1);
    }
  }

  lemma {:induction false} NoSmallerDivisor()
    ensures IsPrime(2)
  {
  }

  lemma {:induction false} EntryAfter(t: nat)
    requires t < 63 && IsNext(t) && Prime(t) >= 2
    ensures Prime(t) < Prime(t + 1) && IsPrime(Prime(t + 1))
    ensures forall n | Prime(t) < n < Prime(t + 1) :: !IsPrime(n)
  {
    hide Prime, IsPrime, HasSmallFactor, AllComposite;
    SmallFactorsDecide(Prime(t + 1));
    forall n | Prime(t) < n < Prime(t + 1) ensures !IsPrime(n) {
      CompositesBetween(Prime(t) + 1, Prime(t + 1), n);
      SmallFactorsDecide(n);
    }
  }
}
