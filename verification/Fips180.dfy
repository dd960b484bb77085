/** SHA-256 as FIPS 180-4 defines it, on 32-bit words and 8-bit bytes. */
module Fips180 {
  import opened Primes

  // ---- Functions and constants (sections 4.1.2, 4.2.2, 5.3.3) ----

  function Rotr(x: bv32, n: bv32): bv32
    requires n <= 32
  {
    (x >> n) | (x << (32 - n))
  }

  function Shr(x: bv32, n: bv32): bv32
    requires n <= 32
  {
    x >> n
  }

  function Exclusive(p: bv32, q: bv32, r: bv32): bv32 {
    p ^ q ^ r
  }

  // Addition of words is modulo 2^32 (section 2.2.2).

  function Add2(p: bv32, q: bv32): bv32 {
    p + q
  }

  function Add4(p: bv32, q: bv32, r: bv32, s: bv32): bv32 {
    p + q + r + s
  }

  function Add5(p: bv32, q: bv32, r: bv32, s: bv32, t: bv32): bv32 {
    p + q + r + s + t
  }

  function Ch(x: bv32, y: bv32, z: bv32): bv32 {
    (x & y) ^ (!x & z)
  }

  function Maj(x: bv32, y: bv32, z: bv32): bv32 {
    (x & y) ^ (x & z) ^ (y & z)
  }

  function BigSigma0(x: bv32): bv32 {
    Exclusive(Rotr(x, 2), Rotr(x, 13), Rotr(x, 22))
  }

  function BigSigma1(x: bv32): bv32 {
    Exclusive(Rotr(x, 6), Rotr(x, 11), Rotr(x, 25))
  }

  function SmallSigma0(x: bv32): bv32 {
    Exclusive(Rotr(x, 7), Rotr(x, 18), Shr(x, 3))
  }

  function SmallSigma1(x: bv32): bv32 {
    Exclusive(Rotr(x, 17), Rotr(x, 19), Shr(x, 10))
  }

  function RoundConstant(t: nat): bv32
    requires t < 64
  {
    if t < 8 then [0x428a2f98, 0x71374491, 0xb5c0fbcf, 0xe9b5dba5, 0x3956c25b, 0x59f111f1, 0x923f82a4, 0xab1c5ed5][t - 0]
    else if t < 16 then [0xd807aa98, 0x12835b01, 0x243185be, 0x550c7dc3, 0x72be5d74, 0x80deb1fe, 0x9bdc06a7, 0xc19bf174][t - 8]
    else if t < 24 then [0xe49b69c1, 0xefbe4786, 0x0fc19dc6, 0x240ca1cc, 0x2de92c6f, 0x4a7484aa, 0x5cb0a9dc, 0x76f988da][t - 16]
    else if t < 32 then [0x983e5152, 0xa831c66d, 0xb00327c8, 0xbf597fc7, 0xc6e00bf3, 0xd5a79147, 0x06ca6351, 0x14292967][t - 24]
    else if t < 40 then [0x27b70a85, 0x2e1b2138, 0x4d2c6dfc, 0x53380d13, 0x650a7354, 0x766a0abb, 0x81c2c92e, 0x92722c85][t - 32]
    else if t < 48 then [0xa2bfe8a1, 0xa81a664b, 0xc24b8b70, 0xc76c51a3, 0xd192e819, 0xd6990624, 0xf40e3585, 0x106aa070][t - 40]
    else if t < 56 then [0x19a4c116, 0x1e376c08, 0x2748774c, 0x34b0bcb5, 0x391c0cb3, 0x4ed8aa4a, 0x5b9cca4f, 0x682e6ff3][t - 48]
    else [0x748f82ee, 0x78a5636f, 0x84c87814, 0x8cc70208, 0x90befffa, 0xa4506ceb, 0xbef9a3f7, 0xc67178f2][t - 56]
  }

  datatype State = State(a: bv32, b: bv32, c: bv32, d: bv32, e: bv32, f: bv32, g: bv32, h: bv32)

  const INITIAL: State := State(
    0x6a09e667, 0xbb67ae85, 0x3c6ef372, 0xa54ff53a, 0x510e527f, 0x9b05688c, 0x1f83d9ab, 0x5be0cd19)

  // ---- Padding (section 5.1.1) ----

  /** The least number of zero bits that makes l + 1 + k congruent to 448 modulo 512. */
  function ZeroBits(l: nat): nat {
    (447 - l) % 512
  }

  /** n bytes, most significant first. */
  function BigEndian(x: nat, n: nat): (bytes: seq<bv8>)
    ensures |bytes| == n
  {
    if n == 0 then [] else BigEndian(x / 256, n - 1) + [(x % 256) as bv8]
  }

  /** The message, a one bit, ZeroBits zero bits, and the bit length in 64 bits; a message of whole
      bytes has its one bit and the next seven zero bits in the byte 0x80. */
  function Padded(msg: seq<bv8>): seq<bv8> {
    msg + [0x80] + Zeros((ZeroBits(8 * |msg|) - 7) / 8) + BigEndian(8 * |msg|, 8)
  }

  function Zeros(n: int): seq<bv8> {
    if n <= 0 then [] else seq(n, _ => 0)
  }

  // ---- The hash computation (section 6.2.2) ----

  function WordOfBytes(b0: bv8, b1: bv8, b2: bv8, b3: bv8): bv32 {
    ((b0 as bv32) << 24) | ((b1 as bv32) << 16) | ((b2 as bv32) << 8) | (b3 as bv32)
  }

  /** Word t of the message block that starts at byte off. */
  function MessageWord(msg: seq<bv8>, off: nat, t: nat): bv32
    requires t < 16 && off + 64 <= |msg|
  {
    WordOfBytes(msg[off + t * 4], msg[off + t * 4 + 1], msg[off + t * 4 + 2], msg[off + t * 4 + 3])
  }

  /** A later schedule word from those 2, 7, 15 and 16 places before it. */
  function NextWord(w2: bv32, w7: bv32, w15: bv32, w16: bv32): bv32 {
    Add4(SmallSigma1(w2), w7, SmallSigma0(w15), w16)
  }

  function Schedule(msg: seq<bv8>, off: nat, t: nat): bv32
    requires t < 64 && off + 64 <= |msg|
  {
    if t < 16 then MessageWord(msg, off, t)
    else
      NextWord(Schedule(msg, off, t - 2), Schedule(msg, off, t - 7),
               Schedule(msg, off, t - 15), Schedule(msg, off, t - 16))
  }

  function T1(e: bv32, f: bv32, g: bv32, h: bv32, k: bv32, w: bv32): bv32 {
    Add5(h, BigSigma1(e), Ch(e, f, g), k, w)
  }

  function T2(a: bv32, b: bv32, c: bv32): bv32 {
    Add2(BigSigma0(a), Maj(a, b, c))
  }

  function Round(s: State, k: bv32, w: bv32): State {
    var t1 := T1(s.e, s.f, s.g, s.h, k, w);
    var t2 := T2(s.a, s.b, s.c);
    State(Add2(t1, t2), s.a, s.b, s.c, Add2(s.d, t1), s.e, s.f, s.g)
  }

  /** The working variables after the first t rounds on a block. */
  function Rounds(s: State, msg: seq<bv8>, off: nat, t: nat): State
    requires t <= 64 && off + 64 <= |msg|
  {
    if t == 0 then s
    else Round(Rounds(s, msg, off, t - 1), RoundConstant(t - 1), Schedule(msg, off, t - 1))
  }

  function Sum(s: State, v: State): State {
    State(Add2(s.a, v.a), Add2(s.b, v.b), Add2(s.c, v.c), Add2(s.d, v.d),
          Add2(s.e, v.e), Add2(s.f, v.f), Add2(s.g, v.g), Add2(s.h, v.h))
  }

  /** The hash value after the first n blocks. */
  function HashAfter(msg: seq<bv8>, n: nat): State
    requires 64 * n <= |msg|
  {
    if n == 0 then INITIAL
    else
      var s := HashAfter(msg, n - 1);
      Sum(s, Rounds(s, msg, 64 * (n - 1), 64))
  }

  function WordBytes(w: bv32): seq<bv8> {
    [((w >> 24) & 0xff) as bv8, ((w >> 16) & 0xff) as bv8, ((w >> 8) & 0xff) as bv8, (w & 0xff) as bv8]
  }

  function Joined(words: seq<bv32>): (bytes: seq<bv8>)
    ensures |bytes| == 4 * |words|
  {
    if words == [] then [] else Joined(words[..|words| - 1]) + WordBytes(words[|words| - 1])
  }

  function StateWords(s: State): (words: seq<bv32>)
    ensures |words| == 8
  {
    [s.a, s.b, s.c, s.d, s.e, s.f, s.g, s.h]
  }

  function Digest(msg: seq<bv8>): (d: seq<bv8>)
    ensures |d| == 32
  {
    var padded := Padded(msg);
    Joined(StateWords(HashAfter(padded, |padded| / 64)))
  }

  // ---- Padding laws ----

  /** ZeroBits is the least solution of the standard's congruence. */
  lemma {:induction false} ZeroBitsLeast(l: nat, k: nat)
    ensures (l + 1 + ZeroBits(l)) % 512 == 448
    ensures (l + 1 + k) % 512 == 448 ==> ZeroBits(l) <= k
  {
    var q := (447 - l) / 512;
    assert 447 - l == 512 * q + ZeroBits(l);
    assert l + 1 + ZeroBits(l) == 512 * (-q) + 448;
    if (l + 1 + k) % 512 == 448 {
      var r := (l + 1 + k) / 512;
      assert k - ZeroBits(l) == 512 * (r + q);
    }
  }

  /** In bytes: after the byte 0x80 come the fewest zero bytes that leave eight to a multiple of 64. */
  lemma {:induction false} ZeroBytes(n: nat)
    ensures (ZeroBits(8 * n) - 7) / 8 == (55 - n) % 64
    ensures (n + 1 + (55 - n) % 64) % 64 == 56
  {
    var q := (55 - n) / 64;
    var z := (55 - n) % 64;
    assert 447 - 8 * n == 512 * q + (8 * z + 7);
    assert ZeroBits(8 * n) == 8 * z + 7;
    assert n + 1 + z == 64 * (-q) + 56;
  }

  /** Padding gives the least multiple of 64 bytes that has room for nine more. */
  lemma {:induction false} PaddedLength(msg: seq<bv8>, m: nat)
    ensures |Padded(msg)| % 64 == 0
    ensures |Padded(msg)| >= |msg| + 9
    ensures m % 64 == 0 && m >= |msg| + 9 ==> |Padded(msg)| <= m
  {
    ZeroBytes(|msg|);
    var z := (55 - |msg|) % 64;
    assert |Padded(msg)| == |msg| + 1 + z + 8;
    LeastMultiple(|msg|, z, m);
  }

  lemma {:induction false} LeastMultiple(n: nat, z: nat, m: nat)
    requires z < 64 && (n + 1 + z) % 64 == 56
    ensures (n + 9 + z) % 64 == 0
    ensures m % 64 == 0 && m >= n + 9 ==> n + 9 + z <= m
  {
  }

  /** Different messages have different paddings. */
  lemma {:induction false} PaddingIsInjective(m1: seq<bv8>, m2: seq<bv8>)
    ensures Padded(m1) == Padded(m2) <==> m1 == m2
  {
    if |Padded(m1)| == |Padded(m2)| {
      if |m1| > |m2| {
        MarkerPlace(m1, m2);
      } else if |m2| > |m1| {
        MarkerPlace(m2, m1);
      } else {
        assert Padded(m1)[..|m1|] == m1 && Padded(m2)[..|m1|] == m2;
      }
    }
  }

  lemma {:induction false} MarkerPlace(long: seq<bv8>, short: seq<bv8>)
    requires |long| > |short| && |Padded(long)| == |Padded(short)|
    ensures Padded(long) != Padded(short)
  {
    assert Padded(long)[|long|] == 0x80;
    assert Padded(short)[|long|] == 0;
  }

  // ---- Where the constants come from (sections 4.2.2 and 5.3.3) ----

  function Square(x: int): int { x * x }

  function Cube(x: int): int { x * x * x }

  const TWO_TO_32: int := 0x1_0000_0000

  /** The integer part of the cube root, for the primes of the table. */
  function CubeRootFloor(p: nat): nat {
    if p < 8 then 1 else if p < 27 then 2 else if p < 64 then 3 else if p < 125 then 4 else if p < 216 then 5 else 6
  }

  function SquareRootFloor(p: nat): nat {
    if p < 4 then 1 else if p < 9 then 2 else if p < 16 then 3 else 4
  }

  /** k is the first 32 bits of the fractional part of the cube root of the t-th prime. */
  predicate IsCubeRootFraction(t: nat)
    requires t < 64
  {
    var p := Prime(t);
    var root := CubeRootFloor(p) * TWO_TO_32 + RoundConstant(t) as int;
    Cube(root) <= p * Cube(TWO_TO_32) < Cube(root + 1)
  }

  predicate IsSquareRootFraction(p: nat, h: bv32) {
    var root := SquareRootFloor(p) * TWO_TO_32 + h as int;
    Square(root) <= p * Square(TWO_TO_32) < Square(root + 1)
  }

  lemma {:induction false} CubeRootsFrom0()
    ensures IsCubeRootFraction(0) && IsCubeRootFraction(1) && IsCubeRootFraction(2) && IsCubeRootFraction(3)
    ensures IsCubeRootFraction(4) && IsCubeRootFraction(5) && IsCubeRootFraction(6) && IsCubeRootFraction(7)
  {
  }

  lemma {:induction false} CubeRootsFrom8()
    ensures IsCubeRootFraction(8) && IsCubeRootFraction(9) && IsCubeRootFraction(10) && IsCubeRootFraction(11)
    ensures IsCubeRootFraction(12) && IsCubeRootFraction(13) && IsCubeRootFraction(14) && IsCubeRootFraction(15)
  {
  }

  lemma {:induction false} CubeRootsFrom16()
    ensures IsCubeRootFraction(16) && IsCubeRootFraction(17) && IsCubeRootFraction(18) && IsCubeRootFraction(19)
    ensures IsCubeRootFraction(20) && IsCubeRootFraction(21) && IsCubeRootFraction(22) && IsCubeRootFraction(23)
  {
  }

  lemma {:induction false} CubeRootsFrom24()
    ensures IsCubeRootFraction(24) && IsCubeRootFraction(25) && IsCubeRootFraction(26) && IsCubeRootFraction(27)
    ensures IsCubeRootFraction(28) && IsCubeRootFraction(29) && IsCubeRootFraction(30) && IsCubeRootFraction(31)
  {
  }

  lemma {:induction false} CubeRootsFrom32()
    ensures IsCubeRootFraction(32) && IsCubeRootFraction(33) && IsCubeRootFraction(34) && IsCubeRootFraction(35)
    ensures IsCubeRootFraction(36) && IsCubeRootFraction(37) && IsCubeRootFraction(38) && IsCubeRootFraction(39)
  {
  }

  lemma {:induction false} CubeRootsFrom40()
    ensures IsCubeRootFraction(40) && IsCubeRootFraction(41) && IsCubeRootFraction(42) && IsCubeRootFraction(43)
    ensures IsCubeRootFraction(44) && IsCubeRootFraction(45) && IsCubeRootFraction(46) && IsCubeRootFraction(47)
  {
  }

  lemma {:induction false} CubeRootsFrom48()
    ensures IsCubeRootFraction(48) && IsCubeRootFraction(49) && IsCubeRootFraction(50) && IsCubeRootFraction(51)
    ensures IsCubeRootFraction(52) && IsCubeRootFraction(53) && IsCubeRootFraction(54) && IsCubeRootFraction(55)
  {
  }

  lemma {:induction false} CubeRootsFrom56()
    ensures IsCubeRootFraction(56) && IsCubeRootFraction(57) && IsCubeRootFraction(58) && IsCubeRootFraction(59)
    ensures IsCubeRootFraction(60) && IsCubeRootFraction(61) && IsCubeRootFraction(62) && IsCubeRootFraction(63)
  {
  }

  /** Every round constant is the root fraction the standard takes it from. */
  lemma {:induction false} RoundConstantsAreCubeRoots(t: nat)
    requires t < 64
    ensures IsCubeRootFraction(t)
  {
    hide IsCubeRootFraction;
    if t < 8 {
      CubeRootsFrom0();
      assert t == 0 || t == 1 || t == 2 || t == 3 || t == 4 || t == 5 || t == 6 || t == 7;
    } else if t < 16 {
      CubeRootsFrom8();
      assert t == 8 || t == 9 || t == 10 || t == 11 || t == 12 || t == 13 || t == 14 || t == 15;
    } else if t < 24 {
      CubeRootsFrom16();
      assert t == 16 || t == 17 || t == 18 || t == 19 || t == 20 || t == 21 || t == 22 || t == 23;
    } else if t < 32 {
      CubeRootsFrom24();
      assert t == 24 || t == 25 || t == 26 || t == 27 || t == 28 || t == 29 || t == 30 || t == 31;
    } else if t < 40 {
      CubeRootsFrom32();
      assert t == 32 || t == 33 || t == 34 || t == 35 || t == 36 || t == 37 || t == 38 || t == 39;
    } else if t < 48 {
      CubeRootsFrom40();
      assert t == 40 || t == 41 || t == 42 || t == 43 || t == 44 || t == 45 || t == 46 || t == 47;
    } else if t < 56 {
      CubeRootsFrom48();
      assert t == 48 || t == 49 || t == 50 || t == 51 || t == 52 || t == 53 || t == 54 || t == 55;
    } else {
      CubeRootsFrom56();
      assert t == 56 || t == 57 || t == 58 || t == 59 || t == 60 || t == 61 || t == 62 || t == 63;
    }
  }

  /** Every word of the initial hash value is the root fraction the standard takes it from. */
  lemma {:induction false} InitialHashIsSquareRoots()
    ensures IsSquareRootFraction(Prime(0), INITIAL.a) && IsSquareRootFraction(Prime(1), INITIAL.b)
    ensures IsSquareRootFraction(Prime(2), INITIAL.c) && IsSquareRootFraction(Prime(3), INITIAL.d)
    ensures IsSquareRootFraction(Prime(4), INITIAL.e) && IsSquareRootFraction(Prime(5), INITIAL.f)
    ensures IsSquareRootFraction(Prime(6), INITIAL.g) && IsSquareRootFraction(Prime(7), INITIAL.h)
  {
  }
}
