/** The client's SHA-256: masked arithmetic on 64-bit integers, proved equal to FIPS 180-4.

    Dart's integers are modelled as bv64: they wrap at 64 bits and are signed, so a right shift copies the
    sign bit. The source has one function; its loops are separate methods here. */
module Sha256 {
  import opened Fips180

  // ---- The expressions of the source, on 64-bit integers ----

  /** Dart's >> on a 64-bit integer. */
  function ShrInt(x: bv64, n: bv64): bv64
    requires n <= 64
  {
    if x < 0x8000_0000_0000_0000 then x >> n else !(!x >> n)
  }

  function RotrMasked(x: bv64, n: bv64): bv64
    requires n <= 32
  {
    (ShrInt(x, n) | (x << (32 - n))) & 0xffff_ffff
  }

  function Xor3(p: bv64, q: bv64, r: bv64): bv64 {
    p ^ q ^ r
  }

  function Choose(e: bv64, f: bv64, g: bv64): bv64 {
    (e & f) ^ ((!e & 0xffff_ffff) & g)
  }

  function Majority(a: bv64, b: bv64, c: bv64): bv64 {
    (a & b) ^ (a & c) ^ (b & c)
  }

  function Sum2(p: bv64, q: bv64): bv64 {
    (p + q) & 0xffff_ffff
  }

  function Sum4(p: bv64, q: bv64, r: bv64, s: bv64): bv64 {
    (p + q + r + s) & 0xffff_ffff
  }

  function Sum5(p: bv64, q: bv64, r: bv64, s: bv64, t: bv64): bv64 {
    (p + q + r + s + t) & 0xffff_ffff
  }

  function BytesToWord(b0: bv8, b1: bv8, b2: bv8, b3: bv8): bv64 {
    ((b0 as bv64) << 24) | ((b1 as bv64) << 16) | ((b2 as bv64) << 8) | (b3 as bv64)
  }

  // ---- Padding ----

  /** x >> n for a non-negative integer: n halvings. */
  function ShiftRight(x: nat, n: nat): nat
    decreases n
  {
    if n == 0 then x else ShiftRight(x / 2, n - 1)
  }

  lemma {:induction false} ShiftByByte(x: nat, n: nat)
    ensures ShiftRight(x, n + 8) == ShiftRight(x / 256, n)
  {
    assert ShiftRight(x, n + 8) == ShiftRight(x / 4, n + 6);
    assert ShiftRight(x / 4, n + 6) == ShiftRight(x / 16, n + 4);
    assert ShiftRight(x / 16, n + 4) == ShiftRight(x / 64, n + 2);
  }

  /** Byte i from the right of the big-endian form is (x >> 8 i) & 0xff. */
  lemma {:induction false} BigEndianByte(x: nat, n: nat, i: nat)
    requires i < n
    ensures BigEndian(x, n)[n - 1 - i] == (ShiftRight(x, i * 8) % 256) as bv8
  {
    if i == 0 {
    } else {
      BigEndianByte(x / 256, n - 1, i - 1);
      ShiftByByte(x, (i - 1) * 8);
    }
  }

  method PadMessage(data: seq<bv8>) returns (msg: seq<bv8>)
    ensures msg == Padded(data)
  {
    hide Zeros, BigEndian;
    var bitLen := |data| * 8;
    msg := FillBlock(data);
    ZeroBytes(|data|);
    ghost var filled := msg;
    for i := 8 downto 0
      invariant msg == filled + BigEndian(bitLen, 8)[..8 - i]
    {
      BigEndianByte(bitLen, 8, i);
      msg := msg + [(ShiftRight(bitLen, i * 8) % 256) as bv8];
    }
  }

  /** The fill loop, which ends because (56 - length) mod 64 falls. */
  method FillBlock(data: seq<bv8>) returns (msg: seq<bv8>)
    ensures msg == data + [0x80] + Zeros((55 - |data|) % 64)
  {
    hide Zeros;
    msg := data + [0x80];
    ghost var z := 0;
    ZerosGrow(0);
    while |msg| % 64 != 56
      invariant z <= (55 - |data|) % 64
      invariant |msg| == |data| + 1 + z && msg == data + [0x80] + Zeros(z)
      decreases (56 - |msg|) % 64
    {
      FillStep(|msg|);
      FillGoesOn(|data|, z);
      ZerosGrow(z);
      assert data + [0x80] + Zeros(z) + [0] == data + [0x80] + (Zeros(z) + [0]);
      msg := msg + [0];
      z := z + 1;
    }
    FillDone(|data|, z);
  }

  lemma {:induction false} FillStep(n: nat)
    requires n % 64 != 56
    ensures (56 - (n + 1)) % 64 < (56 - n) % 64
  {
  }

  lemma {:induction false} FillGoesOn(n: nat, z: nat)
    requires z <= (55 - n) % 64 && (n + 1 + z) % 64 != 56
    ensures z < (55 - n) % 64
  {
    ZeroBytes(n);
  }

  lemma {:induction false} FillDone(n: nat, z: nat)
    requires z <= (55 - n) % 64 && (n + 1 + z) % 64 == 56
    ensures z == (55 - n) % 64
  {
    ZeroBytes(n);
  }

  lemma {:induction false} ZerosGrow(z: nat)
    ensures Zeros(0) == [] && Zeros(z + 1) == Zeros(z) + [0]
  {
  }

  // ---- Widening commutes with every operation of the round ----

  /** A 32-bit word as a 64-bit integer. */
  function Wide(x: bv32): bv64 {
    x as bv64
  }

  // First bit by bit, each operation alone.

  lemma {:induction false} RotationBits(x: bv32, n: bv32)
    requires 0 < n < 32
    ensures RotrMasked(x as bv64, n as bv64)
         == ((x >> n) | (x << (32 - n))) as bv64
  {
  }

  lemma {:induction false} ShiftBits(x: bv32, n: bv32)
    requires n <= 32
    ensures ShrInt(x as bv64, n as bv64)
         == (x >> n) as bv64
  {
  }

  lemma {:induction false} XorBits(p: bv32, q: bv32, r: bv32)
    ensures Xor3(p as bv64, q as bv64, r as bv64)
         == (p ^ q ^ r) as bv64
  {
  }

  lemma {:induction false} ChooseBits(x: bv32, y: bv32, z: bv32)
    ensures Choose(x as bv64, y as bv64, z as bv64)
         == ((x & y) ^ (!x & z)) as bv64
  {
  }

  lemma {:induction false} MajorityBits(x: bv32, y: bv32, z: bv32)
    ensures Majority(x as bv64, y as bv64, z as bv64)
         == ((x & y) ^ (x & z) ^ (y & z)) as bv64
  {
  }

  lemma {:induction false} Sum2Bits(p: bv32, q: bv32)
    ensures Sum2(p as bv64, q as bv64)
         == (p + q) as bv64
  {
  }

  /** The source adds the four terms of a schedule word in the reverse of the standard's order. */
  lemma {:induction false} Sum4Bits(p: bv32, q: bv32, r: bv32, s: bv32)
    ensures Sum4(p as bv64, q as bv64, r as bv64, s as bv64)
         == (s + r + q + p) as bv64
  {
  }

  lemma {:induction false} Sum5Bits(p: bv32, q: bv32, r: bv32, s: bv32, t: bv32)
    ensures Sum5(p as bv64, q as bv64, r as bv64, s as bv64, t as bv64)
         == (p + q + r + s + t) as bv64
  {
  }

  lemma {:induction false} BytesBits(b0: bv8, b1: bv8, b2: bv8, b3: bv8)
    ensures BytesToWord(b0, b1, b2, b3)
         == (((b0 as bv32) << 24) | ((b1 as bv32) << 16) | ((b2 as bv32) << 8) | (b3 as bv32)) as bv64
  {
  }

  // Then on named operations, so that no step below looks at single bits.

  lemma {:induction false} RotrWide(x: bv32, n: bv32)
    requires 0 < n < 32
    ensures RotrMasked(Wide(x), n as bv64) == Wide(Rotr(x, n))
  {
    hide RotrMasked;
    RotationBits(x, n);
  }

  lemma {:induction false} ShrRaw(x: bv32, n: bv32)
    requires n <= 32
    ensures ShrInt(Wide(x), n as bv64) == Wide(x >> n)
  {
    hide ShrInt;
    ShiftBits(x, n);
  }

  lemma {:induction false} ShrWide(x: bv32, n: bv32)
    requires n <= 32
    ensures ShrInt(Wide(x), n as bv64) == Wide(Shr(x, n))
  {
    hide ShrInt, Wide;
    ShrRaw(x, n);
  }

  lemma {:induction false} XorRaw(p: bv32, q: bv32, r: bv32)
    ensures Xor3(Wide(p), Wide(q), Wide(r)) == Wide(p ^ q ^ r)
  {
    hide Xor3;
    XorBits(p, q, r);
  }

  lemma {:induction false} XorWide(p: bv32, q: bv32, r: bv32)
    ensures Xor3(Wide(p), Wide(q), Wide(r)) == Wide(Exclusive(p, q, r))
  {
    hide Xor3, Wide;
    XorRaw(p, q, r);
  }

  lemma {:induction false} ChooseRaw(x: bv32, y: bv32, z: bv32)
    ensures Choose(Wide(x), Wide(y), Wide(z)) == Wide((x & y) ^ (!x & z))
  {
    hide Choose;
    ChooseBits(x, y, z);
  }

  lemma {:induction false} ChooseWide(x: bv32, y: bv32, z: bv32)
    ensures Choose(Wide(x), Wide(y), Wide(z)) == Wide(Ch(x, y, z))
  {
    hide Choose, Wide;
    ChooseRaw(x, y, z);
  }

  lemma {:induction false} MajorityWide(x: bv32, y: bv32, z: bv32)
    ensures Majority(Wide(x), Wide(y), Wide(z)) == Wide(Maj(x, y, z))
  {
    hide Majority;
    MajorityBits(x, y, z);
  }

  lemma {:induction false} Sum2Raw(p: bv32, q: bv32)
    ensures Sum2(Wide(p), Wide(q)) == Wide(p + q)
  {
    hide Sum2;
    Sum2Bits(p, q);
  }

  lemma {:induction false} Sum2Wide(p: bv32, q: bv32)
    ensures Sum2(Wide(p), Wide(q)) == Wide(Add2(p, q))
  {
    hide Sum2, Wide;
    Sum2Raw(p, q);
  }

  lemma {:induction false} Sum4Raw(p: bv32, q: bv32, r: bv32, s: bv32)
    ensures Sum4(Wide(p), Wide(q), Wide(r), Wide(s)) == Wide(s + r + q + p)
  {
    hide Sum4;
    Sum4Bits(p, q, r, s);
  }

  lemma {:induction false} Sum4Wide(p: bv32, q: bv32, r: bv32, s: bv32)
    ensures Sum4(Wide(p), Wide(q), Wide(r), Wide(s)) == Wide(Add4(s, r, q, p))
  {
    hide Sum4, Wide;
    Sum4Raw(p, q, r, s);
  }

  lemma {:induction false} Sum5Raw(p: bv32, q: bv32, r: bv32, s: bv32, t: bv32)
    ensures Sum5(Wide(p), Wide(q), Wide(r), Wide(s), Wide(t)) == Wide(p + q + r + s + t)
  {
    hide Sum5;
    Sum5Bits(p, q, r, s, t);
  }

  lemma {:induction false} Sum5Wide(p: bv32, q: bv32, r: bv32, s: bv32, t: bv32)
    ensures Sum5(Wide(p), Wide(q), Wide(r), Wide(s), Wide(t)) == Wide(Add5(p, q, r, s, t))
  {
    hide Sum5, Wide;
    Sum5Raw(p, q, r, s, t);
  }

  lemma {:induction false} BytesRaw(b0: bv8, b1: bv8, b2: bv8, b3: bv8)
    ensures BytesToWord(b0, b1, b2, b3)
         == Wide(((b0 as bv32) << 24) | ((b1 as bv32) << 16) | ((b2 as bv32) << 8) | (b3 as bv32))
  {
    hide BytesToWord;
    BytesBits(b0, b1, b2, b3);
  }

  lemma {:induction false} BytesWide(b0: bv8, b1: bv8, b2: bv8, b3: bv8)
    ensures BytesToWord(b0, b1, b2, b3) == Wide(WordOfBytes(b0, b1, b2, b3))
  {
    hide BytesToWord, Wide;
    BytesRaw(b0, b1, b2, b3);
  }

  lemma {:induction false} NextWordWide(w2: bv32, w7: bv32, w15: bv32, w16: bv32)
    ensures Sum4(Wide(w16), Xor3(RotrMasked(Wide(w15), 7), RotrMasked(Wide(w15), 18), ShrInt(Wide(w15), 3)),
                 Wide(w7), Xor3(RotrMasked(Wide(w2), 17), RotrMasked(Wide(w2), 19), ShrInt(Wide(w2), 10)))
         == Wide(NextWord(w2, w7, w15, w16))
  {
    hide RotrMasked, Xor3, ShrInt, Shr, Rotr, Exclusive, Sum4, Add4, Wide;
    RotrWide(w15, 7);
    RotrWide(w15, 18);
    ShrWide(w15, 3);
    XorWide(Rotr(w15, 7), Rotr(w15, 18), Shr(w15, 3));
    RotrWide(w2, 17);
    RotrWide(w2, 19);
    ShrWide(w2, 10);
    XorWide(Rotr(w2, 17), Rotr(w2, 19), Shr(w2, 10));
    Sum4Wide(w16, SmallSigma0(w15), w7, SmallSigma1(w2));
  }

  lemma {:induction false} T1Wide(e: bv32, f: bv32, g: bv32, h: bv32, k: bv32, w: bv32)
    ensures Sum5(Wide(h), Xor3(RotrMasked(Wide(e), 6), RotrMasked(Wide(e), 11), RotrMasked(Wide(e), 25)),
                 Choose(Wide(e), Wide(f), Wide(g)), Wide(k), Wide(w))
         == Wide(T1(e, f, g, h, k, w))
  {
    hide RotrMasked, Xor3, Rotr, Exclusive, Choose, Ch, Sum5, Add5, Wide;
    RotrWide(e, 6);
    RotrWide(e, 11);
    RotrWide(e, 25);
    XorWide(Rotr(e, 6), Rotr(e, 11), Rotr(e, 25));
    ChooseWide(e, f, g);
    Sum5Wide(h, BigSigma1(e), Ch(e, f, g), k, w);
  }

  lemma {:induction false} T2Wide(a: bv32, b: bv32, c: bv32)
    ensures Sum2(Xor3(RotrMasked(Wide(a), 2), RotrMasked(Wide(a), 13), RotrMasked(Wide(a), 22)),
                 Majority(Wide(a), Wide(b), Wide(c)))
         == Wide(T2(a, b, c))
  {
    hide RotrMasked, Xor3, Rotr, Exclusive, Majority, Maj, Sum2, Add2, Wide;
    RotrWide(a, 2);
    RotrWide(a, 13);
    RotrWide(a, 22);
    XorWide(Rotr(a, 2), Rotr(a, 13), Rotr(a, 22));
    MajorityWide(a, b, c);
    Sum2Wide(BigSigma0(a), Maj(a, b, c));
  }

  // ---- The message schedule ----

  method FillSchedule(msg: seq<bv8>, off: nat) returns (w: array<bv64>)
    requires off + 64 <= |msg|
    ensures fresh(w) && w.Length == 64
    ensures forall t | 0 <= t < 64 :: w[t] == Wide(Schedule(msg, off, t))
  {
    hide *;
    w := new bv64[64];
    for t := 0 to 64
      invariant forall j | 0 <= j < t :: w[j] == Wide(Schedule(msg, off, j))
    {
      if t < 16 {
        FirstWords(msg, off, t);
        w[t] := BytesToWord(msg[off + t * 4], msg[off + t * 4 + 1], msg[off + t * 4 + 2], msg[off + t * 4 + 3]);
      } else {
        LaterWords(msg, off, t);
        var s0 := Xor3(RotrMasked(w[t - 15], 7), RotrMasked(w[t - 15], 18), ShrInt(w[t - 15], 3));
        var s1 := Xor3(RotrMasked(w[t - 2], 17), RotrMasked(w[t - 2], 19), ShrInt(w[t - 2], 10));
        w[t] := Sum4(w[t - 16], s0, w[t - 7], s1);
      }
    }
  }

  lemma {:induction false} FirstWords(msg: seq<bv8>, off: nat, t: nat)
    requires t < 16 && off + 64 <= |msg|
    ensures BytesToWord(msg[off + t * 4], msg[off + t * 4 + 1], msg[off + t * 4 + 2], msg[off + t * 4 + 3])
         == Wide(Schedule(msg, off, t))
  {
    hide BytesToWord, Wide, WordOfBytes;
    BytesWide(msg[off + t * 4], msg[off + t * 4 + 1], msg[off + t * 4 + 2], msg[off + t * 4 + 3]);
  }

  lemma {:induction false} LaterWords(msg: seq<bv8>, off: nat, t: nat)
    requires 16 <= t < 64 && off + 64 <= |msg|
    ensures var w15, w2 := Wide(Schedule(msg, off, t - 15)), Wide(Schedule(msg, off, t - 2));
            Sum4(Wide(Schedule(msg, off, t - 16)),
                 Xor3(RotrMasked(w15, 7), RotrMasked(w15, 18), ShrInt(w15, 3)),
                 Wide(Schedule(msg, off, t - 7)),
                 Xor3(RotrMasked(w2, 17), RotrMasked(w2, 19), ShrInt(w2, 10)))
            == Wide(Schedule(msg, off, t))
  {
    hide RotrMasked, Xor3, ShrInt, Sum4, Wide, NextWord;
    NextWordWide(Schedule(msg, off, t - 2), Schedule(msg, off, t - 7), Schedule(msg, off, t - 15), Schedule(msg, off, t - 16));
  }

  // ---- The compression loop ----

  /** The eight integers are the eight words of s, so each is below 2^32. */
  ghost predicate Words(a: bv64, b: bv64, c: bv64, d: bv64, e: bv64, f: bv64, g: bv64, h: bv64, s: State) {
    && a == Wide(s.a) && b == Wide(s.b) && c == Wide(s.c) && d == Wide(s.d)
    && e == Wide(s.e) && f == Wide(s.f) && g == Wide(s.g) && h == Wide(s.h)
  }

  lemma {:induction false} WordsBelow2To32(
      a: bv64, b: bv64, c: bv64, d: bv64, e: bv64, f: bv64, g: bv64, h: bv64, s: State)
    requires Words(a, b, c, d, e, f, g, h, s)
    ensures a < 0x1_0000_0000 && b < 0x1_0000_0000 && c < 0x1_0000_0000 && d < 0x1_0000_0000
    ensures e < 0x1_0000_0000 && f < 0x1_0000_0000 && g < 0x1_0000_0000 && h < 0x1_0000_0000
  {
  }

  /** One pass of the source's inner loop is one round of the standard. */
  lemma {:induction false} RoundWide(
      a: bv64, b: bv64, c: bv64, d: bv64, e: bv64, f: bv64, g: bv64, hh: bv64, s: State, k: bv32, w: bv32)
    requires Words(a, b, c, d, e, f, g, hh, s)
    ensures var s1 := Xor3(RotrMasked(e, 6), RotrMasked(e, 11), RotrMasked(e, 25));
            var temp1 := Sum5(hh, s1, Choose(e, f, g), Wide(k), Wide(w));
            var s0 := Xor3(RotrMasked(a, 2), RotrMasked(a, 13), RotrMasked(a, 22));
            var temp2 := Sum2(s0, Majority(a, b, c));
            Words(Sum2(temp1, temp2), a, b, c, Sum2(d, temp1), e, f, g, Round(s, k, w))
  {
    hide RotrMasked, Xor3, Choose, Majority, Sum2, Sum5, Wide, T1, T2, Add2;
    T1Wide(s.e, s.f, s.g, s.h, k, w);
    T2Wide(s.a, s.b, s.c);
    Sum2Wide(T1(s.e, s.f, s.g, s.h, k, w), T2(s.a, s.b, s.c));
    Sum2Wide(s.d, T1(s.e, s.f, s.g, s.h, k, w));
  }

  /** h as a list of eight integers. */
  ghost predicate Hash(h: seq<bv64>, s: State) {
    |h| == 8 && Words(h[0], h[1], h[2], h[3], h[4], h[5], h[6], h[7], s)
  }

  lemma {:induction false} SumWide(
      h: seq<bv64>, s: State, a: bv64, b: bv64, c: bv64, d: bv64, e: bv64, f: bv64, g: bv64, hh: bv64, v: State)
    requires Hash(h, s) && Words(a, b, c, d, e, f, g, hh, v)
    ensures Words(Sum2(h[0], a), Sum2(h[1], b), Sum2(h[2], c), Sum2(h[3], d),
                  Sum2(h[4], e), Sum2(h[5], f), Sum2(h[6], g), Sum2(h[7], hh), Sum(s, v))
  {
    hide Sum2, Wide, Add2;
    Sum2Wide(s.a, v.a);
    Sum2Wide(s.b, v.b);
    Sum2Wide(s.c, v.c);
    Sum2Wide(s.d, v.d);
    Sum2Wide(s.e, v.e);
    Sum2Wide(s.f, v.f);
    Sum2Wide(s.g, v.g);
    Sum2Wide(s.h, v.h);
  }

  /** One block: the source's inner loop and the update of h. */
  method CompressBlock(h: seq<bv64>, w: array<bv64>, ghost s: State, ghost msg: seq<bv8>, ghost off: nat)
    returns (next: seq<bv64>)
    requires Hash(h, s) && off + 64 <= |msg|
    requires w.Length == 64 && forall t | 0 <= t < 64 :: w[t] == Wide(Schedule(msg, off, t))
    ensures Hash(next, Sum(s, Rounds(s, msg, off, 64)))
  {
    hide RotrMasked, Xor3, Choose, Majority, Sum2, Sum5, Words, Round, RoundConstant, Schedule, Sum, Wide;
    var a, b, c, d, e, f, g, hh := h[0], h[1], h[2], h[3], h[4], h[5], h[6], h[7];
    for t := 0 to 64
      invariant Words(a, b, c, d, e, f, g, hh, Rounds(s, msg, off, t))
    {
      RoundWide(a, b, c, d, e, f, g, hh, Rounds(s, msg, off, t), RoundConstant(t), Schedule(msg, off, t));
      var s1 := Xor3(RotrMasked(e, 6), RotrMasked(e, 11), RotrMasked(e, 25));
      var ch := Choose(e, f, g);
      var temp1 := Sum5(hh, s1, ch, Wide(RoundConstant(t)), w[t]);
      var s0 := Xor3(RotrMasked(a, 2), RotrMasked(a, 13), RotrMasked(a, 22));
      var maj := Majority(a, b, c);
      var temp2 := Sum2(s0, maj);
      hh := g;
      g := f;
      f := e;
      e := Sum2(d, temp1);
      d := c;
      c := b;
      b := a;
      a := Sum2(temp1, temp2);
    }
    SumWide(h, s, a, b, c, d, e, f, g, hh, Rounds(s, msg, off, 64));
    next := [Sum2(h[0], a), Sum2(h[1], b), Sum2(h[2], c), Sum2(h[3], d),
             Sum2(h[4], e), Sum2(h[5], f), Sum2(h[6], g), Sum2(h[7], hh)];
  }

  // ---- The whole function ----

  function WordOut(v: bv64): seq<bv8> {
    [(ShrInt(v, 24) & 0xff) as bv8, (ShrInt(v, 16) & 0xff) as bv8, (ShrInt(v, 8) & 0xff) as bv8, (v & 0xff) as bv8]
  }

  lemma {:induction false} WordOutWide(x: bv32)
    ensures WordOut(Wide(x)) == WordBytes(x)
  {
  }

  /** The client's digest of any byte list is the standard's. */
  method Sha256(data: seq<bv8>) returns (out: seq<bv8>)
    ensures out == Digest(data)
  {
    var msg := PadMessage(data);
    var h := HashBlocks(msg, data);
    out := OutputBytes(h, HashAfter(msg, |msg| / 64));
  }

  method HashBlocks(msg: seq<bv8>, ghost data: seq<bv8>) returns (h: seq<bv64>)
    requires msg == Padded(data)
    ensures |msg| % 64 == 0 && Hash(h, HashAfter(msg, |msg| / 64))
  {
    hide Words, Padded, Sum, Rounds;
    PaddedLength(data, 0);
    h := [0x6a09e667, 0xbb67ae85, 0x3c6ef372, 0xa54ff53a, 0x510e527f, 0x9b05688c, 0x1f83d9ab, 0x5be0cd19];
    InitialWide();
    var off := 0;
    ghost var n := 0;
    while off < |msg|
      invariant off == 64 * n && off <= |msg|
      invariant Hash(h, HashAfter(msg, n))
    {
      var w := FillSchedule(msg, off);
      h := CompressBlock(h, w, HashAfter(msg, n), msg, off);
      off := off + 64;
      n := n + 1;
    }
  }

  lemma {:induction false} InitialWide()
    ensures Words(0x6a09e667, 0xbb67ae85, 0x3c6ef372, 0xa54ff53a, 0x510e527f, 0x9b05688c, 0x1f83d9ab, 0x5be0cd19, INITIAL)
  {
  }

  method OutputBytes(h: seq<bv64>, ghost s: State) returns (out: seq<bv8>)
    requires Hash(h, s)
    ensures out == Joined(StateWords(s))
  {
    hide WordOut, WordBytes, Wide, Joined;
    ghost var words := StateWords(s);
    out := [];
    JoinedGrows(words, 0);
    for i := 0 to 8
      invariant out == Joined(words[..i])
    {
      HashAt(h, s, i);
      JoinedGrows(words, i);
      WordOutWide(words[i]);
      out := out + WordOut(h[i]);
    }
    assert words[..8] == words;
  }

  lemma {:induction false} HashAt(h: seq<bv64>, s: State, i: nat)
    requires Hash(h, s) && i < 8
    ensures h[i] == Wide(StateWords(s)[i])
  {
    hide Wide;
    if
    case i == 0 =>
    case i == 1 =>
    case i == 2 =>
    case i == 3 =>
    case i == 4 =>
    case i == 5 =>
    case i == 6 =>
    case i == 7 =>
  }

  lemma {:induction false} JoinedGrows(words: seq<bv32>, n: nat)
    requires n < |words|
    ensures Joined(words[..0]) == [] && Joined(words[..n + 1]) == Joined(words[..n]) + WordBytes(words[n])
  {
    hide WordBytes;
    assert words[..n + 1][..n] == words[..n];
  }
}
