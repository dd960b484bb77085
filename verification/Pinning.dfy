/** Certificate pinning in the client: a hexadecimal rendering of the digest, compared code unit by code
    unit with the configured pin. Strings are sequences of 16-bit code units, as in Dart. */
module Pinning {
  import opened Basics
  import Fips180
  import Sha256

  type Text = seq<bv16>

  // ---- The rendering ----

  function Digit(d: bv8): bv16
    requires d < 16
  {
    if d < 10 then 0x30 + d as bv16 else 0x57 + d as bv16
  }

  function High(b: bv8): (d: bv8)
    ensures d < 16
  {
    b >> 4
  }

  function Low(b: bv8): (d: bv8)
    ensures d < 16
  {
    b & 0xf
  }

  /** The digits of a byte in base 16, without leading zeros. */
  function ToRadixString16(b: bv8): (s: Text)
    ensures 1 <= |s| <= 2
  {
    if b < 16 then [Digit(b)] else [Digit(High(b)), Digit(Low(b))]
  }

  function PadLeft(s: Text, width: nat, padding: bv16): Text
    decreases width - |s|
  {
    if |s| >= width then s else PadLeft([padding] + s, width, padding)
  }

  function HexByte(b: bv8): Text {
    PadLeft(ToRadixString16(b), 2, 0x30)
  }

  /** The client's rendering of a byte list. */
  function Hex(bytes: seq<bv8>): Text {
    if bytes == [] then [] else HexByte(bytes[0]) + Hex(bytes[1..])
  }

  // ---- What a lower-case hexadecimal string means ----

  predicate IsDigit(c: bv16) {
    0x30 <= c <= 0x39 || 0x61 <= c <= 0x66
  }

  function DigitValue(c: bv16): (d: bv8)
    requires IsDigit(c)
    ensures d < 16
  {
    if c <= 0x39 then (c - 0x30) as bv8 else (c - 0x57) as bv8
  }

  function Join(high: bv8, low: bv8): bv8
    requires high < 16 && low < 16
  {
    (high << 4) | low
  }

  /** Pairs of lower-case digits, the high one first; nothing else is a rendering. */
  function Decode(s: Text): Option<seq<bv8>> {
    if s == [] then Some([])
    else if |s| == 1 || !IsDigit(s[0]) || !IsDigit(s[1]) then None
    else
      match Decode(s[2..])
      case None => None
      case Some(rest) => Some([Join(DigitValue(s[0]), DigitValue(s[1]))] + rest)
  }

  // ---- Rendering and meaning are inverse ----

  lemma {:induction false} SmallByte(b: bv8)
    requires b < 16
    ensures High(b) == 0 && Low(b) == b
  {
  }

  /** Padding restores the leading zero that the radix conversion drops. */
  lemma {:induction false} HexByteIsTwoDigits(b: bv8)
    ensures HexByte(b) == [Digit(High(b)), Digit(Low(b))]
  {
    hide High, Low;
    if b < 16 {
      SmallByte(b);
      assert PadLeft([0x30] + [Digit(b)], 2, 0x30) == [0x30, Digit(b)];
    }
  }

  lemma {:induction false} DigitRoundTrip(d: bv8)
    requires d < 16
    ensures IsDigit(Digit(d)) && DigitValue(Digit(d)) == d
  {
  }

  lemma {:induction false} ValueRoundTrip(c: bv16)
    requires IsDigit(c)
    ensures Digit(DigitValue(c)) == c
  {
  }

  lemma {:induction false} JoinRoundTrip(b: bv8)
    ensures Join(High(b), Low(b)) == b
  {
  }

  lemma {:induction false} SplitRoundTrip(high: bv8, low: bv8)
    requires high < 16 && low < 16
    ensures High(Join(high, low)) == high && Low(Join(high, low)) == low
  {
  }

  lemma {:induction false} DecodeOfHex(bytes: seq<bv8>)
    ensures Decode(Hex(bytes)) == Some(bytes)
  {
    hide High, Low, Join, Digit, IsDigit, DigitValue, HexByte;
    if bytes != [] {
      var b := bytes[0];
      HexByteIsTwoDigits(b);
      DigitRoundTrip(High(b));
      DigitRoundTrip(Low(b));
      JoinRoundTrip(b);
      DecodeOfHex(bytes[1..]);
      assert Hex(bytes)[2..] == Hex(bytes[1..]);
      assert bytes == [b] + bytes[1..];
    }
  }

  lemma {:induction false} HexOfDecode(s: Text)
    requires Decode(s).Some?
    ensures Hex(Decode(s).value) == s
  {
    hide High, Low, Join, Digit, IsDigit, DigitValue, HexByte;
    if s != [] {
      var high, low := DigitValue(s[0]), DigitValue(s[1]);
      var bytes := Decode(s).value;
      HexOfDecode(s[2..]);
      assert bytes[0] == Join(high, low) && bytes[1..] == Decode(s[2..]).value;
      HexByteIsTwoDigits(bytes[0]);
      SplitRoundTrip(high, low);
      ValueRoundTrip(s[0]);
      ValueRoundTrip(s[1]);
      assert s == [s[0], s[1]] + s[2..];
    }
  }

  /** A string renders a byte list exactly when it decodes to it, so renderings are injective. */
  lemma {:induction false} HexExactlyWhenDecodes(s: Text, bytes: seq<bv8>)
    ensures s == Hex(bytes) <==> Decode(s) == Some(bytes)
  {
    DecodeOfHex(bytes);
    if Decode(s) == Some(bytes) {
      HexOfDecode(s);
    }
  }

  lemma {:induction false} DecodedLength(s: Text)
    requires Decode(s).Some?
    ensures |s| == 2 * |Decode(s).value|
  {
    if s != [] {
      DecodedLength(s[2..]);
    }
  }

  /** All sixteen digits as ASCII codes, 0 to 9 and a to f, the high digit of each byte first. */
  lemma {:induction false} HexDigitsInOrder()
    ensures HexByte(0x01) == [0x30, 0x31] && HexByte(0x23) == [0x32, 0x33]
    ensures HexByte(0x45) == [0x34, 0x35] && HexByte(0x67) == [0x36, 0x37]
    ensures HexByte(0x89) == [0x38, 0x39] && HexByte(0xab) == [0x61, 0x62]
    ensures HexByte(0xcd) == [0x63, 0x64] && HexByte(0xef) == [0x65, 0x66]
  {
    HexByteIsTwoDigits(0x01);
    HexByteIsTwoDigits(0x23);
    HexByteIsTwoDigits(0x45);
    HexByteIsTwoDigits(0x67);
    HexByteIsTwoDigits(0x89);
    HexByteIsTwoDigits(0xab);
    HexByteIsTwoDigits(0xcd);
    HexByteIsTwoDigits(0xef);
  }

  // ---- The comparison ----

  function Accumulate(diff: bv16, x: bv16, y: bv16): bv16 {
    diff | (x ^ y)
  }

  /** The accumulation loop, which never stops early. */
  method ConstTimeEquals(a: Text, b: Text) returns (equal: bool)
    ensures equal <==> a == b
  {
    hide Accumulate;
    if |a| != |b| {
      return false;
    }
    var diff: bv16 := 0;
    for i := 0 to |a|
      invariant diff == 0 <==> a[..i] == b[..i]
    {
      NoDifference(diff, a[i], b[i]);
      assert a[..i + 1] == a[..i] + [a[i]] && b[..i + 1] == b[..i] + [b[i]];
      diff := Accumulate(diff, a[i], b[i]);
    }
    assert a == a[..|a|] && b == b[..|b|];
    return diff == 0;
  }

  lemma {:induction false} NoDifferenceBits(diff: bv16, x: bv16, y: bv16)
    ensures diff | (x ^ y) == 0 <==> diff == 0 && x == y
  {
  }

  lemma {:induction false} NoDifference(diff: bv16, x: bv16, y: bv16)
    ensures Accumulate(diff, x, y) == 0 <==> diff == 0 && x == y
  {
    NoDifferenceBits(diff, x, y);
  }

  // ---- The certificate callback ----

  method Sha256Hex(der: seq<bv8>) returns (fingerprint: Text)
    ensures Decode(fingerprint) == Some(Fips180.Digest(der))
    ensures |fingerprint| == 64
  {
    var digest := Sha256.Sha256(der);
    fingerprint := Hex(digest);
    DecodeOfHex(digest);
    DecodedLength(fingerprint);
  }

  /** A certificate passes exactly when the pin is the lower-case hexadecimal form of its digest. */
  method AcceptCertificate(der: seq<bv8>, pin: Text) returns (ok: bool)
    ensures ok <==> Decode(pin) == Some(Fips180.Digest(der))
    ensures ok ==> |pin| == 64
  {
    var fingerprint := Sha256Hex(der);
    ok := ConstTimeEquals(fingerprint, pin);
    HexExactlyWhenDecodes(fingerprint, Fips180.Digest(der));
    HexExactlyWhenDecodes(pin, Fips180.Digest(der));
  }
}
