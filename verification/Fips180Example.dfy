/** The digest of "abc", the one-block example published with the standard, computed from the definition:
    it fixes every rotation, constant, byte order and operation of module Fips180. */
module Fips180Example {
  import opened Fips180

  const ABC: seq<bv8> := [0x61, 0x62, 0x63]

  function Block(): (b: seq<bv8>)
    ensures |b| == 64
  {
    PaddedLength(ABC, 64);
    Padded(ABC)
  }

  // ---- The padded block ----

  lemma {:induction false} BlockBytes()
    ensures Block()[0] == 0x61 && Block()[1] == 0x62 && Block()[2] == 0x63 && Block()[3] == 0x80
    ensures forall i | 4 <= i < 63 :: Block()[i] == 0
    ensures Block()[63] == 0x18
  {
    ZeroBytes(3);
    LengthField();
    assert Padded(ABC) == ABC + [0x80] + Zeros(52) + BigEndian(24, 8);
  }

  lemma {:induction false} LengthField()
    ensures BigEndian(24, 8) == [0, 0, 0, 0, 0, 0, 0, 0x18]
  {
    assert BigEndian(0, 1) == [0];
    assert BigEndian(0, 3) == [0, 0, 0];
    assert BigEndian(0, 5) == [0, 0, 0, 0, 0];
    assert BigEndian(0, 7) == [0, 0, 0, 0, 0, 0, 0];
  }

  // ---- The message schedule ----

  /** The schedule, as published. */
  function Word(t: nat): bv32
    requires t < 64
  {
    if t < 8 then [0x61626380, 0x00000000, 0x00000000, 0x00000000, 0x00000000, 0x00000000, 0x00000000, 0x00000000][t - 0]
    else if t < 16 then [0x00000000, 0x00000000, 0x00000000, 0x00000000, 0x00000000, 0x00000000, 0x00000000, 0x00000018][t - 8]
    else if t < 24 then [0x61626380, 0x000f0000, 0x7da86405, 0x600003c6, 0x3e9d7b78, 0x0183fc00, 0x12dcbfdb, 0xe2e2c38e][t - 16]
    else if t < 32 then [0xc8215c1a, 0xb73679a2, 0xe5bc3909, 0x32663c5b, 0x9d209d67, 0xec8726cb, 0x702138a4, 0xd3b7973b][t - 24]
    else if t < 40 then [0x93f5997f, 0x3b68ba73, 0xaff4ffc1, 0xf10a5c62, 0x0a8b3996, 0x72af830a, 0x9409e33e, 0x24641522][t - 32]
    else if t < 48 then [0x9f47bf94, 0xf0a64f5a, 0x3e246a79, 0x27333ba3, 0x0c4763f2, 0x840abf27, 0x7a290d5d, 0x065c43da][t - 40]
    else if t < 56 then [0xfb3e89cb, 0xcc7617db, 0xb9e66c34, 0xa9993667, 0x84badedd, 0xc21462bc, 0x1487472c, 0xb20f7a99][t - 48]
    else [0xef57b9cd, 0xebe6b238, 0x9fe3095e, 0x78bc8d4b, 0xa43fcf15, 0x668b2ff8, 0xeeaba2cc, 0x12b1edeb][t - 56]
  }

  lemma {:induction false} FirstWords(t: nat)
    requires t < 16
    ensures MessageWord(Block(), 0, t) == if t == 0 then 0x61626380 else if t == 15 then 0x18 else 0
  {
    BlockBytes();
    FixedWords();
    hide WordOfBytes, Padded;
  }

  lemma {:induction false} FixedWords()
    ensures WordOfBytes(0x61, 0x62, 0x63, 0x80) == 0x61626380
    ensures WordOfBytes(0, 0, 0, 0) == 0 && WordOfBytes(0, 0, 0, 0x18) == 0x18
  {
  }

  lemma {:induction false} FirstEntries(t: nat)
    requires t < 16
    ensures Word(t) == if t == 0 then 0x61626380 else if t == 15 then 0x18 else 0
  {
  }

  predicate Follows(t: nat)
    requires 16 <= t < 64
  {
    Word(t) == NextWord(Word(t - 2), Word(t - 7), Word(t - 15), Word(t - 16))
  }

  lemma {:induction false} Entries0()
    ensures Word(0) == 0x61626380 && Word(1) == 0x00000000 && Word(2) == 0x00000000 && Word(3) == 0x00000000
    ensures Word(4) == 0x00000000 && Word(5) == 0x00000000 && Word(6) == 0x00000000 && Word(7) == 0x00000000
  {
  }

  lemma {:induction false} Entries8()
    ensures Word(8) == 0x00000000 && Word(9) == 0x00000000 && Word(10) == 0x00000000 && Word(11) == 0x00000000
    ensures Word(12) == 0x00000000 && Word(13) == 0x00000000 && Word(14) == 0x00000000 && Word(15) == 0x00000018
  {
  }

  lemma {:induction false} Entries16()
    ensures Word(16) == 0x61626380 && Word(17) == 0x000f0000 && Word(18) == 0x7da86405 && Word(19) == 0x600003c6
    ensures Word(20) == 0x3e9d7b78 && Word(21) == 0x0183fc00 && Word(22) == 0x12dcbfdb && Word(23) == 0xe2e2c38e
  {
  }

  lemma {:induction false} Entries24()
    ensures Word(24) == 0xc8215c1a && Word(25) == 0xb73679a2 && Word(26) == 0xe5bc3909 && Word(27) == 0x32663c5b
    ensures Word(28) == 0x9d209d67 && Word(29) == 0xec8726cb && Word(30) == 0x702138a4 && Word(31) == 0xd3b7973b
  {
  }

  lemma {:induction false} Entries32()
    ensures Word(32) == 0x93f5997f && Word(33) == 0x3b68ba73 && Word(34) == 0xaff4ffc1 && Word(35) == 0xf10a5c62
    ensures Word(36) == 0x0a8b3996 && Word(37) == 0x72af830a && Word(38) == 0x9409e33e && Word(39) == 0x24641522
  {
  }

  lemma {:induction false} Entries40()
    ensures Word(40) == 0x9f47bf94 && Word(41) == 0xf0a64f5a && Word(42) == 0x3e246a79 && Word(43) == 0x27333ba3
    ensures Word(44) == 0x0c4763f2 && Word(45) == 0x840abf27 && Word(46) == 0x7a290d5d && Word(47) == 0x065c43da
  {
  }

  lemma {:induction false} Entries48()
    ensures Word(48) == 0xfb3e89cb && Word(49) == 0xcc7617db && Word(50) == 0xb9e66c34 && Word(51) == 0xa9993667
    ensures Word(52) == 0x84badedd && Word(53) == 0xc21462bc && Word(54) == 0x1487472c && Word(55) == 0xb20f7a99
  {
  }

  lemma {:induction false} Entries56()
    ensures Word(56) == 0xef57b9cd && Word(57) == 0xebe6b238 && Word(58) == 0x9fe3095e && Word(59) == 0x78bc8d4b
    ensures Word(60) == 0xa43fcf15 && Word(61) == 0x668b2ff8 && Word(62) == 0xeeaba2cc && Word(63) == 0x12b1edeb
  {
  }

  lemma {:induction false} FollowFrom16()
    ensures Follows(16) && Follows(17) && Follows(18) && Follows(19)
    ensures Follows(20) && Follows(21) && Follows(22) && Follows(23)
  {
    hide Word;
    Entries0();
    Entries8();
    Entries16();
  }

  lemma {:induction false} FollowFrom24()
    ensures Follows(24) && Follows(25) && Follows(26) && Follows(27)
    ensures Follows(28) && Follows(29) && Follows(30) && Follows(31)
  {
    hide Word;
    Entries8();
    Entries16();
    Entries24();
  }

  lemma {:induction false} FollowFrom32()
    ensures Follows(32) && Follows(33) && Follows(34) && Follows(35)
    ensures Follows(36) && Follows(37) && Follows(38) && Follows(39)
  {
    hide Word;
    Entries16();
    Entries24();
    Entries32();
  }

  lemma {:induction false} FollowFrom40()
    ensures Follows(40) && Follows(41) && Follows(42) && Follows(43)
    ensures Follows(44) && Follows(45) && Follows(46) && Follows(47)
  {
    hide Word;
    Entries24();
    Entries32();
    Entries40();
  }

  lemma {:induction false} FollowFrom48()
    ensures Follows(48) && Follows(49) && Follows(50) && Follows(51)
    ensures Follows(52) && Follows(53) && Follows(54) && Follows(55)
  {
    hide Word;
    Entries32();
    Entries40();
    Entries48();
  }

  lemma {:induction false} FollowFrom56()
    ensures Follows(56) && Follows(57) && Follows(58) && Follows(59)
    ensures Follows(60) && Follows(61) && Follows(62) && Follows(63)
  {
    hide Word;
    Entries40();
    Entries48();
    Entries56();
  }

  lemma {:induction false} EveryWordFollows(t: nat)
    requires 16 <= t < 64
    ensures Follows(t)
  {
    hide Follows;
    if t < 24 {
      FollowFrom16();
      assert t == 16 || t == 17 || t == 18 || t == 19 || t == 20 || t == 21 || t == 22 || t == 23;
    } else if t < 32 {
      FollowFrom24();
      assert t == 24 || t == 25 || t == 26 || t == 27 || t == 28 || t == 29 || t == 30 || t == 31;
    } else if t < 40 {
      FollowFrom32();
      assert t == 32 || t == 33 || t == 34 || t == 35 || t == 36 || t == 37 || t == 38 || t == 39;
    } else if t < 48 {
      FollowFrom40();
      assert t == 40 || t == 41 || t == 42 || t == 43 || t == 44 || t == 45 || t == 46 || t == 47;
    } else if t < 56 {
      FollowFrom48();
      assert t == 48 || t == 49 || t == 50 || t == 51 || t == 52 || t == 53 || t == 54 || t == 55;
    } else {
      FollowFrom56();
      assert t == 56 || t == 57 || t == 58 || t == 59 || t == 60 || t == 61 || t == 62 || t == 63;
    }
  }

  lemma {:induction false} ScheduleOfAbc(t: nat)
    requires t < 64
    ensures Schedule(Block(), 0, t) == Word(t)
  {
    if t < 16 {
      FirstWords(t);
      FirstEntries(t);
      hide Word, MessageWord;
    } else {
      EveryWordFollows(t);
      ScheduleOfAbc(t - 2);
      ScheduleOfAbc(t - 7);
      ScheduleOfAbc(t - 15);
      ScheduleOfAbc(t - 16);
      hide Word, NextWord;
    }
  }

  // ---- The rounds ----

  function Working(t: nat): State
    requires t <= 64
  {
    Rounds(INITIAL, Block(), 0, t)
  }

  lemma {:induction false} RoundStep(t: nat, s: State, k: bv32, w: bv32)
    requires t < 64 && Working(t) == s && RoundConstant(t) == k && Word(t) == w
    ensures Working(t + 1) == Round(s, k, w)
  {
    ScheduleOfAbc(t);
    hide Round, RoundConstant, Schedule, Word;
  }

  lemma {:induction false} Constants0()
    ensures RoundConstant(0) == 0x428a2f98 && RoundConstant(1) == 0x71374491 && RoundConstant(2) == 0xb5c0fbcf && RoundConstant(3) == 0xe9b5dba5
    ensures RoundConstant(4) == 0x3956c25b && RoundConstant(5) == 0x59f111f1 && RoundConstant(6) == 0x923f82a4 && RoundConstant(7) == 0xab1c5ed5
  {
  }

  lemma {:induction false} Constants8()
    ensures RoundConstant(8) == 0xd807aa98 && RoundConstant(9) == 0x12835b01 && RoundConstant(10) == 0x243185be && RoundConstant(11) == 0x550c7dc3
    ensures RoundConstant(12) == 0x72be5d74 && RoundConstant(13) == 0x80deb1fe && RoundConstant(14) == 0x9bdc06a7 && RoundConstant(15) == 0xc19bf174
  {
  }

  lemma {:induction false} Constants16()
    ensures RoundConstant(16) == 0xe49b69c1 && RoundConstant(17) == 0xefbe4786 && RoundConstant(18) == 0x0fc19dc6 && RoundConstant(19) == 0x240ca1cc
    ensures RoundConstant(20) == 0x2de92c6f && RoundConstant(21) == 0x4a7484aa && RoundConstant(22) == 0x5cb0a9dc && RoundConstant(23) == 0x76f988da
  {
  }

  lemma {:induction false} Constants24()
    ensures RoundConstant(24) == 0x983e5152 && RoundConstant(25) == 0xa831c66d && RoundConstant(26) == 0xb00327c8 && RoundConstant(27) == 0xbf597fc7
    ensures RoundConstant(28) == 0xc6e00bf3 && RoundConstant(29) == 0xd5a79147 && RoundConstant(30) == 0x06ca6351 && RoundConstant(31) == 0x14292967
  {
  }

  lemma {:induction false} Constants32()
    ensures RoundConstant(32) == 0x27b70a85 && RoundConstant(33) == 0x2e1b2138 && RoundConstant(34) == 0x4d2c6dfc && RoundConstant(35) == 0x53380d13
    ensures RoundConstant(36) == 0x650a7354 && RoundConstant(37) == 0x766a0abb && RoundConstant(38) == 0x81c2c92e && RoundConstant(39) == 0x92722c85
  {
  }

  lemma {:induction false} Constants40()
    ensures RoundConstant(40) == 0xa2bfe8a1 && RoundConstant(41) == 0xa81a664b && RoundConstant(42) == 0xc24b8b70 && RoundConstant(43) == 0xc76c51a3
    ensures RoundConstant(44) == 0xd192e819 && RoundConstant(45) == 0xd6990624 && RoundConstant(46) == 0xf40e3585 && RoundConstant(47) == 0x106aa070
  {
  }

  lemma {:induction false} Constants48()
    ensures RoundConstant(48) == 0x19a4c116 && RoundConstant(49) == 0x1e376c08 && RoundConstant(50) == 0x2748774c && RoundConstant(51) == 0x34b0bcb5
    ensures RoundConstant(52) == 0x391c0cb3 && RoundConstant(53) == 0x4ed8aa4a && RoundConstant(54) == 0x5b9cca4f && RoundConstant(55) == 0x682e6ff3
  {
  }

  lemma {:induction false} Constants56()
    ensures RoundConstant(56) == 0x748f82ee && RoundConstant(57) == 0x78a5636f && RoundConstant(58) == 0x84c87814 && RoundConstant(59) == 0x8cc70208
    ensures RoundConstant(60) == 0x90befffa && RoundConstant(61) == 0xa4506ceb && RoundConstant(62) == 0xbef9a3f7 && RoundConstant(63) == 0xc67178f2
  {
  }

  lemma {:induction false} NoRounds()
    ensures Working(0) == State(0x6a09e667, 0xbb67ae85, 0x3c6ef372, 0xa54ff53a, 0x510e527f, 0x9b05688c, 0x1f83d9ab, 0x5be0cd19)
  {
  }

  lemma {:induction false} Rounds8()
    ensures Working(8) == State(0x85a07b5f, 0xe5030380, 0x2b4209f5, 0x04409a6a, 0x0c657a79, 0x9b27a401, 0x714260ad, 0x43ada245)
  {
    hide Working, Word, RoundConstant;
    Entries0();
    Constants0();
    NoRounds();
    RoundStep(0, State(0x6a09e667, 0xbb67ae85, 0x3c6ef372, 0xa54ff53a, 0x510e527f, 0x9b05688c, 0x1f83d9ab, 0x5be0cd19), 0x428a2f98, 0x61626380);
    RoundStep(1, State(0x5d6aebcd, 0x6a09e667, 0xbb67ae85, 0x3c6ef372, 0xfa2a4622, 0x510e527f, 0x9b05688c, 0x1f83d9ab), 0x71374491, 0x00000000);
    RoundStep(2, State(0x5a6ad9ad, 0x5d6aebcd, 0x6a09e667, 0xbb67ae85, 0x78ce7989, 0xfa2a4622, 0x510e527f, 0x9b05688c), 0xb5c0fbcf, 0x00000000);
    RoundStep(3, State(0xc8c347a7, 0x5a6ad9ad, 0x5d6aebcd, 0x6a09e667, 0xf92939eb, 0x78ce7989, 0xfa2a4622, 0x510e527f), 0xe9b5dba5, 0x00000000);
    RoundStep(4, State(0xd550f666, 0xc8c347a7, 0x5a6ad9ad, 0x5d6aebcd, 0x24e00850, 0xf92939eb, 0x78ce7989, 0xfa2a4622), 0x3956c25b, 0x00000000);
    RoundStep(5, State(0x04409a6a, 0xd550f666, 0xc8c347a7, 0x5a6ad9ad, 0x43ada245, 0x24e00850, 0xf92939eb, 0x78ce7989), 0x59f111f1, 0x00000000);
    RoundStep(6, State(0x2b4209f5, 0x04409a6a, 0xd550f666, 0xc8c347a7, 0x714260ad, 0x43ada245, 0x24e00850, 0xf92939eb), 0x923f82a4, 0x00000000);
    RoundStep(7, State(0xe5030380, 0x2b4209f5, 0x04409a6a, 0xd550f666, 0x9b27a401, 0x714260ad, 0x43ada245, 0x24e00850), 0xab1c5ed5, 0x00000000);
  }

  lemma {:induction false} Rounds16()
    ensures Working(16) == State(0xb0fa238e, 0xc0645fde, 0xd932eb16, 0x87912990, 0x07590dcd, 0x0b92f20c, 0x745a48de, 0x1e578218)
  {
    hide Working, Word, RoundConstant;
    Entries8();
    Constants8();
    Rounds8();
    RoundStep(8, State(0x85a07b5f, 0xe5030380, 0x2b4209f5, 0x04409a6a, 0x0c657a79, 0x9b27a401, 0x714260ad, 0x43ada245), 0xd807aa98, 0x00000000);
    RoundStep(9, State(0x8e04ecb9, 0x85a07b5f, 0xe5030380, 0x2b4209f5, 0x32ca2d8c, 0x0c657a79, 0x9b27a401, 0x714260ad), 0x12835b01, 0x00000000);
    RoundStep(10, State(0x8c87346b, 0x8e04ecb9, 0x85a07b5f, 0xe5030380, 0x1cc92596, 0x32ca2d8c, 0x0c657a79, 0x9b27a401), 0x243185be, 0x00000000);
    RoundStep(11, State(0x4798a3f4, 0x8c87346b, 0x8e04ecb9, 0x85a07b5f, 0x436b23e8, 0x1cc92596, 0x32ca2d8c, 0x0c657a79), 0x550c7dc3, 0x00000000);
    RoundStep(12, State(0xf71fc5a9, 0x4798a3f4, 0x8c87346b, 0x8e04ecb9, 0x816fd6e9, 0x436b23e8, 0x1cc92596, 0x32ca2d8c), 0x72be5d74, 0x00000000);
    RoundStep(13, State(0x87912990, 0xf71fc5a9, 0x4798a3f4, 0x8c87346b, 0x1e578218, 0x816fd6e9, 0x436b23e8, 0x1cc92596), 0x80deb1fe, 0x00000000);
    RoundStep(14, State(0xd932eb16, 0x87912990, 0xf71fc5a9, 0x4798a3f4, 0x745a48de, 0x1e578218, 0x816fd6e9, 0x436b23e8), 0x9bdc06a7, 0x00000000);
    RoundStep(15, State(0xc0645fde, 0xd932eb16, 0x87912990, 0xf71fc5a9, 0x0b92f20c, 0x745a48de, 0x1e578218, 0x816fd6e9), 0xc19bf174, 0x00000018);
  }

  lemma {:induction false} Rounds24()
    ensures Working(24) == State(0xc5d53d8d, 0xa7a3623f, 0xc2606d6d, 0x9dc68b63, 0xaa47c347, 0x49f5114a, 0xe1257970, 0x8ada8930)
  {
    hide Working, Word, RoundConstant;
    Entries16();
    Constants16();
    Rounds16();
    RoundStep(16, State(0xb0fa238e, 0xc0645fde, 0xd932eb16, 0x87912990, 0x07590dcd, 0x0b92f20c, 0x745a48de, 0x1e578218), 0xe49b69c1, 0x61626380);
    RoundStep(17, State(0x21da9a9b, 0xb0fa238e, 0xc0645fde, 0xd932eb16, 0x8034229c, 0x07590dcd, 0x0b92f20c, 0x745a48de), 0xefbe4786, 0x000f0000);
    RoundStep(18, State(0xc2fbd9d1, 0x21da9a9b, 0xb0fa238e, 0xc0645fde, 0x846ee454, 0x8034229c, 0x07590dcd, 0x0b92f20c), 0x0fc19dc6, 0x7da86405);
    RoundStep(19, State(0xfe777bbf, 0xc2fbd9d1, 0x21da9a9b, 0xb0fa238e, 0xcc899961, 0x846ee454, 0x8034229c, 0x07590dcd), 0x240ca1cc, 0x600003c6);
    RoundStep(20, State(0xe1f20c33, 0xfe777bbf, 0xc2fbd9d1, 0x21da9a9b, 0xb0638179, 0xcc899961, 0x846ee454, 0x8034229c), 0x2de92c6f, 0x3e9d7b78);
    RoundStep(21, State(0x9dc68b63, 0xe1f20c33, 0xfe777bbf, 0xc2fbd9d1, 0x8ada8930, 0xb0638179, 0xcc899961, 0x846ee454), 0x4a7484aa, 0x0183fc00);
    RoundStep(22, State(0xc2606d6d, 0x9dc68b63, 0xe1f20c33, 0xfe777bbf, 0xe1257970, 0x8ada8930, 0xb0638179, 0xcc899961), 0x5cb0a9dc, 0x12dcbfdb);
    RoundStep(23, State(0xa7a3623f, 0xc2606d6d, 0x9dc68b63, 0xe1f20c33, 0x49f5114a, 0xe1257970, 0x8ada8930, 0xb0638179), 0x76f988da, 0xe2e2c38e);
  }

  lemma {:induction false} Rounds32()
    ensures Working(32) == State(0x73b33bf5, 0xea992a22, 0xa0060b30, 0x363482c9, 0xba591112, 0x0109ab3a, 0xade79437, 0x6112a3b7)
  {
    hide Working, Word, RoundConstant;
    Entries24();
    Constants24();
    Rounds24();
    RoundStep(24, State(0xc5d53d8d, 0xa7a3623f, 0xc2606d6d, 0x9dc68b63, 0xaa47c347, 0x49f5114a, 0xe1257970, 0x8ada8930), 0x983e5152, 0xc8215c1a);
    RoundStep(25, State(0x1c2c2838, 0xc5d53d8d, 0xa7a3623f, 0xc2606d6d, 0x2823ef91, 0xaa47c347, 0x49f5114a, 0xe1257970), 0xa831c66d, 0xb73679a2);
    RoundStep(26, State(0xcde8037d, 0x1c2c2838, 0xc5d53d8d, 0xa7a3623f, 0x14383d8e, 0x2823ef91, 0xaa47c347, 0x49f5114a), 0xb00327c8, 0xe5bc3909);
    RoundStep(27, State(0xb62ec4bc, 0xcde8037d, 0x1c2c2838, 0xc5d53d8d, 0xc74c6516, 0x14383d8e, 0x2823ef91, 0xaa47c347), 0xbf597fc7, 0x32663c5b);
    RoundStep(28, State(0x77d37528, 0xb62ec4bc, 0xcde8037d, 0x1c2c2838, 0xedffbff8, 0xc74c6516, 0x14383d8e, 0x2823ef91), 0xc6e00bf3, 0x9d209d67);
    RoundStep(29, State(0x363482c9, 0x77d37528, 0xb62ec4bc, 0xcde8037d, 0x6112a3b7, 0xedffbff8, 0xc74c6516, 0x14383d8e), 0xd5a79147, 0xec8726cb);
    RoundStep(30, State(0xa0060b30, 0x363482c9, 0x77d37528, 0xb62ec4bc, 0xade79437, 0x6112a3b7, 0xedffbff8, 0xc74c6516), 0x06ca6351, 0x702138a4);
    RoundStep(31, State(0xea992a22, 0xa0060b30, 0x363482c9, 0x77d37528, 0x0109ab3a, 0xade79437, 0x6112a3b7, 0xedffbff8), 0x14292967, 0xd3b7973b);
  }

  lemma {:induction false} Rounds40()
    ensures Working(40) == State(0x79ea687a, 0x6dc57a8a, 0x34df1604, 0x41a65cb1, 0x1efbc0a0, 0xf0781bc8, 0xa507a53d, 0x0772a26b)
  {
    hide Working, Word, RoundConstant;
    Entries32();
    Constants32();
    Rounds32();
    RoundStep(32, State(0x73b33bf5, 0xea992a22, 0xa0060b30, 0x363482c9, 0xba591112, 0x0109ab3a, 0xade79437, 0x6112a3b7), 0x27b70a85, 0x93f5997f);
    RoundStep(33, State(0x98e12507, 0x73b33bf5, 0xea992a22, 0xa0060b30, 0x9cd9f5f6, 0xba591112, 0x0109ab3a, 0xade79437), 0x2e1b2138, 0x3b68ba73);
    RoundStep(34, State(0xfe604df5, 0x98e12507, 0x73b33bf5, 0xea992a22, 0x59249dd3, 0x9cd9f5f6, 0xba591112, 0x0109ab3a), 0x4d2c6dfc, 0xaff4ffc1);
    RoundStep(35, State(0xa9a7738c, 0xfe604df5, 0x98e12507, 0x73b33bf5, 0x085f3833, 0x59249dd3, 0x9cd9f5f6, 0xba591112), 0x53380d13, 0xf10a5c62);
    RoundStep(36, State(0x65a0cfe4, 0xa9a7738c, 0xfe604df5, 0x98e12507, 0xf4b002d6, 0x085f3833, 0x59249dd3, 0x9cd9f5f6), 0x650a7354, 0x0a8b3996);
    RoundStep(37, State(0x41a65cb1, 0x65a0cfe4, 0xa9a7738c, 0xfe604df5, 0x0772a26b, 0xf4b002d6, 0x085f3833, 0x59249dd3), 0x766a0abb, 0x72af830a);
    RoundStep(38, State(0x34df1604, 0x41a65cb1, 0x65a0cfe4, 0xa9a7738c, 0xa507a53d, 0x0772a26b, 0xf4b002d6, 0x085f3833), 0x81c2c92e, 0x9409e33e);
    RoundStep(39, State(0x6dc57a8a, 0x34df1604, 0x41a65cb1, 0x65a0cfe4, 0xf0781bc8, 0xa507a53d, 0x0772a26b, 0xf4b002d6), 0x92722c85, 0x24641522);
  }

  lemma {:induction false} Rounds48()
    ensures Working(48) == State(0x4172328d, 0xa14c14b0, 0x72ab4b91, 0x26628815, 0xfecf0bc6, 0xd57b94a9, 0xb7755da1, 0xa80f11f0)
  {
    hide Working, Word, RoundConstant;
    Entries40();
    Constants40();
    Rounds40();
    RoundStep(40, State(0x79ea687a, 0x6dc57a8a, 0x34df1604, 0x41a65cb1, 0x1efbc0a0, 0xf0781bc8, 0xa507a53d, 0x0772a26b), 0xa2bfe8a1, 0x9f47bf94);
    RoundStep(41, State(0xd6670766, 0x79ea687a, 0x6dc57a8a, 0x34df1604, 0x26352d63, 0x1efbc0a0, 0xf0781bc8, 0xa507a53d), 0xa81a664b, 0xf0a64f5a);
    RoundStep(42, State(0xdf46652f, 0xd6670766, 0x79ea687a, 0x6dc57a8a, 0x838b2711, 0x26352d63, 0x1efbc0a0, 0xf0781bc8), 0xc24b8b70, 0x3e246a79);
    RoundStep(43, State(0x17aa0dfe, 0xdf46652f, 0xd6670766, 0x79ea687a, 0xdecd4715, 0x838b2711, 0x26352d63, 0x1efbc0a0), 0xc76c51a3, 0x27333ba3);
    RoundStep(44, State(0x9d4baf93, 0x17aa0dfe, 0xdf46652f, 0xd6670766, 0xfda24c2e, 0xdecd4715, 0x838b2711, 0x26352d63), 0xd192e819, 0x0c4763f2);
    RoundStep(45, State(0x26628815, 0x9d4baf93, 0x17aa0dfe, 0xdf46652f, 0xa80f11f0, 0xfda24c2e, 0xdecd4715, 0x838b2711), 0xd6990624, 0x840abf27);
    RoundStep(46, State(0x72ab4b91, 0x26628815, 0x9d4baf93, 0x17aa0dfe, 0xb7755da1, 0xa80f11f0, 0xfda24c2e, 0xdecd4715), 0xf40e3585, 0x7a290d5d);
    RoundStep(47, State(0xa14c14b0, 0x72ab4b91, 0x26628815, 0x9d4baf93, 0xd57b94a9, 0xb7755da1, 0xa80f11f0, 0xfda24c2e), 0x106aa070, 0x065c43da);
  }

  lemma {:induction false} Rounds56()
    ensures Working(56) == State(0x38cc9913, 0x3ec45cdb, 0xf5702fdb, 0x101fd28f, 0x54cb266b, 0xe50e1b4f, 0x9f4787c3, 0x529e7d00)
  {
    hide Working, Word, RoundConstant;
    Entries48();
    Constants48();
    Rounds48();
    RoundStep(48, State(0x4172328d, 0xa14c14b0, 0x72ab4b91, 0x26628815, 0xfecf0bc6, 0xd57b94a9, 0xb7755da1, 0xa80f11f0), 0x19a4c116, 0xfb3e89cb);
    RoundStep(49, State(0x05757ceb, 0x4172328d, 0xa14c14b0, 0x72ab4b91, 0xbd714038, 0xfecf0bc6, 0xd57b94a9, 0xb7755da1), 0x1e376c08, 0xcc7617db);
    RoundStep(50, State(0xf11bfaa8, 0x05757ceb, 0x4172328d, 0xa14c14b0, 0x6e5c390c, 0xbd714038, 0xfecf0bc6, 0xd57b94a9), 0x2748774c, 0xb9e66c34);
    RoundStep(51, State(0x7a0508a1, 0xf11bfaa8, 0x05757ceb, 0x4172328d, 0x52f1ccf7, 0x6e5c390c, 0xbd714038, 0xfecf0bc6), 0x34b0bcb5, 0xa9993667);
    RoundStep(52, State(0x886e7a22, 0x7a0508a1, 0xf11bfaa8, 0x05757ceb, 0x49231c1e, 0x52f1ccf7, 0x6e5c390c, 0xbd714038), 0x391c0cb3, 0x84badedd);
    RoundStep(53, State(0x101fd28f, 0x886e7a22, 0x7a0508a1, 0xf11bfaa8, 0x529e7d00, 0x49231c1e, 0x52f1ccf7, 0x6e5c390c), 0x4ed8aa4a, 0xc21462bc);
    RoundStep(54, State(0xf5702fdb, 0x101fd28f, 0x886e7a22, 0x7a0508a1, 0x9f4787c3, 0x529e7d00, 0x49231c1e, 0x52f1ccf7), 0x5b9cca4f, 0x1487472c);
    RoundStep(55, State(0x3ec45cdb, 0xf5702fdb, 0x101fd28f, 0x886e7a22, 0xe50e1b4f, 0x9f4787c3, 0x529e7d00, 0x49231c1e), 0x682e6ff3, 0xb20f7a99);
  }

  lemma {:induction false} Rounds64()
    ensures Working(64) == State(0x506e3058, 0xd39a2165, 0x04d24d6c, 0xb85e2ce9, 0x5ef50f24, 0xfb121210, 0x948d25b6, 0x961f4894)
  {
    hide Working, Word, RoundConstant;
    Entries56();
    Constants56();
    Rounds56();
    RoundStep(56, State(0x38cc9913, 0x3ec45cdb, 0xf5702fdb, 0x101fd28f, 0x54cb266b, 0xe50e1b4f, 0x9f4787c3, 0x529e7d00), 0x748f82ee, 0xef57b9cd);
    RoundStep(57, State(0xfcd1887b, 0x38cc9913, 0x3ec45cdb, 0xf5702fdb, 0x9b5e906c, 0x54cb266b, 0xe50e1b4f, 0x9f4787c3), 0x78a5636f, 0xebe6b238);
    RoundStep(58, State(0xc062d46f, 0xfcd1887b, 0x38cc9913, 0x3ec45cdb, 0x7e44008e, 0x9b5e906c, 0x54cb266b, 0xe50e1b4f), 0x84c87814, 0x9fe3095e);
    RoundStep(59, State(0xffb70472, 0xc062d46f, 0xfcd1887b, 0x38cc9913, 0x6d83bfc6, 0x7e44008e, 0x9b5e906c, 0x54cb266b), 0x8cc70208, 0x78bc8d4b);
    RoundStep(60, State(0xb6ae8fff, 0xffb70472, 0xc062d46f, 0xfcd1887b, 0xb21bad3d, 0x6d83bfc6, 0x7e44008e, 0x9b5e906c), 0x90befffa, 0xa43fcf15);
    RoundStep(61, State(0xb85e2ce9, 0xb6ae8fff, 0xffb70472, 0xc062d46f, 0x961f4894, 0xb21bad3d, 0x6d83bfc6, 0x7e44008e), 0xa4506ceb, 0x668b2ff8);
    RoundStep(62, State(0x04d24d6c, 0xb85e2ce9, 0xb6ae8fff, 0xffb70472, 0x948d25b6, 0x961f4894, 0xb21bad3d, 0x6d83bfc6), 0xbef9a3f7, 0xeeaba2cc);
    RoundStep(63, State(0xd39a2165, 0x04d24d6c, 0xb85e2ce9, 0xb6ae8fff, 0xfb121210, 0x948d25b6, 0x961f4894, 0xb21bad3d), 0xc67178f2, 0x12b1edeb);
  }

  // ---- The digest ----

  lemma {:induction false} HashOfAbc()
    ensures HashAfter(Block(), 1) == State(0xba7816bf, 0x8f01cfea, 0x414140de, 0x5dae2223, 0xb00361a3, 0x96177a9c, 0xb410ff61, 0xf20015ad)
  {
    Rounds64();
    hide Rounds;
    assert HashAfter(Block(), 0) == INITIAL;
    assert HashAfter(Block(), 1) == Sum(INITIAL, Working(64));
  }

  lemma {:induction false} OutputWords()
    ensures WordBytes(0xba7816bf) == [0xba, 0x78, 0x16, 0xbf]
    ensures WordBytes(0x8f01cfea) == [0x8f, 0x01, 0xcf, 0xea]
    ensures WordBytes(0x414140de) == [0x41, 0x41, 0x40, 0xde]
    ensures WordBytes(0x5dae2223) == [0x5d, 0xae, 0x22, 0x23]
    ensures WordBytes(0xb00361a3) == [0xb0, 0x03, 0x61, 0xa3]
    ensures WordBytes(0x96177a9c) == [0x96, 0x17, 0x7a, 0x9c]
    ensures WordBytes(0xb410ff61) == [0xb4, 0x10, 0xff, 0x61]
    ensures WordBytes(0xf20015ad) == [0xf2, 0x00, 0x15, 0xad]
  {
  }

  lemma {:induction false} EightJoined(words: seq<bv32>)
    requires |words| == 8
    ensures Joined(words) == WordBytes(words[0]) + WordBytes(words[1]) + WordBytes(words[2]) + WordBytes(words[3])
                           + WordBytes(words[4]) + WordBytes(words[5]) + WordBytes(words[6]) + WordBytes(words[7])
  {
    hide WordBytes;
    assert words[..1] == [words[0]];
    assert words[..8] == words;
    forall i | 0 <= i < 8 ensures Joined(words[..i + 1]) == Joined(words[..i]) + WordBytes(words[i]) {
      assert words[..i + 1][..i] == words[..i];
    }
  }

  lemma {:induction false} OutputBytes()
    ensures Joined([0xba7816bf, 0x8f01cfea, 0x414140de, 0x5dae2223, 0xb00361a3, 0x96177a9c, 0xb410ff61, 0xf20015ad]) == [
      0xba, 0x78, 0x16, 0xbf, 0x8f, 0x01, 0xcf, 0xea,
      0x41, 0x41, 0x40, 0xde, 0x5d, 0xae, 0x22, 0x23,
      0xb0, 0x03, 0x61, 0xa3, 0x96, 0x17, 0x7a, 0x9c,
      0xb4, 0x10, 0xff, 0x61, 0xf2, 0x00, 0x15, 0xad]
  {
    OutputWords();
    hide WordBytes, Joined;
    EightJoined([0xba7816bf, 0x8f01cfea, 0x414140de, 0x5dae2223, 0xb00361a3, 0x96177a9c, 0xb410ff61, 0xf20015ad]);
  }

  /** The published digest. */
  lemma {:induction false} DigestOfAbc()
    ensures Digest(ABC) == [
      0xba, 0x78, 0x16, 0xbf, 0x8f, 0x01, 0xcf, 0xea,
      0x41, 0x41, 0x40, 0xde, 0x5d, 0xae, 0x22, 0x23,
      0xb0, 0x03, 0x61, 0xa3, 0x96, 0x17, 0x7a, 0x9c,
      0xb4, 0x10, 0xff, 0x61, 0xf2, 0x00, 0x15, 0xad]
  {
    HashOfAbc();
    OutputBytes();
    hide WordBytes, Padded, HashAfter, Joined;
  }
}
