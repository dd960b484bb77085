/** What the hash computation of module Fips180 means, for every message: its steps in order, its output read
    back, and its operations bit by bit. */
module Fips180Laws {
  import opened Fips180

  // ---- The computation as a trace (section 6.2.2) ----

  /** vs are the working variables of a block: the hash value, then one round after the other. */
  ghost predicate IsBlockTrace(msg: seq<bv8>, off: nat, h: State, vs: seq<State>)
    requires off + 64 <= |msg|
  {
    && |vs| == 65 && vs[0] == h
    && forall t: nat | t < 64 :: vs[t + 1] == Round(vs[t], RoundConstant(t), Schedule(msg, off, t))
  }

  /** hs are the hash values: the initial one, then each the sum of the one before and its block's last
      working variables. */
  ghost predicate IsHashTrace(msg: seq<bv8>, hs: seq<State>, vs: seq<seq<State>>) {
    && |hs| == |vs| + 1 && 64 * |vs| <= |msg| && hs[0] == INITIAL
    && forall i: nat | i < |vs| ::
         IsBlockTrace(msg, 64 * i, hs[i], vs[i]) && hs[i + 1] == Sum(hs[i], vs[i][64])
  }

  lemma {:induction false} RoundsFollowTrace(msg: seq<bv8>, off: nat, h: State, vs: seq<State>, t: nat)
    requires off + 64 <= |msg| && t <= 64 && IsBlockTrace(msg, off, h, vs)
    ensures Rounds(h, msg, off, t) == vs[t]
  {
    if t > 0 {
      RoundsFollowTrace(msg, off, h, vs, t - 1);
      hide Round, RoundConstant, Schedule;
      assert vs[t - 1 + 1] == Round(vs[t - 1], RoundConstant(t - 1), Schedule(msg, off, t - 1));
    }
  }

  /** In every trace of the computation, the hash value after n blocks is the trace's n-th. */
  lemma {:induction false} HashFollowsTrace(msg: seq<bv8>, hs: seq<State>, vs: seq<seq<State>>, n: nat)
    requires IsHashTrace(msg, hs, vs) && n <= |vs|
    ensures HashAfter(msg, n) == hs[n]
  {
    if n > 0 {
      HashFollowsTrace(msg, hs, vs, n - 1);
      RoundsFollowTrace(msg, 64 * (n - 1), hs[n - 1], vs[n - 1], 64);
      hide IsBlockTrace, Rounds, Sum;
      assert hs[n - 1 + 1] == Sum(hs[n - 1], vs[n - 1][64]);
    }
  }

  /** ws is the schedule of a block: sixteen words of the message, then each from earlier ones. */
  ghost predicate IsSchedule(msg: seq<bv8>, off: nat, ws: seq<bv32>)
    requires off + 64 <= |msg|
  {
    && |ws| == 64
    && (forall t: nat | t < 16 :: ws[t] == MessageWord(msg, off, t))
    && (forall t: nat | 16 <= t < 64 :: ws[t] == NextWord(ws[t - 2], ws[t - 7], ws[t - 15], ws[t - 16]))
  }

  ghost function Entry(ws: seq<bv32>, t: nat): bv32
    requires t < |ws|
  {
    ws[t]
  }

  lemma {:induction false} FirstEntries(msg: seq<bv8>, off: nat, ws: seq<bv32>, t: nat)
    requires off + 64 <= |msg| && t < 16 && IsSchedule(msg, off, ws)
    ensures Schedule(msg, off, t) == Entry(ws, t)
  {
    hide MessageWord;
  }

  lemma {:induction false} LaterEntries(msg: seq<bv8>, off: nat, ws: seq<bv32>, t: nat)
    requires off + 64 <= |msg| && 16 <= t < 64 && IsSchedule(msg, off, ws)
    ensures Entry(ws, t) == NextWord(Entry(ws, t - 2), Entry(ws, t - 7), Entry(ws, t - 15), Entry(ws, t - 16))
  {
    hide NextWord;
  }

  lemma {:induction false} LaterWords(msg: seq<bv8>, off: nat, t: nat)
    requires off + 64 <= |msg| && 16 <= t < 64
    ensures Schedule(msg, off, t) ==
            NextWord(Schedule(msg, off, t - 2), Schedule(msg, off, t - 7),
                     Schedule(msg, off, t - 15), Schedule(msg, off, t - 16))
  {
    hide NextWord;
  }

  lemma {:induction false} EntriesAgree(msg: seq<bv8>, off: nat, ws: seq<bv32>, t: nat)
    requires off + 64 <= |msg| && t < 64 && IsSchedule(msg, off, ws)
    ensures |ws| == 64 && Schedule(msg, off, t) == Entry(ws, t)
  {
    assert |ws| == 64;
    hide *;
    if t < 16 {
      FirstEntries(msg, off, ws, t);
    } else {
      EntriesAgree(msg, off, ws, t - 2);
      EntriesAgree(msg, off, ws, t - 7);
      EntriesAgree(msg, off, ws, t - 15);
      EntriesAgree(msg, off, ws, t - 16);
      AgreementExtends(msg, off, ws, t);
    }
  }

  lemma {:induction false} AgreementExtends(msg: seq<bv8>, off: nat, ws: seq<bv32>, t: nat)
    requires off + 64 <= |msg| && 16 <= t < 64 && IsSchedule(msg, off, ws)
    requires Schedule(msg, off, t - 2) == Entry(ws, t - 2) && Schedule(msg, off, t - 7) == Entry(ws, t - 7)
    requires Schedule(msg, off, t - 15) == Entry(ws, t - 15) && Schedule(msg, off, t - 16) == Entry(ws, t - 16)
    ensures Schedule(msg, off, t) == Entry(ws, t)
  {
    LaterEntries(msg, off, ws, t);
    LaterWords(msg, off, t);
    hide *;
    assert Schedule(msg, off, t) ==
           NextWord(Entry(ws, t - 2), Entry(ws, t - 7), Entry(ws, t - 15), Entry(ws, t - 16));
  }

  /** Only the standard's schedule follows its recurrence. */
  lemma {:induction false} ScheduleFollowsRecurrence(msg: seq<bv8>, off: nat, ws: seq<bv32>, t: nat)
    requires off + 64 <= |msg| && t < 64 && IsSchedule(msg, off, ws)
    ensures Schedule(msg, off, t) == ws[t]
  {
    EntriesAgree(msg, off, ws, t);
    hide Schedule;
  }

  // ---- The output, read back ----

  lemma {:induction false} WordReadBack(w: bv32)
    ensures |WordBytes(w)| == 4
    ensures WordOfBytes(WordBytes(w)[0], WordBytes(w)[1], WordBytes(w)[2], WordBytes(w)[3]) == w
  {
  }

  lemma {:induction false} JoinedReadBack(words: seq<bv32>, i: nat)
    requires i < |words|
    ensures Joined(words)[4 * i..4 * i + 4] == WordBytes(words[i])
  {
    hide WordBytes;
    if i < |words| - 1 {
      JoinedReadBack(words[..|words| - 1], i);
    }
  }

  /** The digest read as eight big-endian words is the hash value after the last block. */
  lemma {:induction false} DigestReadBack(msg: seq<bv8>, i: nat)
    requires i < 8
    ensures var padded := Padded(msg); var d := Digest(msg);
            WordOfBytes(d[4 * i], d[4 * i + 1], d[4 * i + 2], d[4 * i + 3])
            == StateWords(HashAfter(padded, |padded| / 64))[i]
  {
    var padded := Padded(msg);
    var words := StateWords(HashAfter(padded, |padded| / 64));
    hide WordBytes, WordOfBytes, Padded, HashAfter, StateWords;
    JoinedReadBack(words, i);
    WordReadBack(words[i]);
    var four := Joined(words)[4 * i..4 * i + 4];
    assert four[0] == Joined(words)[4 * i] && four[1] == Joined(words)[4 * i + 1];
    assert four[2] == Joined(words)[4 * i + 2] && four[3] == Joined(words)[4 * i + 3];
  }

  // ---- The two selections (section 4.1.2) ----

  /** Ch takes y where x has ones and z where it has zeros. */
  lemma {:induction false} ChooseSelects(x: bv32, y: bv32, z: bv32)
    ensures Ch(x, y, z) & x == y & x
    ensures Ch(x, y, z) & !x == z & !x
  {
  }

  /** Maj takes y where y and z agree, and x where they differ. */
  lemma {:induction false} MajoritySelects(x: bv32, y: bv32, z: bv32)
    ensures Maj(x, y, z) & !(y ^ z) == y & !(y ^ z)
    ensures Maj(x, y, z) & (y ^ z) == x & (y ^ z)
  {
  }
}
