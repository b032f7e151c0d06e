/** The cipher, its inverse, and the equivalent inverse cipher (sections 5.1, 5.3 and 5.3.5 of
    FIPS 197) for 256-bit keys, on whole states. */
module AesState {
  import opened AesSbox
  import opened AesColumns

  /** Four columns. */
  datatype State = State(c0: Word, c1: Word, c2: Word, c3: Word)

  function SubWord(w: Word): Word { Word(Sbox(w.b0), Sbox(w.b1), Sbox(w.b2), Sbox(w.b3)) }
  function InvSubWord(w: Word): Word { Word(InvSbox(w.b0), InvSbox(w.b1), InvSbox(w.b2), InvSbox(w.b3)) }

  function SubBytes(s: State): State { State(SubWord(s.c0), SubWord(s.c1), SubWord(s.c2), SubWord(s.c3)) }
  function InvSubBytes(s: State): State { State(InvSubWord(s.c0), InvSubWord(s.c1), InvSubWord(s.c2), InvSubWord(s.c3)) }

  function ShiftRows(s: State): State {
    State(Word(s.c0.b0, s.c1.b1, s.c2.b2, s.c3.b3), Word(s.c1.b0, s.c2.b1, s.c3.b2, s.c0.b3),
          Word(s.c2.b0, s.c3.b1, s.c0.b2, s.c1.b3), Word(s.c3.b0, s.c0.b1, s.c1.b2, s.c2.b3))
  }

  function InvShiftRows(s: State): State {
    State(Word(s.c0.b0, s.c3.b1, s.c2.b2, s.c1.b3), Word(s.c1.b0, s.c0.b1, s.c3.b2, s.c2.b3),
          Word(s.c2.b0, s.c1.b1, s.c0.b2, s.c3.b3), Word(s.c3.b0, s.c2.b1, s.c1.b2, s.c0.b3))
  }

  function MixColumns(s: State): State { State(MixColumn(s.c0), MixColumn(s.c1), MixColumn(s.c2), MixColumn(s.c3)) }

  function InvMixColumns(s: State): State {
    State(InvMixColumn(s.c0), InvMixColumn(s.c1), InvMixColumn(s.c2), InvMixColumn(s.c3))
  }

  function AddRoundKey(s: State, k: State): State {
    State(Xor(s.c0, k.c0), Xor(s.c1, k.c1), Xor(s.c2, k.c2), Xor(s.c3, k.c3))
  }

  /** A schedule has the words of 15 round keys. */
  type Schedule = k: seq<Word> | |k| == 60 witness seq(60, _ => Word(0, 0, 0, 0))

  function RoundKey(k: Schedule, r: nat): State
    requires r <= 14
  {
    State(k[4 * r], k[4 * r + 1], k[4 * r + 2], k[4 * r + 3])
  }

  // ---- The cipher ----

  function Round(s: State, k: State): State { AddRoundKey(MixColumns(ShiftRows(SubBytes(s))), k) }
  function LastRound(s: State, k: State): State { AddRoundKey(ShiftRows(SubBytes(s)), k) }

  /** The state after round r. */
  function Rounds(k: Schedule, s: State, r: nat): State
    requires r <= 13
  {
    if r == 0 then AddRoundKey(s, RoundKey(k, 0))
    else Round(Rounds(k, s, r - 1), RoundKey(k, r))
  }

  function Cipher(k: Schedule, s: State): State {
    LastRound(Rounds(k, s, 13), RoundKey(k, 14))
  }

  /** The inverse cipher undoes one transformation after the other. */
  function InvRounds(k: Schedule, s: State, r: nat): State
    requires r <= 13
  {
    if r == 0 then AddRoundKey(s, RoundKey(k, 14))
    else InvMixColumns(AddRoundKey(InvSubBytes(InvShiftRows(InvRounds(k, s, r - 1))), RoundKey(k, 14 - r)))
  }

  function InvCipher(k: Schedule, s: State): State {
    AddRoundKey(InvSubBytes(InvShiftRows(InvRounds(k, s, 13))), RoundKey(k, 0))
  }

  /** The equivalent inverse cipher has the order of the cipher, with a schedule of its own. */
  function EqRound(s: State, k: State): State { AddRoundKey(InvMixColumns(InvShiftRows(InvSubBytes(s))), k) }
  function EqLastRound(s: State, k: State): State { AddRoundKey(InvShiftRows(InvSubBytes(s)), k) }

  function EqRounds(d: Schedule, s: State, r: nat): State
    requires r <= 13
  {
    if r == 0 then AddRoundKey(s, RoundKey(d, 0))
    else EqRound(EqRounds(d, s, r - 1), RoundKey(d, r))
  }

  function EqInvCipher(d: Schedule, s: State): State {
    EqLastRound(EqRounds(d, s, 13), RoundKey(d, 14))
  }

  // ---- Undoing ----

  lemma SubInverse(s: State)
    ensures InvSubBytes(SubBytes(s)) == s
  {
    hide Sbox, InvSbox;
    WordInverse(s.c0);
    WordInverse(s.c1);
    WordInverse(s.c2);
    WordInverse(s.c3);
  }

  lemma WordInverse(w: Word)
    ensures InvSubWord(SubWord(w)) == w
  {
    hide Sbox, InvSbox;
    SboxInverse(w.b0);
    SboxInverse(w.b1);
    SboxInverse(w.b2);
    SboxInverse(w.b3);
  }

  lemma ShiftInverse(s: State)
    ensures InvShiftRows(ShiftRows(s)) == s
    ensures InvShiftRows(InvSubBytes(s)) == InvSubBytes(InvShiftRows(s))
  {
    hide Sbox, InvSbox;
  }

  lemma MixesInverse(s: State)
    ensures InvMixColumns(MixColumns(s)) == s
  {
    hide MixColumn, InvMixColumn;
    MixInverse(s.c0);
    MixInverse(s.c1);
    MixInverse(s.c2);
    MixInverse(s.c3);
  }

  lemma MixesLinear(s: State, k: State)
    ensures InvMixColumns(AddRoundKey(s, k)) == AddRoundKey(InvMixColumns(s), InvMixColumns(k))
  {
    hide InvMixColumn, Xor;
    InvMixLinear(s.c0, k.c0);
    InvMixLinear(s.c1, k.c1);
    InvMixLinear(s.c2, k.c2);
    InvMixLinear(s.c3, k.c3);
  }

  lemma XorTwice(x: Word, y: Word)
    ensures Xor(Xor(x, y), y) == x
  {
    hide Add;
    AddTwice(x.b0, y.b0);
    AddTwice(x.b1, y.b1);
    AddTwice(x.b2, y.b2);
    AddTwice(x.b3, y.b3);
  }

  lemma KeyTwice(s: State, k: State)
    ensures AddRoundKey(AddRoundKey(s, k), k) == s
  {
    hide Xor;
    XorTwice(s.c0, k.c0);
    XorTwice(s.c1, k.c1);
    XorTwice(s.c2, k.c2);
    XorTwice(s.c3, k.c3);
  }

  /** Every round of the inverse cipher undoes one round of the cipher. */
  lemma {:induction false} RoundsUndone(k: Schedule, s: State, r: nat)
    requires r <= 13
    ensures InvRounds(k, Cipher(k, s), r) == ShiftRows(SubBytes(Rounds(k, s, 13 - r)))
  {
    hide ShiftRows, SubBytes, MixColumns, AddRoundKey, RoundKey, InvMixColumns, InvSubBytes, InvShiftRows;
    if r == 0 {
      KeyTwice(ShiftRows(SubBytes(Rounds(k, s, 13))), RoundKey(k, 14));
    } else {
      RoundsUndone(k, s, r - 1);
      var before := Rounds(k, s, 13 - r);
      ShiftInverse(SubBytes(Rounds(k, s, 14 - r)));
      SubInverse(Rounds(k, s, 14 - r));
      KeyTwice(MixColumns(ShiftRows(SubBytes(before))), RoundKey(k, 14 - r));
      MixesInverse(ShiftRows(SubBytes(before)));
    }
  }

  lemma CipherUndone(k: Schedule, s: State)
    ensures InvCipher(k, Cipher(k, s)) == s
  {
    hide ShiftRows, SubBytes, MixColumns, AddRoundKey, RoundKey, InvMixColumns, InvSubBytes, InvShiftRows, InvRounds, Cipher;
    RoundsUndone(k, s, 13);
    ShiftInverse(SubBytes(Rounds(k, s, 0)));
    SubInverse(Rounds(k, s, 0));
    KeyTwice(s, RoundKey(k, 0));
  }

  // ---- The equivalent inverse cipher ----

  /** The round keys in reverse order, with InvMixColumns applied to all but the first and the last. */
  predicate Inverted(k: Schedule, d: Schedule) {
    && RoundKey(d, 0) == RoundKey(k, 14) && RoundKey(d, 14) == RoundKey(k, 0)
    && forall r :: 1 <= r <= 13 ==> RoundKey(d, r) == InvMixColumns(RoundKey(k, 14 - r))
  }

  lemma {:induction false} SameRounds(k: Schedule, d: Schedule, s: State, r: nat)
    requires Inverted(k, d) && r <= 13
    ensures EqRounds(d, s, r) == InvRounds(k, s, r)
  {
    hide AddRoundKey, RoundKey, InvMixColumns, InvSubBytes, InvShiftRows;
    if r > 0 {
      SameRounds(k, d, s, r - 1);
      ShiftInverse(InvRounds(k, s, r - 1));
      MixesLinear(InvSubBytes(InvShiftRows(InvRounds(k, s, r - 1))), RoundKey(k, 14 - r));
    }
  }

  /** For every input the equivalent inverse cipher does what the inverse cipher does. */
  lemma SameInverse(k: Schedule, d: Schedule, s: State)
    requires Inverted(k, d)
    ensures EqInvCipher(d, s) == InvCipher(k, s)
  {
    hide AddRoundKey, RoundKey, InvMixColumns, InvSubBytes, InvShiftRows, EqRounds, InvRounds;
    SameRounds(k, d, s, 13);
    ShiftInverse(InvRounds(k, s, 13));
  }
}
