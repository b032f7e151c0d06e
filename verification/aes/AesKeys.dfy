/** The key schedules of AES_EncryptInit and AES_DecryptInit in AES_256_CBC.h (sections 5.2 and
    5.3.5 of FIPS 197). */
module AesKeys {
  import opened AesSbox
  import opened AesColumns
  import opened AesDecryptTables
  import opened AesState

  /** The round constants. */
  function Rcon(n: nat): Word
    requires n < 10
  {
    Word([0x01, 0x02, 0x04, 0x08, 0x10, 0x20, 0x40, 0x80, 0x1B, 0x36][n], 0, 0, 0)
  }

  function RotWord(w: Word): Word { Word(w.b1, w.b2, w.b3, w.b0) }

  /** What is added to the word eight places back. */
  function Temp(i: nat, w: Word): Word
    requires 8 <= i < 60
  {
    if i % 8 == 0 then Xor(SubWord(RotWord(w)), Rcon(i / 8 - 1)) else if i % 8 == 4 then SubWord(w) else w
  }

  /** Word i of the expanded key. */
  function KeyWord(key: seq<Word>, i: nat): Word
    requires |key| == 8 && i < 60
  {
    if i < 8 then key[i] else Xor(KeyWord(key, i - 8), Temp(i, KeyWord(key, i - 1)))
  }

  function Expanded(key: seq<Word>): Schedule
    requires |key| == 8
  {
    seq(60, i requires 0 <= i < 60 => KeyWord(key, i))
  }

  // ---- Bytes of a table entry, in place ----

  function Lane0(b: bv8): Word { Word(b, 0, 0, 0) }
  function Lane1(b: bv8): Word { Word(0, b, 0, 0) }
  function Lane2(b: bv8): Word { Word(0, 0, b, 0) }
  function Lane3(b: bv8): Word { Word(0, 0, 0, b) }

  lemma Lanes(b0: bv8, b1: bv8, b2: bv8, b3: bv8)
    ensures Xor(Xor(Xor(Lane0(b0), Lane1(b1)), Lane2(b2)), Lane3(b3)) == Word(b0, b1, b2, b3)
  {
    hide Add;
    AddZero(0);
    AddZero(b0);
    AddZero(b1);
    AddZero(b2);
    AddZero(b3);
  }

  lemma XorAssociates(x: Word, y: Word, z: Word)
    ensures Xor(Xor(x, y), z) == Xor(x, Xor(y, z))
  {
    hide Add;
    Associates(x.b0, y.b0, z.b0);
    Associates(x.b1, y.b1, z.b1);
    Associates(x.b2, y.b2, z.b2);
    Associates(x.b3, y.b3, z.b3);
  }

  lemma LanesAdded(k: Word, b0: bv8, b1: bv8, b2: bv8, b3: bv8)
    ensures Xor(Xor(Xor(Xor(k, Lane0(b0)), Lane1(b1)), Lane2(b2)), Lane3(b3)) == Xor(k, Word(b0, b1, b2, b3))
  {
    hide Xor, Lane0, Lane1, Lane2, Lane3;
    Lanes(b0, b1, b2, b3);
    XorAssociates(k, Lane0(b0), Lane1(b1));
    XorAssociates(k, Xor(Lane0(b0), Lane1(b1)), Lane2(b2));
    XorAssociates(k, Xor(Xor(Lane0(b0), Lane1(b1)), Lane2(b2)), Lane3(b3));
  }

  // ---- Key expansion ----

  /** The first n words of the expanded key are there. */
  ghost predicate Keyed(roundkey: array<Word>, key: seq<Word>, n: nat)
    reads roundkey
  {
    |key| == 8 && roundkey.Length == 60 && n <= 60 && forall i :: 0 <= i < n ==> roundkey[i] == KeyWord(key, i)
  }

  lemma NextWord(key: seq<Word>, i: nat)
    requires |key| == 8 && 8 <= i < 60
    ensures KeyWord(key, i) == Xor(KeyWord(key, i - 8), Temp(i, KeyWord(key, i - 1)))
  {
  }

  method FirstWord(roundkey: array<Word>, index: nat, ghost key: seq<Word>)
    requires Keyed(roundkey, key, index) && 8 <= index < 60 && index % 8 == 0
    modifies roundkey
    ensures Keyed(roundkey, key, index + 1)
  {
    hide Xor, Lane0, Lane1, Lane2, Lane3, KeyWord, Sbox, Rcon;
    var k, w := roundkey[index - 8], roundkey[index - 1];
    LanesAdded(k, Sbox(w.b1), Sbox(w.b2), Sbox(w.b3), Sbox(w.b0));
    XorAssociates(k, SubWord(RotWord(w)), Rcon(index / 8 - 1));
    NextWord(key, index);
    roundkey[index] := Xor(Xor(Xor(Xor(Xor(k, Lane0(Sbox(w.b1))), Lane1(Sbox(w.b2))), Lane2(Sbox(w.b3))), Lane3(Sbox(w.b0))),
                           Rcon(index / 8 - 1));
  }

  method MiddleWord(roundkey: array<Word>, index: nat, ghost key: seq<Word>)
    requires Keyed(roundkey, key, index + 4) && 8 <= index < 56 && index % 8 == 0
    modifies roundkey
    ensures Keyed(roundkey, key, index + 5)
  {
    hide Xor, Lane0, Lane1, Lane2, Lane3, KeyWord, Sbox, Rcon;
    var k, w := roundkey[index - 4], roundkey[index + 3];
    LanesAdded(k, Sbox(w.b0), Sbox(w.b1), Sbox(w.b2), Sbox(w.b3));
    NextWord(key, index + 4);
    roundkey[index + 4] := Xor(Xor(Xor(Xor(k, Lane0(Sbox(w.b0))), Lane1(Sbox(w.b1))), Lane2(Sbox(w.b2))), Lane3(Sbox(w.b3)));
  }

  /** A word that is the sum of two others. */
  method PlainWord(roundkey: array<Word>, i: nat, ghost key: seq<Word>)
    requires Keyed(roundkey, key, i) && 8 <= i < 60 && i % 4 != 0
    modifies roundkey
    ensures Keyed(roundkey, key, i + 1)
  {
    hide Xor, KeyWord;
    NextWord(key, i);
    roundkey[i] := Xor(roundkey[i - 8], roundkey[i - 1]);
  }

  /** Three more words, each from the one before it. */
  method NextThree(roundkey: array<Word>, i: nat, ghost key: seq<Word>)
    requires Keyed(roundkey, key, i) && 8 <= i <= 57 && i % 4 == 1
    modifies roundkey
    ensures Keyed(roundkey, key, i + 3)
  {
    hide Keyed;
    KeyedLength(roundkey, key, i);
    PlainWord(roundkey, i, key);
    PlainWord(roundkey, i + 1, key);
    PlainWord(roundkey, i + 2, key);
  }

  lemma KeyedLength(roundkey: array<Word>, key: seq<Word>, n: nat)
    requires Keyed(roundkey, key, n)
    ensures roundkey.Length == 60
  {
  }

  method ExpandKey(roundkey: array<Word>, key: seq<Word>)
    requires roundkey.Length == 60 && |key| == 8
    modifies roundkey
    ensures roundkey[..] == Expanded(key)
  {
    hide KeyWord;
    for i := 0 to 8
      invariant forall j :: 0 <= j < i ==> roundkey[j] == key[j]
    {
      roundkey[i] := key[i];
    }
    KeyStart(key);
    var index := 8;
    while index < 60
      invariant 8 <= index <= 60 && (index < 60 ==> index % 8 == 0) && Keyed(roundkey, key, index)
    {
      FirstWord(roundkey, index, key);
      NextThree(roundkey, index + 1, key);
      if index == 56 {
        index := 60;
        break;
      }
      MiddleWord(roundkey, index, key);
      NextThree(roundkey, index + 5, key);
      index := index + 8;
    }
  }

  lemma KeyStart(key: seq<Word>)
    requires |key| == 8
    ensures forall i :: 0 <= i < 8 ==> KeyWord(key, i) == key[i]
  {
  }

  // ---- The schedule of the equivalent inverse cipher ----

  /** The place that word k changes with. */
  function Mirror(k: nat): nat
    requires k < 60
  {
    56 - k / 4 * 4 + k % 4
  }

  lemma MirrorOf(i: nat, c: nat)
    requires i <= 56 && i % 4 == 0 && c < 4
    ensures Mirror(i + c) == 56 - i + c
  {
  }

  /** The round keys in reverse order. */
  method ReverseKeys(roundkey: array<Word>)
    requires roundkey.Length == 60
    modifies roundkey
    ensures Reversed(old(roundkey[..]), roundkey[..], 28)
  {
    hide Reversed, Swapped;
    ghost var was := roundkey[..];
    NoneReversed(was);
    var i, j := 0, 56;
    while i < j
      invariant 0 <= i <= 28 && i + j == 56 && i % 4 == 0 && Reversed(was, roundkey[..], i)
      decreases j
    {
      ghost var before := roundkey[..];
      SwapKeys(roundkey, i, j);
      MoreReversed(was, before, roundkey[..], i);
      i, j := i + 4, j - 4;
    }
  }

  /** The words outside the middle are in their new places. */
  predicate Reversed(was: Schedule, now: Schedule, i: nat) {
    forall k :: 0 <= k < 60 ==> Mirror(k) < 60 && now[k] == was[if k < i || 60 - i <= k then Mirror(k) else k]
  }

  /** The first n words of the round keys at i and j have changed places. */
  predicate Swapped(was: Schedule, now: Schedule, i: nat, j: nat, n: nat)
    requires n <= 4 && i + 4 <= j <= 56
  {
    forall k :: 0 <= k < 60 ==> now[k] == was[if i <= k < i + n then k - i + j else if j <= k < j + n then k - j + i else k]
  }

  lemma NoneReversed(was: Schedule)
    ensures Reversed(was, was, 0)
  {
  }

  lemma MoreReversed(was: Schedule, before: Schedule, now: Schedule, i: nat)
    requires i < 28 && i % 4 == 0 && Reversed(was, before, i) && Swapped(before, now, i, 56 - i, 4)
    ensures Reversed(was, now, i + 4)
  {
    hide Mirror, Reversed, Swapped;
    forall k | 0 <= k < 60
      ensures Mirror(k) < 60 && now[k] == was[if k < i + 4 || 60 - (i + 4) <= k then Mirror(k) else k]
    {
      SwappedAt(before, now, i, 56 - i, k);
      ReversedAt(was, before, i, k);
      if i <= k < i + 4 {
        MirrorOf(i, k - i);
        ReversedAt(was, before, i, 56 - i + (k - i));
      } else if 56 - i <= k < 60 - i {
        MirrorOf(56 - i, k - (56 - i));
        ReversedAt(was, before, i, i + (k - (56 - i)));
      }
    }
    ReversedAll(was, now, i + 4);
  }

  lemma ReversedAll(was: Schedule, now: Schedule, i: nat)
    requires forall k :: 0 <= k < 60 ==> Mirror(k) < 60 && now[k] == was[if k < i || 60 - i <= k then Mirror(k) else k]
    ensures Reversed(was, now, i)
  {
    hide Mirror;
  }

  lemma ReversedAt(was: Schedule, now: Schedule, i: nat, k: nat)
    requires Reversed(was, now, i) && k < 60
    ensures Mirror(k) < 60 && now[k] == was[if k < i || 60 - i <= k then Mirror(k) else k]
  {
    hide Mirror;
  }

  lemma SwappedAt(was: Schedule, now: Schedule, i: nat, j: nat, k: nat)
    requires i + 4 <= j <= 56 && k < 60 && Swapped(was, now, i, j, 4)
    ensures now[k] == was[if i <= k < i + 4 then k - i + j else if j <= k < j + 4 then k - j + i else k]
  {
  }

  method SwapKeys(roundkey: array<Word>, i: nat, j: nat)
    requires roundkey.Length == 60 && i + 4 <= j <= 56
    modifies roundkey
    ensures Swapped(old(roundkey[..]), roundkey[..], i, j, 4)
  {
    hide Swapped;
    ghost var was := roundkey[..];
    NoneSwapped(was, i, j);
    SwapWord(roundkey, i, j, 0, was);
    SwapWord(roundkey, i, j, 1, was);
    SwapWord(roundkey, i, j, 2, was);
    SwapWord(roundkey, i, j, 3, was);
  }

  lemma NoneSwapped(was: Schedule, i: nat, j: nat)
    requires i + 4 <= j <= 56
    ensures Swapped(was, was, i, j, 0)
  {
  }

  method SwapWord(roundkey: array<Word>, i: nat, j: nat, n: nat, ghost was: Schedule)
    requires roundkey.Length == 60 && i + 4 <= j <= 56 && n < 4 && Swapped(was, roundkey[..], i, j, n)
    modifies roundkey
    ensures Swapped(was, roundkey[..], i, j, n + 1)
  {
    var temp := roundkey[i + n];
    roundkey[i + n] := roundkey[j + n];
    roundkey[j + n] := temp;
  }

  lemma Mirrors(i: nat)
    requires i <= 56 && i % 4 == 0
    ensures Mirror(i) == 56 - i && Mirror(i + 1) == 57 - i && Mirror(i + 2) == 58 - i && Mirror(i + 3) == 59 - i
  {
    hide Mirror;
    MirrorOf(i, 0);
    MirrorOf(i, 1);
    MirrorOf(i, 2);
    MirrorOf(i, 3);
  }

  /** One word of a round key, through two tables: the second undoes the S-box of the first. */
  function InvertedWord(w: Word): Word {
    Xor(Xor(Xor(Unpacked(Td0(Sbox(w.b0))), Unpacked(Td1(Sbox(w.b1)))), Unpacked(Td2(Sbox(w.b2)))), Unpacked(Td3(Sbox(w.b3))))
  }

  /** The columns of InvMixColumns that the tables hold. */
  lemma ColumnsAdded(a: bv8, b: bv8, c: bv8, d: bv8)
    ensures Xor(Xor(Xor(Word(MulE(a), Mul9(a), MulD(a), MulB(a)), Word(MulB(b), MulE(b), Mul9(b), MulD(b))),
      Word(MulD(c), MulB(c), MulE(c), Mul9(c))), Word(Mul9(d), MulD(d), MulB(d), MulE(d))) == InvMixColumn(Word(a, b, c, d))
  {
    hide Add, MulE, MulB, MulD, Mul9;
    Turn(MulE(b), MulB(c), MulD(d), Mul9(a));
    Turn(MulE(c), MulB(d), MulD(a), Mul9(b));
    Turn(Mul9(b), MulE(c), MulB(d), MulD(a));
    Turn(MulB(a), MulD(b), Mul9(c), MulE(d));
  }

  lemma InvertedIs(w: Word)
    ensures InvertedWord(w) == InvMixColumn(w)
  {
    hide Xor, Sbox, InvSbox, Td0, Td1, Td2, Td3, MulE, MulB, MulD, Mul9, Packed, Unpacked, InvMixColumn;
    Td0Is(Sbox(w.b0));
    Td1Is(Sbox(w.b1));
    Td2Is(Sbox(w.b2));
    Td3Is(Sbox(w.b3));
    SboxInverse(w.b0);
    SboxInverse(w.b1);
    SboxInverse(w.b2);
    SboxInverse(w.b3);
    UnpackedPacked(Word(MulE(w.b0), Mul9(w.b0), MulD(w.b0), MulB(w.b0)));
    UnpackedPacked(Word(MulB(w.b1), MulE(w.b1), Mul9(w.b1), MulD(w.b1)));
    UnpackedPacked(Word(MulD(w.b2), MulB(w.b2), MulE(w.b2), Mul9(w.b2)));
    UnpackedPacked(Word(Mul9(w.b3), MulD(w.b3), MulB(w.b3), MulE(w.b3)));
    ColumnsAdded(w.b0, w.b1, w.b2, w.b3);
  }

  /** InvMixColumns on the keys of the thirteen inner rounds, as the equivalent inverse cipher wants them. */
  method TransformKeys(roundkey: array<Word>)
    requires roundkey.Length == 60
    modifies roundkey
    ensures forall k :: 0 <= k < 60 ==> roundkey[k] == if 4 <= k < 56 then InvMixColumn(old(roundkey[k])) else old(roundkey[k])
  {
    hide InvMixColumn, InvertedWord;
    var index := 4;
    while index < 56
      invariant 4 <= index <= 56 && index % 4 == 0
      invariant forall k :: 0 <= k < 60 ==> roundkey[k] == if 4 <= k < index then InvMixColumn(old(roundkey[k])) else old(roundkey[k])
    {
      InvertedIs(roundkey[index]);
      InvertedIs(roundkey[index + 1]);
      InvertedIs(roundkey[index + 2]);
      InvertedIs(roundkey[index + 3]);
      roundkey[index] := InvertedWord(roundkey[index]);
      roundkey[index + 1] := InvertedWord(roundkey[index + 1]);
      roundkey[index + 2] := InvertedWord(roundkey[index + 2]);
      roundkey[index + 3] := InvertedWord(roundkey[index + 3]);
      index := index + 4;
    }
  }

  /** AES_DecryptInit, after key expansion. */
  method InvertKeys(roundkey: array<Word>)
    requires roundkey.Length == 60
    modifies roundkey
    ensures Inverted(old(roundkey[..]), roundkey[..])
  {
    hide InvMixColumn, Mirror;
    ghost var k := roundkey[..];
    ReverseKeys(roundkey);
    ghost var reversed := roundkey[..];
    TransformKeys(roundkey);
    RoundsInverted(k, reversed, roundkey[..]);
  }

  lemma RoundsInverted(k: Schedule, reversed: Schedule, d: Schedule)
    requires Reversed(k, reversed, 28)
    requires forall i :: 0 <= i < 60 ==> d[i] == if 4 <= i < 56 then InvMixColumn(reversed[i]) else reversed[i]
    ensures Inverted(k, d)
  {
    hide InvMixColumn, Mirror;
    forall r | 0 <= r <= 14
      ensures RoundKey(d, r) == if 1 <= r <= 13 then InvMixColumns(RoundKey(k, 14 - r)) else RoundKey(k, 14 - r)
    {
      Mirrors(4 * r);
      if r == 7 { Mirrors(28); }
    }
  }
}
