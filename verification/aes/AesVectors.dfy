/** Numbers that FIPS 197 and NIST SP 800-38A give for AES-256. */
module AesVectors {
  import opened AesSbox
  import opened AesColumns
  import opened AesState
  import opened AesKeys
  import opened AesContext

  /** Section 5.2 of FIPS 197: the round constants are the powers of x. */
  lemma RconIs(n: nat)
    requires n < 9
    ensures Rcon(0) == Word(1, 0, 0, 0) && Rcon(n + 1) == Word(Xtime(Rcon(n).b0), 0, 0, 0)
  {
    assert Rcon(0).b0 == 0x01 && Rcon(1).b0 == Xtime(0x01) && Rcon(2).b0 == Xtime(0x02) && Rcon(3).b0 == Xtime(0x04);
    assert Rcon(4).b0 == Xtime(0x08) && Rcon(5).b0 == Xtime(0x10) && Rcon(6).b0 == Xtime(0x20) && Rcon(7).b0 == Xtime(0x40);
    assert Rcon(8).b0 == Xtime(0x80) && Rcon(9).b0 == Xtime(0x1b);
  }

  /** Four words of the expanded key, from those eight places back and the word before. */
  function NextFour(i: nat, far: State, near: Word): State
    requires 8 <= i < 60
  {
    var c0 := Xor(far.c0, Temp(i, near));
    var c1 := Xor(far.c1, c0);
    var c2 := Xor(far.c2, c1);
    State(c0, c1, c2, Xor(far.c3, c2))
  }

  lemma NextRoundKey(key: seq<Word>, r: nat)
    requires |key| == 8 && 2 <= r <= 14
    ensures RoundKey(Expanded(key), r) == NextFour(4 * r, RoundKey(Expanded(key), r - 2), RoundKey(Expanded(key), r - 1).c3)
  {
    hide Xor, SubWord, RotWord, Rcon, KeyWord;
    NextWord(key, 4 * r);
    NextWord(key, 4 * r + 1);
    NextWord(key, 4 * r + 2);
    NextWord(key, 4 * r + 3);
  }

  /** The round keys for the key of section A.3 of FIPS 197. */
  function A3(r: nat): State
    requires r <= 14
  {
    match r
    case 0 => State(Word(0x60, 0x3d, 0xeb, 0x10), Word(0x15, 0xca, 0x71, 0xbe), Word(0x2b, 0x73, 0xae, 0xf0), Word(0x85, 0x7d, 0x77, 0x81))
    case 1 => State(Word(0x1f, 0x35, 0x2c, 0x07), Word(0x3b, 0x61, 0x08, 0xd7), Word(0x2d, 0x98, 0x10, 0xa3), Word(0x09, 0x14, 0xdf, 0xf4))
    case 2 => State(Word(0x9b, 0xa3, 0x54, 0x11), Word(0x8e, 0x69, 0x25, 0xaf), Word(0xa5, 0x1a, 0x8b, 0x5f), Word(0x20, 0x67, 0xfc, 0xde))
    case 3 => State(Word(0xa8, 0xb0, 0x9c, 0x1a), Word(0x93, 0xd1, 0x94, 0xcd), Word(0xbe, 0x49, 0x84, 0x6e), Word(0xb7, 0x5d, 0x5b, 0x9a))
    case 4 => State(Word(0xd5, 0x9a, 0xec, 0xb8), Word(0x5b, 0xf3, 0xc9, 0x17), Word(0xfe, 0xe9, 0x42, 0x48), Word(0xde, 0x8e, 0xbe, 0x96))
    case 5 => State(Word(0xb5, 0xa9, 0x32, 0x8a), Word(0x26, 0x78, 0xa6, 0x47), Word(0x98, 0x31, 0x22, 0x29), Word(0x2f, 0x6c, 0x79, 0xb3))
    case 6 => State(Word(0x81, 0x2c, 0x81, 0xad), Word(0xda, 0xdf, 0x48, 0xba), Word(0x24, 0x36, 0x0a, 0xf2), Word(0xfa, 0xb8, 0xb4, 0x64))
    case 7 => State(Word(0x98, 0xc5, 0xbf, 0xc9), Word(0xbe, 0xbd, 0x19, 0x8e), Word(0x26, 0x8c, 0x3b, 0xa7), Word(0x09, 0xe0, 0x42, 0x14))
    case 8 => State(Word(0x68, 0x00, 0x7b, 0xac), Word(0xb2, 0xdf, 0x33, 0x16), Word(0x96, 0xe9, 0x39, 0xe4), Word(0x6c, 0x51, 0x8d, 0x80))
    case 9 => State(Word(0xc8, 0x14, 0xe2, 0x04), Word(0x76, 0xa9, 0xfb, 0x8a), Word(0x50, 0x25, 0xc0, 0x2d), Word(0x59, 0xc5, 0x82, 0x39))
    case 10 => State(Word(0xde, 0x13, 0x69, 0x67), Word(0x6c, 0xcc, 0x5a, 0x71), Word(0xfa, 0x25, 0x63, 0x95), Word(0x96, 0x74, 0xee, 0x15))
    case 11 => State(Word(0x58, 0x86, 0xca, 0x5d), Word(0x2e, 0x2f, 0x31, 0xd7), Word(0x7e, 0x0a, 0xf1, 0xfa), Word(0x27, 0xcf, 0x73, 0xc3))
    case 12 => State(Word(0x74, 0x9c, 0x47, 0xab), Word(0x18, 0x50, 0x1d, 0xda), Word(0xe2, 0x75, 0x7e, 0x4f), Word(0x74, 0x01, 0x90, 0x5a))
    case 13 => State(Word(0xca, 0xfa, 0xaa, 0xe3), Word(0xe4, 0xd5, 0x9b, 0x34), Word(0x9a, 0xdf, 0x6a, 0xce), Word(0xbd, 0x10, 0x19, 0x0d))
    case _ => State(Word(0xfe, 0x48, 0x90, 0xd1), Word(0xe6, 0x18, 0x8d, 0x0b), Word(0x04, 0x6d, 0xf3, 0x44), Word(0x70, 0x6c, 0x63, 0x1e))
  }

  /** What is added to the words before, for the word that starts a round key. */
  lemma NextIs(r: nat, near: Word, temp: Word)
    requires 2 <= r <= 14 && near == A3(r - 1).c3 && temp == Temp(4 * r, near)
    requires Xor(A3(r - 2).c0, temp) == A3(r).c0 && Xor(A3(r - 2).c1, A3(r).c0) == A3(r).c1
    requires Xor(A3(r - 2).c2, A3(r).c1) == A3(r).c2 && Xor(A3(r - 2).c3, A3(r).c2) == A3(r).c3
    ensures NextFour(4 * r, A3(r - 2), A3(r - 1).c3) == A3(r)
  {
    hide Xor, Temp, A3;
  }

  lemma Temp8()
    ensures SubWord(RotWord(Word(0x09, 0x14, 0xdf, 0xf4))) == Word(0xfa, 0x9e, 0xbf, 0x01)
  {
  }

  lemma A3Key2()
    ensures NextFour(8, A3(0), A3(1).c3) == A3(2)
  {
    hide SubWord, RotWord, Sbox;
    Temp8();
    RconIs(0);
    NextIs(2, Word(0x09, 0x14, 0xdf, 0xf4), Word(0xfb, 0x9e, 0xbf, 0x01));
  }

  lemma A3Key3()
    ensures NextFour(12, A3(1), A3(2).c3) == A3(3)
  {
    NextIs(3, Word(0x20, 0x67, 0xfc, 0xde), Word(0xb7, 0x85, 0xb0, 0x1d));
  }

  lemma Temp16()
    ensures SubWord(RotWord(Word(0xb7, 0x5d, 0x5b, 0x9a))) == Word(0x4c, 0x39, 0xb8, 0xa9)
  {
  }

  lemma A3Key4()
    ensures NextFour(16, A3(2), A3(3).c3) == A3(4)
  {
    hide SubWord, RotWord, Sbox;
    Temp16();
    RconIs(0);
    NextIs(4, Word(0xb7, 0x5d, 0x5b, 0x9a), Word(0x4e, 0x39, 0xb8, 0xa9));
  }

  lemma A3Key5()
    ensures NextFour(20, A3(3), A3(4).c3) == A3(5)
  {
    NextIs(5, Word(0xde, 0x8e, 0xbe, 0x96), Word(0x1d, 0x19, 0xae, 0x90));
  }

  lemma Temp24()
    ensures SubWord(RotWord(Word(0x2f, 0x6c, 0x79, 0xb3))) == Word(0x50, 0xb6, 0x6d, 0x15)
  {
  }

  lemma A3Key6()
    ensures NextFour(24, A3(4), A3(5).c3) == A3(6)
  {
    hide SubWord, RotWord, Sbox;
    Temp24();
    RconIs(1);
    NextIs(6, Word(0x2f, 0x6c, 0x79, 0xb3), Word(0x54, 0xb6, 0x6d, 0x15));
  }

  lemma A3Key7()
    ensures NextFour(28, A3(5), A3(6).c3) == A3(7)
  {
    NextIs(7, Word(0xfa, 0xb8, 0xb4, 0x64), Word(0x2d, 0x6c, 0x8d, 0x43));
  }

  lemma Temp32()
    ensures SubWord(RotWord(Word(0x09, 0xe0, 0x42, 0x14))) == Word(0xe1, 0x2c, 0xfa, 0x01)
  {
  }

  lemma A3Key8()
    ensures NextFour(32, A3(6), A3(7).c3) == A3(8)
  {
    hide SubWord, RotWord, Sbox;
    Temp32();
    RconIs(2);
    NextIs(8, Word(0x09, 0xe0, 0x42, 0x14), Word(0xe9, 0x2c, 0xfa, 0x01));
  }

  lemma A3Key9()
    ensures NextFour(36, A3(7), A3(8).c3) == A3(9)
  {
    NextIs(9, Word(0x6c, 0x51, 0x8d, 0x80), Word(0x50, 0xd1, 0x5d, 0xcd));
  }

  lemma Temp40()
    ensures SubWord(RotWord(Word(0x59, 0xc5, 0x82, 0x39))) == Word(0xa6, 0x13, 0x12, 0xcb)
  {
  }

  lemma A3Key10()
    ensures NextFour(40, A3(8), A3(9).c3) == A3(10)
  {
    hide SubWord, RotWord, Sbox;
    Temp40();
    RconIs(3);
    NextIs(10, Word(0x59, 0xc5, 0x82, 0x39), Word(0xb6, 0x13, 0x12, 0xcb));
  }

  lemma A3Key11()
    ensures NextFour(44, A3(9), A3(10).c3) == A3(11)
  {
    NextIs(11, Word(0x96, 0x74, 0xee, 0x15), Word(0x90, 0x92, 0x28, 0x59));
  }

  lemma Temp48()
    ensures SubWord(RotWord(Word(0x27, 0xcf, 0x73, 0xc3))) == Word(0x8a, 0x8f, 0x2e, 0xcc)
  {
  }

  lemma A3Key12()
    ensures NextFour(48, A3(10), A3(11).c3) == A3(12)
  {
    hide SubWord, RotWord, Sbox;
    Temp48();
    RconIs(4);
    NextIs(12, Word(0x27, 0xcf, 0x73, 0xc3), Word(0xaa, 0x8f, 0x2e, 0xcc));
  }

  lemma A3Key13()
    ensures NextFour(52, A3(11), A3(12).c3) == A3(13)
  {
    NextIs(13, Word(0x74, 0x01, 0x90, 0x5a), Word(0x92, 0x7c, 0x60, 0xbe));
  }

  lemma Temp56()
    ensures SubWord(RotWord(Word(0xbd, 0x10, 0x19, 0x0d))) == Word(0xca, 0xd4, 0xd7, 0x7a)
  {
  }

  lemma A3Key14()
    ensures NextFour(56, A3(12), A3(13).c3) == A3(14)
  {
    hide SubWord, RotWord, Sbox;
    Temp56();
    RconIs(5);
    NextIs(14, Word(0xbd, 0x10, 0x19, 0x0d), Word(0x8a, 0xd4, 0xd7, 0x7a));
  }

  lemma NextA3(r: nat)
    requires 2 <= r <= 14
    ensures NextFour(4 * r, A3(r - 2), A3(r - 1).c3) == A3(r)
  {
    hide NextFour, A3;
    if r <= 8 {
      A3Key2();
      A3Key3();
      A3Key4();
      A3Key5();
      A3Key6();
      A3Key7();
      A3Key8();
    } else {
      A3Key9();
      A3Key10();
      A3Key11();
      A3Key12();
      A3Key13();
      A3Key14();
    }
  }

  /** Section A.3 of FIPS 197: the whole expanded key. */
  lemma {:induction false} Schedule(key: seq<Word>, r: nat)
    requires |key| == 8 && r <= 14 && RoundKey(Expanded(key), 0) == A3(0) && RoundKey(Expanded(key), 1) == A3(1)
    ensures RoundKey(Expanded(key), r) == A3(r)
  {
    hide A3, NextFour, Expanded, RoundKey;
    if r >= 2 {
      Schedule(key, r - 2);
      Schedule(key, r - 1);
      NextRoundKey(key, r);
      NextA3(r);
    }
  }

  /** The states of section F.2.5 of SP 800-38A, first block: after round r. */
  function F25(r: nat): State
    requires r <= 14
  {
    match r
    case 0 => State(Word(0x0b, 0xfd, 0x57, 0xf1), Word(0x3f, 0x8f, 0xe8, 0x2f), Word(0xca, 0x47, 0xda, 0xea), Word(0xfa, 0xe3, 0x6e, 0xa4))
    case 1 => State(Word(0xc2, 0x48, 0x01, 0xcc), Word(0x14, 0x54, 0x00, 0x2e), Word(0xb8, 0x36, 0xfc, 0x5f), Word(0xb3, 0xa0, 0x19, 0x59))
    case 2 => State(Word(0xca, 0xc6, 0x6c, 0x63), Word(0xf1, 0xb5, 0xb4, 0xfd), Word(0x0b, 0x18, 0xac, 0x15), Word(0xa0, 0xc4, 0x4f, 0xdd))
    case 3 => State(Word(0x74, 0x1c, 0x5c, 0x5b), Word(0x59, 0x5d, 0x9d, 0xf1), Word(0xc8, 0xfe, 0xef, 0xf7), Word(0x7f, 0x1b, 0xe5, 0x2a))
    case 4 => State(Word(0x04, 0x0f, 0xa3, 0x57), Word(0xe0, 0x1c, 0x5b, 0x41), Word(0x34, 0x3b, 0x69, 0xd7), Word(0xe8, 0xf5, 0xf4, 0xe9))
    case 5 => State(Word(0x12, 0x76, 0x97, 0xde), Word(0x26, 0xc7, 0x2d, 0x94), Word(0x10, 0x63, 0x56, 0xf0), Word(0xaf, 0x5e, 0xf4, 0x56))
    case 6 => State(Word(0x59, 0x0b, 0x3f, 0xe3), Word(0x9b, 0x02, 0x06, 0xc6), Word(0xe9, 0xed, 0xf5, 0x23), Word(0x14, 0x4e, 0xd1, 0x0c))
    case 7 => State(Word(0x94, 0x2f, 0xcd, 0xf9), Word(0x46, 0x50, 0x17, 0xfb), Word(0xaa, 0xe7, 0x27, 0xac), Word(0xd2, 0xdb, 0x27, 0x09))
    case 8 => State(Word(0x14, 0xca, 0x8a, 0x57), Word(0xf4, 0x60, 0xce, 0x89), Word(0xb7, 0xff, 0x5c, 0x11), Word(0x43, 0x54, 0x7e, 0x98))
    case 9 => State(Word(0x40, 0xcd, 0x96, 0x07), Word(0x81, 0x6f, 0x42, 0x03), Word(0xa0, 0xe9, 0x47, 0xc6), Word(0xf8, 0x33, 0x7c, 0xf7))
    case 10 => State(Word(0xe7, 0xc2, 0x2b, 0xa4), Word(0x83, 0x09, 0x3c, 0xfa), Word(0x94, 0x88, 0xf6, 0x0b), Word(0x50, 0x94, 0x8d, 0x34))
    case 11 => State(Word(0x32, 0xce, 0xf3, 0x89), Word(0xae, 0xfe, 0x78, 0xf3), Word(0x80, 0x49, 0x7f, 0x15), Word(0x2e, 0xdb, 0xb5, 0xae))
    case 12 => State(Word(0xd2, 0x5b, 0x57, 0x74), Word(0xf4, 0x01, 0x81, 0x56), Word(0xb3, 0xcb, 0x07, 0xad), Word(0x75, 0xbb, 0xa2, 0x8c))
    case 13 => State(Word(0x9e, 0x87, 0x5e, 0x56), Word(0x08, 0x88, 0xe2, 0xf4), Word(0x8f, 0x21, 0x93, 0xb1), Word(0x4e, 0x7e, 0x01, 0xb5))
    case _ => State(Word(0xf5, 0x8c, 0x4c, 0x04), Word(0xd6, 0xe5, 0xf1, 0xba), Word(0x77, 0x9e, 0xab, 0xfb), Word(0x5f, 0x7b, 0xfb, 0xd6))
  }

  lemma Round1()
    ensures Round(State(Word(0x0b, 0xfd, 0x57, 0xf1), Word(0x3f, 0x8f, 0xe8, 0x2f), Word(0xca, 0x47, 0xda, 0xea), Word(0xfa, 0xe3, 0x6e, 0xa4)),
      State(Word(0x1f, 0x35, 0x2c, 0x07), Word(0x3b, 0x61, 0x08, 0xd7), Word(0x2d, 0x98, 0x10, 0xa3), Word(0x09, 0x14, 0xdf, 0xf4)))
      == State(Word(0xc2, 0x48, 0x01, 0xcc), Word(0x14, 0x54, 0x00, 0x2e), Word(0xb8, 0x36, 0xfc, 0x5f), Word(0xb3, 0xa0, 0x19, 0x59))
  {
  }

  lemma Round2()
    ensures Round(State(Word(0xc2, 0x48, 0x01, 0xcc), Word(0x14, 0x54, 0x00, 0x2e), Word(0xb8, 0x36, 0xfc, 0x5f), Word(0xb3, 0xa0, 0x19, 0x59)),
      State(Word(0x9b, 0xa3, 0x54, 0x11), Word(0x8e, 0x69, 0x25, 0xaf), Word(0xa5, 0x1a, 0x8b, 0x5f), Word(0x20, 0x67, 0xfc, 0xde)))
      == State(Word(0xca, 0xc6, 0x6c, 0x63), Word(0xf1, 0xb5, 0xb4, 0xfd), Word(0x0b, 0x18, 0xac, 0x15), Word(0xa0, 0xc4, 0x4f, 0xdd))
  {
  }

  lemma Round3()
    ensures Round(State(Word(0xca, 0xc6, 0x6c, 0x63), Word(0xf1, 0xb5, 0xb4, 0xfd), Word(0x0b, 0x18, 0xac, 0x15), Word(0xa0, 0xc4, 0x4f, 0xdd)),
      State(Word(0xa8, 0xb0, 0x9c, 0x1a), Word(0x93, 0xd1, 0x94, 0xcd), Word(0xbe, 0x49, 0x84, 0x6e), Word(0xb7, 0x5d, 0x5b, 0x9a)))
      == State(Word(0x74, 0x1c, 0x5c, 0x5b), Word(0x59, 0x5d, 0x9d, 0xf1), Word(0xc8, 0xfe, 0xef, 0xf7), Word(0x7f, 0x1b, 0xe5, 0x2a))
  {
  }

  lemma Round4()
    ensures Round(State(Word(0x74, 0x1c, 0x5c, 0x5b), Word(0x59, 0x5d, 0x9d, 0xf1), Word(0xc8, 0xfe, 0xef, 0xf7), Word(0x7f, 0x1b, 0xe5, 0x2a)),
      State(Word(0xd5, 0x9a, 0xec, 0xb8), Word(0x5b, 0xf3, 0xc9, 0x17), Word(0xfe, 0xe9, 0x42, 0x48), Word(0xde, 0x8e, 0xbe, 0x96)))
      == State(Word(0x04, 0x0f, 0xa3, 0x57), Word(0xe0, 0x1c, 0x5b, 0x41), Word(0x34, 0x3b, 0x69, 0xd7), Word(0xe8, 0xf5, 0xf4, 0xe9))
  {
  }

  lemma Round5()
    ensures Round(State(Word(0x04, 0x0f, 0xa3, 0x57), Word(0xe0, 0x1c, 0x5b, 0x41), Word(0x34, 0x3b, 0x69, 0xd7), Word(0xe8, 0xf5, 0xf4, 0xe9)),
      State(Word(0xb5, 0xa9, 0x32, 0x8a), Word(0x26, 0x78, 0xa6, 0x47), Word(0x98, 0x31, 0x22, 0x29), Word(0x2f, 0x6c, 0x79, 0xb3)))
      == State(Word(0x12, 0x76, 0x97, 0xde), Word(0x26, 0xc7, 0x2d, 0x94), Word(0x10, 0x63, 0x56, 0xf0), Word(0xaf, 0x5e, 0xf4, 0x56))
  {
  }

  lemma Round6()
    ensures Round(State(Word(0x12, 0x76, 0x97, 0xde), Word(0x26, 0xc7, 0x2d, 0x94), Word(0x10, 0x63, 0x56, 0xf0), Word(0xaf, 0x5e, 0xf4, 0x56)),
      State(Word(0x81, 0x2c, 0x81, 0xad), Word(0xda, 0xdf, 0x48, 0xba), Word(0x24, 0x36, 0x0a, 0xf2), Word(0xfa, 0xb8, 0xb4, 0x64)))
      == State(Word(0x59, 0x0b, 0x3f, 0xe3), Word(0x9b, 0x02, 0x06, 0xc6), Word(0xe9, 0xed, 0xf5, 0x23), Word(0x14, 0x4e, 0xd1, 0x0c))
  {
  }

  lemma Round7()
    ensures Round(State(Word(0x59, 0x0b, 0x3f, 0xe3), Word(0x9b, 0x02, 0x06, 0xc6), Word(0xe9, 0xed, 0xf5, 0x23), Word(0x14, 0x4e, 0xd1, 0x0c)),
      State(Word(0x98, 0xc5, 0xbf, 0xc9), Word(0xbe, 0xbd, 0x19, 0x8e), Word(0x26, 0x8c, 0x3b, 0xa7), Word(0x09, 0xe0, 0x42, 0x14)))
      == State(Word(0x94, 0x2f, 0xcd, 0xf9), Word(0x46, 0x50, 0x17, 0xfb), Word(0xaa, 0xe7, 0x27, 0xac), Word(0xd2, 0xdb, 0x27, 0x09))
  {
  }

  lemma Round8()
    ensures Round(State(Word(0x94, 0x2f, 0xcd, 0xf9), Word(0x46, 0x50, 0x17, 0xfb), Word(0xaa, 0xe7, 0x27, 0xac), Word(0xd2, 0xdb, 0x27, 0x09)),
      State(Word(0x68, 0x00, 0x7b, 0xac), Word(0xb2, 0xdf, 0x33, 0x16), Word(0x96, 0xe9, 0x39, 0xe4), Word(0x6c, 0x51, 0x8d, 0x80)))
      == State(Word(0x14, 0xca, 0x8a, 0x57), Word(0xf4, 0x60, 0xce, 0x89), Word(0xb7, 0xff, 0x5c, 0x11), Word(0x43, 0x54, 0x7e, 0x98))
  {
  }

  lemma Round9()
    ensures Round(State(Word(0x14, 0xca, 0x8a, 0x57), Word(0xf4, 0x60, 0xce, 0x89), Word(0xb7, 0xff, 0x5c, 0x11), Word(0x43, 0x54, 0x7e, 0x98)),
      State(Word(0xc8, 0x14, 0xe2, 0x04), Word(0x76, 0xa9, 0xfb, 0x8a), Word(0x50, 0x25, 0xc0, 0x2d), Word(0x59, 0xc5, 0x82, 0x39)))
      == State(Word(0x40, 0xcd, 0x96, 0x07), Word(0x81, 0x6f, 0x42, 0x03), Word(0xa0, 0xe9, 0x47, 0xc6), Word(0xf8, 0x33, 0x7c, 0xf7))
  {
  }

  lemma Round10()
    ensures Round(State(Word(0x40, 0xcd, 0x96, 0x07), Word(0x81, 0x6f, 0x42, 0x03), Word(0xa0, 0xe9, 0x47, 0xc6), Word(0xf8, 0x33, 0x7c, 0xf7)),
      State(Word(0xde, 0x13, 0x69, 0x67), Word(0x6c, 0xcc, 0x5a, 0x71), Word(0xfa, 0x25, 0x63, 0x95), Word(0x96, 0x74, 0xee, 0x15)))
      == State(Word(0xe7, 0xc2, 0x2b, 0xa4), Word(0x83, 0x09, 0x3c, 0xfa), Word(0x94, 0x88, 0xf6, 0x0b), Word(0x50, 0x94, 0x8d, 0x34))
  {
  }

  lemma Round11()
    ensures Round(State(Word(0xe7, 0xc2, 0x2b, 0xa4), Word(0x83, 0x09, 0x3c, 0xfa), Word(0x94, 0x88, 0xf6, 0x0b), Word(0x50, 0x94, 0x8d, 0x34)),
      State(Word(0x58, 0x86, 0xca, 0x5d), Word(0x2e, 0x2f, 0x31, 0xd7), Word(0x7e, 0x0a, 0xf1, 0xfa), Word(0x27, 0xcf, 0x73, 0xc3)))
      == State(Word(0x32, 0xce, 0xf3, 0x89), Word(0xae, 0xfe, 0x78, 0xf3), Word(0x80, 0x49, 0x7f, 0x15), Word(0x2e, 0xdb, 0xb5, 0xae))
  {
  }

  lemma Round12()
    ensures Round(State(Word(0x32, 0xce, 0xf3, 0x89), Word(0xae, 0xfe, 0x78, 0xf3), Word(0x80, 0x49, 0x7f, 0x15), Word(0x2e, 0xdb, 0xb5, 0xae)),
      State(Word(0x74, 0x9c, 0x47, 0xab), Word(0x18, 0x50, 0x1d, 0xda), Word(0xe2, 0x75, 0x7e, 0x4f), Word(0x74, 0x01, 0x90, 0x5a)))
      == State(Word(0xd2, 0x5b, 0x57, 0x74), Word(0xf4, 0x01, 0x81, 0x56), Word(0xb3, 0xcb, 0x07, 0xad), Word(0x75, 0xbb, 0xa2, 0x8c))
  {
  }

  lemma Round13()
    ensures Round(State(Word(0xd2, 0x5b, 0x57, 0x74), Word(0xf4, 0x01, 0x81, 0x56), Word(0xb3, 0xcb, 0x07, 0xad), Word(0x75, 0xbb, 0xa2, 0x8c)),
      State(Word(0xca, 0xfa, 0xaa, 0xe3), Word(0xe4, 0xd5, 0x9b, 0x34), Word(0x9a, 0xdf, 0x6a, 0xce), Word(0xbd, 0x10, 0x19, 0x0d)))
      == State(Word(0x9e, 0x87, 0x5e, 0x56), Word(0x08, 0x88, 0xe2, 0xf4), Word(0x8f, 0x21, 0x93, 0xb1), Word(0x4e, 0x7e, 0x01, 0xb5))
  {
  }

  lemma NextF25(r: nat)
    requires 1 <= r <= 13
    ensures Round(F25(r - 1), A3(r)) == F25(r)
  {
    hide Round;
    match r
    case 1 => Round1();
    case 2 => Round2();
    case 3 => Round3();
    case 4 => Round4();
    case 5 => Round5();
    case 6 => Round6();
    case 7 => Round7();
    case 8 => Round8();
    case 9 => Round9();
    case 10 => Round10();
    case 11 => Round11();
    case 12 => Round12();
    case _ => Round13();
  }

  lemma {:induction false} AllRounds(k: Schedule, s: State, r: nat)
    requires r <= 13 && AddRoundKey(s, A3(0)) == F25(0) && forall n :: 0 <= n <= 14 ==> RoundKey(k, n) == A3(n)
    ensures Rounds(k, s, r) == F25(r)
  {
    hide AddRoundKey, Round, RoundKey, A3, F25;
    if r > 0 {
      AllRounds(k, s, r - 1);
      NextF25(r);
    }
  }

  /** The last round. */
  lemma LastF25()
    ensures LastRound(F25(13), A3(14)) == F25(14)
  {
    LastIs();
    hide LastRound;
  }

  lemma LastIs()
    ensures LastRound(State(Word(0x9e, 0x87, 0x5e, 0x56), Word(0x08, 0x88, 0xe2, 0xf4), Word(0x8f, 0x21, 0x93, 0xb1), Word(0x4e, 0x7e, 0x01, 0xb5)),
      State(Word(0xfe, 0x48, 0x90, 0xd1), Word(0xe6, 0x18, 0x8d, 0x0b), Word(0x04, 0x6d, 0xf3, 0x44), Word(0x70, 0x6c, 0x63, 0x1e)))
      == State(Word(0xf5, 0x8c, 0x4c, 0x04), Word(0xd6, 0xe5, 0xf1, 0xba), Word(0x77, 0x9e, 0xab, 0xfb), Word(0x5f, 0x7b, 0xfb, 0xd6))
  {
  }

  /** The key of section A.3 and of section F.2.5. */
  predicate IsKey(key: seq<Word>) {
    && |key| == 8
    && State(key[0], key[1], key[2], key[3]) ==
         State(Word(0x60, 0x3d, 0xeb, 0x10), Word(0x15, 0xca, 0x71, 0xbe), Word(0x2b, 0x73, 0xae, 0xf0), Word(0x85, 0x7d, 0x77, 0x81))
    && State(key[4], key[5], key[6], key[7]) ==
         State(Word(0x1f, 0x35, 0x2c, 0x07), Word(0x3b, 0x61, 0x08, 0xd7), Word(0x2d, 0x98, 0x10, 0xa3), Word(0x09, 0x14, 0xdf, 0xf4))
  }

  lemma KeyIs(key: seq<Word>)
    requires IsKey(key)
    ensures RoundKey(Expanded(key), 0) == A3(0) && RoundKey(Expanded(key), 1) == A3(1)
  {
    KeyStart(key);
    hide KeyWord;
    var k := Expanded(key);
    assert RoundKey(k, 0) == State(key[0], key[1], key[2], key[3]);
    assert RoundKey(k, 1) == State(key[4], key[5], key[6], key[7]);
  }

  /** The plaintext and the initialization vector, and the first round key. */
  lemma InputIs(s: State)
    requires s == AddRoundKey(
      State(Word(0x6b, 0xc1, 0xbe, 0xe2), Word(0x2e, 0x40, 0x9f, 0x96), Word(0xe9, 0x3d, 0x7e, 0x11), Word(0x73, 0x93, 0x17, 0x2a)),
      State(Word(0x00, 0x01, 0x02, 0x03), Word(0x04, 0x05, 0x06, 0x07), Word(0x08, 0x09, 0x0a, 0x0b), Word(0x0c, 0x0d, 0x0e, 0x0f)))
    ensures AddRoundKey(s, A3(0)) == F25(0)
  {
    assert s == State(Word(0x6b, 0xc0, 0xbc, 0xe1), Word(0x2a, 0x45, 0x99, 0x91), Word(0xe1, 0x34, 0x74, 0x1a), Word(0x7f, 0x9e, 0x19, 0x25));
    assert A3(0) == State(Word(0x60, 0x3d, 0xeb, 0x10), Word(0x15, 0xca, 0x71, 0xbe), Word(0x2b, 0x73, 0xae, 0xf0), Word(0x85, 0x7d, 0x77, 0x81));
    assert F25(0) == State(Word(0x0b, 0xfd, 0x57, 0xf1), Word(0x3f, 0x8f, 0xe8, 0x2f), Word(0xca, 0x47, 0xda, 0xea), Word(0xfa, 0xe3, 0x6e, 0xa4));
  }

  /** Section F.2.5 of SP 800-38A: the first block, combined with the initialization vector,
      becomes the first block of the ciphertext. */
  lemma F25Is(key: seq<Word>, s: State)
    requires |key| == 8 && IsKey(key) && s == AddRoundKey(
      State(Word(0x6b, 0xc1, 0xbe, 0xe2), Word(0x2e, 0x40, 0x9f, 0x96), Word(0xe9, 0x3d, 0x7e, 0x11), Word(0x73, 0x93, 0x17, 0x2a)),
      State(Word(0x00, 0x01, 0x02, 0x03), Word(0x04, 0x05, 0x06, 0x07), Word(0x08, 0x09, 0x0a, 0x0b), Word(0x0c, 0x0d, 0x0e, 0x0f)))
    ensures Cipher(Expanded(key), s)
      == State(Word(0xf5, 0x8c, 0x4c, 0x04), Word(0xd6, 0xe5, 0xf1, 0xba), Word(0x77, 0x9e, 0xab, 0xfb), Word(0x5f, 0x7b, 0xfb, 0xd6))
  {
    hide AddRoundKey, RoundKey, Expanded, Rounds, IsKey, A3, F25, LastRound;
    KeyIs(key);
    InputIs(s);
    forall n | 0 <= n <= 14 ensures RoundKey(Expanded(key), n) == A3(n) { Schedule(key, n); }
    AllRounds(Expanded(key), s, 13);
    LastF25();
    Ciphertext();
  }

  lemma Ciphertext()
    ensures F25(14) == State(Word(0xf5, 0x8c, 0x4c, 0x04), Word(0xd6, 0xe5, 0xf1, 0xba), Word(0x77, 0x9e, 0xab, 0xfb), Word(0x5f, 0x7b, 0xfb, 0xd6))
  {
  }

  lemma KeyBytes(key: Bytes32)
    requires key ==
      [0x60, 0x3d, 0xeb, 0x10, 0x15, 0xca, 0x71, 0xbe, 0x2b, 0x73, 0xae, 0xf0, 0x85, 0x7d, 0x77, 0x81] +
      [0x1f, 0x35, 0x2c, 0x07, 0x3b, 0x61, 0x08, 0xd7, 0x2d, 0x98, 0x10, 0xa3, 0x09, 0x14, 0xdf, 0xf4]
    ensures IsKey(KeyWords(key))
  {
  }

  lemma BlockBytes(iv: Bytes16, block: Bytes16)
    requires iv == [0x00, 0x01, 0x02, 0x03, 0x04, 0x05, 0x06, 0x07, 0x08, 0x09, 0x0a, 0x0b, 0x0c, 0x0d, 0x0e, 0x0f]
    requires block == [0x6b, 0xc1, 0xbe, 0xe2, 0x2e, 0x40, 0x9f, 0x96, 0xe9, 0x3d, 0x7e, 0x11, 0x73, 0x93, 0x17, 0x2a]
    ensures StateOf(block) == State(Word(0x6b, 0xc1, 0xbe, 0xe2), Word(0x2e, 0x40, 0x9f, 0x96), Word(0xe9, 0x3d, 0x7e, 0x11), Word(0x73, 0x93, 0x17, 0x2a))
    ensures StateOf(iv) == State(Word(0x00, 0x01, 0x02, 0x03), Word(0x04, 0x05, 0x06, 0x07), Word(0x08, 0x09, 0x0a, 0x0b), Word(0x0c, 0x0d, 0x0e, 0x0f))
  {
  }

  lemma CipherBytes(s: State)
    requires s == State(Word(0xf5, 0x8c, 0x4c, 0x04), Word(0xd6, 0xe5, 0xf1, 0xba), Word(0x77, 0x9e, 0xab, 0xfb), Word(0x5f, 0x7b, 0xfb, 0xd6))
    ensures BytesOf(s) == [0xf5, 0x8c, 0x4c, 0x04, 0xd6, 0xe5, 0xf1, 0xba, 0x77, 0x9e, 0xab, 0xfb, 0x5f, 0x7b, 0xfb, 0xd6]
  {
  }

  /** The same in bytes: what is sent for the first block of a message. */
  lemma CbcF25(key: Bytes32, iv: Bytes16, block: Bytes16)
    requires key ==
      [0x60, 0x3d, 0xeb, 0x10, 0x15, 0xca, 0x71, 0xbe, 0x2b, 0x73, 0xae, 0xf0, 0x85, 0x7d, 0x77, 0x81] +
      [0x1f, 0x35, 0x2c, 0x07, 0x3b, 0x61, 0x08, 0xd7, 0x2d, 0x98, 0x10, 0xa3, 0x09, 0x14, 0xdf, 0xf4]
    requires iv == [0x00, 0x01, 0x02, 0x03, 0x04, 0x05, 0x06, 0x07, 0x08, 0x09, 0x0a, 0x0b, 0x0c, 0x0d, 0x0e, 0x0f]
    requires block == [0x6b, 0xc1, 0xbe, 0xe2, 0x2e, 0x40, 0x9f, 0x96, 0xe9, 0x3d, 0x7e, 0x11, 0x73, 0x93, 0x17, 0x2a]
    ensures CbcEncrypt(Expanded(KeyWords(key)), StateOf(iv), [block])
      == [[0xf5, 0x8c, 0x4c, 0x04, 0xd6, 0xe5, 0xf1, 0xba, 0x77, 0x9e, 0xab, 0xfb, 0x5f, 0x7b, 0xfb, 0xd6]]
  {
    hide AddRoundKey, Cipher, Expanded, KeyWords, StateOf, BytesOf, IsKey;
    KeyBytes(key);
    BlockBytes(iv, block);
    var s := AddRoundKey(StateOf(block), StateOf(iv));
    F25Is(KeyWords(key), s);
    CipherBytes(Cipher(Expanded(KeyWords(key)), s));
    assert [block][1..] == [];
  }
}
