/** AES_CTX of AES_256_CBC.h: encryption and decryption of blocks in cipher block chaining mode. */
module AesContext {
  import opened AesSbox
  import opened AesColumns
  import opened AesEncryptTables
  import opened AesDecryptTables
  import opened AesState
  import opened AesKeys

  // ---- Bytes and words ----

  type Bytes16 = b: seq<bv8> | |b| == 16 witness seq(16, _ => 0)
  type Bytes32 = b: seq<bv8> | |b| == 32 witness seq(32, _ => 0)

  /** GETU32, for the word at position i. */
  function GetU32(b: seq<bv8>, i: nat): Word
    requires i + 4 <= |b|
  {
    Word(b[i], b[i + 1], b[i + 2], b[i + 3])
  }

  function StateOf(b: seq<bv8>): State
    requires |b| == 16
  {
    State(GetU32(b, 0), GetU32(b, 4), GetU32(b, 8), GetU32(b, 12))
  }

  function BytesOf(s: State): Bytes16 {
    [s.c0.b0, s.c0.b1, s.c0.b2, s.c0.b3, s.c1.b0, s.c1.b1, s.c1.b2, s.c1.b3,
     s.c2.b0, s.c2.b1, s.c2.b2, s.c2.b3, s.c3.b0, s.c3.b1, s.c3.b2, s.c3.b3]
  }

  lemma BytesBack(b: Bytes16, s: State)
    ensures BytesOf(StateOf(b)) == b && StateOf(BytesOf(s)) == s
  {
  }

  function KeyWords(key: Bytes32): (k: seq<Word>)
    ensures |k| == 8
  {
    seq(8, i requires 0 <= i < 8 => GetU32(key, 4 * i))
  }

  // ---- A round, by tables ----

  /** Four entries and a word of the round key. */
  function Te(a: bv8, b: bv8, c: bv8, d: bv8, k: Word): Word {
    Xor(Xor(Xor(Xor(Unpacked(Te0(a)), Unpacked(Te1(b))), Unpacked(Te2(c))), Unpacked(Te3(d))), k)
  }

  function Td(a: bv8, b: bv8, c: bv8, d: bv8, k: Word): Word {
    Xor(Xor(Xor(Xor(Unpacked(Td0(a)), Unpacked(Td1(b))), Unpacked(Td2(c))), Unpacked(Td3(d))), k)
  }

  lemma MixColumnsAdded(a: bv8, b: bv8, c: bv8, d: bv8)
    ensures Xor(Xor(Xor(Word(Xtime(a), a, a, Mul3(a)), Word(Mul3(b), Xtime(b), b, b)),
      Word(c, Mul3(c), Xtime(c), c)), Word(d, d, Mul3(d), Xtime(d))) == MixColumn(Word(a, b, c, d))
  {
    hide Add, Xtime, Mul3;
    Turn(Xtime(b), Mul3(c), d, a);
    Turn(Xtime(c), Mul3(d), a, b);
    Turn(b, Xtime(c), Mul3(d), a);
    Turn(Mul3(a), b, c, Xtime(d));
  }

  lemma TeIs(a: bv8, b: bv8, c: bv8, d: bv8, k: Word)
    ensures Te(a, b, c, d, k) == Xor(MixColumn(SubWord(Word(a, b, c, d))), k)
  {
    hide Xor, Sbox, Te0, Te1, Te2, Te3, Xtime, Mul3, Packed, Unpacked, MixColumn;
    var p, q, r, s := Sbox(a), Sbox(b), Sbox(c), Sbox(d);
    Te0Is(a);
    Te1Is(b);
    Te2Is(c);
    Te3Is(d);
    UnpackedPacked(Word(Xtime(p), p, p, Mul3(p)));
    UnpackedPacked(Word(Mul3(q), Xtime(q), q, q));
    UnpackedPacked(Word(r, Mul3(r), Xtime(r), r));
    UnpackedPacked(Word(s, s, Mul3(s), Xtime(s)));
    MixColumnsAdded(p, q, r, s);
  }

  lemma TdIs(a: bv8, b: bv8, c: bv8, d: bv8, k: Word)
    ensures Td(a, b, c, d, k) == Xor(InvMixColumn(InvSubWord(Word(a, b, c, d))), k)
  {
    hide Xor, InvSbox, Td0, Td1, Td2, Td3, MulE, MulB, MulD, Mul9, Packed, Unpacked, InvMixColumn;
    var p, q, r, s := InvSbox(a), InvSbox(b), InvSbox(c), InvSbox(d);
    Td0Is(a);
    Td1Is(b);
    Td2Is(c);
    Td3Is(d);
    UnpackedPacked(Word(MulE(p), Mul9(p), MulD(p), MulB(p)));
    UnpackedPacked(Word(MulB(q), MulE(q), Mul9(q), MulD(q)));
    UnpackedPacked(Word(MulD(r), MulB(r), MulE(r), Mul9(r)));
    UnpackedPacked(Word(Mul9(s), MulD(s), MulB(s), MulE(s)));
    ColumnsAdded(p, q, r, s);
  }

  /** A word of the final round. */
  function Final(a: bv8, b: bv8, c: bv8, d: bv8, k: Word): Word {
    Xor(Xor(Xor(Xor(Lane0(a), Lane1(b)), Lane2(c)), Lane3(d)), k)
  }

  // ---- The context ----

  class AesCtx {
    const roundkey: array<Word>
    const iv: array<Word>

    ghost predicate Valid() {
      roundkey.Length == 60 && iv.Length == 4 && roundkey != iv
    }

    ghost function Chain(): State
      requires Valid()
      reads iv
    {
      State(iv[0], iv[1], iv[2], iv[3])
    }

    constructor ()
      ensures Valid() && fresh(roundkey) && fresh(iv)
    {
      roundkey := new Word[60];
      iv := new Word[4];
    }

    /** AES_EncryptInit. */
    method EncryptInit(key: Bytes32, ivBytes: Bytes16)
      requires Valid()
      modifies roundkey, iv
      ensures roundkey[..] == Expanded(KeyWords(key)) && Chain() == StateOf(ivBytes)
    {
      hide KeyWord;
      ExpandKey(roundkey, KeyWords(key));
      iv[0], iv[1], iv[2], iv[3] := GetU32(ivBytes, 0), GetU32(ivBytes, 4), GetU32(ivBytes, 8), GetU32(ivBytes, 12);
    }

    /** AES_DecryptInit. */
    method DecryptInit(key: Bytes32, ivBytes: Bytes16)
      requires Valid()
      modifies roundkey, iv
      ensures Inverted(Expanded(KeyWords(key)), roundkey[..]) && Chain() == StateOf(ivBytes)
    {
      hide Inverted, Expanded;
      EncryptInit(key, ivBytes);
      InvertKeys(roundkey);
    }

    method EncryptRound(s: State, r: nat) returns (t: State)
      requires Valid() && 1 <= r <= 13
      ensures t == Round(s, RoundKey(roundkey[..], r))
    {
      hide Te, Xor, MixColumn, Sbox;
      TeIs(s.c0.b0, s.c1.b1, s.c2.b2, s.c3.b3, roundkey[4 * r]);
      TeIs(s.c1.b0, s.c2.b1, s.c3.b2, s.c0.b3, roundkey[4 * r + 1]);
      TeIs(s.c2.b0, s.c3.b1, s.c0.b2, s.c1.b3, roundkey[4 * r + 2]);
      TeIs(s.c3.b0, s.c0.b1, s.c1.b2, s.c2.b3, roundkey[4 * r + 3]);
      t := State(Te(s.c0.b0, s.c1.b1, s.c2.b2, s.c3.b3, roundkey[4 * r]),
                 Te(s.c1.b0, s.c2.b1, s.c3.b2, s.c0.b3, roundkey[4 * r + 1]),
                 Te(s.c2.b0, s.c3.b1, s.c0.b2, s.c1.b3, roundkey[4 * r + 2]),
                 Te(s.c3.b0, s.c0.b1, s.c1.b2, s.c2.b3, roundkey[4 * r + 3]));
    }

    method DecryptRound(s: State, r: nat) returns (t: State)
      requires Valid() && 1 <= r <= 13
      ensures t == EqRound(s, RoundKey(roundkey[..], r))
    {
      hide Td, Xor, InvMixColumn, InvSbox;
      TdIs(s.c0.b0, s.c3.b1, s.c2.b2, s.c1.b3, roundkey[4 * r]);
      TdIs(s.c1.b0, s.c0.b1, s.c3.b2, s.c2.b3, roundkey[4 * r + 1]);
      TdIs(s.c2.b0, s.c1.b1, s.c0.b2, s.c3.b3, roundkey[4 * r + 2]);
      TdIs(s.c3.b0, s.c2.b1, s.c1.b2, s.c0.b3, roundkey[4 * r + 3]);
      t := State(Td(s.c0.b0, s.c3.b1, s.c2.b2, s.c1.b3, roundkey[4 * r]),
                 Td(s.c1.b0, s.c0.b1, s.c3.b2, s.c2.b3, roundkey[4 * r + 1]),
                 Td(s.c2.b0, s.c1.b1, s.c0.b2, s.c3.b3, roundkey[4 * r + 2]),
                 Td(s.c3.b0, s.c2.b1, s.c1.b2, s.c0.b3, roundkey[4 * r + 3]));
    }

    method EncryptLast(t: State) returns (s: State)
      requires Valid()
      ensures s == LastRound(t, RoundKey(roundkey[..], 14))
    {
      hide Xor, Sbox, Lane0, Lane1, Lane2, Lane3;
      var u := SubBytes(t);
      Lanes(u.c0.b0, u.c1.b1, u.c2.b2, u.c3.b3);
      Lanes(u.c1.b0, u.c2.b1, u.c3.b2, u.c0.b3);
      Lanes(u.c2.b0, u.c3.b1, u.c0.b2, u.c1.b3);
      Lanes(u.c3.b0, u.c0.b1, u.c1.b2, u.c2.b3);
      s := State(Final(Sbox(t.c0.b0), Sbox(t.c1.b1), Sbox(t.c2.b2), Sbox(t.c3.b3), roundkey[56]),
                 Final(Sbox(t.c1.b0), Sbox(t.c2.b1), Sbox(t.c3.b2), Sbox(t.c0.b3), roundkey[57]),
                 Final(Sbox(t.c2.b0), Sbox(t.c3.b1), Sbox(t.c0.b2), Sbox(t.c1.b3), roundkey[58]),
                 Final(Sbox(t.c3.b0), Sbox(t.c0.b1), Sbox(t.c1.b2), Sbox(t.c2.b3), roundkey[59]));
    }

    method DecryptLast(t: State) returns (s: State)
      requires Valid()
      ensures s == EqLastRound(t, RoundKey(roundkey[..], 14))
    {
      hide Xor, InvSbox, Lane0, Lane1, Lane2, Lane3;
      var u := InvSubBytes(t);
      Lanes(u.c0.b0, u.c3.b1, u.c2.b2, u.c1.b3);
      Lanes(u.c1.b0, u.c0.b1, u.c3.b2, u.c2.b3);
      Lanes(u.c2.b0, u.c1.b1, u.c0.b2, u.c3.b3);
      Lanes(u.c3.b0, u.c2.b1, u.c1.b2, u.c0.b3);
      s := State(Final(InvSbox(t.c0.b0), InvSbox(t.c3.b1), InvSbox(t.c2.b2), InvSbox(t.c1.b3), roundkey[56]),
                 Final(InvSbox(t.c1.b0), InvSbox(t.c0.b1), InvSbox(t.c3.b2), InvSbox(t.c2.b3), roundkey[57]),
                 Final(InvSbox(t.c2.b0), InvSbox(t.c1.b1), InvSbox(t.c0.b2), InvSbox(t.c3.b3), roundkey[58]),
                 Final(InvSbox(t.c3.b0), InvSbox(t.c2.b1), InvSbox(t.c1.b2), InvSbox(t.c0.b3), roundkey[59]));
    }

    /** The 13 rounds between the first round key and the final round. */
    method EncryptRounds(s: State, ghost x: State) returns (t: State)
      requires Valid() && s == AddRoundKey(x, RoundKey(roundkey[..], 0))
      ensures t == Rounds(roundkey[..], x, 13)
    {
      hide AddRoundKey, Round, RoundKey;
      RoundsStart(roundkey[..], x);
      t := EncryptRound(s, 1);
      RoundsStep(roundkey[..], x, 1);
      t := EncryptRound(t, 2);
      RoundsStep(roundkey[..], x, 2);
      t := EncryptRound(t, 3);
      RoundsStep(roundkey[..], x, 3);
      t := EncryptRound(t, 4);
      RoundsStep(roundkey[..], x, 4);
      t := EncryptRound(t, 5);
      RoundsStep(roundkey[..], x, 5);
      t := EncryptRound(t, 6);
      RoundsStep(roundkey[..], x, 6);
      t := EncryptRound(t, 7);
      RoundsStep(roundkey[..], x, 7);
      t := EncryptRound(t, 8);
      RoundsStep(roundkey[..], x, 8);
      t := EncryptRound(t, 9);
      RoundsStep(roundkey[..], x, 9);
      t := EncryptRound(t, 10);
      RoundsStep(roundkey[..], x, 10);
      t := EncryptRound(t, 11);
      RoundsStep(roundkey[..], x, 11);
      t := EncryptRound(t, 12);
      RoundsStep(roundkey[..], x, 12);
      t := EncryptRound(t, 13);
      RoundsStep(roundkey[..], x, 13);
    }

    /** The same for decryption. */
    method DecryptRounds(s: State, ghost x: State) returns (t: State)
      requires Valid() && s == AddRoundKey(x, RoundKey(roundkey[..], 0))
      ensures t == EqRounds(roundkey[..], x, 13)
    {
      hide AddRoundKey, EqRound, RoundKey;
      EqRoundsStart(roundkey[..], x);
      t := DecryptRound(s, 1);
      EqRoundsStep(roundkey[..], x, 1);
      t := DecryptRound(t, 2);
      EqRoundsStep(roundkey[..], x, 2);
      t := DecryptRound(t, 3);
      EqRoundsStep(roundkey[..], x, 3);
      t := DecryptRound(t, 4);
      EqRoundsStep(roundkey[..], x, 4);
      t := DecryptRound(t, 5);
      EqRoundsStep(roundkey[..], x, 5);
      t := DecryptRound(t, 6);
      EqRoundsStep(roundkey[..], x, 6);
      t := DecryptRound(t, 7);
      EqRoundsStep(roundkey[..], x, 7);
      t := DecryptRound(t, 8);
      EqRoundsStep(roundkey[..], x, 8);
      t := DecryptRound(t, 9);
      EqRoundsStep(roundkey[..], x, 9);
      t := DecryptRound(t, 10);
      EqRoundsStep(roundkey[..], x, 10);
      t := DecryptRound(t, 11);
      EqRoundsStep(roundkey[..], x, 11);
      t := DecryptRound(t, 12);
      EqRoundsStep(roundkey[..], x, 12);
      t := DecryptRound(t, 13);
      EqRoundsStep(roundkey[..], x, 13);
    }

    /** AES_Encrypt: the block is chained to the one before; outData may be inData. */
    method Encrypt(inData: array<bv8>, outData: array<bv8>)
      requires Valid() && inData.Length == 16 && outData.Length == 16
      modifies iv, outData
      ensures var c := Cipher(roundkey[..], AddRoundKey(old(StateOf(inData[..])), old(Chain())));
        outData[..] == BytesOf(c) && Chain() == c
    {
      hide Xor, AddRoundKey, Round, LastRound, RoundKey;
      var x := AddRoundKey(StateOf(inData[..]), State(iv[0], iv[1], iv[2], iv[3]));
      var s := AddRoundKey(x, RoundKey(roundkey[..], 0));
      s := EncryptRounds(s, x);
      s := EncryptLast(s);
      PutState(s, outData);
      iv[0], iv[1], iv[2], iv[3] := s.c0, s.c1, s.c2, s.c3;
    }

    /** AES_Decrypt, by the equivalent inverse cipher; outData may be inData. */
    method Decrypt(inData: array<bv8>, outData: array<bv8>)
      requires Valid() && inData.Length == 16 && outData.Length == 16
      modifies iv, outData
      ensures outData[..] == BytesOf(AddRoundKey(EqInvCipher(roundkey[..], old(StateOf(inData[..]))), old(Chain())))
      ensures Chain() == old(StateOf(inData[..]))
    {
      hide Xor, AddRoundKey, EqRound, EqLastRound, RoundKey;
      var x := StateOf(inData[..]);
      var s := AddRoundKey(x, RoundKey(roundkey[..], 0));
      s := DecryptRounds(s, x);
      s := DecryptLast(s);
      PutState(AddRoundKey(s, State(iv[0], iv[1], iv[2], iv[3])), outData);
      iv[0], iv[1], iv[2], iv[3] := x.c0, x.c1, x.c2, x.c3;
    }
  }

  lemma RoundsStart(k: Schedule, x: State)
    ensures Rounds(k, x, 0) == AddRoundKey(x, RoundKey(k, 0))
  {
  }

  lemma RoundsStep(k: Schedule, x: State, r: nat)
    requires 1 <= r <= 13
    ensures Rounds(k, x, r) == Round(Rounds(k, x, r - 1), RoundKey(k, r))
  {
  }

  lemma EqRoundsStart(d: Schedule, x: State)
    ensures EqRounds(d, x, 0) == AddRoundKey(x, RoundKey(d, 0))
  {
  }

  lemma EqRoundsStep(d: Schedule, x: State, r: nat)
    requires 1 <= r <= 13
    ensures EqRounds(d, x, r) == EqRound(EqRounds(d, x, r - 1), RoundKey(d, r))
  {
  }

  /** PUTU32. */
  method PutU32(outData: array<bv8>, i: nat, w: Word)
    requires i + 4 <= outData.Length
    modifies outData
    ensures outData[i] == w.b0 && outData[i + 1] == w.b1 && outData[i + 2] == w.b2 && outData[i + 3] == w.b3
    ensures forall j :: 0 <= j < outData.Length && !(i <= j < i + 4) ==> outData[j] == old(outData[j])
  {
    outData[i] := w.b0;
    outData[i + 1] := w.b1;
    outData[i + 2] := w.b2;
    outData[i + 3] := w.b3;
  }

  method PutState(s: State, outData: array<bv8>)
    requires outData.Length == 16
    modifies outData
    ensures outData[..] == BytesOf(s)
  {
    PutU32(outData, 0, s.c0);
    PutU32(outData, 4, s.c1);
    PutU32(outData, 8, s.c2);
    PutU32(outData, 12, s.c3);
  }

  // ---- Messages ----

  /** Each block is added to the one that was sent before it. */
  function CbcEncrypt(k: Schedule, chain: State, message: seq<Bytes16>): (sent: seq<Bytes16>)
    ensures |sent| == |message|
    decreases message
  {
    hide Cipher, AddRoundKey, StateOf, BytesOf;
    if message == [] then []
    else
      var c := Cipher(k, AddRoundKey(StateOf(message[0]), chain));
      [BytesOf(c)] + CbcEncrypt(k, c, message[1..])
  }

  function CbcDecrypt(d: Schedule, chain: State, sent: seq<Bytes16>): (message: seq<Bytes16>)
    ensures |message| == |sent|
    decreases sent
  {
    hide EqInvCipher, AddRoundKey, StateOf, BytesOf;
    if sent == [] then []
    else
      var c := StateOf(sent[0]);
      [BytesOf(AddRoundKey(EqInvCipher(d, c), chain))] + CbcDecrypt(d, c, sent[1..])
  }

  lemma BlockUndone(k: Schedule, d: Schedule, chain: State, block: Bytes16)
    requires Inverted(k, d)
    ensures BytesOf(AddRoundKey(EqInvCipher(d, Cipher(k, AddRoundKey(StateOf(block), chain))), chain)) == block
  {
    hide AddRoundKey, Cipher, EqInvCipher, InvCipher, Inverted, StateOf, BytesOf;
    var x := AddRoundKey(StateOf(block), chain);
    SameInverse(k, d, Cipher(k, x));
    CipherUndone(k, x);
    KeyTwice(StateOf(block), chain);
    BytesBack(block, x);
  }

  /** Decryption of a whole message undoes encryption, for every chaining value. */
  lemma {:induction false} CbcUndone(k: Schedule, d: Schedule, chain: State, message: seq<Bytes16>)
    requires Inverted(k, d)
    ensures CbcDecrypt(d, chain, CbcEncrypt(k, chain, message)) == message
    decreases message
  {
    hide AddRoundKey, Cipher, EqInvCipher, Inverted, StateOf, BytesOf;
    if message != [] {
      var c := Cipher(k, AddRoundKey(StateOf(message[0]), chain));
      var sent := CbcEncrypt(k, chain, message);
      BytesBack(message[0], c);
      assert sent[0] == BytesOf(c) && sent[1..] == CbcEncrypt(k, c, message[1..]);
      BlockUndone(k, d, chain, message[0]);
      CbcUndone(k, d, c, message[1..]);
      assert message == [message[0]] + message[1..];
    }
  }

  /** Section 6.2 of NIST SP 800-38A: every block is combined with the ciphertext block before it, and
      the first one with the initialization vector. */
  lemma {:induction false} CbcChain(k: Schedule, chain: State, message: seq<Bytes16>, j: nat)
    requires j < |message|
    ensures var sent := CbcEncrypt(k, chain, message);
      sent[j] == BytesOf(Cipher(k, AddRoundKey(StateOf(message[j]), if j == 0 then chain else StateOf(sent[j - 1]))))
    decreases j
  {
    hide AddRoundKey, Cipher, StateOf, BytesOf;
    if j > 0 {
      var c := Cipher(k, AddRoundKey(StateOf(message[0]), chain));
      BytesBack(message[0], c);
      CbcChain(k, c, message[1..], j - 1);
    }
  }

  /** One block through both sides: it comes back, and the iv fields, if they were equal, are equal
      again. */
  method Exchange(e: AesCtx, d: AesCtx, buffer: array<bv8>, ghost k: Schedule, block: Bytes16) returns (sent: Bytes16, back: Bytes16)
    requires e.Valid() && d.Valid() && e.iv != d.iv && e.iv != d.roundkey && d.iv != e.roundkey && buffer.Length == 16
    requires e.roundkey[..] == k && Inverted(k, d.roundkey[..]) && e.Chain() == d.Chain()
    modifies e.iv, d.iv, buffer
    ensures back == block && e.Chain() == d.Chain()
    ensures e.Chain() == Cipher(k, AddRoundKey(StateOf(block), old(e.Chain()))) && sent == BytesOf(e.Chain())
  {
    hide AddRoundKey, Cipher, EqInvCipher, Inverted, StateOf, BytesOf;
    ghost var chain := e.Chain();
    Fill(buffer, block);
    e.Encrypt(buffer, buffer);
    BytesBack(block, e.Chain());
    sent := buffer[..];
    d.Decrypt(buffer, buffer);
    BlockUndone(k, d.roundkey[..], chain, block);
    back := buffer[..];
  }

  /** A whole message, block by block. */
  method RoundTrip(key: Bytes32, iv: Bytes16, message: seq<Bytes16>) returns (sent: seq<Bytes16>, back: seq<Bytes16>)
    ensures sent == CbcEncrypt(Expanded(KeyWords(key)), StateOf(iv), message)
    ensures back == message
  {
    hide AddRoundKey, Cipher, EqInvCipher, Inverted, StateOf, BytesOf, Expanded, CbcEncrypt;
    ghost var all := CbcEncrypt(Expanded(KeyWords(key)), StateOf(iv), message);
    var e := new AesCtx();
    var d := new AesCtx();
    e.EncryptInit(key, iv);
    d.DecryptInit(key, iv);
    ghost var k := Expanded(KeyWords(key));
    var buffer := new bv8[16];
    sent, back := [], [];
    for i := 0 to |message|
      invariant e.Valid() && d.Valid() && fresh(e.iv) && fresh(d.iv) && fresh(buffer) && buffer.Length == 16
      invariant e.iv != d.iv && e.iv != d.roundkey && d.iv != e.roundkey
      invariant e.roundkey[..] == k && Inverted(k, d.roundkey[..])
      invariant e.Chain() == d.Chain()
      invariant back == message[..i] && |sent| == i
      invariant sent + CbcEncrypt(k, e.Chain(), message[i..]) == all
    {
      ghost var chain := e.Chain();
      var x, y := Exchange(e, d, buffer, k, message[i]);
      CbcStep(k, chain, e.Chain(), message, i, sent, x);
      sent, back := sent + [x], back + [y];
    }
    assert message[..|message|] == message && message[|message|..] == [];
  }

  lemma CbcStep(k: Schedule, chain: State, next: State, message: seq<Bytes16>, i: nat, sent: seq<Bytes16>, x: Bytes16)
    requires i < |message| && next == Cipher(k, AddRoundKey(StateOf(message[i]), chain)) && x == BytesOf(next)
    ensures (sent + [x]) + CbcEncrypt(k, next, message[i + 1..]) == sent + CbcEncrypt(k, chain, message[i..])
  {
    hide Cipher, AddRoundKey, StateOf, BytesOf;
    assert message[i..][0] == message[i] && message[i..][1..] == message[i + 1..];
  }

  method Fill(a: array<bv8>, b: Bytes16)
    requires a.Length == 16
    modifies a
    ensures a[..] == b
  {
    for i := 0 to 16
      invariant a[..i] == b[..i]
    {
      a[i] := b[i];
    }
  }
}
