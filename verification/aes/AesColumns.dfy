/** Columns of the AES state: MixColumns and its inverse (sections 4.1, 4.2, 5.1.3 and 5.3.3 of
    FIPS 197). */
module AesColumns {
  /** Addition of bytes as elements of the field is exclusive or. */
  function Add(x: bv8, y: bv8): bv8 { x ^ y }
  function Sum3(a: bv8, b: bv8, c: bv8): bv8 { Add(Add(a, b), c) }
  function Sum4(a: bv8, b: bv8, c: bv8, d: bv8): bv8 { Add(Add(Add(a, b), c), d) }

  /** A 32-bit word as its four bytes, the most significant one first. */
  datatype Word = Word(b0: bv8, b1: bv8, b2: bv8, b3: bv8)

  function Packed(w: Word): bv32 {
    ((w.b0 as bv32) << 24) ^ ((w.b1 as bv32) << 16) ^ ((w.b2 as bv32) << 8) ^ (w.b3 as bv32)
  }

  function Unpacked(w: bv32): Word {
    Word((w >> 24) as bv8, ((w >> 16) & 0xff) as bv8, ((w >> 8) & 0xff) as bv8, (w & 0xff) as bv8)
  }

  lemma UnpackedPacked(w: Word)
    ensures Unpacked(Packed(w)) == w
  {
  }

  function Xor(x: Word, y: Word): Word {
    Word(Add(x.b0, y.b0), Add(x.b1, y.b1), Add(x.b2, y.b2), Add(x.b3, y.b3))
  }

  /** Multiplication of a byte by x, and by the other constants of the two matrices. */
  function Xtime(b: bv8): bv8 {
    (b << 1) ^ (if b & 0x80 != 0 then 0x1b else 0)
  }

  function Mul3(b: bv8): bv8 { Add(Xtime(b), b) }
  function Mul9(b: bv8): bv8 { Add(Xtime(Xtime(Xtime(b))), b) }
  function MulB(b: bv8): bv8 { Sum3(Xtime(Xtime(Xtime(b))), Xtime(b), b) }
  function MulD(b: bv8): bv8 { Sum3(Xtime(Xtime(Xtime(b))), Xtime(Xtime(b)), b) }
  function MulE(b: bv8): bv8 { Sum3(Xtime(Xtime(Xtime(b))), Xtime(Xtime(b)), Xtime(b)) }

  /** The first row of each matrix; the other rows are the same, turned around. */
  function MixRow(p: bv8, q: bv8, r: bv8, s: bv8): bv8 { Sum4(Xtime(p), Mul3(q), r, s) }
  function InvMixRow(p: bv8, q: bv8, r: bv8, s: bv8): bv8 { Sum4(MulE(p), MulB(q), MulD(r), Mul9(s)) }

  function MixColumn(w: Word): Word {
    Word(MixRow(w.b0, w.b1, w.b2, w.b3), MixRow(w.b1, w.b2, w.b3, w.b0),
         MixRow(w.b2, w.b3, w.b0, w.b1), MixRow(w.b3, w.b0, w.b1, w.b2))
  }

  function InvMixColumn(w: Word): Word {
    Word(InvMixRow(w.b0, w.b1, w.b2, w.b3), InvMixRow(w.b1, w.b2, w.b3, w.b0),
         InvMixRow(w.b2, w.b3, w.b0, w.b1), InvMixRow(w.b3, w.b0, w.b1, w.b2))
  }

  // ---- Multiplication is linear ----

  lemma XtimeOfXor(x: bv8, y: bv8)
    ensures Xtime(x ^ y) == Xtime(x) ^ Xtime(y)
  {
    if x & 0x80 != 0 {
      if y & 0x80 != 0 { assert (x ^ y) & 0x80 == 0; } else { assert (x ^ y) & 0x80 != 0; }
    } else {
      if y & 0x80 != 0 { assert (x ^ y) & 0x80 != 0; } else { assert (x ^ y) & 0x80 == 0; }
    }
  }

  lemma XtimeLinear(x: bv8, y: bv8)
    ensures Xtime(Add(x, y)) == Add(Xtime(x), Xtime(y))
  {
    hide Xtime;
    XtimeOfXor(x, y);
  }

  lemma XtimesLinear(x: bv8, y: bv8)
    ensures Xtime(Xtime(Add(x, y))) == Add(Xtime(Xtime(x)), Xtime(Xtime(y)))
    ensures Xtime(Xtime(Xtime(Add(x, y)))) == Add(Xtime(Xtime(Xtime(x))), Xtime(Xtime(Xtime(y))))
  {
    hide Xtime, Add;
    XtimeLinear(x, y);
    XtimeLinear(Xtime(x), Xtime(y));
    XtimeLinear(Xtime(Xtime(x)), Xtime(Xtime(y)));
  }

  lemma Commutes(a: bv8, b: bv8)
    ensures Add(a, b) == Add(b, a)
  {
  }

  lemma Associates(a: bv8, b: bv8, c: bv8)
    ensures Add(Add(a, b), c) == Add(a, Add(b, c))
  {
  }

  lemma AddTwice(x: bv8, y: bv8)
    ensures Add(Add(x, y), y) == x
  {
  }

  lemma AddZero(x: bv8)
    ensures Add(x, 0) == x && Add(0, x) == x
  {
  }

  lemma Pairs2(a: bv8, b: bv8, c: bv8, d: bv8)
    ensures Add(Add(a, b), Add(c, d)) == Add(Add(a, c), Add(b, d))
  {
    hide Add;
    Associates(a, b, Add(c, d));
    Associates(b, c, d);
    Commutes(b, c);
    Associates(c, b, d);
    Associates(a, c, Add(b, d));
  }

  lemma Pairs3(a: bv8, b: bv8, c: bv8, d: bv8, e: bv8, f: bv8)
    ensures Sum3(Add(a, b), Add(c, d), Add(e, f)) == Add(Sum3(a, c, e), Sum3(b, d, f))
  {
    hide Add;
    Pairs2(a, b, c, d);
    Pairs2(Add(a, c), Add(b, d), e, f);
  }

  lemma Pairs4(a: bv8, b: bv8, c: bv8, d: bv8, e: bv8, f: bv8, g: bv8, h: bv8)
    ensures Sum4(Add(a, b), Add(c, d), Add(e, f), Add(g, h)) == Add(Sum4(a, c, e, g), Sum4(b, d, f, h))
  {
    hide Add;
    Pairs3(a, b, c, d, e, f);
    Pairs2(Sum3(a, c, e), Sum3(b, d, f), g, h);
  }

  lemma Turn(a: bv8, b: bv8, c: bv8, d: bv8)
    ensures Sum4(a, b, c, d) == Sum4(d, a, b, c)
  {
    hide Add;
    Commutes(Sum3(a, b, c), d);
    Associates(d, Add(a, b), c);
    Associates(d, a, b);
  }

  lemma Linear(x: bv8, y: bv8)
    ensures Mul9(Add(x, y)) == Add(Mul9(x), Mul9(y)) && MulB(Add(x, y)) == Add(MulB(x), MulB(y))
    ensures MulD(Add(x, y)) == Add(MulD(x), MulD(y)) && MulE(Add(x, y)) == Add(MulE(x), MulE(y))
  {
    hide Xtime, Add, Sum3;
    XtimeLinear(x, y);
    XtimesLinear(x, y);
    var x3, y3 := Xtime(Xtime(Xtime(x))), Xtime(Xtime(Xtime(y)));
    Pairs2(x3, y3, x, y);
    Pairs3(x3, y3, Xtime(x), Xtime(y), x, y);
    Pairs3(x3, y3, Xtime(Xtime(x)), Xtime(Xtime(y)), x, y);
    Pairs3(x3, y3, Xtime(Xtime(x)), Xtime(Xtime(y)), Xtime(x), Xtime(y));
  }

  lemma InvMixRowLinear(p: bv8, q: bv8, r: bv8, s: bv8, p': bv8, q': bv8, r': bv8, s': bv8)
    ensures InvMixRow(Add(p, p'), Add(q, q'), Add(r, r'), Add(s, s')) == Add(InvMixRow(p, q, r, s), InvMixRow(p', q', r', s'))
  {
    hide Mul9, MulB, MulD, MulE, Add, Sum4;
    Linear(p, p');
    Linear(q, q');
    Linear(r, r');
    Linear(s, s');
    Pairs4(MulE(p), MulE(p'), MulB(q), MulB(q'), MulD(r), MulD(r'), Mul9(s), Mul9(s'));
  }

  /** InvMixColumns can be applied to state and round key apart. */
  lemma InvMixLinear(x: Word, y: Word)
    ensures InvMixColumn(Xor(x, y)) == Xor(InvMixColumn(x), InvMixColumn(y))
  {
    hide InvMixRow, Add;
    InvMixRowLinear(x.b0, x.b1, x.b2, x.b3, y.b0, y.b1, y.b2, y.b3);
    InvMixRowLinear(x.b1, x.b2, x.b3, x.b0, y.b1, y.b2, y.b3, y.b0);
    InvMixRowLinear(x.b2, x.b3, x.b0, x.b1, y.b2, y.b3, y.b0, y.b1);
    InvMixRowLinear(x.b3, x.b0, x.b1, x.b2, y.b3, y.b0, y.b1, y.b2);
  }

  // ---- The matrices are inverse to each other ----

  /** One row of one matrix with one column of the other. */
  lemma Products(b: bv8)
    ensures Sum4(MulE(Xtime(b)), MulB(b), MulD(b), Mul9(Mul3(b))) == b
    ensures Sum4(MulE(Mul3(b)), MulB(Xtime(b)), MulD(b), Mul9(b)) == 0
    ensures Sum4(MulE(b), MulB(Mul3(b)), MulD(Xtime(b)), Mul9(b)) == 0
    ensures Sum4(MulE(b), MulB(b), MulD(Mul3(b)), Mul9(Xtime(b))) == 0
  {
    hide *;
    FirstProduct(b);
    SecondProduct(b);
    ThirdProduct(b);
    FourthProduct(b);
  }

  lemma FirstProduct(b: bv8)
    ensures Sum4(MulE(Xtime(b)), MulB(b), MulD(b), Mul9(Mul3(b))) == b
  {
  }

  lemma SecondProduct(b: bv8)
    ensures Sum4(MulE(Mul3(b)), MulB(Xtime(b)), MulD(b), Mul9(b)) == 0
  {
  }

  lemma ThirdProduct(b: bv8)
    ensures Sum4(MulE(b), MulB(Mul3(b)), MulD(Xtime(b)), Mul9(b)) == 0
  {
  }

  lemma FourthProduct(b: bv8)
    ensures Sum4(MulE(b), MulB(b), MulD(Mul3(b)), Mul9(Xtime(b))) == 0
  {
  }

  lemma Transpose(a: bv8, b: bv8, c: bv8, d: bv8, e: bv8, f: bv8, g: bv8, h: bv8,
      i: bv8, j: bv8, k: bv8, l: bv8, m: bv8, n: bv8, o: bv8, p: bv8)
    ensures Sum4(Sum4(a, b, c, d), Sum4(e, f, g, h), Sum4(i, j, k, l), Sum4(m, n, o, p))
         == Sum4(Sum4(a, h, k, n), Sum4(b, e, l, o), Sum4(c, f, i, p), Sum4(d, g, j, m))
  {
    hide Add;
    Turn(e, f, g, h);
    Turn(i, j, k, l);
    Turn(l, i, j, k);
    Turn(n, o, p, m);
    Pairs4(a, h, b, e, c, f, d, g);
    Pairs4(Add(a, h), k, Add(b, e), l, Add(c, f), i, Add(d, g), j);
    Pairs4(Sum3(a, h, k), n, Sum3(b, e, l), o, Sum3(c, f, i), p, Sum3(d, g, j), m);
  }

  lemma OnlyFirst(a: bv8)
    ensures Sum4(a, 0, 0, 0) == a
  {
  }

  lemma Sums(a: bv8, b: bv8, c: bv8, d: bv8)
    ensures MulE(Sum4(a, b, c, d)) == Sum4(MulE(a), MulE(b), MulE(c), MulE(d))
    ensures MulB(Sum4(a, b, c, d)) == Sum4(MulB(a), MulB(b), MulB(c), MulB(d))
    ensures MulD(Sum4(a, b, c, d)) == Sum4(MulD(a), MulD(b), MulD(c), MulD(d))
    ensures Mul9(Sum4(a, b, c, d)) == Sum4(Mul9(a), Mul9(b), Mul9(c), Mul9(d))
  {
    hide Mul9, MulB, MulD, MulE, Add;
    Linear(Add(Add(a, b), c), d);
    Linear(Add(a, b), c);
    Linear(a, b);
  }

  lemma RowInverse(p: bv8, q: bv8, r: bv8, s: bv8)
    ensures InvMixRow(MixRow(p, q, r, s), MixRow(q, r, s, p), MixRow(r, s, p, q), MixRow(s, p, q, r)) == p
  {
    hide Mul9, MulB, MulD, MulE, Xtime, Mul3, Add, Sum4;
    Sums(Xtime(p), Mul3(q), r, s);
    Sums(Xtime(q), Mul3(r), s, p);
    Sums(Xtime(r), Mul3(s), p, q);
    Sums(Xtime(s), Mul3(p), q, r);
    Transpose(MulE(Xtime(p)), MulE(Mul3(q)), MulE(r), MulE(s), MulB(Xtime(q)), MulB(Mul3(r)), MulB(s), MulB(p),
              MulD(Xtime(r)), MulD(Mul3(s)), MulD(p), MulD(q), Mul9(Xtime(s)), Mul9(Mul3(p)), Mul9(q), Mul9(r));
    Products(p);
    Products(q);
    Products(r);
    Products(s);
    OnlyFirst(p);
  }

  lemma MixInverse(w: Word)
    ensures InvMixColumn(MixColumn(w)) == w
  {
    hide MixRow, InvMixRow;
    RowInverse(w.b0, w.b1, w.b2, w.b3);
    RowInverse(w.b1, w.b2, w.b3, w.b0);
    RowInverse(w.b2, w.b3, w.b0, w.b1);
    RowInverse(w.b3, w.b0, w.b1, w.b2);
  }
}
