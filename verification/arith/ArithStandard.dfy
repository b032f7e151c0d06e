/** What ITU-T T.81 gives in numbers about the arithmetic coder: the states of Table D.3, the test
    sequence of section K.4, the conditioning of DC differences, and the bins of its decisions. */
module ArithStandard {
  import opened Radix
  import opened Blocks
  import opened ArithTable
  import opened ArithModel
  import opened ArithBlock
  import opened ArithRefine
  import opened ArithScan
  import ArithRoundTrip
  import ArithProgression

  // ---- Table D.3 ----

  /** A less probable symbol leads to its next index, and where the row says so it exchanges the
      sense of the more probable symbol; a more probable symbol leads to its next index. */
  lemma NextStates(tab: Aritab, b: Bin)
    ensures Mps(AfterLps(tab, b)) == if Est(tab, b).switch == 1 then !Mps(b) else Mps(b)
    ensures AfterLps(tab, b) % 128 == Est(tab, b).lps
    ensures Mps(AfterMps(tab, b)) == Mps(b) && AfterMps(tab, b) % 128 == Est(tab, b).mps
  {
  }

  /** The first symbol of a scan that is not the more probable one exchanges the sense. */
  lemma FirstSwitch()
    ensures AfterLps(JpegAritab(), 0) == 0x81
  {
    assert JpegAritab()[0] == Table(0);
  }

  /** In every row of the standard a less probable symbol raises the estimate, except exactly where
      it exchanges the sense of the more probable symbol; and a more probable symbol lowers it,
      except in row 13, the lowest. */
  lemma Monotone(i: nat)
    requires i < 113
    ensures Table(Table(i).lps).qe > Table(i).qe <==> Table(i).switch == 0
    ensures Table(Table(i).mps).qe < Table(i).qe <==> i != 13
  {
    hide Table;
    match i / 10
    case 0 => Monotone0(i);
    case 1 => Monotone10(i);
    case 2 => Monotone20(i);
    case 3 => Monotone30(i);
    case 4 => Monotone40(i);
    case 5 => Monotone50(i);
    case 6 => Monotone60(i);
    case 7 => Monotone70(i);
    case 8 => Monotone80(i);
    case 9 => Monotone90(i);
    case 10 => Monotone100(i);
    case _ => Monotone110(i);
  }

  lemma Monotone0(i: nat)
    requires i < 10
    ensures Table(Table(i).lps).qe > Table(i).qe <==> Table(i).switch == 0
    ensures Table(Table(i).mps).qe < Table(i).qe <==> i != 13
  {
  }

  lemma Monotone10(i: nat)
    requires 10 <= i < 20
    ensures Table(Table(i).lps).qe > Table(i).qe <==> Table(i).switch == 0
    ensures Table(Table(i).mps).qe < Table(i).qe <==> i != 13
  {
  }

  lemma Monotone20(i: nat)
    requires 20 <= i < 30
    ensures Table(Table(i).lps).qe > Table(i).qe <==> Table(i).switch == 0
    ensures Table(Table(i).mps).qe < Table(i).qe <==> i != 13
  {
  }

  lemma Monotone30(i: nat)
    requires 30 <= i < 40
    ensures Table(Table(i).lps).qe > Table(i).qe <==> Table(i).switch == 0
    ensures Table(Table(i).mps).qe < Table(i).qe <==> i != 13
  {
  }

  lemma Monotone40(i: nat)
    requires 40 <= i < 50
    ensures Table(Table(i).lps).qe > Table(i).qe <==> Table(i).switch == 0
    ensures Table(Table(i).mps).qe < Table(i).qe <==> i != 13
  {
  }

  lemma Monotone50(i: nat)
    requires 50 <= i < 60
    ensures Table(Table(i).lps).qe > Table(i).qe <==> Table(i).switch == 0
    ensures Table(Table(i).mps).qe < Table(i).qe <==> i != 13
  {
  }

  lemma Monotone60(i: nat)
    requires 60 <= i < 70
    ensures Table(Table(i).lps).qe > Table(i).qe <==> Table(i).switch == 0
    ensures Table(Table(i).mps).qe < Table(i).qe <==> i != 13
  {
  }

  lemma Monotone70(i: nat)
    requires 70 <= i < 80
    ensures Table(Table(i).lps).qe > Table(i).qe <==> Table(i).switch == 0
    ensures Table(Table(i).mps).qe < Table(i).qe <==> i != 13
  {
  }

  lemma Monotone80(i: nat)
    requires 80 <= i < 90
    ensures Table(Table(i).lps).qe > Table(i).qe <==> Table(i).switch == 0
    ensures Table(Table(i).mps).qe < Table(i).qe <==> i != 13
  {
  }

  lemma Monotone90(i: nat)
    requires 90 <= i < 100
    ensures Table(Table(i).lps).qe > Table(i).qe <==> Table(i).switch == 0
    ensures Table(Table(i).mps).qe < Table(i).qe <==> i != 13
  {
  }

  lemma Monotone100(i: nat)
    requires 100 <= i < 110
    ensures Table(Table(i).lps).qe > Table(i).qe <==> Table(i).switch == 0
    ensures Table(Table(i).mps).qe < Table(i).qe <==> i != 13
  {
  }

  lemma Monotone110(i: nat)
    requires 110 <= i < 113
    ensures Table(Table(i).lps).qe > Table(i).qe <==> Table(i).switch == 0
    ensures Table(Table(i).mps).qe < Table(i).qe <==> i != 13
  {
  }

  /** The parts of a row in one number. */
  function Mix(r: Row): nat { 0x1000000 * r.mps + 0x10000 * r.lps + r.qe }

  // The rows by tens, each times its place: what Table D.3 adds up to.

  lemma Rows0Are()
    ensures Mix(Rows0(0)) + 2 * Mix(Rows0(1)) + 3 * Mix(Rows0(2)) + 4 * Mix(Rows0(3)) + 5 * Mix(Rows0(4))
      + 6 * Mix(Rows0(5)) + 7 * Mix(Rows0(6)) + 8 * Mix(Rows0(7)) + 9 * Mix(Rows0(8)) + 10 * Mix(Rows0(9))
      == 6550135690
  {
  }

  lemma Rows10Are()
    ensures Mix(Rows10(10)) + 2 * Mix(Rows10(11)) + 3 * Mix(Rows10(12)) + 4 * Mix(Rows10(13)) + 5 * Mix(Rows10(14))
      + 6 * Mix(Rows10(15)) + 7 * Mix(Rows10(16)) + 8 * Mix(Rows10(17)) + 9 * Mix(Rows10(18)) + 10 * Mix(Rows10(19))
      == 15736701586
  {
  }

  lemma Rows20Are()
    ensures Mix(Rows20(20)) + 2 * Mix(Rows20(21)) + 3 * Mix(Rows20(22)) + 4 * Mix(Rows20(23)) + 5 * Mix(Rows20(24))
      + 6 * Mix(Rows20(25)) + 7 * Mix(Rows20(26)) + 8 * Mix(Rows20(27)) + 9 * Mix(Rows20(28)) + 10 * Mix(Rows20(29))
      == 25103213468
  {
  }

  lemma Rows30Are()
    ensures Mix(Rows30(30)) + 2 * Mix(Rows30(31)) + 3 * Mix(Rows30(32)) + 4 * Mix(Rows30(33)) + 5 * Mix(Rows30(34))
      + 6 * Mix(Rows30(35)) + 7 * Mix(Rows30(36)) + 8 * Mix(Rows30(37)) + 9 * Mix(Rows30(38)) + 10 * Mix(Rows30(39))
      == 31620965584
  {
  }

  lemma Rows40Are()
    ensures Mix(Rows40(40)) + 2 * Mix(Rows40(41)) + 3 * Mix(Rows40(42)) + 4 * Mix(Rows40(43)) + 5 * Mix(Rows40(44))
      + 6 * Mix(Rows40(45)) + 7 * Mix(Rows40(46)) + 8 * Mix(Rows40(47)) + 9 * Mix(Rows40(48)) + 10 * Mix(Rows40(49))
      == 43641006378
  {
  }

  lemma Rows50Are()
    ensures Mix(Rows50(50)) + 2 * Mix(Rows50(51)) + 3 * Mix(Rows50(52)) + 4 * Mix(Rows50(53)) + 5 * Mix(Rows50(54))
      + 6 * Mix(Rows50(55)) + 7 * Mix(Rows50(56)) + 8 * Mix(Rows50(57)) + 9 * Mix(Rows50(58)) + 10 * Mix(Rows50(59))
      == 52791375944
  {
  }

  lemma Rows60Are()
    ensures Mix(Rows60(60)) + 2 * Mix(Rows60(61)) + 3 * Mix(Rows60(62)) + 4 * Mix(Rows60(63)) + 5 * Mix(Rows60(64))
      + 6 * Mix(Rows60(65)) + 7 * Mix(Rows60(66)) + 8 * Mix(Rows60(67)) + 9 * Mix(Rows60(68)) + 10 * Mix(Rows60(69))
      == 59953671855
  {
  }

  lemma Rows70Are()
    ensures Mix(Rows70(70)) + 2 * Mix(Rows70(71)) + 3 * Mix(Rows70(72)) + 4 * Mix(Rows70(73)) + 5 * Mix(Rows70(74))
      + 6 * Mix(Rows70(75)) + 7 * Mix(Rows70(76)) + 8 * Mix(Rows70(77)) + 9 * Mix(Rows70(78)) + 10 * Mix(Rows70(79))
      == 65957888801
  {
  }

  lemma Rows80Are()
    ensures Mix(Rows80(80)) + 2 * Mix(Rows80(81)) + 3 * Mix(Rows80(82)) + 4 * Mix(Rows80(83)) + 5 * Mix(Rows80(84))
      + 6 * Mix(Rows80(85)) + 7 * Mix(Rows80(86)) + 8 * Mix(Rows80(87)) + 9 * Mix(Rows80(88)) + 10 * Mix(Rows80(89))
      == 78323914930
  {
  }

  lemma Rows90Are()
    ensures Mix(Rows90(90)) + 2 * Mix(Rows90(91)) + 3 * Mix(Rows90(92)) + 4 * Mix(Rows90(93)) + 5 * Mix(Rows90(94))
      + 6 * Mix(Rows90(95)) + 7 * Mix(Rows90(96)) + 8 * Mix(Rows90(97)) + 9 * Mix(Rows90(98)) + 10 * Mix(Rows90(99))
      == 89113376631
  {
  }

  lemma Rows100Are()
    ensures Mix(Rows100(100)) + 2 * Mix(Rows100(101)) + 3 * Mix(Rows100(102)) + 4 * Mix(Rows100(103)) + 5 * Mix(Rows100(104))
      + 6 * Mix(Rows100(105)) + 7 * Mix(Rows100(106)) + 8 * Mix(Rows100(107)) + 9 * Mix(Rows100(108)) + 10 * Mix(Rows100(109))
      == 97311579247
  {
  }

  lemma Rows110Are()
    ensures Mix(Rows110(110)) + 2 * Mix(Rows110(111)) + 3 * Mix(Rows110(112)) + 4 * Mix(Rows110(113))
      == 18763577993
  {
  }

  // ---- The test sequence of section K.4.1 ----

  /** The interval and the only bin. */
  datatype Point = Point(i: Interval, b: Bin)

  /** The first 32 decisions: the bytes 00 02 00 51. */
  predicate K4Bit(k: nat) { k == 14 || k == 25 || k == 27 || k == 31 }

  /** In front of decision k. */
  function K4(k: nat): Point
    requires k <= 32
  {
    if k <= 10 then K4Start(k) else if k <= 20 then K4Middle(k) else K4End(k)
  }

  function K4Start(k: nat): Point
    requires k <= 10
  {
    match k
    case 0 => Point(Interval(0, 0x10000, 0), 0x00)
    case 1 => Point(Interval(0, 0xa5e3, 0), 0x00)
    case 2 => Point(Interval(38796, 0xb43a, 1), 0x01)
    case 3 => Point(Interval(38796, 0x8eb4, 1), 0x01)
    case 4 => Point(Interval(77592, 0xd25c, 2), 0x02)
    case 5 => Point(Interval(77592, 0xc148, 2), 0x02)
    case 6 => Point(Interval(77592, 0xb034, 2), 0x02)
    case 7 => Point(Interval(77592, 0x9f20, 2), 0x02)
    case 8 => Point(Interval(77592, 0x8e0c, 2), 0x02)
    case 9 => Point(Interval(155184, 0xf9f0, 3), 0x03)
    case _ => Point(Interval(155184, 0xf1e5, 3), 0x03)
  }

  function K4Middle(k: nat): Point
    requires 11 <= k <= 20
  {
    match k
    case 11 => Point(Interval(155184, 0xe9da, 3), 0x03)
    case 12 => Point(Interval(155184, 0xe1cf, 3), 0x03)
    case 13 => Point(Interval(155184, 0xd9c4, 3), 0x03)
    case 14 => Point(Interval(155184, 0xd1b9, 3), 0x03)
    case 15 => Point(Interval(3309024, 0x80b0, 7), 0x12)
    case 16 => Point(Interval(6618048, 0xd1ee, 8), 0x13)
    case 17 => Point(Interval(6618048, 0xc06c, 8), 0x13)
    case 18 => Point(Interval(6618048, 0xaeea, 8), 0x13)
    case 19 => Point(Interval(6618048, 0x9d68, 8), 0x13)
    case _ => Point(Interval(6618048, 0x8be6, 8), 0x13)
  }

  function K4End(k: nat): Point
    requires 21 <= k <= 32
  {
    match k
    case 21 => Point(Interval(13236096, 0xf4c8, 9), 0x14)
    case 22 => Point(Interval(13236096, 0xe7d9, 9), 0x14)
    case 23 => Point(Interval(13236096, 0xdaea, 9), 0x14)
    case 24 => Point(Interval(13236096, 0xcdfb, 9), 0x14)
    case 25 => Point(Interval(13236096, 0xc10c, 9), 0x14)
    case 26 => Point(Interval(212515280, 0xcef0, 13), 0x2b)
    case 27 => Point(Interval(212515280, 0xb9d8, 13), 0x2b)
    case 28 => Point(Interval(1700459648, 0xa8c0, 16), 0x48)
    case 29 => Point(Interval(1700459648, 0x8e17, 16), 0x48)
    case 30 => Point(Interval(3400919296, 0xe6dc, 17), 0x49)
    case 31 => Point(Interval(3400919296, 0xcf8e, 17), 0x49)
    case _ => Point(Interval(27207731712, 0xba70, 20), 0x48)
  }

  /** A decision, given the row of the table. */
  function Decided(e: Estimate, p: Point, bit: bool): Point
    requires Normal(p.i)
  {
    var lps, rest := bit != (p.b >= 0x80), p.i.a - e.qe;
    var part := if lps == (rest >= e.qe) then Interval(p.i.base + rest, e.qe, p.i.n) else Interval(p.i.base, rest, p.i.n);
    Point(Renorm(part), if lps then Xor80(p.b, e.switch * 0x80 + e.lps) else if rest >= 0x8000 then p.b else Xor80(p.b, e.mps))
  }

  /** The rows that the sequence comes to. */
  lemma K4Rows()
    ensures Table(0) == Row(0x5a1d, 1, 1, 1)
    ensures Table(1) == Row(0x2586, 14, 2, 0)
    ensures Table(2) == Row(0x1114, 16, 3, 0)
    ensures Table(3) == Row(0x080b, 18, 4, 0)
    ensures Table(18) == Row(0x17b9, 40, 19, 0)
    ensures Table(19) == Row(0x1182, 42, 20, 0)
    ensures Table(20) == Row(0x0cef, 43, 21, 0)
    ensures Table(43) == Row(0x1518, 72, 44, 0)
    ensures Table(72) == Row(0x1aa9, 87, 73, 0)
    ensures Table(73) == Row(0x174e, 72, 74, 0)
  {
  }

  lemma K4Byte0()
    ensures Decided(Row(0x5a1d, 1, 1, 1), Point(Interval(0, 0x10000, 0), 0x00), false) == Point(Interval(0, 0xa5e3, 0), 0x00)
    ensures Decided(Row(0x5a1d, 1, 1, 1), Point(Interval(0, 0xa5e3, 0), 0x00), false) == Point(Interval(38796, 0xb43a, 1), 0x01)
    ensures Decided(Row(0x2586, 14, 2, 0), Point(Interval(38796, 0xb43a, 1), 0x01), false) == Point(Interval(38796, 0x8eb4, 1), 0x01)
    ensures Decided(Row(0x2586, 14, 2, 0), Point(Interval(38796, 0x8eb4, 1), 0x01), false) == Point(Interval(77592, 0xd25c, 2), 0x02)
    ensures Decided(Row(0x1114, 16, 3, 0), Point(Interval(77592, 0xd25c, 2), 0x02), false) == Point(Interval(77592, 0xc148, 2), 0x02)
    ensures Decided(Row(0x1114, 16, 3, 0), Point(Interval(77592, 0xc148, 2), 0x02), false) == Point(Interval(77592, 0xb034, 2), 0x02)
    ensures Decided(Row(0x1114, 16, 3, 0), Point(Interval(77592, 0xb034, 2), 0x02), false) == Point(Interval(77592, 0x9f20, 2), 0x02)
    ensures Decided(Row(0x1114, 16, 3, 0), Point(Interval(77592, 0x9f20, 2), 0x02), false) == Point(Interval(77592, 0x8e0c, 2), 0x02)
  {
  }

  lemma K4Byte1()
    ensures Decided(Row(0x1114, 16, 3, 0), Point(Interval(77592, 0x8e0c, 2), 0x02), false) == Point(Interval(155184, 0xf9f0, 3), 0x03)
    ensures Decided(Row(0x080b, 18, 4, 0), Point(Interval(155184, 0xf9f0, 3), 0x03), false) == Point(Interval(155184, 0xf1e5, 3), 0x03)
    ensures Decided(Row(0x080b, 18, 4, 0), Point(Interval(155184, 0xf1e5, 3), 0x03), false) == Point(Interval(155184, 0xe9da, 3), 0x03)
    ensures Decided(Row(0x080b, 18, 4, 0), Point(Interval(155184, 0xe9da, 3), 0x03), false) == Point(Interval(155184, 0xe1cf, 3), 0x03)
    ensures Decided(Row(0x080b, 18, 4, 0), Point(Interval(155184, 0xe1cf, 3), 0x03), false) == Point(Interval(155184, 0xd9c4, 3), 0x03)
    ensures Decided(Row(0x080b, 18, 4, 0), Point(Interval(155184, 0xd9c4, 3), 0x03), false) == Point(Interval(155184, 0xd1b9, 3), 0x03)
    ensures Decided(Row(0x080b, 18, 4, 0), Point(Interval(155184, 0xd1b9, 3), 0x03), true) == Point(Interval(3309024, 0x80b0, 7), 0x12)
    ensures Decided(Row(0x17b9, 40, 19, 0), Point(Interval(3309024, 0x80b0, 7), 0x12), false) == Point(Interval(6618048, 0xd1ee, 8), 0x13)
  {
    assert Renorm(Interval(827256, 0x202c, 5)) == Interval(3309024, 0x80b0, 7);
    assert Renorm(Interval(413628, 0x1016, 4)) == Interval(3309024, 0x80b0, 7);
  }

  lemma K4Byte2()
    ensures Decided(Row(0x1182, 42, 20, 0), Point(Interval(6618048, 0xd1ee, 8), 0x13), false) == Point(Interval(6618048, 0xc06c, 8), 0x13)
    ensures Decided(Row(0x1182, 42, 20, 0), Point(Interval(6618048, 0xc06c, 8), 0x13), false) == Point(Interval(6618048, 0xaeea, 8), 0x13)
    ensures Decided(Row(0x1182, 42, 20, 0), Point(Interval(6618048, 0xaeea, 8), 0x13), false) == Point(Interval(6618048, 0x9d68, 8), 0x13)
    ensures Decided(Row(0x1182, 42, 20, 0), Point(Interval(6618048, 0x9d68, 8), 0x13), false) == Point(Interval(6618048, 0x8be6, 8), 0x13)
    ensures Decided(Row(0x1182, 42, 20, 0), Point(Interval(6618048, 0x8be6, 8), 0x13), false) == Point(Interval(13236096, 0xf4c8, 9), 0x14)
    ensures Decided(Row(0x0cef, 43, 21, 0), Point(Interval(13236096, 0xf4c8, 9), 0x14), false) == Point(Interval(13236096, 0xe7d9, 9), 0x14)
    ensures Decided(Row(0x0cef, 43, 21, 0), Point(Interval(13236096, 0xe7d9, 9), 0x14), false) == Point(Interval(13236096, 0xdaea, 9), 0x14)
    ensures Decided(Row(0x0cef, 43, 21, 0), Point(Interval(13236096, 0xdaea, 9), 0x14), false) == Point(Interval(13236096, 0xcdfb, 9), 0x14)
  {
  }

  lemma K4Byte3()
    ensures Decided(Row(0x0cef, 43, 21, 0), Point(Interval(13236096, 0xcdfb, 9), 0x14), false) == Point(Interval(13236096, 0xc10c, 9), 0x14)
    ensures Decided(Row(0x0cef, 43, 21, 0), Point(Interval(13236096, 0xc10c, 9), 0x14), true) == Point(Interval(212515280, 0xcef0, 13), 0x2b)
    ensures Decided(Row(0x1518, 72, 44, 0), Point(Interval(212515280, 0xcef0, 13), 0x2b), false) == Point(Interval(212515280, 0xb9d8, 13), 0x2b)
    ensures Decided(Row(0x1518, 72, 44, 0), Point(Interval(212515280, 0xb9d8, 13), 0x2b), true) == Point(Interval(1700459648, 0xa8c0, 16), 0x48)
    ensures Decided(Row(0x1aa9, 87, 73, 0), Point(Interval(1700459648, 0xa8c0, 16), 0x48), false) == Point(Interval(1700459648, 0x8e17, 16), 0x48)
    ensures Decided(Row(0x1aa9, 87, 73, 0), Point(Interval(1700459648, 0x8e17, 16), 0x48), false) == Point(Interval(3400919296, 0xe6dc, 17), 0x49)
    ensures Decided(Row(0x174e, 72, 74, 0), Point(Interval(3400919296, 0xe6dc, 17), 0x49), false) == Point(Interval(3400919296, 0xcf8e, 17), 0x49)
    ensures Decided(Row(0x174e, 72, 74, 0), Point(Interval(3400919296, 0xcf8e, 17), 0x49), true) == Point(Interval(27207731712, 0xba70, 20), 0x48)
  {
    assert Renorm(Interval(53128820, 0x33bc, 11)) == Interval(212515280, 0xcef0, 13);
    assert Renorm(Interval(26564410, 0x19de, 10)) == Interval(212515280, 0xcef0, 13);
    assert Renorm(Interval(425114912, 0x2a30, 14)) == Interval(1700459648, 0xa8c0, 16);
    assert Renorm(Interval(6801932928, 0x2e9c, 18)) == Interval(27207731712, 0xba70, 20);
  }

  lemma K4Next(k: nat)
    requires k < 32
    ensures Normal(K4(k).i) && Decided(Table(K4(k).b % 128), K4(k), K4Bit(k)) == K4(k + 1)
  {
    hide Decided, Table;
    K4Rows();
    if k < 8 {
      K4Byte0();
    } else if k < 16 {
      K4Byte1();
    } else if k < 24 {
      K4Byte2();
    } else {
      K4Byte3();
    }
  }

  /** Coding with one bin follows these points. */
  function K4Decisions(n: nat): (ds: seq<Decision>)
    ensures |ds| == n
  {
    seq(n, k requires 0 <= k < n => Decision(Dc(0, 0), K4Bit(k)))
  }

  lemma StepIs(p: Point, bit: bool)
    requires Normal(p.i)
    ensures var q := Decided(Table(p.b % 128), p, bit);
      Step(JpegAritab(), Coder(p.i, map[Dc(0, 0) := p.b]), Decision(Dc(0, 0), bit)) == Coder(q.i, map[Dc(0, 0) := q.b])
  {
    hide Table, Renorm;
    assert JpegAritab()[p.b % 128] == Table(p.b % 128);
  }

  lemma {:induction false} K4Run(n: nat)
    requires n <= 32
    ensures var c := Coder(ArithRoundTrip.START, map[Dc(0, 0) := 0]);
      Known(c, K4Decisions(n)) && Run(JpegAritab(), c, K4Decisions(n)) == Coder(K4(n).i, map[Dc(0, 0) := K4(n).b])
  {
    hide K4, K4Bit, Decided, Table, JpegAritab, Step;
    var c := Coder(ArithRoundTrip.START, map[Dc(0, 0) := 0]);
    if n == 0 {
      K4Begin();
    } else {
      K4Run(n - 1);
      K4Next(n - 1);
      StepIs(K4(n - 1), K4Bit(n - 1));
      var d := Decision(Dc(0, 0), K4Bit(n - 1));
      assert K4Decisions(n) == K4Decisions(n - 1) + [d];
      RunAppend(JpegAritab(), c, K4Decisions(n - 1), [d]);
      RunOne(JpegAritab(), Coder(K4(n - 1).i, map[Dc(0, 0) := K4(n - 1).b]), d);
    }
  }

  lemma K4Begin()
    ensures K4(0) == Point(ArithRoundTrip.START, 0)
  {
  }

  /** The bytes of section K.4.1 lie in the interval of the first 32 decisions. */
  lemma K4Data(data: seq<byte>)
    requires |data| >= 5 && data[..5] == [0x65, 0x5B, 0x51, 0x44, 0xF7]
    ensures var c := Coder(ArithRoundTrip.START, map[Dc(0, 0) := 0]);
      Known(c, K4Decisions(32)) && Contains(data, Run(JpegAritab(), c, K4Decisions(32)).i)
  {
    K4Run(32);
    FiveBytes(data);
    assert K4(32).i == Interval(27207731712, 0xba70, 20);
  }

  lemma FiveBytes(data: seq<byte>)
    requires |data| >= 5 && data[..5] == [0x65, 0x5B, 0x51, 0x44, 0xF7]
    ensures Contains(data, Interval(27207731712, 0xba70, 20))
  {
    assert data[0] == data[..5][0] && data[1] == data[..5][1] && data[2] == data[..5][2];
    assert data[3] == data[..5][3] && data[4] == data[..5][4];
    assert Prefix(data, 1) == 0x65 && Prefix(data, 2) == 0x655B && Prefix(data, 3) == 0x655B51;
    assert Prefix(data, 4) == 0x655B5144 && Prefix(data, 5) == 0x655B5144F7;
    assert Pow2(4) == 16;
  }

  // ---- Sections F.1.4.3 and F.1.4.4: bins ----

  lemma {:induction false} CategoryIs(v2: nat, m: nat) returns (k: nat)
    requires v2 >= 1
    ensures Pow2(k) <= v2 < 2 * Pow2(k) && Category(v2, m) == m * Pow2(k)
  {
    if v2 < 2 {
      k := 0;
    } else {
      var j := CategoryIs(v2 / 2, 2 * m);
      k := j + 1;
      assert 2 * m * Pow2(j) == m * (2 * Pow2(j));
    }
  }

  /** The classes of DC differences that section F.1.4.4.1.2 tells apart: zero, small and large,
      positive and negative, with the bounds L and U. */
  lemma DcClasses(l: nat, u: nat, diff: int)
    ensures DcContext(l, u, diff) ==
      if diff == 0 || (l > 0 && Abs(diff) <= Pow2(l - 1)) then 0
      else if Abs(diff) <= Pow2(u) then (if diff > 0 then 4 else 8)
      else (if diff > 0 then 12 else 16)
  {
    hide Pow2, Category;
    if Abs(diff) > 1 {
      var k := CategoryIs(Abs(diff) - 1, 1);
      Bound(Abs(diff) - 1, k, l);
      Bound(Abs(diff) - 1, k, u);
    } else {
      Bound(0, 0, l);
      Bound(0, 0, u);
    }
  }

  /** Comparing the power of two below v with half of 2^n. */
  lemma Bound(v: nat, k: nat, n: nat)
    ensures Pow2(n) / 2 == (if n == 0 then 0 else Pow2(n - 1)) && 0 < Pow2(n)
    ensures Pow2(k) <= v < 2 * Pow2(k) ==> (Pow2(k) > Pow2(n) / 2 <==> v + 1 > Pow2(n))
    ensures Pow2(k) <= v < 2 * Pow2(k) && n > 0 ==> (Pow2(k) < Pow2(n - 1) <==> v + 1 <= Pow2(n - 1))
  {
    assert Pow2(0) == 1;
    hide Pow2;
    Positive(n);
    Positive(k);
    if n > 0 {
      Pow2Step(n - 1);
      if k < n - 1 { Pow2Grows(k, n - 1); }
      if n - 1 < k { Pow2Grows(n - 1, k); }
    }
  }

  lemma Positive(n: nat)
    ensures 0 < Pow2(n)
  {
  }

  /** DC differences: the bins S0, SS, SP and SN follow each other, X1 is bin 20, and the magnitude
      bits are 14 bins behind the last category bin. */
  lemma DcTrees(t: nat, s0: nat)
    ensures DcDecisions(t, s0, 0) == [Decision(Dc(t, s0), false)]
    ensures DcDecisions(t, s0, 1) == [Decision(Dc(t, s0), true), Decision(Dc(t, s0 + 1), false), Decision(Dc(t, s0 + 2), false)]
    ensures DcDecisions(t, s0, -1) == [Decision(Dc(t, s0), true), Decision(Dc(t, s0 + 1), true), Decision(Dc(t, s0 + 3), false)]
    ensures DcDecisions(t, s0, 2) == [Decision(Dc(t, s0), true), Decision(Dc(t, s0 + 1), false), Decision(Dc(t, s0 + 2), true),
      Decision(Dc(t, 20), false)]
    ensures DcDecisions(t, s0, -6) == [Decision(Dc(t, s0), true), Decision(Dc(t, s0 + 1), true), Decision(Dc(t, s0 + 3), true),
      Decision(Dc(t, 20), true), Decision(Dc(t, 21), true), Decision(Dc(t, 22), false),
      Decision(Dc(t, 36), false), Decision(Dc(t, 36), true)]
  {
    assert Pattern(false, t, 36, 4, 5) == [Decision(Dc(t, 36), false), Decision(Dc(t, 36), true)];
    assert Climb(false, t, 20, 5, 5, 1) == [Decision(Dc(t, 20), true), Decision(Dc(t, 21), true), Decision(Dc(t, 22), false),
      Decision(Dc(t, 36), false), Decision(Dc(t, 36), true)];
    assert Climb(false, t, 20, 1, 1, 1) == [Decision(Dc(t, 20), false)];
  }

  /** AC coefficients: three bins for each position, a sign of even odds, X2 at bin 189 up to
      position Kx and at bin 217 behind it, and the magnitude bits 14 bins further. */
  lemma AcTrees(t: nat)
    ensures AcNonzero(t, 5, 1, 1) == [Decision(Ac(t, 1), true), Decision(Fixed, false), Decision(Ac(t, 2), false)]
    ensures AcNonzero(t, 5, 3, -2) == [Decision(Ac(t, 7), true), Decision(Fixed, true), Decision(Ac(t, 8), true), Decision(Ac(t, 8), false)]
    ensures AcNonzero(t, 5, 5, 6) == [Decision(Ac(t, 13), true), Decision(Fixed, false), Decision(Ac(t, 14), true), Decision(Ac(t, 14), true),
      Decision(Ac(t, 189), true), Decision(Ac(t, 190), false), Decision(Ac(t, 204), false), Decision(Ac(t, 204), true)]
    ensures AcNonzero(t, 5, 6, 3) == [Decision(Ac(t, 16), true), Decision(Fixed, false), Decision(Ac(t, 17), true), Decision(Ac(t, 17), true),
      Decision(Ac(t, 217), false), Decision(Ac(t, 231), false)]
  {
    assert Pattern(true, t, 204, 4, 5) == [Decision(Ac(t, 204), false), Decision(Ac(t, 204), true)];
    assert Climb(true, t, 189, 5, 2, 2) == [Decision(Ac(t, 189), true), Decision(Ac(t, 190), false),
      Decision(Ac(t, 204), false), Decision(Ac(t, 204), true)];
    assert Pattern(true, t, 231, 2, 2) == [Decision(Ac(t, 231), false)];
    assert Climb(true, t, 217, 2, 1, 2) == [Decision(Ac(t, 217), false), Decision(Ac(t, 231), false)];
  }

  /** A band with 3 at position 1, zeros, and -1 at position 3: an end-of-block decision in front of
      each run, and one behind the last. */
  lemma BandTree(t: nat, z: seq<int>)
    requires |z| == 64 && z[1] == 3 && z[2] == 0 && z[3] == -1
    ensures AcBand(t, 5, z, 0, 3, 63, true) == [Decision(Ac(t, 0), false)] + AcNonzero(t, 5, 1, 3)
      + [Decision(Ac(t, 3), false), Decision(Ac(t, 4), false)] + AcNonzero(t, 5, 3, -1) + [Decision(Ac(t, 9), true)]
  {
    hide AcNonzero;
    assert AcBand(t, 5, z, 3, 3, 63, true) == [Decision(Ac(t, 9), true)];
    assert AcBand(t, 5, z, 2, 3, 63, false) == AcNonzero(t, 5, 3, -1) + [Decision(Ac(t, 9), true)];
    assert AcBand(t, 5, z, 1, 3, 63, true) == [Decision(Ac(t, 3), false)] +
      ([Decision(Ac(t, 4), false)] + (AcNonzero(t, 5, 3, -1) + [Decision(Ac(t, 9), true)]));
    assert AcBand(t, 5, z, 0, 3, 63, true) == [Decision(Ac(t, 0), false)] + (AcNonzero(t, 5, 1, 3) + AcBand(t, 5, z, 1, 3, 63, true));
  }

  /** Refinement: correction bits in bin SC, new coefficients in bin S0 with a sign, and no
      end-of-band decision in front of the last coefficient known before. */
  lemma RefineTree(t: nat, z: seq<int>)
    requires |z| == 64 && z[1] == 5 && z[2] == 0 && z[3] == -1
    ensures RefineBand(t, z, 0, 3, 1, 63, true) == [Decision(Ac(t, 2), true), Decision(Ac(t, 3), false), Decision(Ac(t, 4), false),
      Decision(Ac(t, 7), true), Decision(Fixed, true), Decision(Ac(t, 9), true)]
  {
    assert RefineBand(t, z, 3, 3, 1, 63, true) == [Decision(Ac(t, 9), true)];
    assert RefineBand(t, z, 2, 3, 1, 63, false) == [Decision(Ac(t, 7), true), Decision(Fixed, true)] + [Decision(Ac(t, 9), true)];
    assert RefineBand(t, z, 1, 3, 1, 63, true) == [Decision(Ac(t, 3), false)] +
      ([Decision(Ac(t, 4), false)] + RefineBand(t, z, 2, 3, 1, 63, false));
    assert RefineBand(t, z, 0, 3, 1, 63, true) == [Decision(Ac(t, 2), true)] + RefineBand(t, z, 1, 3, 1, 63, true);
  }

  /** A DC refinement scan sends the bit at its position in two's complement, at even odds. */
  lemma DcRefinement(c: Component, order: Order, al: nat, src: Block)
    requires c.acTbl < NUM_ARITH_TBLS && (src[0] == 13 || src[0] == -6) && al <= 2
    ensures ArithProgression.PassDecisions(ArithProgression.Pass(ArithProgression.DcRefine, c, order, 0, 0, al), src) ==
      [Decision(Fixed, if src[0] == 13 then al != 1 else al == 1)]
  {
    assert Pow2(0) == 1 && Pow2(1) == 2 && Pow2(2) == 4;
  }

  /** The first blocks of a segment: the difference to the block of the same component before it, in
      the bins that the difference before has selected. */
  lemma Conditioning(s: Scan, x: Block, y: Block, w: Block)
    requires ScanOk(s) && s.membership == [0, 0, 1] && |s.comps| == 2 && s.se == 0 && s.al == 0
    ensures var c, e := s.comps[0], s.comps[1];
      McuDecisions(s, 0, [x, y, w], FreshDcs(s)) == DcDecisions(c.dcTbl, 0, x[0])
        + DcDecisions(c.dcTbl, DcContext(c.l, c.u, x[0]), y[0] - x[0]) + DcDecisions(e.dcTbl, 0, w[0])
  {
    hide DcDecisions, DcContext;
    assert Pow2(0) == 1;
    var c, e, mcu, p0 := s.comps[0], s.comps[1], [x, y, w], FreshDcs(s);
    assert p0.last == [0, 0] && p0.ctx == [0, 0];
    var p1 := DcNext(s, 0, x, p0);
    var p2 := DcNext(s, 1, y, p1);
    var p3 := DcNext(s, 2, w, p2);
    var d0, d2 := DcDecisions(c.dcTbl, 0, x[0]), DcDecisions(e.dcTbl, 0, w[0]);
    var d1 := DcDecisions(c.dcTbl, DcContext(c.l, c.u, x[0]), y[0] - x[0]);
    assert p1.last == [x[0], 0] && p1.ctx == [DcContext(c.l, c.u, x[0]), 0];
    assert BlockDecisions(s, 0, x, p0) == d0 && BlockDecisions(s, 1, y, p1) == d1 && BlockDecisions(s, 2, w, p2) == d2;
    assert McuDecisions(s, 3, mcu, p3) == [];
    assert McuDecisions(s, 2, mcu, p2) == d2;
    assert McuDecisions(s, 1, mcu, p1) == d1 + d2;
  }

  /** A restart interval starts with all bins in state 0, the bin for signs in state 113, whose
      estimate never changes, and predictions and conditioning of 0. */
  lemma Start(s: Scan)
    requires ScanOk(s)
    ensures forall t, off :: 0 <= t < 16 && 0 <= off < 64 ==> FreshStats()[Dc(t, off)] == 0
    ensures forall t, off :: 0 <= t < 16 && 0 <= off < 256 ==> FreshStats()[Ac(t, off)] == 0
    ensures FreshStats()[Fixed] == 113 && Table(113) == Row(0x5a1d, 113, 113, 0)
    ensures forall c :: 0 <= c < |s.comps| ==> FreshDcs(s).last[c] == 0 && FreshDcs(s).ctx[c] == 0
  {
  }
}
