/** The probability estimation state machine that the arithmetic encoder and decoder
    share: jaricom.c, which is Table D.3 of ITU-T T.81. */
module ArithTable {

  datatype Row = Row(qe: nat, lps: nat, mps: nat, switch: nat)

  /** What both coders rely on: Qe fits below 0x8000 and every next index is in the table. */
  type Estimate = r: Row | 0 < r.qe < 0x8000 && r.lps < 114 && r.mps < 114 && r.switch < 2
    witness Row(1, 0, 0, 0)

  /** Any table of the right shape.  The coders are proved correct for all of them. */
  type Aritab = t: seq<Estimate> | |t| == 114 witness seq(114, _ => Row(1, 0, 0, 0))

  /** The packed form of an entry. */
  function V(r: Estimate): nat {
    r.qe * 0x10000 + r.mps * 0x100 + r.switch * 0x80 + r.lps
  }

  /** The shifts and masks that both coders apply to a packed entry give back its parts. */
  lemma Unpack(r: Estimate)
    ensures V(r) / 0x100 / 0x100 == r.qe
    ensures V(r) / 0x100 % 0x100 == r.mps
    ensures V(r) % 0x100 == r.switch * 0x80 + r.lps
  {
    assert V(r) / 0x100 == r.qe * 0x100 + r.mps;
  }

  function JpegAritab(): Aritab {
    seq(114, i requires 0 <= i < 114 => Table(i))
  }

  /** The estimates: rows 0 to 112 are those of the standard, row 113 stays at one half. */
  function Table(i: nat): Estimate
    requires i < 114
  {
    match i / 10
    case 0 => Rows0(i)
    case 1 => Rows10(i)
    case 2 => Rows20(i)
    case 3 => Rows30(i)
    case 4 => Rows40(i)
    case 5 => Rows50(i)
    case 6 => Rows60(i)
    case 7 => Rows70(i)
    case 8 => Rows80(i)
    case 9 => Rows90(i)
    case 10 => Rows100(i)
    case _ => Rows110(i)
  }

  function Rows0(i: nat): Estimate
    requires i < 10
  {
    match i
    case 0 => Row(0x5a1d, 1, 1, 1)
    case 1 => Row(0x2586, 14, 2, 0)
    case 2 => Row(0x1114, 16, 3, 0)
    case 3 => Row(0x080b, 18, 4, 0)
    case 4 => Row(0x03d8, 20, 5, 0)
    case 5 => Row(0x01da, 23, 6, 0)
    case 6 => Row(0x00e5, 25, 7, 0)
    case 7 => Row(0x006f, 28, 8, 0)
    case 8 => Row(0x0036, 30, 9, 0)
    case _ => Row(0x001a, 33, 10, 0)
  }

  function Rows10(i: nat): Estimate
    requires 10 <= i < 20
  {
    match i
    case 10 => Row(0x000d, 35, 11, 0)
    case 11 => Row(0x0006, 9, 12, 0)
    case 12 => Row(0x0003, 10, 13, 0)
    case 13 => Row(0x0001, 12, 13, 0)
    case 14 => Row(0x5a7f, 15, 15, 1)
    case 15 => Row(0x3f25, 36, 16, 0)
    case 16 => Row(0x2cf2, 38, 17, 0)
    case 17 => Row(0x207c, 39, 18, 0)
    case 18 => Row(0x17b9, 40, 19, 0)
    case _ => Row(0x1182, 42, 20, 0)
  }

  function Rows20(i: nat): Estimate
    requires 20 <= i < 30
  {
    match i
    case 20 => Row(0x0cef, 43, 21, 0)
    case 21 => Row(0x09a1, 45, 22, 0)
    case 22 => Row(0x072f, 46, 23, 0)
    case 23 => Row(0x055c, 48, 24, 0)
    case 24 => Row(0x0406, 49, 25, 0)
    case 25 => Row(0x0303, 51, 26, 0)
    case 26 => Row(0x0240, 52, 27, 0)
    case 27 => Row(0x01b1, 54, 28, 0)
    case 28 => Row(0x0144, 56, 29, 0)
    case _ => Row(0x00f5, 57, 30, 0)
  }

  function Rows30(i: nat): Estimate
    requires 30 <= i < 40
  {
    match i
    case 30 => Row(0x00b7, 59, 31, 0)
    case 31 => Row(0x008a, 60, 32, 0)
    case 32 => Row(0x0068, 62, 33, 0)
    case 33 => Row(0x004e, 63, 34, 0)
    case 34 => Row(0x003b, 32, 35, 0)
    case 35 => Row(0x002c, 33, 9, 0)
    case 36 => Row(0x5ae1, 37, 37, 1)
    case 37 => Row(0x484c, 64, 38, 0)
    case 38 => Row(0x3a0d, 65, 39, 0)
    case _ => Row(0x2ef1, 67, 40, 0)
  }

  function Rows40(i: nat): Estimate
    requires 40 <= i < 50
  {
    match i
    case 40 => Row(0x261f, 68, 41, 0)
    case 41 => Row(0x1f33, 69, 42, 0)
    case 42 => Row(0x19a8, 70, 43, 0)
    case 43 => Row(0x1518, 72, 44, 0)
    case 44 => Row(0x1177, 73, 45, 0)
    case 45 => Row(0x0e74, 74, 46, 0)
    case 46 => Row(0x0bfb, 75, 47, 0)
    case 47 => Row(0x09f8, 77, 48, 0)
    case 48 => Row(0x0861, 78, 49, 0)
    case _ => Row(0x0706, 79, 50, 0)
  }

  function Rows50(i: nat): Estimate
    requires 50 <= i < 60
  {
    match i
    case 50 => Row(0x05cd, 48, 51, 0)
    case 51 => Row(0x04de, 50, 52, 0)
    case 52 => Row(0x040f, 50, 53, 0)
    case 53 => Row(0x0363, 51, 54, 0)
    case 54 => Row(0x02d4, 52, 55, 0)
    case 55 => Row(0x025c, 53, 56, 0)
    case 56 => Row(0x01f8, 54, 57, 0)
    case 57 => Row(0x01a4, 55, 58, 0)
    case 58 => Row(0x0160, 56, 59, 0)
    case _ => Row(0x0125, 57, 60, 0)
  }

  function Rows60(i: nat): Estimate
    requires 60 <= i < 70
  {
    match i
    case 60 => Row(0x00f6, 58, 61, 0)
    case 61 => Row(0x00cb, 59, 62, 0)
    case 62 => Row(0x00ab, 61, 63, 0)
    case 63 => Row(0x008f, 61, 32, 0)
    case 64 => Row(0x5b12, 65, 65, 1)
    case 65 => Row(0x4d04, 80, 66, 0)
    case 66 => Row(0x412c, 81, 67, 0)
    case 67 => Row(0x37d8, 82, 68, 0)
    case 68 => Row(0x2fe8, 83, 69, 0)
    case _ => Row(0x293c, 84, 70, 0)
  }

  function Rows70(i: nat): Estimate
    requires 70 <= i < 80
  {
    match i
    case 70 => Row(0x2379, 86, 71, 0)
    case 71 => Row(0x1edf, 87, 72, 0)
    case 72 => Row(0x1aa9, 87, 73, 0)
    case 73 => Row(0x174e, 72, 74, 0)
    case 74 => Row(0x1424, 72, 75, 0)
    case 75 => Row(0x119c, 74, 76, 0)
    case 76 => Row(0x0f6b, 74, 77, 0)
    case 77 => Row(0x0d51, 75, 78, 0)
    case 78 => Row(0x0bb6, 77, 79, 0)
    case _ => Row(0x0a40, 77, 48, 0)
  }

  function Rows80(i: nat): Estimate
    requires 80 <= i < 90
  {
    match i
    case 80 => Row(0x5832, 80, 81, 1)
    case 81 => Row(0x4d1c, 88, 82, 0)
    case 82 => Row(0x438e, 89, 83, 0)
    case 83 => Row(0x3bdd, 90, 84, 0)
    case 84 => Row(0x34ee, 91, 85, 0)
    case 85 => Row(0x2eae, 92, 86, 0)
    case 86 => Row(0x299a, 93, 87, 0)
    case 87 => Row(0x2516, 86, 71, 0)
    case 88 => Row(0x5570, 88, 89, 1)
    case _ => Row(0x4ca9, 95, 90, 0)
  }

  function Rows90(i: nat): Estimate
    requires 90 <= i < 100
  {
    match i
    case 90 => Row(0x44d9, 96, 91, 0)
    case 91 => Row(0x3e22, 97, 92, 0)
    case 92 => Row(0x3824, 99, 93, 0)
    case 93 => Row(0x32b4, 99, 94, 0)
    case 94 => Row(0x2e17, 93, 86, 0)
    case 95 => Row(0x56a8, 95, 96, 1)
    case 96 => Row(0x4f46, 101, 97, 0)
    case 97 => Row(0x47e5, 102, 98, 0)
    case 98 => Row(0x41cf, 103, 99, 0)
    case _ => Row(0x3c3d, 104, 100, 0)
  }

  function Rows100(i: nat): Estimate
    requires 100 <= i < 110
  {
    match i
    case 100 => Row(0x375e, 99, 93, 0)
    case 101 => Row(0x5231, 105, 102, 0)
    case 102 => Row(0x4c0f, 106, 103, 0)
    case 103 => Row(0x4639, 107, 104, 0)
    case 104 => Row(0x415e, 103, 99, 0)
    case 105 => Row(0x5627, 105, 106, 1)
    case 106 => Row(0x50e7, 108, 107, 0)
    case 107 => Row(0x4b85, 109, 103, 0)
    case 108 => Row(0x5597, 110, 109, 0)
    case _ => Row(0x504f, 111, 107, 0)
  }

  function Rows110(i: nat): Estimate
    requires 110 <= i < 114
  {
    match i
    case 110 => Row(0x5a10, 110, 111, 1)
    case 111 => Row(0x5522, 112, 109, 0)
    case 112 => Row(0x59eb, 112, 111, 1)
    case _ => Row(0x5a1d, 113, 113, 0)
  }
}
