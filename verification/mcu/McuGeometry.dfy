/** How an image is cut into MCUs: initial_setup and per_scan_setup of jcmaster.c, and
    per_scan_setup of jdinput.c, which must agree. */
module McuGeometry {
  import opened Radix
  import opened Blocks

  /** jdiv_round_up. */
  function CeilDiv(a: nat, b: nat): nat
    requires 0 < b
  {
    (a + b - 1) / b
  }

  lemma CeilBounds(a: nat, b: nat)
    requires 0 < b
    ensures (CeilDiv(a, b) - 1) * b < a <= CeilDiv(a, b) * b || (a == 0 && CeilDiv(a, b) == 0)
  {
    var x := a + b - 1;
    var q, r := x / b, x % b;
    assert x == q * b + r;
    assert (q - 1) * b == q * b - b;
  }

  lemma CeilUnique(a: nat, b: nat, q: nat)
    requires 0 < a && 0 < b && 0 < q && (q - 1) * b < a <= q * b
    ensures CeilDiv(a, b) == q
  {
    var p := CeilDiv(a, b);
    CeilBounds(a, b);
    if p < q { MulOrder(p, q - 1, b); }
    if q < p { MulOrder(q, p - 1, b); }
  }

  /** A component: sampling factors, and its size in blocks. */
  datatype Comp = Comp(h: nat, v: nat, width: nat, height: nat)

  /** An image: its size in samples, the largest sampling factors, the block size, and the
      components. */
  datatype Frame = Frame(width: nat, height: nat, maxH: nat, maxV: nat, blockSize: nat, comps: seq<Comp>)

  predicate FrameOk(f: Frame) {
    && 0 < f.width && 0 < f.height && 0 < f.blockSize && 0 < f.maxH && 0 < f.maxV
    && forall c :: 0 <= c < |f.comps| ==>
         && 1 <= f.comps[c].h <= f.maxH && 1 <= f.comps[c].v <= f.maxV
         && f.comps[c].width == CeilDiv(f.width * f.comps[c].h, f.maxH * f.blockSize)
         && f.comps[c].height == CeilDiv(f.height * f.comps[c].v, f.maxV * f.blockSize)
  }

  function TotalIMcuRows(f: Frame): nat
    requires 0 < f.maxV && 0 < f.blockSize
  {
    CeilDiv(f.height, f.maxV * f.blockSize)
  }

  function IMcusPerRow(f: Frame): nat
    requires 0 < f.maxH && 0 < f.blockSize
  {
    CeilDiv(f.width, f.maxH * f.blockSize)
  }

  /** Rounding up twice is rounding up once: the blocks of a component fill all MCUs but the last,
      and reach into the last one. */
  lemma BlocksFill(w: nat, h: nat, m: nat)
    requires 0 < w && 0 < h && 0 < m
    ensures var n, b := CeilDiv(w, m), CeilDiv(w * h, m); 0 < n && (n - 1) * h < b <= n * h
  {
    var n, b := CeilDiv(w, m), CeilDiv(w * h, m);
    CeilBounds(w, m);
    CeilBounds(w * h, m);
    Mul3(n, m, h);
    assert w * h <= n * m * h by { MulOrder(w, n * m, h); }
    if n * h < b { MulOrder(n * h, b - 1, m); }
    if 0 < n {
      Mul3(n - 1, m, h);
      MulOrder((n - 1) * m, w, h);
      if b <= (n - 1) * h { MulOrder(b, (n - 1) * h, m); }
    }
  }

  lemma Mul3(n: nat, m: nat, h: nat)
    ensures n * m * h == n * h * m
  {
  }

  // ---- A scan ----

  /** The components of a scan by number; one component alone is not interleaved. */
  type ScanComps = s: seq<nat> | 1 <= |s| <= 4 witness [0]

  predicate ScanOk(f: Frame, s: ScanComps) {
    FrameOk(f) && forall ci :: 0 <= ci < |s| ==> s[ci] < |f.comps|
  }

  /** How many blocks of a component an MCU has: one alone, or as many as its sampling factors say. */
  function McuWidth(f: Frame, s: ScanComps, ci: nat): nat
    requires ScanOk(f, s) && ci < |s|
  {
    if |s| == 1 then 1 else f.comps[s[ci]].h
  }

  function McuHeight(f: Frame, s: ScanComps, ci: nat): nat
    requires ScanOk(f, s) && ci < |s|
  {
    if |s| == 1 then 1 else f.comps[s[ci]].v
  }

  function McusPerRow(f: Frame, s: ScanComps): nat
    requires ScanOk(f, s)
  {
    if |s| == 1 then f.comps[s[0]].width else IMcusPerRow(f)
  }

  function Rest(n: nat, k: nat): nat
    requires 0 < k
  {
    if n % k == 0 then k else n % k
  }

  /** Non-dummy blocks in the last MCU column. */
  function LastColWidth(f: Frame, s: ScanComps, ci: nat): nat
    requires ScanOk(f, s) && ci < |s|
  {
    if |s| == 1 then 1 else Rest(f.comps[s[ci]].width, f.comps[s[ci]].h)
  }

  /** Non-dummy block rows in the last iMCU row. */
  function LastRowHeight(f: Frame, s: ScanComps, ci: nat): nat
    requires ScanOk(f, s) && ci < |s|
  {
    Rest(f.comps[s[ci]].height, f.comps[s[ci]].v)
  }

  /** start_iMCU_row: MCU rows in an iMCU row. */
  function McuRows(f: Frame, s: ScanComps, r: nat): nat
    requires ScanOk(f, s) && r < TotalIMcuRows(f)
  {
    if |s| > 1 then 1
    else if r < TotalIMcuRows(f) - 1 then f.comps[s[0]].v
    else LastRowHeight(f, s, 0)
  }

  lemma RestIs(n: nat, h: nat, b: nat)
    requires 0 < n && 0 < h && (n - 1) * h < b <= n * h
    ensures b == (n - 1) * h + Rest(b, h)
  {
    var r := b - (n - 1) * h;
    assert (n - 1) * h + h == n * h;
    if r == h {
      ModIs(b, h, n, 0);
    } else {
      ModIs(b, h, n - 1, r);
    }
  }

  lemma ModIs(b: nat, h: nat, q: nat, r: nat)
    requires r < h && b == q * h + r
    ensures b % h == r
  {
    var q' := b / h;
    assert b == q' * h + b % h;
    Squeeze(b, h, q, q');
  }

  /** The blocks of a component of the frame, by MCU columns and iMCU rows. */
  lemma CompFits(f: Frame, c: nat)
    requires FrameOk(f) && c < |f.comps|
    ensures var k, n, t := f.comps[c], IMcusPerRow(f), TotalIMcuRows(f);
      && 0 < n && k.width == (n - 1) * k.h + Rest(k.width, k.h)
      && 0 < t && k.height == (t - 1) * k.v + Rest(k.height, k.v)
      && 0 < k.width && 0 < k.height
  {
    var k := f.comps[c];
    Positive(f.maxH, f.blockSize);
    Positive(f.maxV, f.blockSize);
    BlocksFill(f.width, k.h, f.maxH * f.blockSize);
    BlocksFill(f.height, k.v, f.maxV * f.blockSize);
    RestIs(IMcusPerRow(f), k.h, k.width);
    RestIs(TotalIMcuRows(f), k.v, k.height);
  }

  lemma Positive(x: nat, y: nat)
    requires 0 < x && 0 < y
    ensures 0 < x * y
  {
  }

  /** In which MCU columns and rows the real blocks are. */
  lemma RealBlocks(f: Frame, s: ScanComps, ci: nat, r: nat, y: nat, col: nat, yindex: nat, xindex: nat)
    requires ScanOk(f, s) && ci < |s| && r < TotalIMcuRows(f) && y < McuRows(f, s, r) && col < McusPerRow(f, s)
    requires yindex < McuHeight(f, s, ci) && xindex < McuWidth(f, s, ci)
    ensures var k := f.comps[s[ci]];
      && (r < TotalIMcuRows(f) - 1 || y + yindex < LastRowHeight(f, s, ci) <==> r * k.v + y + yindex < k.height)
      && (col < McusPerRow(f, s) - 1 || xindex < LastColWidth(f, s, ci) <==> col * McuWidth(f, s, ci) + xindex < k.width)
      && 1 <= LastRowHeight(f, s, ci) <= k.v && 1 <= LastColWidth(f, s, ci) <= McuWidth(f, s, ci)
      && y + yindex < k.v
  {
    var k := f.comps[s[ci]];
    CompFits(f, s[ci]);
    RestSmall(k.width, k.h);
    RestSmall(k.height, k.v);
    Whole(r, TotalIMcuRows(f), k.v, y + yindex);
    if |s| > 1 { Whole(col, IMcusPerRow(f), k.h, xindex); }
  }

  lemma RestSmall(n: nat, k: nat)
    requires 0 < k
    ensures 1 <= Rest(n, k) <= k
  {
  }

  lemma Whole(r: nat, t: nat, v: nat, y: nat)
    requires r < t && y < v
    ensures r < t - 1 ==> r * v + y < (t - 1) * v
    ensures r == t - 1 ==> r * v == (t - 1) * v
  {
    if r < t - 1 {
      MulOrder(r + 1, t - 1, v);
      assert (r + 1) * v == r * v + v;
    }
  }

  // ---- Real and dummy blocks ----

  /** The coefficients of one component: height rows of width blocks. */
  type Plane = seq<seq<Block>>

  predicate PlaneOk(k: Comp, p: Plane) {
    0 < k.h && 0 < k.width && 0 < k.height && |p| == k.height && forall y :: 0 <= y < k.height ==> |p[y]| == k.width
  }

  predicate ImageOk(f: Frame, image: seq<Plane>) {
    |image| == |f.comps| && forall c :: 0 <= c < |f.comps| ==> PlaneOk(f.comps[c], image[c])
  }

  /** The cheapest block to send: nothing but the DC value of the block before it. */
  function Dummy(dc: int): (b: Block)
    requires -0x8000 <= dc < 0x8000
    ensures b[0] == dc
  {
    seq(64, k requires 0 <= k < 64 => if k == 0 then dc else 0)
  }

  function Min(a: nat, b: nat): nat { if a < b then a else b }

  /** The block at any place, within the component or beyond its right and bottom edges.  Beyond
      the right edge the DC value is that of the last block in the row; in a row of dummies it
      is that of the last real block of the same MCU. */
  function Padded(k: Comp, p: Plane, row: nat, col: nat): Block
    requires PlaneOk(k, p)
  {
    if row < k.height then
      if col < k.width then p[row][col] else Dummy(p[row][k.width - 1][0])
    else Dummy(p[k.height - 1][Min(col / k.h * k.h + k.h - 1, k.width - 1)][0])
  }

  /** The blocks x, x + 1, ... of one row of blocks in an MCU. */
  function RowBlocks(k: Comp, p: Plane, row: nat, col: nat, n: nat): (b: seq<Block>)
    requires PlaneOk(k, p)
    ensures |b| == n
  {
    if n == 0 then [] else RowBlocks(k, p, row, col, n - 1) + [Padded(k, p, row, col + n - 1)]
  }

  /** The first n rows of blocks of a component in an MCU. */
  function CompBlocks(k: Comp, p: Plane, row: nat, col: nat, w: nat, n: nat): (b: seq<Block>)
    requires PlaneOk(k, p)
    ensures |b| == n * w
  {
    if n == 0 then [] else CompBlocks(k, p, row, col, w, n - 1) + RowBlocks(k, p, row + n - 1, col, w)
  }

  /** The blocks of the first n components in an MCU: iMCU row r, MCU row y in it, column col. */
  function McuBlocks(f: Frame, s: ScanComps, image: seq<Plane>, r: nat, y: nat, col: nat, n: nat): seq<Block>
    requires ScanOk(f, s) && ImageOk(f, image) && n <= |s|
  {
    if n == 0 then []
    else
      var k := f.comps[s[n - 1]];
      McuBlocks(f, s, image, r, y, col, n - 1)
        + CompBlocks(k, image[s[n - 1]], r * k.v + y, col * McuWidth(f, s, n - 1), McuWidth(f, s, n - 1), McuHeight(f, s, n - 1))
  }

  function Mcu(f: Frame, s: ScanComps, image: seq<Plane>, r: nat, y: nat, col: nat): seq<Block>
    requires ScanOk(f, s) && ImageOk(f, image)
  {
    McuBlocks(f, s, image, r, y, col, |s|)
  }

  // ---- The sequence of MCUs ----

  /** The MCUs in front of column col of MCU row y of iMCU row r. */
  function McusBefore(f: Frame, s: ScanComps, image: seq<Plane>, r: nat, y: nat, col: nat): seq<seq<Block>>
    requires ScanOk(f, s) && ImageOk(f, image) && r <= TotalIMcuRows(f)
    requires if r < TotalIMcuRows(f) then y <= McuRows(f, s, r) && col <= McusPerRow(f, s) else y == col == 0
    decreases r, y, col
  {
    if col > 0 then McusBefore(f, s, image, r, y, col - 1) + [Mcu(f, s, image, r, y, col - 1)]
    else if y > 0 then McusBefore(f, s, image, r, y - 1, McusPerRow(f, s))
    else if r > 0 then McusBefore(f, s, image, r - 1, McuRows(f, s, r - 1), 0)
    else []
  }

  /** All MCUs of the scan. */
  function AllMcus(f: Frame, s: ScanComps, image: seq<Plane>): seq<seq<Block>>
    requires ScanOk(f, s) && ImageOk(f, image)
  {
    McusBefore(f, s, image, TotalIMcuRows(f), 0, 0)
  }
}
