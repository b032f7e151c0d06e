/** The preprocessing controller for compression when context rows are needed
    (pre_process_context of jcprepct.c), for one component. */
module PrepContext {

  type Row = seq<int>

  // ---- The pointers: five row groups that wrap around on three ----

  /** Where entry k points; the first row group is at negative offsets of the color buffer. */
  function Ring(v: nat, k: nat): nat {
    if k < v then 2 * v + k else if k < 4 * v then k - v else k - 4 * v
  }

  lemma RingWraps(v: nat, k: nat)
    requires k < 2 * v
    ensures Ring(v, k) == Ring(v, k + 3 * v)
  {
  }

  lemma RingDistinct(v: nat, j: nat, k: nat)
    requires j < 5 * v && k < 5 * v && j != k && j < k + 3 * v && k < j + 3 * v
    ensures Ring(v, j) != Ring(v, k) && Ring(v, j) < 3 * v
  {
  }

  /** create_context_buffer. */
  method CreateContextBuffer(v: nat) returns (fakeBuffer: array<nat>)
    ensures fresh(fakeBuffer) && fakeBuffer.Length == 5 * v
    ensures forall k :: 0 <= k < 5 * v ==> fakeBuffer[k] == Ring(v, k)
  {
    fakeBuffer := new nat[5 * v];
    for i := 0 to 3 * v
      invariant forall k :: v <= k < v + i ==> fakeBuffer[k] == Ring(v, k)
    {
      fakeBuffer[v + i] := i;
    }
    for i := 0 to v
      invariant forall k :: v <= k < 4 * v ==> fakeBuffer[k] == Ring(v, k)
      invariant forall k :: 0 <= k < i ==> fakeBuffer[k] == Ring(v, k)
      invariant forall k :: 4 * v <= k < 4 * v + i ==> fakeBuffer[k] == Ring(v, k)
    {
      fakeBuffer[i] := 2 * v + i;
      fakeBuffer[4 * v + i] := i;
    }
  }

  // ---- What the downsampler has to see ----

  /** The row of the image with this number; the first and the last one are duplicated. */
  function RowAt(image: seq<Row>, n: int): Row
    requires image != []
  {
    if n < 0 then image[0] else if n < |image| then image[n] else image[|image| - 1]
  }

  function Start(v: nat, g: nat): nat { g * v }

  lemma StartNext(v: nat, g: nat)
    ensures Start(v, g + 1) == Start(v, g) + v
  {
  }

  /** Row group g with one row group of context above and below. */
  function View(image: seq<Row>, v: nat, g: nat): seq<Row>
    requires image != []
  {
    seq(3 * v, j => RowAt(image, Start(v, g) - v + j))
  }

  /** Five rows, two to a row group: what the downsampler sees, row by row. */
  lemma FiveRows(image: seq<Row>)
    requires |image| == 5
    ensures View(image, 2, 0) == [image[0], image[0], image[0], image[1], image[2], image[3]]
    ensures View(image, 2, 1) == [image[0], image[1], image[2], image[3], image[4], image[4]]
    ensures View(image, 2, 2) == [image[2], image[3], image[4], image[4], image[4], image[4]]
  {
    hide RowAt;
    SixRows(image, 0);
    SixRows(image, 1);
    SixRows(image, 2);
    RowsOfFive(image);
  }

  lemma SixRows(image: seq<Row>, g: nat)
    requires image != []
    ensures View(image, 2, g) == [RowAt(image, 2 * g - 2), RowAt(image, 2 * g - 1), RowAt(image, 2 * g),
      RowAt(image, 2 * g + 1), RowAt(image, 2 * g + 2), RowAt(image, 2 * g + 3)]
  {
    hide RowAt;
    assert Start(2, g) == 2 * g;
    var x := View(image, 2, g);
    assert |x| == 6 && forall j :: 0 <= j < 6 ==> x[j] == RowAt(image, 2 * g - 2 + j);
  }

  lemma RowsOfFive(image: seq<Row>)
    requires |image| == 5
    ensures RowAt(image, -2) == RowAt(image, -1) == RowAt(image, 0) == image[0] && RowAt(image, 1) == image[1]
    ensures RowAt(image, 2) == image[2] && RowAt(image, 3) == image[3] && RowAt(image, 4) == image[4]
    ensures RowAt(image, 5) == RowAt(image, 6) == RowAt(image, 7) == image[4]
  {
  }

  /** The rows from number low to filled - 1 are where the window of row group g has them. */
  predicate Window(image: seq<Row>, v: nat, work: seq<Row>, at: nat, g: nat, low: int, filled: nat)
    requires image != []
  {
    && |work| == 3 * v && at <= 2 * v
    && (forall k :: at <= k < at + 3 * v && low <= Start(v, g) - v + k - at < filled ==>
          Ring(v, k) < 3 * v && work[Ring(v, k)] == RowAt(image, Start(v, g) - v + k - at))
  }

  /** The offset of the window when it is moved on, with wraparound. */
  function Next(v: nat, at: nat): nat {
    if at + v >= 3 * v then 0 else at + v
  }

  lemma WindowMoves(image: seq<Row>, v: nat, work: seq<Row>, at: nat, g: nat, low: int, filled: nat)
    requires image != [] && Window(image, v, work, at, g, low, filled) && 0 < v && at in {0, v, 2 * v} && filled == Start(v, g) + 2 * v
    ensures Window(image, v, work, Next(v, at), g + 1, low, filled)
  {
    hide Start, Ring, RowAt;
    StartNext(v, g);
    var to := Next(v, at);
    forall k | to <= k < to + 3 * v && low <= Start(v, g + 1) - v + k - to < filled
      ensures Ring(v, k) < 3 * v && work[Ring(v, k)] == RowAt(image, Start(v, g + 1) - v + k - to)
    {
      var k' := k - to + v + at;
      assert Start(v, g) - v + k' - at == Start(v, g + 1) - v + k - to;
      if to == 0 { RingWraps(v, k); }
    }
  }

  /** The next row goes to the end of what is filled. */
  lemma WindowGrows(image: seq<Row>, v: nat, work: seq<Row>, at: nat, g: nat, low: int, filled: nat, k: nat, row: Row)
    requires image != [] && Window(image, v, work, at, g, low, filled)
    requires at <= k < at + 3 * v && Start(v, g) - v + k - at == filled && Ring(v, k) < 3 * v && row == RowAt(image, filled)
    ensures Window(image, v, work[Ring(v, k) := row], at, g, low, filled + 1)
  {
    hide Start, Ring, RowAt;
    forall j | at <= j < at + 3 * v && low <= Start(v, g) - v + j - at < filled
      ensures Ring(v, j) != Ring(v, k)
    {
      RingDistinct(v, j, k);
    }
  }

  /** The rows that a window of the color buffer points to. */
  function Shown(v: nat, work: seq<Row>, ptrs: seq<nat>, at: nat): seq<Row>
    requires at + 3 * v <= |ptrs| && forall k :: at <= k < at + 3 * v ==> ptrs[k] < |work|
  {
    seq(3 * v, j requires 0 <= j < 3 * v => work[ptrs[at + j]])
  }

  lemma WindowIsView(image: seq<Row>, v: nat, work: seq<Row>, ptrs: seq<nat>, at: nat, g: nat, low: int, filled: nat)
    requires image != [] && Window(image, v, work, at, g, low, filled) && 0 < v && Start(v, g) + 2 * v <= filled && low <= 0 - v
    requires |ptrs| == 5 * v && forall k :: 0 <= k < 5 * v ==> ptrs[k] == Ring(v, k)
    ensures forall k :: at <= k < at + 3 * v ==> ptrs[k] < 3 * v
    ensures Shown(v, work, ptrs, at) == View(image, v, g)
  {
    hide Start, Ring, RowAt;
    var a := Shown(v, work, ptrs, at);
    var b := View(image, v, g);
    forall j | 0 <= j < 3 * v
      ensures a[j] == b[j]
    {
      var k := at + j;
      assert work[Ring(v, k)] == RowAt(image, Start(v, g) - v + k - at);
    }
  }

  // ---- The controller ----

  class PrepController {
    const v: nat
    const imageHeight: nat
    ghost const image: seq<Row>
    const trueBuffer: array<Row>
    const colorBuf: array<nat>
    var rowsToGo: nat
    var nextBufRow: nat
    var thisRowGroup: nat
    var nextBufStop: nat
    /** The row at the end of the buffer, counting those that pad the image. */
    ghost var filled: nat
    /** What the downsampler has seen for each row group. */
    var seen: seq<seq<Row>>

    ghost predicate Set()
      reads colorBuf
    {
      && 0 < v && |image| == imageHeight > 0 && trueBuffer.Length == 3 * v && colorBuf.Length == 5 * v
      && forall k :: 0 <= k < 5 * v ==> colorBuf[k] == Ring(v, k)
    }

    ghost predicate Sound()
      requires image != []
      reads `seen
    {
      forall g :: 0 <= g < |seen| ==> seen[g] == View(image, v, g)
    }

    /** How the indices follow from the number of row groups done and of rows in the buffer. */
    ghost predicate Indices()
      reads `nextBufRow, `thisRowGroup, `nextBufStop, `filled, `seen, `rowsToGo
    {
      var turn := if thisRowGroup == 2 * v then 3 * v else 0;
      && thisRowGroup in {0, v, 2 * v} && (seen == [] ==> thisRowGroup == 0)
      && nextBufRow == thisRowGroup + filled - Start(v, |seen|) - turn
      && nextBufStop == thisRowGroup + 2 * v - turn
      && (seen == [] || Start(v, |seen|) + v <= filled) && filled <= Start(v, |seen|) + 2 * v
      && rowsToGo == if filled < imageHeight then imageHeight - filled else 0
    }

    ghost predicate Filled()
      requires image != []
      reads trueBuffer, `thisRowGroup, `seen, `filled
    {
      Window(image, v, trueBuffer[..], thisRowGroup, |seen|, if filled == 0 then 0 else 0 - v, filled)
    }

    ghost predicate Valid()
      reads this, colorBuf, trueBuffer
    {
      Set() && Sound() && Indices() && Filled() && filled < Start(v, |seen|) + 2 * v
    }

    /** start_pass_prep. */
    constructor (v: nat, ghost image: seq<Row>, imageHeight: nat, trueBuffer: array<Row>, colorBuf: array<nat>)
      requires 0 < v && |image| == imageHeight > 0 && trueBuffer.Length == 3 * v && colorBuf.Length == 5 * v
      requires forall k :: 0 <= k < 5 * v ==> colorBuf[k] == Ring(v, k)
      ensures Valid() && rowsToGo == imageHeight && seen == []
      ensures this.v == v && this.image == image && this.imageHeight == imageHeight
      ensures this.trueBuffer == trueBuffer && this.colorBuf == colorBuf
    {
      this.v, this.image, this.imageHeight, this.trueBuffer, this.colorBuf := v, image, imageHeight, trueBuffer, colorBuf;
      rowsToGo, nextBufRow, thisRowGroup, nextBufStop := imageHeight, 0, 0, 2 * v;
      filled, seen := 0, [];
    }

    /** Where the next row goes. */
    lemma NextRow(low: int) returns (k: nat)
      requires Set() && Indices() && filled < Start(v, |seen|) + 2 * v
      ensures v + nextBufRow < 4 * v && Ring(v, v + nextBufRow) == nextBufRow
      ensures thisRowGroup <= k < thisRowGroup + 3 * v && Start(v, |seen|) - v + k - thisRowGroup == filled
      ensures Ring(v, k) == nextBufRow < 3 * v
      ensures k == v + nextBufRow || (k == v + nextBufRow + 3 * v && nextBufRow < v)
    {
      k := filled + v + thisRowGroup - Start(v, |seen|);
    }

    /** color_convert: numrows rows of the input. */
    method ConvertRows(input: seq<Row>, from: nat, numrows: nat, ghost low: int)
      requires Set() && Indices() && filled + numrows <= imageHeight && nextBufRow + numrows <= nextBufStop
      requires from + numrows <= |input| && input[from..from + numrows] == image[filled..filled + numrows]
      requires Window(image, v, trueBuffer[..], thisRowGroup, |seen|, low, filled)
      modifies trueBuffer, `nextBufRow, `rowsToGo, `filled
      ensures Indices() && filled == old(filled) + numrows
      ensures Window(image, v, trueBuffer[..], thisRowGroup, |seen|, low, filled)
    {
      hide Start, Ring, Window;
      for i := 0 to numrows
        invariant Indices() && filled == old(filled) + i
        invariant Window(image, v, trueBuffer[..], thisRowGroup, |seen|, low, filled)
      {
        ghost var k := NextRow(low);
        assert input[from..from + numrows][i] == image[old(filled)..old(filled) + numrows][i];
        WindowGrows(image, v, trueBuffer[..], thisRowGroup, |seen|, low, filled, k, input[from + i]);
        trueBuffer[colorBuf[v + nextBufRow]] := input[from + i];
        nextBufRow := nextBufRow + 1;
        filled := filled + 1;
        rowsToGo := rowsToGo - 1;
      }
    }

    /** At the top of the image, copies of the first row go above it. */
    method PadTop()
      requires Set() && seen == [] && thisRowGroup == 0 && 0 < filled <= 2 * v
      requires Window(image, v, trueBuffer[..], 0, 0, 0, filled)
      modifies trueBuffer
      ensures Window(image, v, trueBuffer[..], 0, 0, 0 - v, filled)
    {
      hide Start, Window;
      StartZero(v);
      for row := 1 to v + 1
        invariant Window(image, v, trueBuffer[..], 0, 0, 1 - row, filled)
      {
        TopGrows(image, v, trueBuffer[..], row, filled);
        trueBuffer[colorBuf[v - row]] := trueBuffer[colorBuf[v]];
      }
    }

    /** expand_bottom_edge: copies of the last row fill the buffer up. */
    method PadBottom()
      requires Set() && Indices() && 0 < imageHeight <= filled && Filled()
      modifies trueBuffer, `nextBufRow, `filled
      ensures Indices() && Filled() && nextBufRow == nextBufStop && filled == Start(v, |seen|) + 2 * v
    {
      hide Start, Ring, Window;
      if nextBufRow < nextBufStop {
        var last := LastFilled();
        PadRows(last);
      }
      FullWindow();
    }

    method LastFilled() returns (last: Row)
      requires Set() && Indices() && 0 < imageHeight <= filled && Filled() && nextBufRow < nextBufStop
      ensures last == image[imageHeight - 1]
    {
      hide Start, Ring, Window;
      ghost var k := NextRow(0 - v);
      LastRow(image, v, trueBuffer[..], thisRowGroup, |seen|, 0 - v, filled, k);
      if k != v + nextBufRow { RingWraps(v, v + nextBufRow - 1); }
      last := trueBuffer[colorBuf[v + nextBufRow - 1]];
    }

    method PadRows(last: Row)
      requires Set() && Indices() && 0 < imageHeight <= filled && Filled() && last == image[imageHeight - 1]
      modifies trueBuffer, `nextBufRow, `filled
      ensures Indices() && Filled() && nextBufRow == nextBufStop
    {
      hide Start, Ring, Window;
      ghost var low := 0 - v;
      while nextBufRow < nextBufStop
        invariant Indices() && imageHeight <= filled
        invariant Window(image, v, trueBuffer[..], thisRowGroup, |seen|, low, filled)
        decreases nextBufStop - nextBufRow
      {
        ghost var k := NextRow(low);
        WindowGrows(image, v, trueBuffer[..], thisRowGroup, |seen|, low, filled, k, last);
        trueBuffer[colorBuf[v + nextBufRow]] := last;
        nextBufRow := nextBufRow + 1;
        filled := filled + 1;
      }
    }

    /** The downsampler gets a row group, and the pointers move on with wraparound. */
    method Downsample()
      requires Set() && Sound() && Indices() && Filled() && nextBufRow == nextBufStop
      modifies `seen, `thisRowGroup, `nextBufRow, `nextBufStop
      ensures Valid() && |seen| == |old(seen)| + 1 && old(seen) <= seen
    {
      hide Start, Window, View;
      ghost var g := |seen|;
      FullWindow();
      WindowIsView(image, v, trueBuffer[..], colorBuf[..], thisRowGroup, g, 0 - v, filled);
      WindowMoves(image, v, trueBuffer[..], thisRowGroup, g, 0 - v, filled);
      StartNext(v, g);
      seen := seen + [Shown(v, trueBuffer[..], colorBuf[..], thisRowGroup)];
      var bufHeight := v * 3;
      thisRowGroup := thisRowGroup + v;
      if thisRowGroup >= bufHeight { thisRowGroup := 0; }
      if nextBufRow >= bufHeight { nextBufRow := 0; }
      nextBufStop := nextBufRow + v;
    }

    lemma FullWindow()
      requires Set() && Indices() && nextBufRow == nextBufStop
      ensures filled == Start(v, |seen|) + 2 * v && 0 < filled
    {
    }

    /** pre_process_context: any number of input rows, and room for any number of row groups. */
    method PreProcessContext(input: seq<Row>, outRowGroupsAvail: nat) returns (inRowCtr: nat, outRowGroupCtr: nat)
      requires Valid() && |input| <= rowsToGo && input == image[imageHeight - rowsToGo..imageHeight - rowsToGo + |input|]
      modifies this, trueBuffer
      ensures Valid() && rowsToGo == old(rowsToGo) - inRowCtr && old(seen) <= seen
      ensures inRowCtr <= |input| && outRowGroupCtr == |seen| - |old(seen)| <= outRowGroupsAvail
      ensures outRowGroupCtr == outRowGroupsAvail || (inRowCtr == |input| && rowsToGo > 0)
    {
      hide Start, Window, View, Ring;
      inRowCtr, outRowGroupCtr := 0, 0;
      while outRowGroupCtr < outRowGroupsAvail
        invariant Valid() && inRowCtr <= |input| && rowsToGo == old(rowsToGo) - inRowCtr
        invariant outRowGroupCtr == |seen| - |old(seen)| <= outRowGroupsAvail && old(seen) <= seen
        decreases outRowGroupsAvail - outRowGroupCtr, |input| - inRowCtr
      {
        if inRowCtr < |input| {
          var numrows := Min(nextBufStop - nextBufRow, |input| - inRowCtr);
          InputPart(image, input, imageHeight - old(rowsToGo), inRowCtr, numrows);
          TakeRows(input, inRowCtr, numrows);
          inRowCtr := inRowCtr + numrows;
        } else {
          if rowsToGo != 0 { break; }
          PadBottom();
        }
        if nextBufRow == nextBufStop {
          Downsample();
          outRowGroupCtr := outRowGroupCtr + 1;
        }
      }
    }

    /** Color conversion, with padding at the top of the image the first time through. */
    method TakeRows(input: seq<Row>, from: nat, numrows: nat)
      requires Valid() && 0 < numrows <= rowsToGo && nextBufRow + numrows <= nextBufStop && from + numrows <= |input|
      requires input[from..from + numrows] == image[imageHeight - rowsToGo..imageHeight - rowsToGo + numrows]
      modifies trueBuffer, `nextBufRow, `rowsToGo, `filled
      ensures Set() && Sound() && Indices() && Filled() && rowsToGo == old(rowsToGo) - numrows
      ensures nextBufRow == old(nextBufRow) + numrows
    {
      hide Start, Window, View, Ring;
      var first := rowsToGo == imageHeight;
      ConvertRows(input, from, numrows, if first then 0 else 0 - v);
      if first { PadTop(); }
    }
  }

  lemma InputPart(image: seq<Row>, input: seq<Row>, lo: nat, from: nat, n: nat)
    requires lo + |input| <= |image| && input == image[lo..lo + |input|] && from + n <= |input|
    ensures input[from..from + n] == image[lo + from..lo + from + n]
  {
    var x, y := input[from..from + n], image[lo + from..lo + from + n];
    forall k | 0 <= k < n ensures x[k] == y[k] {
      assert input[from + k] == image[lo + (from + k)];
    }
  }

  function Min(a: nat, b: nat): nat { if a < b then a else b }

  lemma StartZero(v: nat)
    ensures Start(v, 0) == 0
  {
  }

  lemma TopGrows(image: seq<Row>, v: nat, work: seq<Row>, row: nat, filled: nat)
    requires image != [] && 0 < row <= v && 0 < filled && Window(image, v, work, 0, 0, 1 - row, filled)
    ensures Ring(v, v) < 3 * v && Ring(v, v - row) < 3 * v
    ensures Window(image, v, work[Ring(v, v - row) := work[Ring(v, v)]], 0, 0, 0 - row, filled)
  {
    hide Ring;
    RingDistinct(v, v - row, v);
    RingDistinct(v, v, v - row);
    forall k | v - row < k < 3 * v
      ensures Ring(v, k) != Ring(v, v - row)
    {
      RingDistinct(v, k, v - row);
    }
  }

  /** The last row in the buffer is the last row of the image. */
  lemma LastRow(image: seq<Row>, v: nat, work: seq<Row>, at: nat, g: nat, low: int, filled: nat, k: nat)
    requires image != [] && Window(image, v, work, at, g, low, filled) && low <= 0 && |image| <= filled
    requires at < k < at + 3 * v && Start(v, g) - v + k - at == filled
    ensures Ring(v, k - 1) < 3 * v && work[Ring(v, k - 1)] == image[|image| - 1]
  {
  }

  // ---- A whole pass ----

  datatype Call = Call(rows: nat, groups: nat)

  /** However the input rows and the output row groups are split over the calls, the downsampler
      sees the row groups in order, each with the true rows above and below; and a call that has
      a row to offer and room for a row group takes the one or fills the other. */
  method RunPass(image: seq<Row>, v: nat, calls: seq<Call>) returns (seen: seq<seq<Row>>, rowsToGo: nat)
    requires image != [] && 0 < v
    ensures forall g :: 0 <= g < |seen| ==> seen[g] == View(image, v, g)
    ensures rowsToGo <= |image| && (rowsToGo == 0 ==> |image| <= Start(v, |seen|) + 2 * v)
    ensures (forall i :: 0 <= i < |calls| ==> 0 < calls[i].rows && 0 < calls[i].groups) ==> |calls| <= |seen| + |image| - rowsToGo
  {
    hide View, Ring;
    var colorBuf := CreateContextBuffer(v);
    var trueBuffer := new Row[3 * v];
    var c := new PrepController(v, image, |image|, trueBuffer, colorBuf);
    for i := 0 to |calls|
      invariant c.Valid() && fresh(c) && c.image == image && c.imageHeight == |image| && c.v == v
      invariant c.trueBuffer == trueBuffer && fresh(trueBuffer) && c.colorBuf == colorBuf
      invariant (forall j :: 0 <= j < |calls| ==> 0 < calls[j].rows && 0 < calls[j].groups) ==> i <= |c.seen| + |image| - c.rowsToGo
    {
      var at := |image| - c.rowsToGo;
      var n := Min(calls[i].rows, c.rowsToGo);
      var inRowCtr, outRowGroupCtr := c.PreProcessContext(image[at..at + n], calls[i].groups);
    }
    seen, rowsToGo := c.seen, c.rowsToGo;
  }
}
