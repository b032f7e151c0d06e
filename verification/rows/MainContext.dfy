/** How jdmainct.c feeds the postprocessor when context rows are needed
    (process_data_context_main of jdmainct.c), for one component. */
module MainContext {
  import opened Radix
  import opened FunnyPointers
  import opened McuGeometry

  // ---- What the postprocessor has to see ----

  /** Row groups in the image. */
  function Groups(z: Shape): nat
    requires z.Ok()
  {
    (z.total - 1) * z.m + LastGroups(z)
  }

  /** Row groups with real rows in the last iMCU row. */
  function LastGroups(z: Shape): nat
    requires z.Ok()
  {
    (z.RowsLeft() - 1) / z.rgroup + 1
  }

  lemma LastGroupsBound(z: Shape)
    requires z.Ok()
    ensures 1 <= LastGroups(z) <= z.m
    ensures z.Upto(LastGroups(z) - 1) < z.RowsLeft() <= z.Upto(LastGroups(z))
  {
    Left(z);
    var n, q := z.RowsLeft() - 1, LastGroups(z) - 1;
    assert n == q * z.rgroup + n % z.rgroup;
    assert z.Upto(q + 1) == z.rgroup * q + z.rgroup;
    if q >= z.m { MulOrder(z.m, q, z.rgroup); }
  }

  /** The row group that is postponed until the last iMCU row is there. */
  predicate Postponed(z: Shape, g: int)
    requires z.Ok()
  {
    g == (z.total - 1) * z.m - 1
  }

  /** The row that is shown for row number n of the component when row group g is processed: the
      first and the last real row are duplicated, but the last one not for a row group that was
      postponed. */
  function RowNumber(z: Shape, g: nat, n: int): nat
    requires z.Ok()
  {
    Ends(z);
    if n < 0 then 0
    else if n < z.height || (Postponed(z, g) && n < z.total * z.Rows()) then n
    else z.height - 1
  }

  function RowFor(z: Shape, data: seq<Row>, g: nat, n: int): Row
    requires z.Ok() && |data| == z.total * z.Rows()
  {
    Ends(z);
    data[RowNumber(z, g, n)]
  }

  lemma Ends(z: Shape)
    requires z.Ok()
    ensures 0 < z.height <= z.total * z.Rows()
  {
    Left(z);
  }

  /** Row group g with one row group of context above and below. */
  function View(z: Shape, data: seq<Row>, g: nat): seq<Row>
    requires z.Ok() && |data| == z.total * z.Rows()
  {
    seq(3 * z.rgroup, j => RowFor(z, data, g, z.Upto(g) - z.rgroup + j))
  }

  // ---- What the pointers show ----

  /** The rows that entries p, p + 1, ... of a list point to. */
  function Shown(z: Shape, work: seq<Row>, x: seq<nat>, p: nat): seq<Row>
    requires p + 3 * z.rgroup <= |x| && forall k :: p <= k < p + 3 * z.rgroup ==> x[k] < |work|
  {
    seq(3 * z.rgroup, j requires 0 <= j < 3 * z.rgroup => work[x[p + j]])
  }

  /** Entries lo to hi - 1 show the rows of the component from number base - rgroup + lo on. */
  predicate Reads(z: Shape, work: seq<Row>, x: seq<nat>, data: seq<Row>, lo: nat, hi: nat, base: int) {
    && hi <= |x| && data != []
    && forall k :: lo <= k < hi ==>
         x[k] < |work| && base + k - z.rgroup < |data|
           && work[x[k]] == if base + k - z.rgroup < 0 then data[0] else data[base + k - z.rgroup]
  }

  /** The iMCU row that starts at row number base is in the workspace, by list w. */
  predicate HoldsStrip(z: Shape, work: seq<Row>, data: seq<Row>, w: nat, base: nat)
    requires z.Ok()
  {
    && |work| == z.Rows() + 2 * z.rgroup && base + z.Rows() <= |data|
    && forall i :: 0 <= i < z.Rows() ==> Base(z, w, i) < |work| && work[Base(z, w, i)] == data[base + i]
  }

  /** Two row groups of the iMCU row before it, its last, were kept. */
  predicate KeptGroups(z: Shape, work: seq<Row>, data: seq<Row>, w: nat, base: nat)
    requires z.Ok()
  {
    && |work| == z.Rows() + 2 * z.rgroup && 2 * z.rgroup <= base <= |data|
    && forall i :: z.Rows() <= i < z.Rows() + 2 * z.rgroup ==>
         Base(z, w, i) < |work| && work[Base(z, w, i)] == data[base + i - z.Rows() - 2 * z.rgroup]
  }

  lemma TopReads(z: Shape, work: seq<Row>, x: seq<nat>, data: seq<Row>)
    requires z.Ok() && AtTop(z, x) && HoldsStrip(z, work, data, 0, 0)
    ensures Reads(z, work, x, data, 0, z.Rows() + z.rgroup, 0)
  {
    hide Shape.Ok, Shape.Rows, Base;
    Sizes(z);
    assert x[z.rgroup] == Base(z, 0, 0) == 0 by { BaseZero(z); }
  }

  lemma BaseZero(z: Shape)
    requires z.Ok()
    ensures Base(z, 0, 0) == 0
  {
  }

  lemma NormalReads(z: Shape, work: seq<Row>, x: seq<nat>, data: seq<Row>, w: nat, base: nat)
    requires z.Ok() && Normal(z, x, w) && HoldsStrip(z, work, data, w, base) && KeptGroups(z, work, data, w, base)
    ensures Reads(z, work, x, data, 0, z.Rows() + z.rgroup, base)
    ensures Reads(z, work, x, data, z.Rows() + z.rgroup, z.Rows() + 4 * z.rgroup, base - z.Rows() - 2 * z.rgroup)
  {
    hide Shape.Ok, Shape.Rows, Base;
    Sizes(z);
  }

  /** Row group i of a list is row group g0 + i of the component. */
  predicate ServesOne(z: Shape, work: seq<Row>, x: seq<nat>, data: seq<Row>, i: nat, g0: int)
    requires z.Ok() && |data| == z.total * z.Rows()
  {
    && 0 <= g0 + i && z.Upto(i) + 3 * z.rgroup <= |x|
    && (forall k :: z.Upto(i) <= k < z.Upto(i) + 3 * z.rgroup ==> x[k] < |work|)
    && Shown(z, work, x, z.Upto(i)) == View(z, data, g0 + i)
  }

  predicate Serves(z: Shape, work: seq<Row>, x: seq<nat>, data: seq<Row>, lo: nat, hi: nat, g0: int)
    requires z.Ok() && |data| == z.total * z.Rows()
  {
    forall i :: lo <= i < hi ==> ServesOne(z, work, x, data, i, g0)
  }

  /** Row numbers by row groups. */
  lemma Number(z: Shape, t: nat, i: int, g: nat)
    requires z.Ok() && 1 <= t && g == (t - 1) * z.m + i
    ensures z.Upto(g) == (t - 1) * z.Rows() + z.rgroup * i
  {
    assert z.rgroup * ((t - 1) * z.m) == (t - 1) * (z.rgroup * z.m);
  }

  lemma StripNumbers(z: Shape, t: nat, i: nat)
    requires z.Ok() && 1 <= t < z.total && i < z.m - 1
    ensures z.Upto((t - 1) * z.m + i) == (t - 1) * z.Rows() + z.Upto(i)
    ensures z.Upto(i) + 2 * z.rgroup <= z.Rows() && (t - 1) * z.Rows() + z.Rows() < z.height
  {
    Number(z, t, i, (t - 1) * z.m + i);
    RowsAbove(z, i);
    StripAbove(z, t);
  }

  lemma RowsAbove(z: Shape, i: nat)
    requires z.Ok() && i < z.m - 1
    ensures z.Upto(i) + 2 * z.rgroup <= z.Rows() && z.Upto(i) == z.rgroup * i
  {
    MulOrder(i + 2, z.m, z.rgroup);
  }

  lemma StripAbove(z: Shape, t: nat)
    requires z.Ok() && 1 <= t < z.total
    ensures (t - 1) * z.Rows() + z.Rows() < z.height
  {
    var rows := z.Rows();
    assert t * rows == (t - 1) * rows + rows;
    MulOrder(t, z.total - 1, rows);
  }

  lemma ReadsPart(z: Shape, work: seq<Row>, x: seq<nat>, data: seq<Row>, lo: nat, hi: nat, base: int, a: nat, b: nat)
    requires Reads(z, work, x, data, lo, hi, base) && lo <= a <= b <= hi
    ensures Reads(z, work, x, data, a, b, base)
  {
  }

  /** An iMCU row above the bottom serves its row groups but the last. */
  lemma StripServes(z: Shape, work: seq<Row>, x: seq<nat>, data: seq<Row>, t: nat, i: nat)
    requires z.Ok() && |data| == z.total * z.Rows() && 1 <= t < z.total && i < z.m - 1
    requires Reads(z, work, x, data, 0, z.Rows() + z.rgroup, (t - 1) * z.Rows())
    ensures ServesOne(z, work, x, data, i, (t - 1) * z.m)
  {
    hide Shape.Ok, Shape.Rows, Shape.Upto, Shown, View, Reads;
    StripNumbers(z, t, i);
    ReadsPart(z, work, x, data, 0, z.Rows() + z.rgroup, (t - 1) * z.Rows(), z.Upto(i), z.Upto(i) + 3 * z.rgroup);
    Same(z, work, x, data, z.Upto(i), (t - 1) * z.Rows(), (t - 1) * z.m + i);
  }

  lemma PostponedNumbers(z: Shape, t: nat)
    requires z.Ok() && 2 <= t <= z.total
    ensures 0 < (t - 1) * z.m
    ensures z.Upto((t - 1) * z.m - 1) == (t - 1) * z.Rows() - z.rgroup && z.Upto(z.m + 1) == z.Rows() + z.rgroup
    ensures t < z.total ==> (t - 1) * z.Rows() + z.Rows() < z.height
    ensures z.rgroup <= z.Rows() && (Postponed(z, (t - 1) * z.m - 1) <==> t == z.total)
  {
    Sizes(z);
    MulOrder(1, t - 1, z.m);
    Number(z, t, -1, (t - 1) * z.m - 1);
    assert t * z.Rows() == (t - 1) * z.Rows() + z.Rows();
    if t < z.total {
      MulOrder(t, z.total - 1, z.Rows());
      MulOrder(t - 1, z.total - 1, z.m);
    }
  }

  /** When the next iMCU row is there, the last row group of the one before can be served. */
  lemma PostponedServes(z: Shape, work: seq<Row>, x: seq<nat>, data: seq<Row>, t: nat)
    requires z.Ok() && |data| == z.total * z.Rows() && 2 <= t <= z.total
    requires Reads(z, work, x, data, z.Rows() + z.rgroup, z.Rows() + 4 * z.rgroup, (t - 1) * z.Rows() - z.Rows() - 2 * z.rgroup)
    ensures Serves(z, work, x, data, z.m + 1, z.m + 2, (t - 1) * z.m - 1 - (z.m + 1))
  {
    hide Shape.Ok, Shape.Rows, Shape.Upto, Shown, View, Postponed;
    PostponedNumbers(z, t);
    Same(z, work, x, data, z.Upto(z.m + 1), (t - 1) * z.Rows() - z.Rows() - 2 * z.rgroup, (t - 1) * z.m - 1);
  }

  lemma LastNumbers(z: Shape, i: nat)
    requires z.Ok() && i < LastGroups(z)
    ensures z.Upto((z.total - 1) * z.m + i) == (z.total - 1) * z.Rows() + z.Upto(i)
    ensures z.Upto(i) < z.RowsLeft() <= z.Rows() && z.height == (z.total - 1) * z.Rows() + z.RowsLeft()
    ensures !Postponed(z, (z.total - 1) * z.m + i)
  {
    Number(z, z.total, i, (z.total - 1) * z.m + i);
    LastGroupsBound(z);
    Left(z);
    MulOrder(i, LastGroups(z) - 1, z.rgroup);
  }

  lemma LastEntry(z: Shape, work: seq<Row>, x: seq<nat>, r: seq<nat>, data: seq<Row>, base: nat, k: nat)
    requires z.Ok() && |data| == z.total * z.Rows() && |x| == z.Rows() + 4 * z.rgroup && base == (z.total - 1) * z.Rows()
    requires Reads(z, work, x, data, 0, z.Rows() + z.rgroup, base) && AtBottom(z, x, r, 2 * z.rgroup)
    requires k < z.RowsLeft() + 3 * z.rgroup && 1 <= z.RowsLeft() <= z.Rows()
    ensures k < |r| && r[k] < |work| && 0 < z.height <= |data|
    ensures var n := base + k - z.rgroup;
      work[r[k]] == if n < 0 then data[0] else if n < z.height then data[n] else data[z.height - 1]
  {
    hide Shape.Ok, Shape.Rows, Shape.Upto;
    Ends(z);
    var left := z.rgroup + z.RowsLeft();
    var e := if left <= k then left - 1 else k;
    assert r[k] == x[e];
  }

  lemma LastRow(z: Shape, data: seq<Row>, g: nat, n: int)
    requires z.Ok() && |data| == z.total * z.Rows() && !Postponed(z, g)
    ensures 0 < z.height <= |data|
    ensures RowFor(z, data, g, n) == if n < 0 then data[0] else if n < z.height then data[n] else data[z.height - 1]
  {
    Ends(z);
  }

  /** With the bottom pointers the last iMCU row serves all its row groups. */
  lemma LastServes(z: Shape, work: seq<Row>, x: seq<nat>, r: seq<nat>, data: seq<Row>, i: nat)
    requires z.Ok() && |data| == z.total * z.Rows() && i < LastGroups(z) && |x| == z.Rows() + 4 * z.rgroup
    requires Reads(z, work, x, data, 0, z.Rows() + z.rgroup, (z.total - 1) * z.Rows()) && AtBottom(z, x, r, 2 * z.rgroup)
    ensures ServesOne(z, work, r, data, i, (z.total - 1) * z.m)
  {
    hide Shape.Ok, Shape.Rows, Shape.Upto, Shape.RowsLeft, Postponed, LastGroups;
    LastNumbers(z, i);
    Ends(z);
    Left(z);
    var p, base, g := z.Upto(i), (z.total - 1) * z.Rows(), (z.total - 1) * z.m + i;
    forall j | 0 <= j < 3 * z.rgroup
      ensures Entry(z, work, r, data, p, g, j)
    {
      LastEntry(z, work, x, r, data, base, p + j);
      LastRow(z, data, g, base + (p + j) - z.rgroup);
      assert z.Upto(g) - z.rgroup + j == base + (p + j) - z.rgroup;
    }
    Entries(z, work, r, data, p, g);
  }

  /** Entry j of the list is what the view has there. */
  predicate Entry(z: Shape, work: seq<Row>, x: seq<nat>, data: seq<Row>, p: nat, g: nat, j: nat)
    requires z.Ok() && |data| == z.total * z.Rows()
  {
    p + j < |x| && x[p + j] < |work| && work[x[p + j]] == RowFor(z, data, g, z.Upto(g) - z.rgroup + j)
  }

  lemma Entries(z: Shape, work: seq<Row>, x: seq<nat>, data: seq<Row>, p: nat, g: nat)
    requires z.Ok() && |data| == z.total * z.Rows() && p + 3 * z.rgroup <= |x|
    requires forall j :: 0 <= j < 3 * z.rgroup ==> Entry(z, work, x, data, p, g, j)
    ensures forall k :: p <= k < p + 3 * z.rgroup ==> x[k] < |work|
    ensures Shown(z, work, x, p) == View(z, data, g)
  {
    hide Shape.Ok, Shape.Rows, Shape.Upto, RowFor;
    forall k | p <= k < p + 3 * z.rgroup
      ensures x[k] < |work|
    {
      assert Entry(z, work, x, data, p, g, k - p);
    }
    var a, b := Shown(z, work, x, p), View(z, data, g);
    forall j | 0 <= j < 3 * z.rgroup
      ensures a[j] == b[j]
    {
      assert Entry(z, work, x, data, p, g, j);
    }
  }

  lemma Same(z: Shape, work: seq<Row>, x: seq<nat>, data: seq<Row>, p: nat, base: int, g: nat)
    requires z.Ok() && |data| == z.total * z.Rows()
    requires Reads(z, work, x, data, p, p + 3 * z.rgroup, base) && z.Upto(g) == base + p
    requires base + p + 2 * z.rgroup <= z.height || Postponed(z, g)
    ensures p + 3 * z.rgroup <= |x| && forall k :: p <= k < p + 3 * z.rgroup ==> x[k] < |work|
    ensures Shown(z, work, x, p) == View(z, data, g)
  {
    hide Shape.Ok, Shape.Rows, Shape.Upto, Postponed;
    Ends(z);
    forall j | 0 <= j < 3 * z.rgroup
      ensures Entry(z, work, x, data, p, g, j)
    {
      var k := p + j;
      assert x[k] < |work| && base + k - z.rgroup < |data|;
      assert z.Upto(g) - z.rgroup + j == base + k - z.rgroup;
    }
    Entries(z, work, x, data, p, g);
  }

  // ---- Reading ----

  lemma BaseDistinct(z: Shape, w: nat, i: nat, j: nat)
    requires z.Ok() && i < z.Rows() + 2 * z.rgroup && j < z.Rows() + 2 * z.rgroup && i != j
    ensures Base(z, w, i) != Base(z, w, j) && Base(z, w, i) < z.Rows() + 2 * z.rgroup
  {
    hide Shape.Rows, Shape.Ok;
    Sizes(z);
  }

  lemma BaseSwapped(z: Shape, w: nat, i: nat)
    requires z.Ok() && w <= 1 && z.Rows() <= i < z.Rows() + 2 * z.rgroup
    ensures Base(z, w, i) == Base(z, 1 - w, i - 2 * z.rgroup)
  {
    hide Shape.Rows, Shape.Ok;
    Sizes(z);
  }

  /** Two row groups of list w, its last, still lead to the same rows. */
  predicate Untouched(z: Shape, before: seq<Row>, work: seq<Row>, w: nat)
    requires z.Ok()
  {
    && |work| == |before| == z.Rows() + 2 * z.rgroup
    && forall i :: z.Rows() <= i < z.Rows() + 2 * z.rgroup ==> Base(z, w, i) < |work| && work[Base(z, w, i)] == before[Base(z, w, i)]
  }

  lemma Kept(z: Shape, before: seq<Row>, work: seq<Row>, data: seq<Row>, w: nat, base: nat)
    requires z.Ok() && w <= 1 && Untouched(z, before, work, w)
    requires z.Rows() <= base <= |data| && HoldsStrip(z, before, data, 1 - w, base - z.Rows())
    ensures KeptGroups(z, work, data, w, base)
  {
    hide Shape.Rows, Shape.Ok, Base;
    Sizes(z);
    forall i | z.Rows() <= i < z.Rows() + 2 * z.rgroup
      ensures Base(z, w, i) < |work| && work[Base(z, w, i)] == data[base + i - z.Rows() - 2 * z.rgroup]
    {
      BaseSwapped(z, w, i);
    }
  }

  lemma AllBounded(z: Shape, w: nat)
    requires z.Ok()
    ensures forall i :: 0 <= i < z.Rows() + 2 * z.rgroup ==> Base(z, w, i) < z.Rows() + 2 * z.rgroup
  {
    hide Shape.Rows, Shape.Ok, Base;
    Sizes(z);
    forall i | 0 <= i < z.Rows() + 2 * z.rgroup
      ensures Base(z, w, i) < z.Rows() + 2 * z.rgroup
    {
      BaseDistinct(z, w, i, if i == 0 then 1 else 0);
    }
  }

  /** decompress_data: the next iMCU row goes where a list points.  What came by the other
      list keeps its last two row groups. */
  method LoadStrip(z: Shape, x: array<nat>, ghost w: nat, buffer: array<Row>, data: seq<Row>, base: nat)
    requires z.Ok() && w <= 1 && Funny(z, x[..], w) && buffer.Length == z.Rows() + 2 * z.rgroup && base + z.Rows() <= |data|
    modifies buffer
    ensures HoldsStrip(z, buffer[..], data, w, base)
    ensures Untouched(z, old(buffer[..]), buffer[..], w)
  {
    hide Shape.Rows, Shape.Ok, Base;
    Sizes(z);
    AllBounded(z, w);
    for i := 0 to z.Rows()
      invariant forall j :: 0 <= j < i ==> Base(z, w, j) < buffer.Length && buffer[Base(z, w, j)] == data[base + j]
      invariant Untouched(z, old(buffer[..]), buffer[..], w)
    {
      assert x[..][z.rgroup + i] == Base(z, w, i);
      forall j | 0 <= j < z.Rows() + 2 * z.rgroup && j != i
        ensures Base(z, w, i) != Base(z, w, j)
      {
        BaseDistinct(z, w, i, j);
      }
      buffer[x[z.rgroup + i]] := data[base + i];
    }
  }

  // ---- The controller ----

  datatype ContextState = PrepareForIMcu | ProcessIMcu | PostponedRow

  class MainController {
    const z: Shape
    /** The sample rows that the coefficient controller delivers, with those below the image. */
    const data: seq<Row>
    const buffer: array<Row>
    const xbuffer0: array<nat>
    const xbuffer1: array<nat>
    var whichptr: nat
    var contextState: ContextState
    var iMcuRowCtr: nat
    var bufferFull: bool
    var rowgroupCtr: nat
    var rowgroupsAvail: nat
    /** What the postprocessor has seen with each row group. */
    var seen: seq<seq<Row>>

    function Xbuffer(): array<nat>
      reads `whichptr
    {
      if whichptr == 0 then xbuffer0 else xbuffer1
    }

    ghost predicate Set() {
      && z.Ok() && |data| == z.total * z.Rows() && buffer.Length == z.Rows() + 2 * z.rgroup
      && xbuffer0 != xbuffer1 && xbuffer0.Length == z.Rows() + 4 * z.rgroup && xbuffer1.Length == xbuffer0.Length
    }

    /** The row groups come in order, each with its context. */
    ghost predicate Sound(n: int)
      requires Set()
      reads `seen
    {
      |seen| == n && forall g :: 0 <= g < |seen| ==> seen[g] == View(z, data, g)
    }

    ghost predicate TopLists()
      requires Set()
      reads xbuffer0, xbuffer1
    {
      AtTop(z, xbuffer0[..]) && Funny(z, xbuffer1[..], 1)
    }

    ghost predicate NormalLists()
      requires Set()
      reads xbuffer0, xbuffer1
    {
      Normal(z, xbuffer0[..], 0) && Normal(z, xbuffer1[..], 1)
    }

    /** Before the first iMCU row. */
    ghost predicate Fresh()
      requires Set()
      reads this, xbuffer0, xbuffer1
    {
      !bufferFull && contextState == PrepareForIMcu && iMcuRowCtr == 0 && whichptr == 0 && TopLists() && Sound(0)
    }

    /** All of iMCU row t is done but its last row group. */
    ghost predicate Between(t: nat)
      requires Set()
      reads this, xbuffer0, xbuffer1, buffer
    {
      && !bufferFull && contextState == PostponedRow && iMcuRowCtr == t && 1 <= t < z.total && whichptr <= 1
      && rowgroupCtr == z.m + 1 && rowgroupsAvail == z.m + 2
      && NormalLists() && HoldsStrip(z, buffer[..], data, 1 - whichptr, (t - 1) * z.Rows()) && Sound(t * z.m - 1)
    }

    /** iMCU row t is in the buffer; its list shows its rows with those above. */
    ghost predicate Loaded(t: nat)
      requires Set()
      reads this, xbuffer0, xbuffer1, buffer
    {
      && bufferFull && iMcuRowCtr == t && 1 <= t <= z.total && whichptr <= 1
      && (if t == 1 then TopLists() && whichptr == 0 else NormalLists())
      && HoldsStrip(z, buffer[..], data, whichptr, (t - 1) * z.Rows())
      && Reads(z, buffer[..], Xbuffer()[..], data, 0, z.Rows() + z.rgroup, (t - 1) * z.Rows())
    }

    /** The last row group of the row before waits to be processed. */
    ghost predicate Waiting(t: nat)
      requires Set()
      reads this, xbuffer0, xbuffer1, buffer
    {
      && Loaded(t) && 2 <= t && contextState == PostponedRow
      && rowgroupCtr == z.m + 1 && rowgroupsAvail == z.m + 2
      && Serves(z, buffer[..], Xbuffer()[..], data, z.m + 1, z.m + 2, (t - 1) * z.m - 1 - (z.m + 1))
      && Sound((t - 1) * z.m - 1)
    }

    ghost predicate Preparing(t: nat)
      requires Set()
      reads this, xbuffer0, xbuffer1, buffer
    {
      Loaded(t) && contextState == PrepareForIMcu && Sound((t - 1) * z.m)
    }

    ghost predicate Processing(t: nat)
      requires Set()
      reads this, xbuffer0, xbuffer1, buffer
    {
      && bufferFull && contextState == ProcessIMcu && iMcuRowCtr == t && 1 <= t <= z.total && whichptr <= 1
      && rowgroupCtr < rowgroupsAvail == (if t < z.total then z.m - 1 else LastGroups(z))
      && Serves(z, buffer[..], Xbuffer()[..], data, rowgroupCtr, rowgroupsAvail, (t - 1) * z.m)
      && (t < z.total ==> Loaded(t))
      && Sound((t - 1) * z.m + rowgroupCtr)
    }

    ghost predicate Finished()
      requires Set()
      reads this
    {
      !bufferFull && contextState == PostponedRow && iMcuRowCtr == z.total && Sound(Groups(z))
    }

    ghost predicate Valid()
      reads this, xbuffer0, xbuffer1, buffer
    {
      && Set()
      && (Fresh() || Between(iMcuRowCtr) || Waiting(iMcuRowCtr) || Preparing(iMcuRowCtr) || Processing(iMcuRowCtr) || Finished())
    }

    /** start_pass_main. */
    constructor (z: Shape, data: seq<Row>, buffer: array<Row>, xbuffer0: array<nat>, xbuffer1: array<nat>)
      requires z.Ok() && |data| == z.total * z.Rows() && buffer.Length == z.Rows() + 2 * z.rgroup
      requires xbuffer0 != xbuffer1 && xbuffer0.Length == z.Rows() + 4 * z.rgroup && xbuffer1.Length == xbuffer0.Length
      modifies xbuffer0, xbuffer1
      ensures Valid() && Fresh()
      ensures this.z == z && this.data == data && this.buffer == buffer && this.xbuffer0 == xbuffer0 && this.xbuffer1 == xbuffer1
    {
      this.z, this.data, this.buffer, this.xbuffer0, this.xbuffer1 := z, data, buffer, xbuffer0, xbuffer1;
      whichptr, contextState, iMcuRowCtr, bufferFull, seen := 0, PrepareForIMcu, 0, false, [];
      new;
      MakeFunnyPointers(z, xbuffer0, xbuffer1);
    }

    /** The postprocessor takes at most room row groups. */
    method PostProcess(room: nat, ghost g0: int)
      requires Set() && rowgroupCtr <= rowgroupsAvail && Sound(g0 + rowgroupCtr)
      requires Serves(z, buffer[..], Xbuffer()[..], data, rowgroupCtr, rowgroupsAvail, g0)
      modifies `rowgroupCtr, `seen
      ensures rowgroupCtr == if old(rowgroupsAvail - rowgroupCtr) <= room then old(rowgroupsAvail) else old(rowgroupCtr) + room
      ensures Sound(g0 + rowgroupCtr)
      ensures Serves(z, buffer[..], Xbuffer()[..], data, rowgroupCtr, rowgroupsAvail, g0)
      ensures old(seen) <= seen
    {
      hide Shape.Ok, Shape.Rows, Shape.Upto, View, Shown;
      var x, start := Xbuffer(), rowgroupCtr;
      while rowgroupCtr < rowgroupsAvail && rowgroupCtr - start < room
        invariant start <= rowgroupCtr <= rowgroupsAvail && rowgroupCtr - start <= room
        invariant Sound(g0 + rowgroupCtr) && old(seen) <= seen
        invariant Serves(z, buffer[..], Xbuffer()[..], data, rowgroupCtr, rowgroupsAvail, g0)
      {
        assert ServesOne(z, buffer[..], x[..], data, rowgroupCtr, g0);
        seen := seen + [Shown(z, buffer[..], x[..], z.Upto(rowgroupCtr))];
        rowgroupCtr := rowgroupCtr + 1;
      }
    }

    /** The coefficient controller delivers the next iMCU row. */
    method ReadStrip()
      requires Set() && (Fresh() || Between(iMcuRowCtr))
      modifies this, buffer
      ensures iMcuRowCtr == old(iMcuRowCtr) + 1 && seen == old(seen)
      ensures if old(iMcuRowCtr) == 0 then Preparing(1) else Waiting(old(iMcuRowCtr) + 1)
    {
      hide Shape.Ok, Shape.Rows, Shape.Upto, Shape.RowsLeft, View, HoldsStrip, KeptGroups, Untouched, Reads, Serves,
        Normal, AtTop, Funny;
      ghost var t, before := iMcuRowCtr, buffer[..];
      Sizes(z);
      StripStart(z, t);
      ListFacts(whichptr);
      LoadStrip(z, Xbuffer(), whichptr, buffer, data, iMcuRowCtr * z.Rows());
      bufferFull := true;
      iMcuRowCtr := iMcuRowCtr + 1;
      if t == 0 {
        TopReads(z, buffer[..], xbuffer0[..], data);
      } else {
        Kept(z, before, buffer[..], data, whichptr, t * z.Rows());
        NormalReads(z, buffer[..], Xbuffer()[..], data, whichptr, t * z.Rows());
        PostponedServes(z, buffer[..], Xbuffer()[..], data, t + 1);
      }
    }

    lemma ListFacts(w: nat)
      requires Set() && w <= 1 && (TopLists() || NormalLists())
      ensures Funny(z, (if w == 0 then xbuffer0 else xbuffer1)[..], w)
    {
    }

    /** The last row group of the iMCU row before. */
    method FeedPostponed(room: nat)
      requires Set() && Waiting(iMcuRowCtr)
      modifies this
      ensures iMcuRowCtr == old(iMcuRowCtr) && old(seen) <= seen
      ensures if room == 0 then Waiting(iMcuRowCtr) else Preparing(iMcuRowCtr) && |seen| == |old(seen)| + 1
    {
      hide Serves, Reads, TopLists, NormalLists, HoldsStrip, View, Shape.Ok, Shape.Rows;
      PostProcess(room, (iMcuRowCtr - 1) * z.m - 1 - (z.m + 1));
      if rowgroupCtr < rowgroupsAvail { return; }
      contextState := PrepareForIMcu;
    }

    /** The bottom of the image changes the pointers; either way the row groups can be served. */
    method Prepare()
      requires Set() && Preparing(iMcuRowCtr)
      modifies this, xbuffer0, xbuffer1
      ensures Processing(iMcuRowCtr) && iMcuRowCtr == old(iMcuRowCtr) && seen == old(seen)
    {
      hide Shape.Ok, Shape.Rows, Shape.Upto, Shape.RowsLeft, View, HoldsStrip, KeptGroups, Reads, Serves, Normal, AtTop,
        Funny, AtBottom;
      Sizes(z);
      rowgroupCtr := 0;
      rowgroupsAvail := z.m - 1;
      ghost var before := Xbuffer()[..];
      if iMcuRowCtr == z.total {
        LastGroupsBound(z);
        rowgroupsAvail := SetBottomPointers(z, Xbuffer());
        LastAllServe(z, buffer[..], before, Xbuffer()[..], data);
      } else {
        StripAllServe(z, buffer[..], before, data, iMcuRowCtr);
      }
      contextState := ProcessIMcu;
    }

    /** The row groups of the iMCU row, but the last unless it is at the bottom of the image. */
    method FeedStrip(room: nat)
      requires Set() && Processing(iMcuRowCtr)
      modifies this, xbuffer0, xbuffer1
      ensures Set() && iMcuRowCtr == old(iMcuRowCtr) && old(seen) <= seen
      ensures Processing(iMcuRowCtr) || Between(iMcuRowCtr) || Finished()
      ensures |seen| >= |old(seen)| + (if room == 0 then 0 else 1)
    {
      hide Shape.Ok, Shape.Rows, Shape.Upto, Shape.RowsLeft, View, HoldsStrip, KeptGroups, Reads, Serves, Normal, AtTop,
        Funny, AtBottom, LastGroups;
      Sizes(z);
      ghost var t := iMcuRowCtr;
      PostProcess(room, (t - 1) * z.m);
      if rowgroupCtr < rowgroupsAvail { return; }
      if iMcuRowCtr == 1 {
        if t < z.total { ListFacts(0); ListFacts(1); }
        SetWraparoundPointers(z, xbuffer0, 0);
        SetWraparoundPointers(z, xbuffer1, 1);
      }
      whichptr := if whichptr == 0 then 1 else 0;
      bufferFull := false;
      rowgroupCtr := z.m + 1;
      rowgroupsAvail := z.m + 2;
      contextState := PostponedRow;
      assert (t - 1) * z.m + z.m == t * z.m;
    }

    /** Before the end there are row groups to come. */
    lemma SeenLess()
      requires Valid() && !Finished()
      ensures |seen| < Groups(z)
    {
      hide Reads, Serves, HoldsStrip, NormalLists, TopLists, View, LastGroups;
      LastGroupsBound(z);
      if 1 <= iMcuRowCtr {
        assert iMcuRowCtr * z.m == (iMcuRowCtr - 1) * z.m + z.m;
        if iMcuRowCtr < z.total { MulOrder(iMcuRowCtr, z.total - 1, z.m); } else { MulOrder(iMcuRowCtr, z.total, z.m); }
      }
      MulOrder(0, z.total - 1, z.m);
    }

    /** One call.  It may find no input ready, the postprocessor may take any number of row groups
        each time, and the output buffer may be full after the postponed one. */
    method ProcessData(ready: bool, room1: nat, full: bool, room2: nat)
      requires Valid() && !(Set() && Finished())
      modifies this, buffer, xbuffer0, xbuffer1
      ensures Valid() && old(seen) <= seen
      ensures ready && 0 < room1 && 0 < room2 ==> |old(seen)| < |seen|
    {
      hide Serves, Reads, TopLists, NormalLists, HoldsStrip, View, Shape.Ok, Shape.Rows;
      if !bufferFull {
        if !ready { return; }
        ReadStrip();
      }
      if contextState == PostponedRow {
        FeedPostponed(room1);
        if contextState == PostponedRow || full { return; }
      }
      if contextState == PrepareForIMcu { Prepare(); }
      FeedStrip(room2);
    }
  }

  lemma StripStart(z: Shape, t: nat)
    requires z.Ok() && t < z.total
    ensures t * z.Rows() + z.Rows() <= z.total * z.Rows()
    ensures 0 < t ==> z.Rows() <= t * z.Rows() && (t - 1) * z.Rows() == t * z.Rows() - z.Rows()
  {
    MulOrder(t + 1, z.total, z.Rows());
    assert (t + 1) * z.Rows() == t * z.Rows() + z.Rows();
  }

  lemma LastAllServe(z: Shape, work: seq<Row>, x: seq<nat>, r: seq<nat>, data: seq<Row>)
    requires z.Ok() && |data| == z.total * z.Rows() && |x| == z.Rows() + 4 * z.rgroup
    requires Reads(z, work, x, data, 0, z.Rows() + z.rgroup, (z.total - 1) * z.Rows()) && AtBottom(z, x, r, 2 * z.rgroup)
    ensures Serves(z, work, r, data, 0, LastGroups(z), (z.total - 1) * z.m)
  {
    hide Shape.Ok, Shape.Rows, Shape.Upto, LastGroups, Reads, AtBottom, ServesOne;
    var g0 := (z.total - 1) * z.m;
    forall i | 0 <= i < LastGroups(z)
      ensures ServesOne(z, work, r, data, i, g0)
    {
      LastServes(z, work, x, r, data, i);
    }
  }

  lemma StripAllServe(z: Shape, work: seq<Row>, x: seq<nat>, data: seq<Row>, t: nat)
    requires z.Ok() && |data| == z.total * z.Rows() && 1 <= t < z.total && 1 <= z.m
    requires Reads(z, work, x, data, 0, z.Rows() + z.rgroup, (t - 1) * z.Rows())
    ensures Serves(z, work, x, data, 0, z.m - 1, (t - 1) * z.m)
  {
    hide Shape.Rows, Shape.Ok, Shape.Upto, Reads, ServesOne;
    Sizes(z);
    var g0 := (t - 1) * z.m;
    forall i | 0 <= i < z.m - 1
      ensures ServesOne(z, work, x, data, i, g0)
    {
      StripServes(z, work, x, data, t, i);
    }
  }

  // ---- A whole pass, and what it means ----

  datatype Call = Call(ready: bool, room1: nat, full: bool, room2: nat)

  /** The call can make some progress. */
  predicate Productive(call: Call) { call.ready && 0 < call.room1 && 0 < call.room2 }

  /** However the output is split over the calls, the postprocessor sees the row groups of the
      image once, in order, each with its context; and it gets them all if no call is idle. */
  method RunPass(z: Shape, data: seq<Row>, buffer: array<Row>, xbuffer0: array<nat>, xbuffer1: array<nat>, calls: seq<Call>)
      returns (seen: seq<seq<Row>>, finished: bool)
    requires z.Ok() && |data| == z.total * z.Rows() && buffer.Length == z.Rows() + 2 * z.rgroup
    requires xbuffer0 != xbuffer1 && xbuffer0.Length == z.Rows() + 4 * z.rgroup && xbuffer1.Length == xbuffer0.Length
    modifies buffer, xbuffer0, xbuffer1
    ensures forall g :: 0 <= g < |seen| ==> seen[g] == View(z, data, g)
    ensures finished ==> |seen| == Groups(z)
    ensures Groups(z) <= |calls| && (forall i :: 0 <= i < |calls| ==> Productive(calls[i])) ==> finished
  {
    hide View, Shape.Ok, Shape.Rows, Groups;
    var c := new MainController(z, data, buffer, xbuffer0, xbuffer1);
    var i := 0;
    finished := false;
    ghost var productive := forall i :: 0 <= i < |calls| ==> Productive(calls[i]);
    while i < |calls| && !finished
      invariant c.Valid() && fresh(c) && c.z == z && c.data == data
      invariant c.buffer == buffer && c.xbuffer0 == xbuffer0 && c.xbuffer1 == xbuffer1
      invariant finished == c.Finished() && i <= |calls| && (productive ==> i <= |c.seen|)
    {
      c.ProcessData(calls[i].ready, calls[i].room1, calls[i].full, calls[i].room2);
      finished := !c.bufferFull && c.contextState == PostponedRow && c.iMcuRowCtr == z.total;
      i := i + 1;
    }
    if !finished { c.SeenLess(); }
    seen := c.seen;
  }

  function Clamp(z: Shape, n: int): nat
    requires z.Ok()
  {
    Ends(z);
    if n < 0 then 0 else if n < z.height then n else z.height - 1
  }

  /** The rows of the row group itself, and the sample rows directly above and below it, are
      always the true ones, with the first and the last row of the image duplicated. */
  lemma TrueNeighbours(z: Shape, g: nat, j: nat)
    requires z.Ok() && g < Groups(z) && z.rgroup - 1 <= j <= 2 * z.rgroup
    ensures var n := z.Upto(g) - z.rgroup + j; RowNumber(z, g, n) == Clamp(z, n)
  {
    hide Shape.Ok, Shape.Rows, Shape.Upto;
    Sizes(z);
    if Postponed(z, g) {
      PostponedNumbers(z, z.total);
      Left(z);
    }
  }

  /** Seven rows, two to a row group and two row groups to an iMCU row: what the postprocessor sees,
      row by row. */
  lemma SevenRows(data: seq<Row>)
    requires |data| == 8
    ensures Seven().Ok() && Seven().total * Seven().Rows() == 8 && Groups(Seven()) == 4
    ensures View(Seven(), data, 0) == [data[0], data[0], data[0], data[1], data[2], data[3]]
    ensures View(Seven(), data, 1) == [data[0], data[1], data[2], data[3], data[4], data[5]]
    ensures View(Seven(), data, 2) == [data[2], data[3], data[4], data[5], data[6], data[6]]
    ensures View(Seven(), data, 3) == [data[4], data[5], data[6], data[6], data[6], data[6]]
  {
    hide View;
    SevenIs();
    SixNumbers(data, 0);
    SixNumbers(data, 1);
    SixNumbers(data, 2);
    SixNumbers(data, 3);
  }

  function Seven(): Shape { Shape(2, 2, 2, 7) }

  lemma SevenIs()
    ensures Seven().Ok() && Seven().total * Seven().Rows() == 8 && Groups(Seven()) == 4
  {
    hide Groups;
    SevenOk();
    Left(Seven());
    assert LastGroups(Seven()) == 2;
    GroupsAre(Seven());
  }

  lemma SevenOk()
    ensures Seven().Ok() && Seven().total * Seven().Rows() == 8 && Seven().RowsLeft() == 3
  {
  }

  lemma GroupsAre(z: Shape)
    requires z.Ok() && z.total == z.m == 2
    ensures Groups(z) == 2 + LastGroups(z)
  {
    hide LastGroups;
  }

  lemma SixNumbers(data: seq<Row>, g: nat)
    requires Seven().Ok() && |data| == Seven().total * Seven().Rows() == 8 && g < 4
    ensures View(Seven(), data, g) == [data[Row7(g, 2 * g - 2)], data[Row7(g, 2 * g - 1)], data[2 * g],
      data[Row7(g, 2 * g + 1)], data[Row7(g, 2 * g + 2)], data[Row7(g, 2 * g + 3)]]
  {
    hide RowNumber;
    var x := View(Seven(), data, g);
    assert Seven().Upto(g) == 2 * g;
    forall j | 0 <= j < 6 ensures x[j] == data[Row7(g, 2 * g - 2 + j)] {
      Row7Is(g, 2 * g - 2 + j);
      assert x[j] == RowFor(Seven(), data, g, 2 * g - 2 + j);
    }
  }

  /** Row 7 is there, but only shown below the last row group of the first iMCU row. */
  function Row7(g: nat, n: int): nat {
    if n < 0 then 0 else if n < 7 then n else if n == 7 && g == 1 then 7 else 6
  }

  lemma Row7Is(g: nat, n: int)
    requires Seven().Ok() && n < 10
    ensures RowNumber(Seven(), g, n) == Row7(g, n)
  {
  }

  /** The whole row group of context is right exactly if the last iMCU row has a full row group,
      or is the only one. */
  predicate ContextFull(z: Shape)
    requires z.Ok()
  {
    forall g, j :: 0 <= g < Groups(z) && 0 <= j < 3 * z.rgroup ==> ContextRight(z, g, j)
  }

  predicate ContextRight(z: Shape, g: nat, j: nat)
    requires z.Ok()
  {
    RowNumber(z, g, z.Upto(g) - z.rgroup + j) == Clamp(z, z.Upto(g) - z.rgroup + j)
  }

  lemma WhenContextFull(z: Shape)
    requires z.Ok()
    ensures ContextFull(z) <==> z.total == 1 || z.rgroup <= z.RowsLeft()
  {
    hide Shape.Ok, Shape.Rows, Shape.Upto;
    Sizes(z);
    Left(z);
    if z.total == 1 || z.rgroup <= z.RowsLeft() {
      forall g, j | 0 <= g < Groups(z) && 0 <= j < 3 * z.rgroup
        ensures ContextRight(z, g, j)
      {
        if Postponed(z, g) && 1 < z.total { PostponedNumbers(z, z.total); }
      }
    } else {
      PostponedNumbers(z, z.total);
      LastGroupsBound(z);
      var g := (z.total - 1) * z.m - 1;
      LastStrip(z);
      assert !ContextRight(z, g, 2 * z.rgroup + z.RowsLeft());
    }
  }

  lemma LastStrip(z: Shape)
    requires z.Ok()
    ensures (z.total - 1) * z.Rows() + z.Rows() == z.total * z.Rows()
  {
  }

  /** An image of 17 rows in two iMCU rows of 8 row groups of 2: with row group 7 the
      postprocessor sees row 17, which is not in the image, where the last row should be. */
  lemma ContextBeyondImage(data: seq<Row>)
    requires |data| == 32
    ensures var z := Shape(2, 8, 2, 17);
      && z.Ok() && |data| == z.total * z.Rows() && Postponed(z, 7) && 7 < Groups(z)
      && View(z, data, 7)[5] == data[17] && !ContextRight(z, 7, 5) && !ContextFull(z)
  {
    var z := Shape(2, 8, 2, 17);
    assert !ContextRight(z, 7, 5);
  }

  // ---- All components have the same row groups ----

  /** The shape of a component with sampling factor v and scaled DCT size d, in an image that is
      height rows high. */
  lemma ShapeOf(height: nat, maxV: nat, blockSize: nat, rgroup: nat, m: nat)
    requires 0 < height && 0 < maxV && 0 < blockSize && 1 <= rgroup && 2 <= m
    ensures 0 < maxV * blockSize
    ensures var z := Shape(rgroup, m, CeilDiv(height, maxV * blockSize), CeilDiv(height * (rgroup * m), maxV * blockSize));
      z.Ok() && Groups(z) == CeilDiv(height * m, maxV * blockSize)
  {
    var n := maxV * blockSize;
    Positive(maxV, blockSize);
    Positive(rgroup, m);
    BlocksFill(height, rgroup * m, n);
    var z := Shape(rgroup, m, CeilDiv(height, n), CeilDiv(height * (rgroup * m), n));
    GroupBounds(z);
    assert height * (rgroup * m) == height * m * rgroup;
    TwiceRounded(height * m, n, rgroup, z.height, Groups(z));
  }

  lemma GroupBounds(z: Shape)
    requires z.Ok()
    ensures 0 < Groups(z) && (Groups(z) - 1) * z.rgroup < z.height <= Groups(z) * z.rgroup
  {
    LastGroupsBound(z);
    Number(z, z.total, LastGroups(z), Groups(z));
    Number(z, z.total, LastGroups(z) - 1, Groups(z) - 1);
  }

  lemma Cancel(x: nat, y: nat, r: nat)
    requires x * r < y * r
    ensures x < y
  {
    if y <= x { MulOrder(y, x, r); }
  }

  lemma TwiceRounded(a: nat, n: nat, r: nat, h: nat, g: nat)
    requires 0 < a && 0 < n && 0 < r && 0 < g && h == CeilDiv(a * r, n) && (g - 1) * r < h <= g * r
    ensures g == CeilDiv(a, n)
  {
    hide CeilDiv;
    Positive(a, r);
    CeilBounds(a * r, n);
    MulOrder(h, g * r, n);
    MulOrder((g - 1) * r, h - 1, n);
    Mul3(g, r, n);
    Mul3(g - 1, r, n);
    Cancel((g - 1) * n, a, r);
    assert a * r < (g * n + 1) * r;
    Cancel(a, g * n + 1, r);
    CeilUnique(a, n, g);
  }
}
