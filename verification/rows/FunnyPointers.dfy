/** The row lists through which jdmainct.c hands out rows with context: two orders
    of the same workspace, in which the context rows are next to the rows that need them. */
module FunnyPointers {
  import opened Radix

  type Row = seq<int>

  /** A component of the image: sample rows in a row group, row groups in an iMCU row, iMCU rows,
      and sample rows that are real. */
  datatype Shape = Shape(rgroup: nat, m: nat, total: nat, height: nat)
  {
    predicate Ok() {
      1 <= rgroup && 2 <= m && 1 <= total && (total - 1) * (rgroup * m) < height <= total * (rgroup * m)
    }

    /** Sample rows in an iMCU row. */
    function Rows(): nat { rgroup * m }

    /** Sample rows in k row groups. */
    function Upto(k: nat): nat { rgroup * k }

    function RowsLeft(): nat
      requires Ok()
    {
      height - (total - 1) * Rows()
    }
  }

  /** Where the two lists point: in the second, the last two pairs of row groups have changed places. */
  function Base(z: Shape, w: nat, i: nat): nat
    requires z.Ok()
  {
    if w == 0 || i + 2 * z.rgroup < z.Rows() then i
    else if i < z.Rows() then i + 2 * z.rgroup
    else if i < z.Rows() + 2 * z.rgroup then i - 2 * z.rgroup
    else i
  }

  /** Entry i of a list is at index rgroup + i, since i can be as low as -rgroup. */
  predicate Funny(z: Shape, x: seq<nat>, w: nat)
    requires z.Ok()
  {
    |x| == z.Rows() + 4 * z.rgroup && forall k :: z.rgroup <= k < z.Rows() + 3 * z.rgroup ==> x[k] == Base(z, w, k - z.rgroup)
  }

  /** At the top of the image the rows above duplicate the first row. */
  predicate AtTop(z: Shape, x: seq<nat>)
    requires z.Ok()
  {
    Funny(z, x, 0) && forall k :: 0 <= k < z.rgroup ==> x[k] == 0
  }

  /** The normal state, with the wraparound pointers. */
  predicate Normal(z: Shape, x: seq<nat>, w: nat)
    requires z.Ok()
  {
    && Funny(z, x, w)
    && (forall k :: 0 <= k < z.rgroup ==> x[k] == Base(z, w, z.Rows() + z.rgroup + k))
    && (forall k :: z.Rows() + 3 * z.rgroup <= k < |x| ==> x[k] == Base(z, w, k - z.Rows() - 3 * z.rgroup))
  }

  lemma Sizes(z: Shape)
    requires z.Ok()
    ensures z.Upto(z.m + 4) == z.Rows() + 4 * z.rgroup && z.Upto(z.m + 2) == z.Rows() + 2 * z.rgroup
    ensures z.Upto(z.m + 1) == z.Rows() + z.rgroup && z.Upto(z.m) == z.Rows()
    ensures 0 < 2 * z.rgroup <= z.Rows() && 2 <= z.m && 1 <= z.total && z.Upto(z.m - 2) == z.Rows() - 2 * z.rgroup
  {
    MulOrder(2, z.m, z.rgroup);
  }

  /** The second list while the first n rows of both parts have been swapped. */
  function Swapped(z: Shape, i: nat, n: nat): int {
    if z.Rows() - 2 * z.rgroup <= i < z.Rows() - 2 * z.rgroup + n then i + 2 * z.rgroup
    else if z.Rows() <= i < z.Rows() + n then i - 2 * z.rgroup
    else i
  }

  /** The pointers of the workspace as they are. */
  predicate Plain(z: Shape, x: seq<nat>) {
    |x| == z.Rows() + 4 * z.rgroup && forall k :: z.rgroup <= k < z.Rows() + 3 * z.rgroup ==> x[k] == k - z.rgroup
  }

  lemma PlainIsFunny(z: Shape, x: seq<nat>)
    requires z.Ok() && Plain(z, x)
    ensures Funny(z, x, 0)
  {
  }

  method MakeFunnyPointers(z: Shape, xbuf0: array<nat>, xbuf1: array<nat>)
    requires z.Ok() && xbuf0 != xbuf1 && xbuf0.Length == z.Rows() + 4 * z.rgroup && xbuf1.Length == xbuf0.Length
    modifies xbuf0, xbuf1
    ensures AtTop(z, xbuf0[..]) && Funny(z, xbuf1[..], 1)
  {
    hide Shape.Ok, Shape.Rows, Shape.Upto, Base, Funny, Swapped;
    Sizes(z);
    var rgroup, m := z.rgroup, z.m;
    for i := 0 to z.Upto(m + 2)
      invariant forall k :: rgroup <= k < rgroup + i ==> xbuf0[k] == k - rgroup && xbuf1[k] == k - rgroup
    {
      xbuf0[rgroup + i] := i;
      xbuf1[rgroup + i] := i;
    }
    SwapGroups(z, xbuf1);
    for i := 0 to rgroup
      invariant Funny(z, xbuf1[..], 1) && Plain(z, xbuf0[..]) && forall k :: 0 <= k < i ==> xbuf0[k] == 0
    {
      xbuf0[i] := xbuf0[rgroup];
    }
    PlainIsFunny(z, xbuf0[..]);
  }

  /** The second list comes out of the plain order by exchanging two pairs of row groups. */
  method SwapGroups(z: Shape, xbuf1: array<nat>)
    requires z.Ok() && Plain(z, xbuf1[..])
    modifies xbuf1
    ensures Funny(z, xbuf1[..], 1)
  {
    hide Shape.Ok, Shape.Rows, Shape.Upto;
    Sizes(z);
    var rgroup, m := z.rgroup, z.m;
    for i := 0 to rgroup * 2
      invariant forall k :: rgroup <= k < z.Rows() + 3 * rgroup ==> xbuf1[k] == Swapped(z, k - rgroup, i)
    {
      xbuf1[rgroup + z.Upto(m - 2) + i] := z.Upto(m) + i;
      xbuf1[rgroup + z.Upto(m) + i] := z.Upto(m - 2) + i;
    }
  }

  /** From now on the rows above the first of a list are those at the end of the workspace. */
  method SetWraparoundPointers(z: Shape, xbuf: array<nat>, ghost w: nat)
    requires z.Ok() && xbuf.Length == z.Rows() + 4 * z.rgroup
    modifies xbuf
    ensures Funny(z, old(xbuf[..]), w) ==> Normal(z, xbuf[..], w)
  {
    hide Shape.Ok, Shape.Rows, Shape.Upto, Base;
    Sizes(z);
    var rgroup, m := z.rgroup, z.m;
    var above, below := rgroup + z.Upto(m + 1), rgroup + z.Upto(m + 2);
    for i := 0 to rgroup
      invariant forall k :: rgroup <= k < below ==> xbuf[k] == old(xbuf[k])
      invariant forall k :: 0 <= k < i ==> xbuf[k] == old(xbuf[above + k])
      invariant forall k :: below <= k < below + i ==> xbuf[k] == old(xbuf[k - below + rgroup])
    {
      xbuf[i] := xbuf[above + i];
      xbuf[below + i] := xbuf[rgroup + i];
    }
    if Funny(z, old(xbuf[..]), w) { Wrapped(z, old(xbuf[..]), xbuf[..], w); }
  }

  lemma Wrapped(z: Shape, x: seq<nat>, r: seq<nat>, w: nat)
    requires z.Ok() && Funny(z, x, w) && |r| == |x|
    requires forall k :: z.rgroup <= k < z.Rows() + 3 * z.rgroup ==> r[k] == x[k]
    requires forall k :: 0 <= k < z.rgroup ==> r[k] == x[z.Rows() + 2 * z.rgroup + k]
    requires forall k :: z.Rows() + 3 * z.rgroup <= k < |x| ==> r[k] == x[k - z.Rows() - 2 * z.rgroup]
    ensures Normal(z, r, w)
  {
    hide Shape.Ok, Shape.Rows, Base;
    Sizes(z);
  }

  /** The last real sample row is duplicated in n entries. */
  predicate AtBottom(z: Shape, x: seq<nat>, r: seq<nat>, n: nat)
    requires z.Ok() && |x| == z.Rows() + 4 * z.rgroup
  {
    var end := z.rgroup + z.RowsLeft();
    |r| == |x| && forall k :: 0 <= k < |x| ==> r[k] == if end <= k < end + n then Last(z, x) else x[k]
  }

  function Last(z: Shape, x: seq<nat>): nat
    requires z.Ok() && |x| == z.Rows() + 4 * z.rgroup
  {
    Left(z);
    x[z.rgroup + z.RowsLeft() - 1]
  }

  lemma Left(z: Shape)
    requires z.Ok()
    ensures 1 <= z.RowsLeft() <= z.Rows()
  {
    assert z.total * z.Rows() == (z.total - 1) * z.Rows() + z.Rows();
  }

  /** rows_left is found by a remainder. */
  lemma LeftIs(z: Shape)
    requires z.Ok()
    ensures 0 < z.Rows()
    ensures z.RowsLeft() == if z.height % z.Rows() == 0 then z.Rows() else z.height % z.Rows()
  {
    Left(z);
    var r, n := z.Rows(), z.RowsLeft();
    var q := z.height / r;
    assert z.height == q * r + z.height % r;
    if n == r {
      Squeeze(z.height, r, z.total, q);
    } else {
      Squeeze(z.height, r, z.total - 1, q);
    }
  }

  method SetBottomPointers(z: Shape, xbuf: array<nat>) returns (rowgroupsAvail: nat)
    requires z.Ok() && xbuf.Length == z.Rows() + 4 * z.rgroup
    modifies xbuf
    ensures AtBottom(z, old(xbuf[..]), xbuf[..], 2 * z.rgroup)
    ensures rowgroupsAvail == (z.RowsLeft() - 1) / z.rgroup + 1
  {
    hide Shape.Ok;
    LeftIs(z);
    Left(z);
    var iMcuHeight := z.Rows();
    var rowsLeft := z.height % iMcuHeight;
    if rowsLeft == 0 { rowsLeft := iMcuHeight; }
    rowgroupsAvail := (rowsLeft - 1) / z.rgroup + 1;
    for i := 0 to z.rgroup * 2
      invariant AtBottom(z, old(xbuf[..]), xbuf[..], i)
    {
      xbuf[z.rgroup + rowsLeft + i] := xbuf[z.rgroup + rowsLeft - 1];
    }
  }
}
