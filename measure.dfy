/** `bounding_box`: the smallest axis-aligned box holding every positive entry of an array. */
module Measure {
  import opened Wrappers

  /** One entry of an n-dimensional array: its index tuple and its value. */
  datatype Cell = Cell(index: seq<nat>, value: real)

  /** An array of `ndim` axes given by its entries; every index has `ndim`
      coordinates, and a zero-dimensional array has exactly one entry. */
  predicate WellFormed(ndim: nat, cells: seq<Cell>)
  {
    && (forall k :: 0 <= k < |cells| ==> |cells[k].index| == ndim)
    && (ndim == 0 ==> |cells| == 1)
  }

  /** The indices of the positive entries (`np.where(arr > 0)`), in entry order. */
  function Positives(cells: seq<Cell>): (ps: seq<seq<nat>>)
    ensures forall k :: 0 <= k < |ps| ==> exists j :: 0 <= j < |cells| && cells[j].value > 0.0 && cells[j].index == ps[k]
    ensures forall j :: 0 <= j < |cells| && cells[j].value > 0.0 ==> cells[j].index in ps
  {
    if cells == [] then []
    else
      var rest := Positives(cells[..|cells| - 1]);
      var last := cells[|cells| - 1];
      assert forall j :: 0 <= j < |cells| - 1 ==> cells[..|cells| - 1][j] == cells[j];
      if last.value > 0.0 then rest + [last.index] else rest
  }

  /** The least coordinate on `axis` among `ps`. */
  function MinCoord(ps: seq<seq<nat>>, axis: nat): (m: nat)
    requires ps != [] && forall k :: 0 <= k < |ps| ==> axis < |ps[k]|
    ensures exists k :: 0 <= k < |ps| && ps[k][axis] == m
    ensures forall k :: 0 <= k < |ps| ==> m <= ps[k][axis]
  {
    if |ps| == 1 then ps[0][axis]
    else
      var m := MinCoord(ps[..|ps| - 1], axis);
      assert forall k :: 0 <= k < |ps| - 1 ==> ps[..|ps| - 1][k] == ps[k];
      if ps[|ps| - 1][axis] < m then ps[|ps| - 1][axis] else m
  }

  /** The greatest coordinate on `axis` among `ps`. */
  function MaxCoord(ps: seq<seq<nat>>, axis: nat): (m: nat)
    requires ps != [] && forall k :: 0 <= k < |ps| ==> axis < |ps[k]|
    ensures exists k :: 0 <= k < |ps| && ps[k][axis] == m
    ensures forall k :: 0 <= k < |ps| ==> ps[k][axis] <= m
  {
    if |ps| == 1 then ps[0][axis]
    else
      var m := MaxCoord(ps[..|ps| - 1], axis);
      assert forall k :: 0 <= k < |ps| - 1 ==> ps[..|ps| - 1][k] == ps[k];
      if ps[|ps| - 1][axis] > m then ps[|ps| - 1][axis] else m
  }

  /** `[None] * n`. */
  function NoneList(n: nat): (s: seq<Option<nat>>)
    ensures |s| == n && forall a :: 0 <= a < n ==> s[a] == None
  {
    if n == 0 then [] else NoneList(n - 1) + [None]
  }

  /** The two corner lists; an entry is `None` when there is no positive entry. */
  datatype Box = Box(lower: seq<Option<nat>>, upper: seq<Option<nat>>)

  predicate HasPositive(cells: seq<Cell>)
  {
    exists k :: 0 <= k < |cells| && cells[k].value > 0.0
  }

  /** `bounding_box(arr)`: with no positive entry, `ndim` Nones twice; otherwise
      the per-axis minimum and maximum index over the positive entries. A
      zero-dimensional array is searched as a one-element vector, as
      `np.where` does before numpy 2.1: a positive entry gives the corners
      `[0]` and `[0]`, any other value the two empty lists of `[None] * 0`. */
  function BoundingBox(ndim: nat, cells: seq<Cell>): (b: Box)
    requires WellFormed(ndim, cells)
    ensures ndim > 0 || !HasPositive(cells) ==> |b.lower| == ndim && |b.upper| == ndim
    ensures !HasPositive(cells) ==>
              forall a :: 0 <= a < ndim ==> b.lower[a] == None && b.upper[a] == None
    ensures ndim == 0 && HasPositive(cells) ==> b.lower == [Some(0)] && b.upper == [Some(0)]
    ensures ndim > 0 && HasPositive(cells) ==>
              forall a :: 0 <= a < ndim ==>
                && b.lower[a].Some? && b.upper[a].Some?
                && (exists k :: 0 <= k < |cells| && cells[k].value > 0.0 && cells[k].index[a] == b.lower[a].value)
                && (exists k :: 0 <= k < |cells| && cells[k].value > 0.0 && cells[k].index[a] == b.upper[a].value)
                && (forall k :: 0 <= k < |cells| && cells[k].value > 0.0 ==>
                      b.lower[a].value <= cells[k].index[a] <= b.upper[a].value)
  {
    var ps := Positives(cells);
    if ps == [] then
      Box(NoneList(ndim), NoneList(ndim))
    else if ndim == 0 then
      Box([Some(0)], [Some(0)])
    else
      assert forall k :: 0 <= k < |ps| ==> |ps[k]| == ndim;
      var lower := seq(ndim, a requires 0 <= a < ndim => Some(MinCoord(ps, a)));
      var upper := seq(ndim, a requires 0 <= a < ndim => Some(MaxCoord(ps, a)));
      Box(lower, upper)
  }

  /** Every positive entry lies inside the box, and the box is never inverted. */
  lemma PositivesInsideBox(ndim: nat, cells: seq<Cell>, k: nat)
    requires WellFormed(ndim, cells) && ndim > 0
    requires k < |cells| && cells[k].value > 0.0
    ensures var b := BoundingBox(ndim, cells);
            forall a :: 0 <= a < ndim ==>
              b.lower[a].Some? && b.upper[a].Some? &&
              b.lower[a].value <= cells[k].index[a] <= b.upper[a].value &&
              b.lower[a].value <= b.upper[a].value
  {
  }

  /** A box that contains every positive entry contains the computed box: the
      computed one is the smallest. */
  lemma BoxIsSmallest(ndim: nat, cells: seq<Cell>, lo: seq<nat>, hi: seq<nat>)
    requires WellFormed(ndim, cells) && ndim > 0 && HasPositive(cells)
    requires |lo| == ndim && |hi| == ndim
    requires forall k, a :: 0 <= k < |cells| && cells[k].value > 0.0 && 0 <= a < ndim ==>
               lo[a] <= cells[k].index[a] <= hi[a]
    ensures var b := BoundingBox(ndim, cells);
            forall a :: 0 <= a < ndim ==> lo[a] <= b.lower[a].value && b.upper[a].value <= hi[a]
  {
    forall a | 0 <= a < ndim
      ensures lo[a] <= BoundingBox(ndim, cells).lower[a].value
      ensures BoundingBox(ndim, cells).upper[a].value <= hi[a]
    {
      BoxIsSmallestOn(ndim, cells, lo[a], hi[a], a);
    }
  }

  /** The same on one axis. */
  lemma BoxIsSmallestOn(ndim: nat, cells: seq<Cell>, lo: nat, hi: nat, a: nat)
    requires WellFormed(ndim, cells) && ndim > 0 && HasPositive(cells) && a < ndim
    requires forall k :: 0 <= k < |cells| && cells[k].value > 0.0 ==> lo <= cells[k].index[a] <= hi
    ensures lo <= BoundingBox(ndim, cells).lower[a].value
    ensures BoundingBox(ndim, cells).upper[a].value <= hi
  {
    var b := BoundingBox(ndim, cells);
    assert b.lower[a].Some? && b.upper[a].Some?;
    var i :| 0 <= i < |cells| && cells[i].value > 0.0 && cells[i].index[a] == b.lower[a].value;
    var j :| 0 <= j < |cells| && cells[j].value > 0.0 && cells[j].index[a] == b.upper[a].value;
  }
}
