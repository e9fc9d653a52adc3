/**
 * The 6x6 board: bounds checks and the 8- and 4-neighbourhoods of a cell
 * (corably.py:5, 18-36).
 */
module Grid {

  /** Side length of the square board. */
  const N: int := 6

  /** A (row, column) pair; on the board both lie in [0, N). */
  datatype Cell = Cell(row: int, col: int)

  /** A (row, column) displacement. */
  type Offset = (int, int)

  predicate Inside(r: int, c: int) {
    0 <= r < N && 0 <= c < N
  }

  predicate OnBoard(x: Cell) {
    Inside(x.row, x.col)
  }

  function Abs(n: int): nat {
    if n < 0 then -n else n
  }

  /** Chebyshev (king-move) distance between two cells. */
  function Chebyshev(x: Cell, y: Cell): nat {
    var dr := Abs(x.row - y.row);
    var dc := Abs(x.col - y.col);
    if dr < dc then dc else dr
  }

  /** Manhattan distance between two cells. */
  function Manhattan(x: Cell, y: Cell): nat {
    Abs(x.row - y.row) + Abs(x.col - y.col)
  }

  /** The displacement of `x` relative to the centre `(r, c)`. */
  function OffsetOf(r: int, c: int, x: Cell): Offset {
    (x.row - r, x.col - c)
  }

  /** Row-major order: row first, then column. */
  predicate RowMajorBefore(x: Cell, y: Cell) {
    x.row < y.row || (x.row == y.row && x.col < y.col)
  }

  /** The displacements visited by `neighbors8`: dr, then dc, over (-1, 0, 1), skipping (0, 0). */
  const Offsets8: seq<Offset> := [(-1, -1), (-1, 0), (-1, 1), (0, -1), (0, 1), (1, -1), (1, 0), (1, 1)]

  /** The displacements visited by `neighbors4`: up, down, left, right. */
  const Offsets4: seq<Offset> := [(-1, 0), (1, 0), (0, -1), (0, 1)]

  /** The two orders in which the neighbourhood generators visit displacements. */
  datatype Visit = RowMajor | UpDownLeftRight

  /** Position of a displacement in the visiting order `v`. */
  function Rank(v: Visit, d: Offset): int {
    match v
    case RowMajor => Rank8(d)
    case UpDownLeftRight => Rank4(d)
  }

  /** Position of an orthogonal displacement in the order up, down, left, right. */
  function Rank4(d: Offset): int {
    if d == (-1, 0) then 0
    else if d == (1, 0) then 1
    else if d == (0, -1) then 2
    else if d == (0, 1) then 3
    else 4
  }

  /** Row-major position of a displacement in {-1, 0, 1}^2. */
  function Rank8(d: Offset): int {
    3 * d.0 + d.1
  }

  /** The in-bounds cells `(r + dr, c + dc)` for the displacements `ds`, in the order of `ds`. */
  function Shifted(r: int, c: int, ds: seq<Offset>): (ns: seq<Cell>)
    ensures forall x :: x in ns <==> OnBoard(x) && OffsetOf(r, c, x) in ds
  {
    if ds == [] then []
    else
      var x := Cell(r + ds[0].0, c + ds[0].1);
      (if Inside(x.row, x.col) then [x] else []) + Shifted(r, c, ds[1..])
  }

  /** Along `ns`, the rank of the displacement from `(r, c)` strictly increases. */
  predicate OrderedBy(r: int, c: int, ns: seq<Cell>, v: Visit) {
    forall i, j :: 0 <= i < j < |ns| ==> Rank(v, OffsetOf(r, c, ns[i])) < Rank(v, OffsetOf(r, c, ns[j]))
  }

  /** Prepending a cell whose rank is below every rank of `rest` keeps `rest` ordered. */
  lemma OrderedByCons(r: int, c: int, head: seq<Cell>, rest: seq<Cell>, v: Visit, k0: int)
    requires |head| <= 1
    requires forall i :: 0 <= i < |head| ==> Rank(v, OffsetOf(r, c, head[i])) == k0
    requires forall k :: 0 <= k < |rest| ==> k0 < Rank(v, OffsetOf(r, c, rest[k]))
    requires OrderedBy(r, c, rest, v)
    ensures OrderedBy(r, c, head + rest, v)
  {
    var ns := head + rest;
    forall i, j | 0 <= i < j < |ns|
      ensures Rank(v, OffsetOf(r, c, ns[i])) < Rank(v, OffsetOf(r, c, ns[j]))
    {
      if i < |head| {
        assert ns[j] == rest[j - |head|];
      } else {
        assert ns[i] == rest[i - |head|] && ns[j] == rest[j - |head|];
      }
    }
  }

  /** Every cell of `Shifted(r, c, ds[1..])` has a rank above `ds[0]`'s when the ranks increase along `ds`. */
  lemma ShiftedTailAbove(r: int, c: int, ds: seq<Offset>, v: Visit)
    requires ds != []
    requires forall i, j :: 0 <= i < j < |ds| ==> Rank(v, ds[i]) < Rank(v, ds[j])
    ensures forall k :: 0 <= k < |Shifted(r, c, ds[1..])| ==>
      Rank(v, ds[0]) < Rank(v, OffsetOf(r, c, Shifted(r, c, ds[1..])[k]))
  {
    var rest := Shifted(r, c, ds[1..]);
    forall k | 0 <= k < |rest|
      ensures Rank(v, ds[0]) < Rank(v, OffsetOf(r, c, rest[k]))
    {
      var d := OffsetOf(r, c, rest[k]);
      assert d in ds[1..];
      var m :| 0 <= m < |ds[1..]| && ds[1..][m] == d;
      assert ds[m + 1] == d;
    }
  }

  /** Shifting keeps the order of the displacements: a rank that increases along `ds` increases along the result. */
  lemma {:induction false} ShiftedKeepsOrder(r: int, c: int, ds: seq<Offset>, v: Visit)
    requires forall i, j :: 0 <= i < j < |ds| ==> Rank(v, ds[i]) < Rank(v, ds[j])
    ensures OrderedBy(r, c, Shifted(r, c, ds), v)
  {
    if ds != [] {
      ShiftedKeepsOrder(r, c, ds[1..], v);
      ShiftedTailAbove(r, c, ds, v);
      var x := Cell(r + ds[0].0, c + ds[0].1);
      var head := if Inside(x.row, x.col) then [x] else [];
      assert OffsetOf(r, c, x) == ds[0];
      OrderedByCons(r, c, head, Shifted(r, c, ds[1..]), v, Rank(v, ds[0]));
    }
  }

  /** The displacements of `neighbors8` are exactly the non-zero ones with both components in {-1, 0, 1}. */
  lemma Offsets8Members(d: Offset)
    ensures d in Offsets8 <==> Abs(d.0) <= 1 && Abs(d.1) <= 1 && d != (0, 0)
  {
  }

  /** The displacements of `neighbors4` are exactly the unit orthogonal ones. */
  lemma Offsets4Members(d: Offset)
    ensures d in Offsets4 <==> Abs(d.0) + Abs(d.1) == 1
  {
  }

  /** `neighbors8(r, c)`: the in-bounds cells around `(r, c)`, dr then dc over (-1, 0, 1) (corably.py:22-29). */
  function Neighbors8(r: int, c: int): seq<Cell> {
    Shifted(r, c, Offsets8)
  }

  /**
   * `neighbors8(r, c)` is exactly the in-bounds cells at Chebyshev distance 1
   * from `(r, c)` (so never `(r, c)` itself), in row-major order.
   */
  lemma Neighbors8Spec(r: int, c: int)
    ensures forall x :: x in Neighbors8(r, c) <==> OnBoard(x) && Chebyshev(x, Cell(r, c)) == 1
    ensures Cell(r, c) !in Neighbors8(r, c)
    ensures forall i, j :: 0 <= i < j < |Neighbors8(r, c)| ==> RowMajorBefore(Neighbors8(r, c)[i], Neighbors8(r, c)[j])
  {
    var ns := Neighbors8(r, c);
    forall x ensures x in ns <==> OnBoard(x) && Chebyshev(x, Cell(r, c)) == 1 {
      Offsets8Members(OffsetOf(r, c, x));
    }
    ShiftedKeepsOrder(r, c, Offsets8, RowMajor);
    assert OrderedBy(r, c, ns, RowMajor);
    forall i, j | 0 <= i < j < |ns|
      ensures RowMajorBefore(ns[i], ns[j])
    {
      Offsets8Members(OffsetOf(r, c, ns[i]));
      Offsets8Members(OffsetOf(r, c, ns[j]));
    }
  }

  /** `neighbors4(r, c)`: the in-bounds cells up, down, left and right of `(r, c)` (corably.py:32-36). */
  function Neighbors4(r: int, c: int): seq<Cell> {
    Shifted(r, c, Offsets4)
  }

  /**
   * `neighbors4(r, c)` is exactly the in-bounds cells at Manhattan distance 1
   * from `(r, c)`, in the order up, down, left, right.
   */
  lemma Neighbors4Spec(r: int, c: int)
    ensures forall x :: x in Neighbors4(r, c) <==> OnBoard(x) && Manhattan(x, Cell(r, c)) == 1
    ensures forall i, j :: 0 <= i < j < |Neighbors4(r, c)| ==>
      Rank4(OffsetOf(r, c, Neighbors4(r, c)[i])) < Rank4(OffsetOf(r, c, Neighbors4(r, c)[j]))
  {
    var ns := Neighbors4(r, c);
    forall x ensures x in ns <==> OnBoard(x) && Manhattan(x, Cell(r, c)) == 1 {
      Offsets4Members(OffsetOf(r, c, x));
    }
    ShiftedKeepsOrder(r, c, Offsets4, UpDownLeftRight);
    assert OrderedBy(r, c, ns, UpDownLeftRight);
  }

  /** Every cell of `s` lies on the board. */
  predicate AllOnBoard(s: set<Cell>) {
    forall x :: x in s ==> OnBoard(x)
  }

  /** The elements of `s` are pairwise distinct. */
  predicate NoDup<T(==)>(s: seq<T>) {
    forall i, j :: 0 <= i < j < |s| ==> s[i] != s[j]
  }
}
