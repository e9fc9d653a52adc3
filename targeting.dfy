/**
 * The bot's targeting (corably.py:124-137): the FIFO queue of cells to try
 * after a hit, and the hunt-mode fallback to a free cell.
 *
 * The functions here specify the queue operations; the `Game` class runs
 * them in place on its `targets` field.
 */
module Targeting {
  import opened Wrappers
  import opened Grid

  /** The position of the first occurrence of `x` in `s`. */
  function IndexOf(x: Cell, s: seq<Cell>): (k: nat)
    requires x in s
    ensures k < |s| && s[k] == x
    ensures forall i :: 0 <= i < k ==> s[i] != x
  {
    if s[0] == x then 0 else IndexOf(x, s[1..]) + 1
  }

  /** One pass of the loop body of corably.py:126-128: `x` is appended unless shot at or already queued. */
  function Push(x: Cell, q: seq<Cell>, shots: set<Cell>): seq<Cell> {
    if x !in shots && x !in q then q + [x] else q
  }

  /** The queue after the loop of corably.py:126-128 has visited the cells `ns`, in order. */
  function Enqueue(ns: seq<Cell>, q: seq<Cell>, shots: set<Cell>): (r: seq<Cell>)
    ensures |q| <= |r| && r[..|q|] == q
    ensures forall i :: |q| <= i < |r| ==> r[i] in ns && r[i] !in shots && r[i] !in q
    ensures forall x {:trigger x in r} :: x in ns && x !in shots ==> x in r
  {
    if ns == [] then q
    else
      var init := ns[..|ns| - 1];
      var before := Enqueue(init, q, shots);
      assert forall x :: x in init ==> x in ns;
      assert forall x :: x in ns ==> x in init || x == ns[|ns| - 1];
      Push(ns[|ns| - 1], before, shots)
  }

  /** Visiting one more cell of `ns` is one more `Push`. */
  lemma EnqueueStep(ns: seq<Cell>, j: nat, q: seq<Cell>, shots: set<Cell>)
    requires j < |ns|
    ensures Enqueue(ns[..j + 1], q, shots) == Push(ns[j], Enqueue(ns[..j], q, shots), shots)
  {
    assert ns[..j + 1][..j] == ns[..j];
  }

  /** Visiting every cell of `ns` is `Enqueue(ns, ...)`. */
  lemma EnqueueAll(ns: seq<Cell>, q: seq<Cell>, shots: set<Cell>)
    ensures Enqueue(ns[..|ns|], q, shots) == Enqueue(ns, q, shots)
  {
    assert ns[..|ns|] == ns;
  }

  /** Enqueueing never puts a cell in the queue twice. */
  lemma {:induction false} EnqueueNoDup(ns: seq<Cell>, q: seq<Cell>, shots: set<Cell>)
    requires NoDup(q)
    ensures NoDup(Enqueue(ns, q, shots))
  {
    if ns != [] {
      EnqueueNoDup(ns[..|ns| - 1], q, shots);
    }
  }

  /** The appended cells come in the order in which `ns` lists them. */
  lemma {:induction false} EnqueueKeepsOrder(ns: seq<Cell>, q: seq<Cell>, shots: set<Cell>)
    ensures forall i, j :: |q| <= i < j < |Enqueue(ns, q, shots)| ==>
      IndexOf(Enqueue(ns, q, shots)[i], ns) < IndexOf(Enqueue(ns, q, shots)[j], ns)
  {
    if ns != [] {
      var init, x := ns[..|ns| - 1], ns[|ns| - 1];
      var before := Enqueue(init, q, shots);
      EnqueueKeepsOrder(init, q, shots);
      forall y | y in init ensures IndexOf(y, ns) == IndexOf(y, init) {
        IndexOfPrefix(y, init, ns);
      }
      var r := Enqueue(ns, q, shots);
      forall i, j | |q| <= i < j < |r| ensures IndexOf(r[i], ns) < IndexOf(r[j], ns) {
        assert r[i] == before[i] && r[i] in init;
        if j < |before| {
          assert r[j] == before[j] && r[j] in init;
        } else {
          assert r[j] == x && x !in before;
          assert x !in init;
          assert IndexOf(x, ns) == |init|;
        }
      }
    }
  }

  /** The first occurrence of `y` in a prefix is its first occurrence in the whole. */
  lemma IndexOfPrefix(y: Cell, init: seq<Cell>, s: seq<Cell>)
    requires y in init && |init| <= |s| && s[..|init|] == init
    ensures IndexOf(y, s) == IndexOf(y, init)
  {
    var k, m := IndexOf(y, init), IndexOf(y, s);
    assert s[k] == y;
  }

  /**
   * `enqueue_targets_from_hit` (corably.py:124-128): the queue after visiting
   * the orthogonal neighbours of the hit.
   */
  function Enqueued(hit: Cell, q: seq<Cell>, shots: set<Cell>): seq<Cell> {
    Enqueue(Neighbors4(hit.row, hit.col), q, shots)
  }

  /**
   * The old queue is kept as a prefix, and exactly the on-board, unshot,
   * not-yet-queued orthogonal neighbours of the hit are appended.
   */
  lemma EnqueuedCells(hit: Cell, q: seq<Cell>, shots: set<Cell>)
    ensures var r := Enqueued(hit, q, shots);
      |q| <= |r| && r[..|q|] == q &&
      (forall i :: |q| <= i < |r| ==>
        OnBoard(r[i]) && Manhattan(r[i], hit) == 1 && r[i] !in shots && r[i] !in q) &&
      (forall x :: OnBoard(x) && Manhattan(x, hit) == 1 && x !in shots ==> x in r)
  {
    Neighbors4Spec(hit.row, hit.col);
    assert Cell(hit.row, hit.col) == hit;
  }

  /** The appended neighbours come in the order up, down, left, right. */
  lemma EnqueuedOrder(hit: Cell, q: seq<Cell>, shots: set<Cell>)
    ensures var r := Enqueued(hit, q, shots);
      forall i, j :: |q| <= i < j < |r| ==>
        Rank4(OffsetOf(hit.row, hit.col, r[i])) < Rank4(OffsetOf(hit.row, hit.col, r[j]))
  {
    var ns := Neighbors4(hit.row, hit.col);
    var r := Enqueued(hit, q, shots);
    Neighbors4Spec(hit.row, hit.col);
    EnqueueKeepsOrder(ns, q, shots);
    forall i, j | |q| <= i < j < |r|
      ensures Rank4(OffsetOf(hit.row, hit.col, r[i])) < Rank4(OffsetOf(hit.row, hit.col, r[j]))
    {
      var a, b := IndexOf(r[i], ns), IndexOf(r[j], ns);
      assert a < b;
    }
  }

  /** Enqueueing keeps an on-board, duplicate-free queue on the board and free of duplicates. */
  lemma EnqueuedKeepsQueue(hit: Cell, q: seq<Cell>, shots: set<Cell>)
    requires forall i :: 0 <= i < |q| ==> OnBoard(q[i])
    requires NoDup(q)
    ensures forall i :: 0 <= i < |Enqueued(hit, q, shots)| ==> OnBoard(Enqueued(hit, q, shots)[i])
    ensures NoDup(Enqueued(hit, q, shots))
  {
    var r := Enqueued(hit, q, shots);
    EnqueueNoDup(Neighbors4(hit.row, hit.col), q, shots);
    Neighbors4Spec(hit.row, hit.col);
    assert forall i :: 0 <= i < |q| ==> r[i] == q[i];
  }

  /** The number of entries at the front of `q` that were already shot at. */
  function ShotPrefix(q: seq<Cell>, shots: set<Cell>): (k: nat)
    ensures k <= |q|
    ensures forall i :: 0 <= i < k ==> q[i] in shots
    ensures k < |q| ==> q[k] !in shots
  {
    if q == [] || q[0] !in shots then 0
    else
      var k := ShotPrefix(q[1..], shots);
      assert forall i :: 1 <= i < k + 1 ==> q[i] == q[1..][i - 1];
      k + 1
  }

  /** The cells of `s` that are not in `shots`, in the order of `s`. */
  function Unshot(s: seq<Cell>, shots: set<Cell>): (r: seq<Cell>)
    ensures forall x {:trigger x in r} :: x in r <==> x in s && x !in shots
  {
    if s == [] then []
    else
      assert forall x :: x in s <==> x == s[0] || x in s[1..];
      (if s[0] !in shots then [s[0]] else []) + Unshot(s[1..], shots)
  }

  /** Filtering keeps a strict row-major order. */
  lemma {:induction false} UnshotKeepsOrder(s: seq<Cell>, shots: set<Cell>)
    requires forall i, j :: 0 <= i < j < |s| ==> RowMajorBefore(s[i], s[j])
    ensures forall i, j :: 0 <= i < j < |Unshot(s, shots)| ==> RowMajorBefore(Unshot(s, shots)[i], Unshot(s, shots)[j])
  {
    if s != [] {
      var rest := Unshot(s[1..], shots);
      UnshotKeepsOrder(s[1..], shots);
      forall j | 0 <= j < |rest| ensures RowMajorBefore(s[0], rest[j]) {
        assert rest[j] in rest;
        assert rest[j] in s[1..];
        var m :| 0 <= m < |s[1..]| && s[1..][m] == rest[j];
        assert s[m + 1] == rest[j];
      }
      var r := Unshot(s, shots);
      if s[0] !in shots {
        assert forall i :: 1 <= i < |r| ==> r[i] == rest[i - 1];
      }
    }
  }

  /** The cell with row-major position `i` on the board. */
  function CellAt(i: int): Cell {
    Cell(i / N, i % N)
  }

  /**
   * Every board cell, in the row-major order of `for r in range(N) for c in
   * range(N)`: exactly the on-board cells, strictly increasing.
   */
  function Board(): (b: seq<Cell>)
    ensures forall x {:trigger x in b} :: x in b <==> OnBoard(x)
    ensures forall i, j :: 0 <= i < j < |b| ==> RowMajorBefore(b[i], b[j])
  {
    var b := seq(N * N, i => CellAt(i));
    forall x | OnBoard(x) ensures x in b {
      assert b[N * x.row + x.col] == x;
    }
    b
  }

  /**
   * The hunt-mode list `free` of corably.py:136: the unshot board cells in
   * row-major order.
   */
  function FreeCells(shots: set<Cell>): (free: seq<Cell>)
    ensures forall x {:trigger x in free} :: x in free <==> OnBoard(x) && x !in shots
    ensures forall i, j :: 0 <= i < j < |free| ==> RowMajorBefore(free[i], free[j])
  {
    UnshotKeepsOrder(Board(), shots);
    Unshot(Board(), shots)
  }

  /** The bot's pick and the queue left after it. */
  datatype Choice = Choice(shot: Option<Cell>, rest: seq<Cell>)

  /**
   * `choose_bot_shot` (corably.py:131-137): entries are popped from the front
   * of the queue until one that was not shot at; when the queue runs dry,
   * `random.choice(free)` picks `free[seed % |free|]`, and `None` stands for
   * the `IndexError` of an empty `free`.
   */
  function ChooseShot(q: seq<Cell>, shots: set<Cell>, seed: nat): (c: Choice)
    ensures c.shot.Some? ==> c.shot.value !in shots
    ensures |c.rest| <= |q|
    ensures c.rest == q[|q| - |c.rest|..]
  {
    var k := ShotPrefix(q, shots);
    if k < |q| then Choice(Some(q[k]), q[k + 1..])
    else
      var free := FreeCells(shots);
      if free == [] then Choice(None, [])
      else
        var pick := free[seed % |free|];
        assert pick in free;
        Choice(Some(pick), [])
  }

  /**
   * If the queue holds an unshot cell, the pick is its first unshot entry and
   * only the entries up to it are popped; otherwise the queue is used up and
   * the pick is an unshot board cell, which exists exactly when one is left.
   */
  lemma ChooseShotPicks(q: seq<Cell>, shots: set<Cell>, seed: nat)
    ensures var c := ChooseShot(q, shots, seed);
      (exists i :: 0 <= i < |q| && q[i] !in shots) ==>
        |c.rest| < |q| && c.shot == Some(q[|q| - |c.rest| - 1]) &&
        forall i :: 0 <= i < |q| - |c.rest| - 1 ==> q[i] in shots
    ensures var c := ChooseShot(q, shots, seed);
      (forall i :: 0 <= i < |q| ==> q[i] in shots) ==>
        c.rest == [] && (c.shot.Some? <==> exists x :: OnBoard(x) && x !in shots) &&
        (c.shot.Some? ==> OnBoard(c.shot.value))
  {
    var free := FreeCells(shots);
    if exists x :: OnBoard(x) && x !in shots {
      var x :| OnBoard(x) && x !in shots;
      assert x in free;
    }
    if free != [] {
      assert free[seed % |free|] in free;
    }
  }

  /**
   * With an on-board, duplicate-free queue and an unshot board cell, the bot
   * always has a shot: an unshot board cell, and the queue left over stays
   * on the board and free of duplicates.
   */
  lemma ChooseShotOnBoard(q: seq<Cell>, shots: set<Cell>, seed: nat)
    requires forall i :: 0 <= i < |q| ==> OnBoard(q[i])
    requires NoDup(q)
    requires exists x :: OnBoard(x) && x !in shots
    ensures ChooseShot(q, shots, seed).shot.Some?
    ensures OnBoard(ChooseShot(q, shots, seed).shot.value)
    ensures forall i :: 0 <= i < |ChooseShot(q, shots, seed).rest| ==> OnBoard(ChooseShot(q, shots, seed).rest[i])
    ensures NoDup(ChooseShot(q, shots, seed).rest)
  {
    var k := ShotPrefix(q, shots);
    if k < |q| {
      var rest := q[k + 1..];
      assert ChooseShot(q, shots, seed) == Choice(Some(q[k]), rest);
      assert forall i :: 0 <= i < |rest| ==> rest[i] == q[k + 1 + i];
    } else {
      var free := FreeCells(shots);
      var x :| OnBoard(x) && x !in shots;
      assert x in free;
      assert free[seed % |free|] in free;
    }
  }
}
