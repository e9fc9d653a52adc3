/**
 * No-touch fleet placement by rejection sampling, and the sunk test
 * (corably.py:6, 52-98, 157).
 *
 * The random draws are supplied by a `Picker`; every fact proved here holds
 * for every picker.
 */
module Fleet {
  import opened Wrappers
  import opened Grid

  /** Ship lengths, placed in this order. */
  const ShipSizes: seq<nat> := [3, 2, 1, 1]

  /** After this many rejected draws for one ship the whole placement restarts. */
  const MaxTries: nat := 5000

  function Sum(s: seq<nat>): nat {
    if s == [] then 0 else Sum(s[..|s| - 1]) + s[|s| - 1]
  }

  /** `total_cells = sum(SHIP_SIZES)`: the number of cells a side must hit to win. */
  const TotalCells: nat := Sum(ShipSizes)

  /**
   * One draw of the sampler: `random.choice([True, False])` gives `vert`, and
   * the row and column `randrange` results are `a` and `b` reduced modulo
   * their ranges, so every in-range anchor is some draw.
   */
  datatype Draw = Draw(vert: bool, a: nat, b: nat)

  /** The source of draws, indexed by (restart round, ship index, try number). */
  type Picker = (nat, nat, nat) -> Draw

  /** The `i`-th cell of a run anchored at `(r, c)`. */
  function RunCell(r: int, c: int, vert: bool, i: int): Cell {
    if vert then Cell(r + i, c) else Cell(r, c + i)
  }

  /** The cells of a straight run of `len` cells anchored at `(r, c)`. */
  function RunSet(r: int, c: int, vert: bool, len: nat): set<Cell> {
    set i | 0 <= i < len :: RunCell(r, c, vert, i)
  }

  /** A run anchored at `(r, c)` lies entirely on the board. */
  predicate RunFits(r: int, c: int, vert: bool, len: nat) {
    0 <= r && 0 <= c && if vert then r + len <= N && c < N else r < N && c + len <= N
  }

  /** `s` is one straight vertical or horizontal run of exactly `len` on-board cells. */
  ghost predicate IsRun(s: set<Cell>, len: nat) {
    exists r, c, vert :: RunFits(r, c, vert, len) && s == RunSet(r, c, vert, len)
  }

  function SetOf(cells: seq<Cell>): set<Cell> {
    set x | x in cells
  }

  /** The cells of a run of `len` cells anchored at `(r, c)`, in order along the run. */
  function RunCells(r: int, c: int, vert: bool, len: nat): seq<Cell> {
    if len == 0 then [] else RunCells(r, c, vert, len - 1) + [RunCell(r, c, vert, len - 1)]
  }

  /** The `i`-th element of `RunCells` is the run's `i`-th cell. */
  lemma {:induction false} RunCellsAt(r: int, c: int, vert: bool, len: nat)
    ensures |RunCells(r, c, vert, len)| == len
    ensures forall i :: 0 <= i < len ==> RunCells(r, c, vert, len)[i] == RunCell(r, c, vert, i)
  {
    if len > 0 {
      RunCellsAt(r, c, vert, len - 1);
    }
  }

  /** The candidate cells of one draw for a ship of length `len` (corably.py:74-82). */
  function Candidate(d: Draw, len: nat): seq<Cell>
    requires 1 <= len <= N
  {
    var r := if d.vert then d.a % (N - len + 1) else d.a % N;
    var c := if d.vert then d.b % N else d.b % (N - len + 1);
    RunCells(r, c, d.vert, len)
  }

  /** Every draw yields a straight on-board run of exactly `len` cells (corably.py:74-82). */
  lemma CandidateIsRun(d: Draw, len: nat)
    requires 1 <= len <= N
    ensures |Candidate(d, len)| == len
    ensures IsRun(SetOf(Candidate(d, len)), len)
  {
    var r := if d.vert then d.a % (N - len + 1) else d.a % N;
    var c := if d.vert then d.b % N else d.b % (N - len + 1);
    var cells := Candidate(d, len);
    RunCellsAt(r, c, d.vert, len);
    assert SetOf(cells) == RunSet(r, c, d.vert, len) by {
      forall x | x in RunSet(r, c, d.vert, len) ensures x in SetOf(cells) {
        var i :| 0 <= i < len && x == RunCell(r, c, d.vert, i);
        assert cells[i] == x;
      }
    }
    assert RunFits(r, c, d.vert, len);
  }

  /** Some cell of `ns` is in `occupied`. */
  function AnyIn(ns: seq<Cell>, occupied: set<Cell>): bool {
    if ns == [] then false else ns[0] in occupied || AnyIn(ns[1..], occupied)
  }

  /** `AnyIn` is the existential it names. */
  lemma {:induction false} AnyInMeaning(ns: seq<Cell>, occupied: set<Cell>)
    ensures AnyIn(ns, occupied) <==> exists i :: 0 <= i < |ns| && ns[i] in occupied
  {
    if ns != [] {
      AnyInMeaning(ns[1..], occupied);
      assert forall i :: 0 < i < |ns| ==> ns[i] == ns[1..][i - 1];
    }
  }

  /**
   * `can_place`: the candidate cells in order, rejecting at the first one
   * that is occupied or has an occupied 8-neighbour (corably.py:52-59).
   */
  function CanPlace(cells: seq<Cell>, occupied: set<Cell>): bool {
    if cells == [] then true
    else if cells[0] in occupied then false
    else if AnyIn(Neighbors8(cells[0].row, cells[0].col), occupied) then false
    else CanPlace(cells[1..], occupied)
  }

  /** `can_place` holds iff no candidate cell and no 8-neighbour of one is occupied. */
  lemma {:induction false} CanPlaceMeaning(cells: seq<Cell>, occupied: set<Cell>)
    ensures CanPlace(cells, occupied) <==> forall i :: 0 <= i < |cells| ==>
      cells[i] !in occupied &&
      forall y :: y in Neighbors8(cells[i].row, cells[i].col) ==> y !in occupied
  {
    if cells != [] {
      AnyInMeaning(Neighbors8(cells[0].row, cells[0].col), occupied);
      CanPlaceMeaning(cells[1..], occupied);
      assert forall i :: 0 < i < |cells| ==> cells[i] == cells[1..][i - 1];
    }
  }

  /** Neither the same cell nor 8-adjacent. */
  predicate Apart(x: Cell, y: Cell) {
    Chebyshev(x, y) > 1
  }

  /** On an on-board occupied set, one cell passes `can_place`'s test iff it is apart from every occupied cell. */
  lemma CellClearIffApart(x: Cell, occupied: set<Cell>)
    requires AllOnBoard(occupied)
    ensures (x !in occupied && forall y :: y in Neighbors8(x.row, x.col) ==> y !in occupied) <==>
      forall y :: y in occupied ==> Apart(x, y)
  {
    Neighbors8Spec(x.row, x.col);
    forall y | y in occupied
      ensures !Apart(x, y) <==> y == x || y in Neighbors8(x.row, x.col)
    {
      assert Chebyshev(y, Cell(x.row, x.col)) == Chebyshev(x, y);
    }
  }

  /** On an on-board occupied set, `can_place` holds iff every candidate cell is apart from every occupied cell. */
  lemma CanPlaceIffApart(cells: seq<Cell>, occupied: set<Cell>)
    requires AllOnBoard(occupied)
    ensures CanPlace(cells, occupied) <==>
      forall i, y :: 0 <= i < |cells| && y in occupied ==> Apart(cells[i], y)
  {
    CanPlaceMeaning(cells, occupied);
    forall i | 0 <= i < |cells| {
      CellClearIffApart(cells[i], occupied);
    }
  }

  /** The ship cells and the cell-to-ship index map built by the placer. */
  datatype Fleet = Fleet(ships: seq<set<Cell>>, cellToShip: map<Cell, nat>)

  /** Ship `i` is a straight run of `ShipSizes[i]` on-board cells. */
  ghost predicate ShipsAreRuns(ships: seq<set<Cell>>) {
    |ships| <= |ShipSizes| && forall i :: 0 <= i < |ships| ==> IsRun(ships[i], ShipSizes[i])
  }

  /** Distinct ships neither overlap nor touch, not even diagonally. */
  ghost predicate ShipsApart(ships: seq<set<Cell>>) {
    forall i, j, x, y :: 0 <= i < |ships| && 0 <= j < |ships| && i != j && x in ships[i] && y in ships[j] ==> Apart(x, y)
  }

  /** `cellToShip` maps exactly the union of the ships, each cell to the index of its ship. */
  ghost predicate IndexMapsShips(f: Fleet) {
    && (forall x :: x in f.cellToShip ==> f.cellToShip[x] < |f.ships| && x in f.ships[f.cellToShip[x]])
    && (forall i, x :: 0 <= i < |f.ships| && x in f.ships[i] ==> x in f.cellToShip && f.cellToShip[x] == i)
  }

  /** The placement invariant after the first `k` ships. */
  ghost predicate FleetPrefix(f: Fleet, k: nat) {
    k <= |ShipSizes| && |f.ships| == k && ShipsAreRuns(f.ships) && ShipsApart(f.ships) && IndexMapsShips(f)
  }

  /** A complete placement: all four ships, satisfying the placement invariant. */
  ghost predicate ValidFleet(f: Fleet) {
    FleetPrefix(f, |ShipSizes|)
  }

  /** `cellToShip` after every cell of `cells` is assigned to ship `idx`. */
  function Assign(cellToShip: map<Cell, nat>, cells: seq<Cell>, idx: nat): map<Cell, nat> {
    cellToShip + map x | x in cells :: idx
  }

  /** Appending accepted `cells` as the next ship (corably.py:87-91). */
  function AddShip(f: Fleet, cells: seq<Cell>): Fleet {
    Fleet(f.ships + [SetOf(cells)], Assign(f.cellToShip, cells, |f.ships|))
  }

  /** Try `t` for ship `k` draws a candidate that `can_place` accepts. */
  predicate Accepts(pick: Picker, round: nat, k: nat, occupied: set<Cell>, t: nat)
    requires k < |ShipSizes|
  {
    CanPlace(Candidate(pick(round, k, t), ShipSizes[k]), occupied)
  }

  /**
   * The try counter of the sampler for ship `k` from try `t` on
   * (corably.py:68-85): the first try in `t..MaxTries` that `can_place`
   * accepts, or `None` when every one of them is rejected.
   */
  function FirstAccepted(pick: Picker, round: nat, k: nat, occupied: set<Cell>, t: nat): Option<nat>
    requires k < |ShipSizes|
    decreases MaxTries + 1 - t
  {
    if t > MaxTries then None
    else if Accepts(pick, round, k, occupied, t) then Some(t)
    else FirstAccepted(pick, round, k, occupied, t + 1)
  }

  /**
   * The sampler gives up exactly when every try from `t` on is rejected, and
   * otherwise stops at the first accepted try.
   */
  lemma {:induction false} FirstAcceptedIsFirst(pick: Picker, round: nat, k: nat, occupied: set<Cell>, t: nat)
    requires k < |ShipSizes|
    decreases MaxTries + 1 - t
    ensures FirstAccepted(pick, round, k, occupied, t).None? <==>
      forall s :: t <= s <= MaxTries ==> !Accepts(pick, round, k, occupied, s)
    ensures FirstAccepted(pick, round, k, occupied, t).Some? ==>
      var u := FirstAccepted(pick, round, k, occupied, t).value;
      t <= u <= MaxTries && Accepts(pick, round, k, occupied, u) &&
      forall s :: t <= s < u ==> !Accepts(pick, round, k, occupied, s)
  {
    if t <= MaxTries && !Accepts(pick, round, k, occupied, t) {
      FirstAcceptedIsFirst(pick, round, k, occupied, t + 1);
    }
  }

  /**
   * The sampler for ship `k` (corably.py:68-85): the candidate of the first
   * try in `1..MaxTries` that `can_place` accepts, or `None` when every try
   * is rejected and the source restarts the whole placement.
   */
  function TryShip(pick: Picker, round: nat, k: nat, occupied: set<Cell>): Option<seq<Cell>>
    requires k < |ShipSizes|
  {
    match FirstAccepted(pick, round, k, occupied, 1)
    case None => None
    case Some(t) => Some(Candidate(pick(round, k, t), ShipSizes[k]))
  }

  /** A run the sampler accepts passed `can_place` and is a run of the ship's length. */
  lemma TryShipSound(pick: Picker, round: nat, k: nat, occupied: set<Cell>)
    requires k < |ShipSizes|
    ensures var r := TryShip(pick, round, k, occupied);
      r.Some? ==> CanPlace(r.value, occupied) && IsRun(SetOf(r.value), ShipSizes[k])
  {
    FirstAcceptedIsFirst(pick, round, k, occupied, 1);
    var t := FirstAccepted(pick, round, k, occupied, 1);
    if t.Some? {
      CandidateIsRun(pick(round, k, t.value), ShipSizes[k]);
    }
  }

  /** Placing ships `k..` on top of the partial fleet `f` whose cells are `occupied`. */
  ghost function PlaceFrom(pick: Picker, round: nat, k: nat, f: Fleet, occupied: set<Cell>): Option<Fleet>
    requires k <= |ShipSizes|
    decreases |ShipSizes| - k
  {
    if k == |ShipSizes| then Some(f)
    else
      match TryShip(pick, round, k, occupied)
      case None => None
      case Some(cells) => PlaceFrom(pick, round, k + 1, AddShip(f, cells), occupied + SetOf(cells))
  }

  /** One placement attempt from an empty board; `None` means some ship used up its tries. */
  ghost function Attempt(pick: Picker, round: nat): Option<Fleet> {
    PlaceFrom(pick, round, 0, Fleet([], map[]), {})
  }

  /**
   * The first of the attempts `round`, `round + 1`, ..., `round + budget`
   * that produces a fleet: the restart rule of `place_ships_no_touch`
   * (corably.py:71-72), over any attempt function.
   */
  ghost function FirstSuccess(attempt: nat -> Option<Fleet>, round: nat, budget: nat): Option<Fleet>
    decreases budget
  {
    match attempt(round)
    case Some(f) => Some(f)
    case None => if budget == 0 then None else FirstSuccess(attempt, round + 1, budget - 1)
  }

  /** The attempts of `place_ships_no_touch`, by round. */
  ghost function Attempts(pick: Picker): nat -> Option<Fleet>
  {
    (round: nat) => Attempt(pick, round)
  }

  /** `place_ships_no_touch` with at most `budget` restarts after round `round`. */
  ghost function PlaceRounds(pick: Picker, round: nat, budget: nat): Option<Fleet>
  {
    FirstSuccess(Attempts(pick), round, budget)
  }

  /** A run of `len` cells has exactly `len` cells. */
  lemma {:induction false} RunSetSize(r: int, c: int, vert: bool, len: nat)
    ensures |RunSet(r, c, vert, len)| == len
  {
    if len > 0 {
      RunSetSize(r, c, vert, len - 1);
      var last := RunCell(r, c, vert, len - 1);
      assert RunSet(r, c, vert, len) == RunSet(r, c, vert, len - 1) + {last};
      assert last !in RunSet(r, c, vert, len - 1);
    }
  }

  /** A run has its stated length and lies on the board. */
  lemma IsRunFacts(s: set<Cell>, len: nat)
    requires IsRun(s, len)
    ensures |s| == len && AllOnBoard(s)
  {
    var r, c, vert :| RunFits(r, c, vert, len) && s == RunSet(r, c, vert, len);
    RunSetSize(r, c, vert, len);
  }

  /** Every cell of `a` is apart from every cell of `b`. */
  ghost predicate AllApart(a: set<Cell>, b: set<Cell>) {
    forall x, y :: x in a && y in b ==> Apart(x, y)
  }

  lemma ApartSymmetric(x: Cell, y: Cell)
    ensures Apart(x, y) == Apart(y, x)
  {
  }

  lemma AddShipRuns(f: Fleet, k: nat, cells: seq<Cell>)
    requires FleetPrefix(f, k) && k < |ShipSizes|
    requires IsRun(SetOf(cells), ShipSizes[k])
    ensures ShipsAreRuns(AddShip(f, cells).ships)
  {
    var g := AddShip(f, cells);
    assert forall i :: 0 <= i < k ==> g.ships[i] == f.ships[i];
  }

  lemma AddShipApart(f: Fleet, k: nat, cells: seq<Cell>)
    requires FleetPrefix(f, k) && k < |ShipSizes|
    requires AllApart(SetOf(cells), f.cellToShip.Keys)
    ensures ShipsApart(AddShip(f, cells).ships)
  {
    var g := AddShip(f, cells);
    assert forall i :: 0 <= i < k ==> g.ships[i] == f.ships[i];
    assert g.ships[k] == SetOf(cells);
    forall i, j, x, y | 0 <= i < k + 1 && 0 <= j < k + 1 && i != j && x in g.ships[i] && y in g.ships[j]
      ensures Apart(x, y)
    {
      if i == k {
        assert y in f.cellToShip;
      } else if j == k {
        assert x in f.cellToShip;
        ApartSymmetric(y, x);
      }
    }
  }

  lemma AddShipIndex(f: Fleet, k: nat, cells: seq<Cell>)
    requires FleetPrefix(f, k) && k < |ShipSizes|
    requires AllApart(SetOf(cells), f.cellToShip.Keys)
    ensures IndexMapsShips(AddShip(f, cells))
    ensures AddShip(f, cells).cellToShip.Keys == f.cellToShip.Keys + SetOf(cells)
  {
    var g := AddShip(f, cells);
    var s := SetOf(cells);
    assert g.cellToShip.Keys == f.cellToShip.Keys + s;
    forall i, x | 0 <= i < k && x in f.ships[i] ensures x !in s {
      assert x in f.cellToShip;
      assert !Apart(x, x);
    }
    forall x | x in g.cellToShip
      ensures g.cellToShip[x] < |g.ships| && x in g.ships[g.cellToShip[x]]
    {
      if x in s {
        assert g.cellToShip[x] == k;
      } else {
        assert g.cellToShip[x] == f.cellToShip[x];
        assert g.ships[f.cellToShip[x]] == f.ships[f.cellToShip[x]];
      }
    }
    forall i, x | 0 <= i < |g.ships| && x in g.ships[i]
      ensures x in g.cellToShip && g.cellToShip[x] == i
    {
      if i == k {
        assert x in s;
      } else {
        assert g.ships[i] == f.ships[i];
        assert x in f.cellToShip;
      }
    }
  }

  /** Accepting a run apart from every occupied cell extends the placement invariant by one ship. */
  lemma AddShipKeepsInvariant(f: Fleet, k: nat, cells: seq<Cell>)
    requires FleetPrefix(f, k) && k < |ShipSizes|
    requires AllApart(SetOf(cells), f.cellToShip.Keys)
    requires IsRun(SetOf(cells), ShipSizes[k])
    ensures FleetPrefix(AddShip(f, cells), k + 1)
    ensures AddShip(f, cells).cellToShip.Keys == f.cellToShip.Keys + SetOf(cells)
  {
    AddShipRuns(f, k, cells);
    AddShipApart(f, k, cells);
    AddShipIndex(f, k, cells);
  }

  /** On an on-board partial fleet, the runs `can_place` accepts are apart from every placed cell. */
  lemma CanPlaceGivesApart(f: Fleet, k: nat, cells: seq<Cell>)
    requires FleetPrefix(f, k)
    requires CanPlace(cells, f.cellToShip.Keys)
    ensures AllApart(SetOf(cells), f.cellToShip.Keys)
  {
    forall i | 0 <= i < k ensures AllOnBoard(f.ships[i]) {
      IsRunFacts(f.ships[i], ShipSizes[i]);
    }
    CanPlaceIffApart(cells, f.cellToShip.Keys);
    forall x, y | x in SetOf(cells) && y in f.cellToShip.Keys ensures Apart(x, y) {
      var n :| 0 <= n < |cells| && cells[n] == x;
    }
  }

  /** Any fleet that placement from a valid partial fleet returns is a valid fleet. */
  lemma {:induction false} PlaceFromValid(pick: Picker, round: nat, k: nat, f: Fleet, occupied: set<Cell>)
    requires k <= |ShipSizes|
    decreases |ShipSizes| - k
    requires FleetPrefix(f, k) && occupied == f.cellToShip.Keys
    ensures PlaceFrom(pick, round, k, f, occupied).Some? ==> ValidFleet(PlaceFrom(pick, round, k, f, occupied).value)
  {
    if k < |ShipSizes| {
      match TryShip(pick, round, k, occupied)
      case None =>
      case Some(cells) =>
        TryShipSound(pick, round, k, occupied);
        CanPlaceGivesApart(f, k, cells);
        AddShipKeepsInvariant(f, k, cells);
        PlaceFromValid(pick, round, k + 1, AddShip(f, cells), occupied + SetOf(cells));
    }
  }

  /** Every fleet one placement attempt returns satisfies the placement invariant. */
  lemma AttemptValid(pick: Picker, round: nat)
    ensures Attempt(pick, round).Some? ==> ValidFleet(Attempt(pick, round).value)
  {
    PlaceFromValid(pick, round, 0, Fleet([], map[]), {});
  }

  /**
   * The restart rule: nothing is found exactly when every attempt of the
   * rounds tried fails; otherwise the result is the first attempt that
   * succeeds.
   */
  lemma {:induction false} FirstSuccessFirst(attempt: nat -> Option<Fleet>, round: nat, budget: nat)
    ensures FirstSuccess(attempt, round, budget).None? <==> forall r :: round <= r <= round + budget ==> attempt(r).None?
    ensures FirstSuccess(attempt, round, budget).Some? ==>
      exists r :: round <= r <= round + budget && FirstSuccess(attempt, round, budget) == attempt(r) &&
        forall q :: round <= q < r ==> attempt(q).None?
    decreases budget
  {
    if attempt(round).None? && budget > 0 {
      FirstSuccessFirst(attempt, round + 1, budget - 1);
    }
  }

  /**
   * The restarts of `place_ships_no_touch` (corably.py:71-72): no fleet
   * exactly when every attempt of rounds `round` to `round + budget` runs out
   * of tries; otherwise the fleet of the first attempt that does not.
   */
  lemma PlaceRoundsFirst(pick: Picker, round: nat, budget: nat)
    ensures PlaceRounds(pick, round, budget).None? <==> forall r :: round <= r <= round + budget ==> Attempt(pick, r).None?
    ensures PlaceRounds(pick, round, budget).Some? ==>
      exists r :: round <= r <= round + budget && PlaceRounds(pick, round, budget) == Attempt(pick, r) &&
        forall q :: round <= q < r ==> Attempt(pick, q).None?
  {
    FirstSuccessFirst(Attempts(pick), round, budget);
    assert forall r: nat :: Attempts(pick)(r) == Attempt(pick, r);
  }

  /** One restart step: the attempt of round `round` if it succeeds or no restart is left, else the next round. */
  lemma PlaceRoundsStep(pick: Picker, round: nat, budget: nat)
    ensures PlaceRounds(pick, round, budget) ==
      if Attempt(pick, round).Some? || budget == 0 then Attempt(pick, round)
      else PlaceRounds(pick, round + 1, budget - 1)
  {
    assert Attempts(pick)(round) == Attempt(pick, round);
  }

  /** Placement validity: every fleet `place_ships_no_touch` returns satisfies the placement invariant. */
  lemma PlaceRoundsValid(pick: Picker, round: nat, budget: nat)
    ensures PlaceRounds(pick, round, budget).Some? ==> ValidFleet(PlaceRounds(pick, round, budget).value)
  {
    FirstSuccessFirst(Attempts(pick), round, budget);
    if PlaceRounds(pick, round, budget).Some? {
      var r :| round <= r <= round + budget && PlaceRounds(pick, round, budget) == Attempts(pick)(r);
      AttemptValid(pick, r);
    }
  }

  /** The union of the first `k` ships. */
  function UnionOf(ships: seq<set<Cell>>, k: nat): set<Cell>
    requires k <= |ships|
  {
    if k == 0 then {} else UnionOf(ships, k - 1) + ships[k - 1]
  }

  /** Ship `k` shares no cell with the ships before it. */
  lemma LastDisjoint(ships: seq<set<Cell>>, k: nat)
    requires k < |ships| && ShipsApart(ships)
    ensures UnionOf(ships, k) !! ships[k]
  {
    forall x | x in UnionOf(ships, k) ensures x !in ships[k] {
      UnionOfMember(ships, k, x);
      var i :| 0 <= i < k && x in ships[i];
      assert Apart(x, x) ==> false;
    }
  }

  /** The first `k` ships of a placement hold `ShipSizes[0] + ... + ShipSizes[k - 1]` cells. */
  lemma {:induction false} UnionOfSize(ships: seq<set<Cell>>, k: nat)
    requires k <= |ships| && ShipsAreRuns(ships) && ShipsApart(ships)
    ensures |UnionOf(ships, k)| == Sum(ShipSizes[..k])
  {
    if k > 0 {
      UnionOfSize(ships, k - 1);
      IsRunFacts(ships[k - 1], ShipSizes[k - 1]);
      LastDisjoint(ships, k - 1);
      assert ShipSizes[..k][..k - 1] == ShipSizes[..k - 1];
      assert Sum(ShipSizes[..k]) == Sum(ShipSizes[..k - 1]) + ShipSizes[k - 1];
    }
  }

  lemma {:induction false} UnionOfMember(ships: seq<set<Cell>>, k: nat, x: Cell)
    requires k <= |ships|
    ensures x in UnionOf(ships, k) <==> exists i :: 0 <= i < k && x in ships[i]
  {
    if k > 0 {
      UnionOfMember(ships, k - 1, x);
    }
  }

  /** `sum(SHIP_SIZES)` is 7. */
  lemma TotalCellsIsSeven()
    ensures TotalCells == 7
  {
    assert ShipSizes[..3] == [3, 2, 1] && [3, 2, 1][..2] == [3, 2] && [3, 2][..1] == [3];
    assert Sum([3]) == 3;
  }

  /** The keys of `cellToShip` are the union of the ships. */
  lemma KeysAreUnion(f: Fleet)
    requires ValidFleet(f)
    ensures f.cellToShip.Keys == UnionOf(f.ships, |ShipSizes|)
  {
    forall x ensures x in f.cellToShip.Keys <==> x in UnionOf(f.ships, |ShipSizes|) {
      UnionOfMember(f.ships, |ShipSizes|, x);
    }
  }

  /** Every cell of a valid fleet is on the board. */
  lemma FleetOnBoard(f: Fleet)
    requires ValidFleet(f)
    ensures AllOnBoard(f.cellToShip.Keys)
  {
    forall i | 0 <= i < |ShipSizes| ensures AllOnBoard(f.ships[i]) {
      IsRunFacts(f.ships[i], ShipSizes[i]);
    }
  }

  /**
   * A valid fleet occupies `sum(SHIP_SIZES) == 7` on-board cells, all of them
   * keys of `cellToShip` (corably.py:157).
   */
  lemma FleetCellCount(f: Fleet)
    requires ValidFleet(f)
    ensures |f.cellToShip| == TotalCells == 7
    ensures AllOnBoard(f.cellToShip.Keys)
  {
    UnionOfSize(f.ships, |ShipSizes|);
    KeysAreUnion(f);
    assert ShipSizes[..|ShipSizes|] == ShipSizes;
    TotalCellsIsSeven();
    FleetOnBoard(f);
  }

  /** `ship_sunk`: every cell of ship `idx` has been hit (corably.py:97-98). */
  function ShipSunk(idx: nat, hits: set<Cell>, ships: seq<set<Cell>>): bool
    requires idx < |ships|
  {
    ships[idx] <= hits
  }

  /** On a valid fleet a ship is sunk iff every cell that `cellToShip` assigns to it is hit. */
  lemma ShipSunkByIndex(f: Fleet, idx: nat, hits: set<Cell>)
    requires ValidFleet(f) && idx < |f.ships|
    ensures ShipSunk(idx, hits, f.ships) <==>
      forall x :: x in f.cellToShip && f.cellToShip[x] == idx ==> x in hits
  {
  }

  /** The cells of a one-longer prefix are those of the prefix and the next cell. */
  lemma SetOfStep(cells: seq<Cell>, j: nat)
    requires j < |cells|
    ensures SetOf(cells[..j + 1]) == SetOf(cells[..j]) + {cells[j]}
  {
    assert cells[..j + 1] == cells[..j] + [cells[j]];
  }

  lemma AssignStep(cellToShip: map<Cell, nat>, cells: seq<Cell>, j: nat, idx: nat)
    requires j < |cells|
    ensures Assign(cellToShip, cells[..j + 1], idx) == Assign(cellToShip, cells[..j], idx)[cells[j] := idx]
  {
    assert cells[..j + 1] == cells[..j] + [cells[j]];
  }

  /** The loop of corably.py:89-91: every cell of the accepted run is mapped to ship `idx` and occupied. */
  method MarkShip(cellToShip: map<Cell, nat>, occupied: set<Cell>, cells: seq<Cell>, idx: nat)
    returns (cellToShip': map<Cell, nat>, occupied': set<Cell>)
    ensures cellToShip' == Assign(cellToShip, cells, idx)
    ensures occupied' == occupied + SetOf(cells)
  {
    cellToShip', occupied' := cellToShip, occupied;
    var j := 0;
    while j < |cells|
      invariant 0 <= j <= |cells|
      invariant cellToShip' == Assign(cellToShip, cells[..j], idx)
      invariant occupied' == occupied + SetOf(cells[..j])
    {
      SetOfStep(cells, j);
      AssignStep(cellToShip, cells, j, idx);
      cellToShip' := cellToShip'[cells[j] := idx];
      occupied' := occupied' + {cells[j]};
      j := j + 1;
    }
    assert cells[..j] == cells;
  }

  /**
   * The `while True` loop of corably.py:69-92 for ship `k`: draw until
   * `can_place` accepts a run; `None` when the try counter passes `MaxTries`,
   * where the source restarts the whole placement.
   */
  method DrawShip(pick: Picker, round: nat, k: nat, occupied: set<Cell>) returns (cells: Option<seq<Cell>>)
    requires k < |ShipSizes|
    ensures cells == TryShip(pick, round, k, occupied)
  {
    var len := ShipSizes[k];
    var tries := 0;
    while true
      invariant 0 <= tries <= MaxTries
      invariant FirstAccepted(pick, round, k, occupied, tries + 1) == FirstAccepted(pick, round, k, occupied, 1)
      decreases MaxTries - tries
    {
      tries := tries + 1;
      if tries > MaxTries {
        return None;
      }
      var candidate := Candidate(pick(round, k, tries), len);
      if !CanPlace(candidate, occupied) {
        continue;
      }
      return Some(candidate);
    }
  }

  /** One placement attempt, corably.py:62-94 without the restart: equal to `Attempt`. */
  method PlaceAttempt(pick: Picker, round: nat) returns (res: Option<Fleet>)
    ensures res == Attempt(pick, round)
  {
    var shipCells: seq<set<Cell>> := [];
    var cellToShip: map<Cell, nat> := map[];
    var occupied: set<Cell> := {};
    var k := 0;
    while k < |ShipSizes|
      invariant 0 <= k <= |ShipSizes|
      invariant PlaceFrom(pick, round, k, Fleet(shipCells, cellToShip), occupied) == Attempt(pick, round)
    {
      var drawn := DrawShip(pick, round, k, occupied);
      if drawn.None? {
        return None;
      }
      var cells := drawn.value;
      ghost var before := Fleet(shipCells, cellToShip);
      var idx := |shipCells|;
      shipCells := shipCells + [SetOf(cells)];
      cellToShip, occupied := MarkShip(cellToShip, occupied, cells, idx);
      assert Fleet(shipCells, cellToShip) == AddShip(before, cells);
      k := k + 1;
    }
    res := Some(Fleet(shipCells, cellToShip));
  }

  /**
   * `place_ships_no_touch` in restart round `round` with at most `budget`
   * further restarts (corably.py:62-94): an attempt that uses up a ship's
   * tries starts over by calling itself, as the source does. Its result is
   * `PlaceRounds`, whose fleets `PlaceRoundsValid` and `FleetCellCount` show
   * valid with 7 cells.
   */
  method PlaceShipsNoTouch(pick: Picker, round: nat, budget: nat) returns (res: Option<Fleet>)
    ensures res == PlaceRounds(pick, round, budget)
    decreases budget
  {
    res := PlaceAttempt(pick, round);
    PlaceRoundsStep(pick, round, budget);
    if res.None? && budget > 0 {
      res := PlaceShipsNoTouch(pick, round + 1, budget - 1);
    }
  }
}
