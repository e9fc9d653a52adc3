/**
 * The shot bookkeeping and the turn loop of `main` (corably.py:142-249)
 * without the rendering: two fleets, each side's shots and hits, the bot's
 * target queue, and the nested loops in which a hit keeps the shooter and a
 * miss passes the turn.
 *
 * The player's typed lines and the bot's hunt-mode draws are parameters.
 */
module Game {
  import opened Wrappers
  import opened Grid
  import opened Fleet
  import opened Input
  import opened Targeting

  datatype Side = Player | Bot

  function Other(s: Side): Side {
    match s
    case Player => Bot
    case Bot => Player
  }

  /** One shot: who fired, at which cell, and whether it hit. */
  datatype Shot = Shot(side: Side, cell: Cell, hit: bool)

  /**
   * How `main` ends: a win for either side, `exit`, the `ValueError` that
   * `int()` raises on a number with too many digits, or the end of the typed
   * lines.
   */
  datatype Outcome = PlayerWon | BotWon | Aborted | Crashed | OutOfInput

  /** The cells `side` hit in `log`. */
  function HitsBy(log: seq<Shot>, side: Side): set<Cell> {
    if log == [] then {}
    else
      var last := log[|log| - 1];
      HitsBy(log[..|log| - 1], side) + (if last.side == side && last.hit then {last.cell} else {})
  }

  /** Whose turn it is after `log`: the player opens; a hit keeps the turn and a miss passes it. */
  function Turn(log: seq<Shot>): Side {
    if log == [] then Player
    else
      var last := log[|log| - 1];
      if last.hit then last.side else Other(last.side)
  }

  /** Every shot of `log` was fired by the side whose turn it was. */
  predicate TurnsFollowRules(log: seq<Shot>) {
    log == [] || (TurnsFollowRules(log[..|log| - 1]) && log[|log| - 1].side == Turn(log[..|log| - 1]))
  }

  /** After `log` neither side has scored `TotalCells` hits. */
  predicate NoWinner(log: seq<Shot>) {
    |HitsBy(log, Player)| < TotalCells && |HitsBy(log, Bot)| < TotalCells
  }

  /** No shot of `log` was fired after either side had scored `TotalCells` hits. */
  predicate StopsAtWin(log: seq<Shot>) {
    log == [] || (StopsAtWin(log[..|log| - 1]) && NoWinner(log[..|log| - 1]))
  }

  /** `TurnsFollowRules` read shot by shot: the `i`-th shot was fired by the side whose turn it was after the first `i`. */
  lemma {:induction false} TurnsFollowRulesMeaning(log: seq<Shot>)
    ensures TurnsFollowRules(log) <==> forall i :: 0 <= i < |log| ==> log[i].side == Turn(log[..i])
  {
    if log != [] {
      var init := log[..|log| - 1];
      TurnsFollowRulesMeaning(init);
      assert forall i :: 0 <= i < |init| ==> init[i] == log[i] && init[..i] == log[..i];
    }
  }

  /** Under `StopsAtWin`, nobody had won before any shot of the log. */
  lemma {:induction false} StopsAtWinPrefix(log: seq<Shot>, i: nat)
    requires StopsAtWin(log) && i < |log|
    ensures NoWinner(log[..i])
  {
    var init := log[..|log| - 1];
    if i < |init| {
      StopsAtWinPrefix(init, i);
      assert log[..i] == init[..i];
    } else {
      assert log[..i] == init;
    }
  }

  /** A log before each of whose shots nobody had won stops at a win. */
  lemma {:induction false} PrefixesStopAtWin(log: seq<Shot>)
    requires forall i :: 0 <= i < |log| ==> NoWinner(log[..i])
    ensures StopsAtWin(log)
  {
    if log != [] {
      var init := log[..|log| - 1];
      forall i | 0 <= i < |init| ensures NoWinner(init[..i]) {
        assert init[..i] == log[..i];
      }
      PrefixesStopAtWin(init);
      assert log[..|init|] == init;
    }
  }

  /** `StopsAtWin` read shot by shot: before each shot both sides had fewer than `TotalCells` hits. */
  lemma StopsAtWinMeaning(log: seq<Shot>)
    ensures StopsAtWin(log) <==> forall i :: 0 <= i < |log| ==> NoWinner(log[..i])
  {
    if StopsAtWin(log) {
      forall i | 0 <= i < |log| ensures NoWinner(log[..i]) {
        StopsAtWinPrefix(log, i);
      }
    } else if forall i :: 0 <= i < |log| ==> NoWinner(log[..i]) {
      PrefixesStopAtWin(log);
    }
  }

  /** The cells `side` fired at in `log`. */
  function ShotsBy(log: seq<Shot>, side: Side): set<Cell> {
    if log == [] then {}
    else
      var last := log[|log| - 1];
      ShotsBy(log[..|log| - 1], side) + (if last.side == side then {last.cell} else {})
  }

  /** Appending a shot by the side whose turn it is keeps the turn rules. */
  lemma AppendKeepsTurns(log: seq<Shot>, s: Shot)
    requires TurnsFollowRules(log) && s.side == Turn(log)
    ensures TurnsFollowRules(log + [s])
  {
    assert (log + [s])[..|log|] == log;
  }

  /** Appending a shot fired while neither side had won keeps `StopsAtWin`. */
  lemma AppendKeepsStop(log: seq<Shot>, s: Shot)
    requires StopsAtWin(log) && NoWinner(log)
    ensures StopsAtWin(log + [s])
  {
    assert (log + [s])[..|log|] == log;
  }

  /** Appending a shot adds its cell to its side's hits exactly when it hit. */
  lemma AppendHits(log: seq<Shot>, s: Shot, side: Side)
    ensures HitsBy(log + [s], side) == HitsBy(log, side) + (if s.side == side && s.hit then {s.cell} else {})
  {
    assert (log + [s])[..|log|] == log;
  }

  /** Appending a shot adds its cell to its side's shots. */
  lemma AppendShots(log: seq<Shot>, s: Shot, side: Side)
    ensures ShotsBy(log + [s], side) == ShotsBy(log, side) + (if s.side == side then {s.cell} else {})
  {
    assert (log + [s])[..|log|] == log;
  }

  /** The cells `side` fired at in `log`, in the order fired. */
  function CellsBy(log: seq<Shot>, side: Side): seq<Cell> {
    if log == [] then []
    else
      var last := log[|log| - 1];
      CellsBy(log[..|log| - 1], side) + (if last.side == side then [last.cell] else [])
  }

  /** The cells `side` fired at in two logs one after the other are those of the first, then those of the second. */
  lemma {:induction false} CellsByAppend(a: seq<Shot>, b: seq<Shot>, side: Side)
    ensures CellsBy(a + b, side) == CellsBy(a, side) + CellsBy(b, side)
    decreases |b|
  {
    if b == [] {
      assert a + b == a;
    } else {
      var init := b[..|b| - 1];
      CellsByAppend(a, init, side);
      assert (a + b)[..|a + b| - 1] == a + init;
    }
  }

  /** Shots all fired by the other side hold no cell fired by `side`. */
  lemma {:induction false} CellsByOther(b: seq<Shot>, side: Side)
    requires forall i :: 0 <= i < |b| ==> b[i].side != side
    ensures CellsBy(b, side) == []
    decreases |b|
  {
    if b != [] {
      CellsByOther(b[..|b| - 1], side);
    }
  }

  /** Shots all fired by the other side add no cell to those fired by `side`. */
  lemma CellsByOtherAppend(a: seq<Shot>, b: seq<Shot>, side: Side)
    requires forall i :: 0 <= i < |b| ==> b[i].side != side
    ensures CellsBy(a + b, side) == CellsBy(a, side)
  {
    CellsByAppend(a, b, side);
    CellsByOther(b, side);
    assert CellsBy(a, side) + [] == CellsBy(a, side);
  }

  /**
   * In a game whose log stops at a win, a side with all `TotalCells` hits fired
   * the last shot, and that shot was a hit: the game ended on it.
   */
  lemma WinnerFiredLast(log: seq<Shot>, side: Side)
    requires StopsAtWin(log) && |HitsBy(log, side)| == TotalCells
    ensures log != [] && log[|log| - 1].side == side && log[|log| - 1].hit
  {
    TotalCellsIsSeven();
    if log != [] {
      assert |HitsBy(log[..|log| - 1], side)| < TotalCells;
    }
  }

  /**
   * What the turn loop needs of a placed fleet: `TotalCells` ship cells, all
   * on the board, each mapped to one of the ships.
   */
  predicate Placed(f: Fleet) {
    && |f.cellToShip.Keys| == TotalCells
    && AllOnBoard(f.cellToShip.Keys)
    && forall x :: x in f.cellToShip ==> f.cellToShip[x] < |f.ships|
  }

  /** A fleet placed by `place_ships_no_touch` has what the turn loop needs. */
  lemma ValidFleetPlaced(f: Fleet)
    requires ValidFleet(f)
    ensures Placed(f)
  {
    FleetCellCount(f);
  }

  /** Adding a new element to a set adds one to its size. */
  lemma AddNew(s: set<Cell>, x: Cell)
    requires x !in s
    ensures |s + {x}| == |s| + 1
  {
  }

  /** A set inside another has no more elements. */
  lemma SubsetSize(a: set<Cell>, b: set<Cell>)
    requires a <= b
    ensures |a| <= |b|
  {
    assert b == a + (b - a);
  }

  /** `hits` is the set of cells of `shots` that are ship cells of `f`. */
  ghost predicate HitsOn(hits: set<Cell>, shots: set<Cell>, f: Fleet) {
    forall x {:trigger x in hits} :: x in hits <==> x in shots && x in f.cellToShip
  }

  /** Fewer hits than fleet cells leaves a fleet cell that was never shot at. */
  lemma UnshotFleetCell(f: Fleet, shots: set<Cell>, hits: set<Cell>)
    requires Placed(f) && HitsOn(hits, shots, f) && |hits| < TotalCells
    ensures exists x :: OnBoard(x) && x !in shots
  {
    if f.cellToShip.Keys <= hits {
      SubsetSize(f.cellToShip.Keys, hits);
    }
    var x :| x in f.cellToShip.Keys && x !in hits;
    assert OnBoard(x);
  }

  /** Dropping an already-shot entry from the front of the queue does not change the bot's choice. */
  lemma ChooseShotSkip(q: seq<Cell>, shots: set<Cell>, seed: nat)
    requires q != [] && q[0] in shots
    ensures ChooseShot(q, shots, seed) == ChooseShot(q[1..], shots, seed)
  {
    var k := ShotPrefix(q[1..], shots);
    assert ShotPrefix(q, shots) == k + 1;
    if k < |q[1..]| {
      assert q[1..][k] == q[k + 1];
      assert q[1..][k + 1..] == q[k + 2..];
    }
  }

  /**
   * What the player types from line `pos` on, as the prompt loop reads it:
   * the cells of the moves, each read against the cells shot before it, and
   * how the reading ends: "exit" (`Aborted`), a number `int()` refuses
   * (`Crashed`), or the end of the lines (`OutOfInput`).
   */
  datatype Reading = Reading(cells: seq<Cell>, stop: Outcome)

  function Moves(lines: seq<string>, pos: nat, used: set<Cell>): Reading
    requires pos <= |lines|
    decreases |lines| - pos
  {
    var a := NextAnswer(lines, pos, used);
    if a.0.None? then Reading([], OutOfInput)
    else
      match a.0.value
      case Exit => Reading([], Aborted)
      case Overflow => Reading([], Crashed)
      case Move(x) =>
        var r := Moves(lines, a.1, used + {x});
        Reading([x] + r.cells, r.stop)
  }

  /** A move read from line `pos` comes first; the rest is read after it with its cell counted as shot. */
  lemma MovesAfterMove(lines: seq<string>, pos: nat, used: set<Cell>, next: nat, cell: Cell)
    requires pos <= |lines| && NextAnswer(lines, pos, used) == (Some(Move(cell)), next)
    ensures Moves(lines, pos, used) == Reading([cell] + Moves(lines, next, used + {cell}).cells, Moves(lines, next, used + {cell}).stop)
  {
  }

  /** The cells fired are read before the cells still to read. */
  lemma CellsPrefix(done: seq<Cell>, left: seq<Cell>)
    ensures done <= done + left
  {
    assert (done + left)[..|done|] == done;
  }

  /** A reading of `before`, then of `m`, which reads `fired` and stops with `stop`, reads `before + fired` and stops. */
  lemma ReadingStops(typed: Reading, before: seq<Cell>, fired: seq<Cell>, m: Reading, stop: Outcome)
    requires typed == Reading(before + m.cells, m.stop)
    requires m == Reading(fired, stop)
    ensures typed == Reading(before + fired, stop)
  {
  }

  /** A reading of `before`, then of `m`, which reads `fired` and goes on as `rest`, reads `before + fired` and goes on. */
  lemma ReadingGoesOn(typed: Reading, before: seq<Cell>, fired: seq<Cell>, m: Reading, rest: Reading)
    requires typed == Reading(before + m.cells, m.stop)
    requires m == Reading(fired + rest.cells, rest.stop)
    ensures typed == Reading((before + fired) + rest.cells, rest.stop)
  {
    assert before + (fired + rest.cells) == (before + fired) + rest.cells;
  }

  /** On-board cells, none in `used` and none twice. */
  predicate FreshCells(cells: seq<Cell>, used: set<Cell>) {
    (forall i :: 0 <= i < |cells| ==> OnBoard(cells[i]) && cells[i] !in used) && NoDup(cells)
  }

  /** The moves read are on-board cells shot neither before nor twice. */
  lemma {:induction false} MovesCells(lines: seq<string>, pos: nat, used: set<Cell>)
    requires pos <= |lines|
    ensures FreshCells(Moves(lines, pos, used).cells, used)
    decreases |lines| - pos
  {
    var a := NextAnswer(lines, pos, used);
    var m := Moves(lines, pos, used);
    if a.0.Some? && a.0.value.Move? {
      var x := a.0.value.cell;
      var rest := Moves(lines, a.1, used + {x}).cells;
      MovesCells(lines, a.1, used + {x});
      assert m.cells == [x] + rest;
      assert forall i :: 0 < i < |m.cells| ==> m.cells[i] == rest[i - 1];
    } else {
      assert m.cells == [];
    }
  }

  /** The stop rule read from the line after `k` holds from `pos` when no line from `pos` up to and including `k` ends the game. */
  lemma MovesStopAfter(lines: seq<string>, pos: nat, k: nat, stop: Outcome)
    requires pos <= k < |lines| && NoEnds(lines, pos, k) && !Ends(lines[k])
    requires stop == OutOfInput <==> NoEnds(lines, k + 1, |lines|)
    requires stop == Aborted ==> exists i :: k + 1 <= i < |lines| && NoEnds(lines, k + 1, i) && IsExit(lines[i])
    requires stop == Crashed ==>
      exists i :: k + 1 <= i < |lines| && NoEnds(lines, k + 1, i) && Ends(lines[i]) && !IsExit(lines[i])
    ensures stop == OutOfInput <==> NoEnds(lines, pos, |lines|)
    ensures stop == Aborted ==> exists i :: pos <= i < |lines| && NoEnds(lines, pos, i) && IsExit(lines[i])
    ensures stop == Crashed ==> exists i :: pos <= i < |lines| && NoEnds(lines, pos, i) && Ends(lines[i]) && !IsExit(lines[i])
  {
    if stop == Aborted {
      var i :| k + 1 <= i < |lines| && NoEnds(lines, k + 1, i) && IsExit(lines[i]);
      assert NoEnds(lines, pos, i);
    }
    if stop == Crashed {
      var i :| k + 1 <= i < |lines| && NoEnds(lines, k + 1, i) && Ends(lines[i]) && !IsExit(lines[i]);
      assert NoEnds(lines, pos, i);
    }
  }

  /**
   * How the reading ends: at the end of the lines exactly when no line from
   * `pos` on reads "exit" or a number `int()` refuses; otherwise at the first
   * such line, with `Aborted` for "exit" and `Crashed` for the number.
   */
  lemma {:induction false} MovesStop(lines: seq<string>, pos: nat, used: set<Cell>)
    requires pos <= |lines|
    ensures Moves(lines, pos, used).stop in {Aborted, Crashed, OutOfInput}
    ensures Moves(lines, pos, used).stop == OutOfInput <==> NoEnds(lines, pos, |lines|)
    ensures Moves(lines, pos, used).stop == Aborted ==>
      exists i :: pos <= i < |lines| && NoEnds(lines, pos, i) && IsExit(lines[i])
    ensures Moves(lines, pos, used).stop == Crashed ==>
      exists i :: pos <= i < |lines| && NoEnds(lines, pos, i) && Ends(lines[i]) && !IsExit(lines[i])
    decreases |lines| - pos, 1
  {
    var a := NextAnswer(lines, pos, used);
    NextAnswerNoEnds(lines, pos, used);
    if a.0.Some? {
      NextAnswerEndsAt(lines, pos, used);
      if a.0.value.Move? {
        MovesStopMove(lines, pos, used);
      } else {
        assert !NoEnds(lines, pos, |lines|);
      }
    }
  }

  /** `MovesStop` when the first answer is a move: the rule carries over from the lines after it. */
  lemma {:induction false} MovesStopMove(lines: seq<string>, pos: nat, used: set<Cell>)
    requires pos <= |lines| && NextAnswer(lines, pos, used).0.Some? && NextAnswer(lines, pos, used).0.value.Move?
    requires NoEnds(lines, pos, NextAnswer(lines, pos, used).1 - 1)
    requires !Ends(lines[NextAnswer(lines, pos, used).1 - 1])
    ensures Moves(lines, pos, used).stop in {Aborted, Crashed, OutOfInput}
    ensures Moves(lines, pos, used).stop == OutOfInput <==> NoEnds(lines, pos, |lines|)
    ensures Moves(lines, pos, used).stop == Aborted ==>
      exists i :: pos <= i < |lines| && NoEnds(lines, pos, i) && IsExit(lines[i])
    ensures Moves(lines, pos, used).stop == Crashed ==>
      exists i :: pos <= i < |lines| && NoEnds(lines, pos, i) && Ends(lines[i]) && !IsExit(lines[i])
    decreases |lines| - pos, 0
  {
    var a := NextAnswer(lines, pos, used);
    var x := a.0.value.cell;
    MovesStop(lines, a.1, used + {x});
    assert Moves(lines, pos, used).stop == Moves(lines, a.1, used + {x}).stop;
    MovesStopAfter(lines, pos, a.1 - 1, Moves(lines, a.1, used + {x}).stop);
  }

  /**
   * Every shot of `fired` is by `side`, at a cell not in `shots`, and hits
   * exactly when its cell is a ship cell of `f`.
   */
  predicate FreshShots(fired: seq<Shot>, side: Side, shots: set<Cell>, f: Fleet) {
    forall i :: 0 <= i < |fired| ==>
      fired[i].side == side && fired[i].cell !in shots && (fired[i].hit <==> fired[i].cell in f.cellToShip)
  }

  /** Every shot of `fired` but the last is a hit. */
  predicate HitsBeforeLast(fired: seq<Shot>) {
    forall i :: 0 <= i < |fired| - 1 ==> fired[i].hit
  }

  /** A shot appended to a log extended by `fired` extends it by `fired` and the shot. */
  lemma AppendFired(log: seq<Shot>, fired: seq<Shot>, s: Shot)
    ensures (log + fired) + [s] == log + (fired + [s])
  {
  }

  /** The cells `side` hit in two logs one after the other are those of both. */
  lemma {:induction false} HitsByAppend(a: seq<Shot>, b: seq<Shot>, side: Side)
    ensures HitsBy(a + b, side) == HitsBy(a, side) + HitsBy(b, side)
    decreases |b|
  {
    if b == [] {
      assert a + b == a;
    } else {
      var init := b[..|b| - 1];
      HitsByAppend(a, init, side);
      assert (a + b)[..|a + b| - 1] == a + init;
    }
  }

  /** The cells `side` fired at in two logs one after the other are those of both. */
  lemma {:induction false} ShotsByAppend(a: seq<Shot>, b: seq<Shot>, side: Side)
    ensures ShotsBy(a + b, side) == ShotsBy(a, side) + ShotsBy(b, side)
    decreases |b|
  {
    if b == [] {
      assert a + b == a;
    } else {
      var init := b[..|b| - 1];
      ShotsByAppend(a, init, side);
      assert (a + b)[..|a + b| - 1] == a + init;
    }
  }

  /**
   * The player's turn (corably.py:183-213) on the typed `lines` from line
   * `at`, against the fleet `f`, with the cells `used` shot and `hits` hit
   * so far: the shots fired, the line after the last one read, and how the
   * turn ends, `None` when a miss passes the turn to the bot.
   */
  function PlayerRun(lines: seq<string>, at: nat, used: set<Cell>, hits: set<Cell>, f: Fleet): (seq<Shot>, nat, Option<Outcome>)
    requires at <= |lines|
    decreases |lines| - at
  {
    var a := NextAnswer(lines, at, used);
    if a.0.None? then ([], a.1, Some(OutOfInput))
    else
      match a.0.value
      case Exit => ([], a.1, Some(Aborted))
      case Overflow => ([], a.1, Some(Crashed))
      case Move(x) =>
        if x !in f.cellToShip then ([Shot(Player, x, false)], a.1, None)
        else if |hits + {x}| == TotalCells then ([Shot(Player, x, true)], a.1, Some(PlayerWon))
        else
          var r := PlayerRun(lines, a.1, used + {x}, hits + {x}, f);
          ([Shot(Player, x, true)] + r.0, r.1, r.2)
  }

  /** A turn that starts with the shots `fired` and goes on as `rest`. */
  function Then(fired: seq<Shot>, rest: (seq<Shot>, nat, Option<Outcome>)): (seq<Shot>, nat, Option<Outcome>) {
    (fired + rest.0, rest.1, rest.2)
  }

  /** A turn with no shots before its rest is its rest. */
  lemma ThenNothing(rest: (seq<Shot>, nat, Option<Outcome>))
    ensures Then([], rest) == rest
  {
    assert [] + rest.0 == rest.0;
  }

  /**
   * The shots of the player's turn are the player's, at cells not shot
   * before; each hits exactly when its cell is a ship cell of `f`, and every
   * shot but the last is a hit.
   */
  lemma {:induction false} PlayerRunShots(lines: seq<string>, at: nat, used: set<Cell>, hits: set<Cell>, f: Fleet)
    requires at <= |lines|
    ensures FreshShots(PlayerRun(lines, at, used, hits, f).0, Player, used, f)
    ensures HitsBeforeLast(PlayerRun(lines, at, used, hits, f).0)
    decreases |lines| - at
  {
    var a := NextAnswer(lines, at, used);
    if a.0.Some? && a.0.value.Move? {
      var x := a.0.value.cell;
      if x in f.cellToShip && |hits + {x}| != TotalCells {
        var rest := PlayerRun(lines, a.1, used + {x}, hits + {x}, f).0;
        PlayerRunShots(lines, a.1, used + {x}, hits + {x}, f);
        assert PlayerRun(lines, at, used, hits, f).0 == [Shot(Player, x, true)] + rest;
        FreshShotsCons(Shot(Player, x, true), rest, Player, used, f);
      }
    }
  }

  /**
   * How the player's turn ends: it reads the lines from `at` up to its
   * `next`, never gives `BotWon`, and its last shot is a miss when it passes
   * the turn and a hit when it wins.
   */
  lemma {:induction false} PlayerRunLast(lines: seq<string>, at: nat, used: set<Cell>, hits: set<Cell>, f: Fleet)
    requires at <= |lines|
    ensures at <= PlayerRun(lines, at, used, hits, f).1 <= |lines|
    ensures PlayerRun(lines, at, used, hits, f).2 != Some(BotWon)
    ensures PlayerRun(lines, at, used, hits, f).2 in {None, Some(PlayerWon)} ==>
      && at < PlayerRun(lines, at, used, hits, f).1
      && PlayerRun(lines, at, used, hits, f).0 != []
      && (PlayerRun(lines, at, used, hits, f).0[|PlayerRun(lines, at, used, hits, f).0| - 1].hit
          <==> PlayerRun(lines, at, used, hits, f).2 == Some(PlayerWon))
    decreases |lines| - at
  {
    var a := NextAnswer(lines, at, used);
    if a.0.Some? && a.0.value.Move? {
      var x := a.0.value.cell;
      if x in f.cellToShip && |hits + {x}| != TotalCells {
        var r := PlayerRun(lines, a.1, used + {x}, hits + {x}, f);
        PlayerRunLast(lines, a.1, used + {x}, hits + {x}, f);
        assert PlayerRun(lines, at, used, hits, f) == ([Shot(Player, x, true)] + r.0, r.1, r.2);
      }
    }
  }

  /**
   * Where the player's turn stops reading: `Aborted` comes from an "exit" on
   * the last line read, `Crashed` from a number `int()` refuses there, and
   * `OutOfInput` from the end of the lines.
   */
  lemma {:induction false} PlayerRunEnds(lines: seq<string>, at: nat, used: set<Cell>, hits: set<Cell>, f: Fleet)
    requires at <= |lines|
    ensures PlayerRun(lines, at, used, hits, f).2 == Some(Aborted) ==>
      at < PlayerRun(lines, at, used, hits, f).1 <= |lines| && IsExit(lines[PlayerRun(lines, at, used, hits, f).1 - 1])
    ensures PlayerRun(lines, at, used, hits, f).2 == Some(Crashed) ==>
      at < PlayerRun(lines, at, used, hits, f).1 <= |lines| && Ends(lines[PlayerRun(lines, at, used, hits, f).1 - 1])
      && !IsExit(lines[PlayerRun(lines, at, used, hits, f).1 - 1])
    ensures PlayerRun(lines, at, used, hits, f).2 == Some(OutOfInput) ==> PlayerRun(lines, at, used, hits, f).1 == |lines|
    decreases |lines| - at, 1
  {
    var a := NextAnswer(lines, at, used);
    if a.0.Some? {
      if a.0.value.Move? {
        var x := a.0.value.cell;
        if x in f.cellToShip && |hits + {x}| != TotalCells {
          PlayerRunEndsMore(lines, at, used, hits, f);
        }
      } else {
        NextAnswerEndsAt(lines, at, used);
      }
    }
  }

  /** `PlayerRunEnds` when the first move hits and the turn goes on: the rest of the turn stops where it does. */
  lemma {:induction false} PlayerRunEndsMore(lines: seq<string>, at: nat, used: set<Cell>, hits: set<Cell>, f: Fleet)
    requires at <= |lines| && NextAnswer(lines, at, used).0.Some? && NextAnswer(lines, at, used).0.value.Move?
    requires var x := NextAnswer(lines, at, used).0.value.cell; x in f.cellToShip && |hits + {x}| != TotalCells
    ensures PlayerRun(lines, at, used, hits, f).2 == Some(Aborted) ==>
      at < PlayerRun(lines, at, used, hits, f).1 <= |lines| && IsExit(lines[PlayerRun(lines, at, used, hits, f).1 - 1])
    ensures PlayerRun(lines, at, used, hits, f).2 == Some(Crashed) ==>
      at < PlayerRun(lines, at, used, hits, f).1 <= |lines| && Ends(lines[PlayerRun(lines, at, used, hits, f).1 - 1])
      && !IsExit(lines[PlayerRun(lines, at, used, hits, f).1 - 1])
    ensures PlayerRun(lines, at, used, hits, f).2 == Some(OutOfInput) ==> PlayerRun(lines, at, used, hits, f).1 == |lines|
    decreases |lines| - at, 0
  {
    var a := NextAnswer(lines, at, used);
    var x := a.0.value.cell;
    var r := PlayerRun(lines, a.1, used + {x}, hits + {x}, f);
    PlayerRunEnds(lines, a.1, used + {x}, hits + {x}, f);
    assert PlayerRun(lines, at, used, hits, f) == ([Shot(Player, x, true)] + r.0, r.1, r.2);
  }

  /**
   * The player's turn fires the moves typed from line `at` in order: when it
   * passes the turn or wins, the reading goes on from its `next` with its
   * cells counted as shot; otherwise the reading stops where the turn does.
   */
  lemma {:induction false} PlayerRunMoves(lines: seq<string>, at: nat, used: set<Cell>, hits: set<Cell>, f: Fleet)
    requires at <= |lines|
    ensures PlayerRun(lines, at, used, hits, f).2 in {None, Some(PlayerWon)} ==>
      PlayerRun(lines, at, used, hits, f).1 <= |lines| &&
      Moves(lines, at, used) ==
        Reading(CellsBy(PlayerRun(lines, at, used, hits, f).0, Player) +
                  Moves(lines, PlayerRun(lines, at, used, hits, f).1, used + ShotsBy(PlayerRun(lines, at, used, hits, f).0, Player)).cells,
                Moves(lines, PlayerRun(lines, at, used, hits, f).1, used + ShotsBy(PlayerRun(lines, at, used, hits, f).0, Player)).stop)
    ensures PlayerRun(lines, at, used, hits, f).2.Some? && PlayerRun(lines, at, used, hits, f).2 != Some(PlayerWon) ==>
      Moves(lines, at, used) ==
        Reading(CellsBy(PlayerRun(lines, at, used, hits, f).0, Player), PlayerRun(lines, at, used, hits, f).2.value)
    decreases |lines| - at
  {
    var a := NextAnswer(lines, at, used);
    if a.0.Some? && a.0.value.Move? {
      var x := a.0.value.cell;
      if x !in f.cellToShip || |hits + {x}| == TotalCells {
        PlayerRunMovesLast(lines, at, used, hits, f);
      } else {
        PlayerRunMovesMore(lines, at, used, hits, f);
      }
    }
  }

  /** `PlayerRunMoves` when the first move passes the turn or wins. */
  lemma PlayerRunMovesLast(lines: seq<string>, at: nat, used: set<Cell>, hits: set<Cell>, f: Fleet)
    requires at <= |lines| && NextAnswer(lines, at, used).0.Some? && NextAnswer(lines, at, used).0.value.Move?
    requires var x := NextAnswer(lines, at, used).0.value.cell; x !in f.cellToShip || |hits + {x}| == TotalCells
    ensures PlayerRun(lines, at, used, hits, f).1 <= |lines|
    ensures Moves(lines, at, used) ==
      Reading(CellsBy(PlayerRun(lines, at, used, hits, f).0, Player) +
                Moves(lines, PlayerRun(lines, at, used, hits, f).1, used + ShotsBy(PlayerRun(lines, at, used, hits, f).0, Player)).cells,
              Moves(lines, PlayerRun(lines, at, used, hits, f).1, used + ShotsBy(PlayerRun(lines, at, used, hits, f).0, Player)).stop)
  {
    var a := NextAnswer(lines, at, used);
    var x := a.0.value.cell;
    var s := Shot(Player, x, x in f.cellToShip);
    assert PlayerRun(lines, at, used, hits, f) ==
      ([s], a.1, if x !in f.cellToShip then None else Some(PlayerWon));
    OneShot(s);
    MovesAfterMove(lines, at, used, a.1, x);
  }

  /** A log of one shot: its side fired at its cell. */
  lemma OneShot(s: Shot)
    ensures CellsBy([s], s.side) == [s.cell] && ShotsBy([s], s.side) == {s.cell}
  {
    assert [s][..0] == [];
  }

  /** `PlayerRunMoves` when the first move hits and the turn goes on. */
  lemma {:induction false} PlayerRunMovesMore(lines: seq<string>, at: nat, used: set<Cell>, hits: set<Cell>, f: Fleet)
    requires at <= |lines| && NextAnswer(lines, at, used).0.Some? && NextAnswer(lines, at, used).0.value.Move?
    requires var x := NextAnswer(lines, at, used).0.value.cell; x in f.cellToShip && |hits + {x}| != TotalCells
    ensures PlayerRun(lines, at, used, hits, f).2 in {None, Some(PlayerWon)} ==>
      PlayerRun(lines, at, used, hits, f).1 <= |lines| &&
      Moves(lines, at, used) ==
        Reading(CellsBy(PlayerRun(lines, at, used, hits, f).0, Player) +
                  Moves(lines, PlayerRun(lines, at, used, hits, f).1, used + ShotsBy(PlayerRun(lines, at, used, hits, f).0, Player)).cells,
                Moves(lines, PlayerRun(lines, at, used, hits, f).1, used + ShotsBy(PlayerRun(lines, at, used, hits, f).0, Player)).stop)
    ensures PlayerRun(lines, at, used, hits, f).2.Some? && PlayerRun(lines, at, used, hits, f).2 != Some(PlayerWon) ==>
      Moves(lines, at, used) ==
        Reading(CellsBy(PlayerRun(lines, at, used, hits, f).0, Player), PlayerRun(lines, at, used, hits, f).2.value)
    decreases |lines| - at, 0
  {
    var a := NextAnswer(lines, at, used);
    var x := a.0.value.cell;
    var s := Shot(Player, x, true);
    var r := PlayerRun(lines, a.1, used + {x}, hits + {x}, f);
    PlayerRunMoves(lines, a.1, used + {x}, hits + {x}, f);
    assert PlayerRun(lines, at, used, hits, f) == ([s] + r.0, r.1, r.2);
    MovesAfterMove(lines, at, used, a.1, x);
    CellsByAppend([s], r.0, Player);
    ShotsByAppend([s], r.0, Player);
    OneShot(s);
    UsedShift(used, x, ShotsBy(r.0, Player));
    var m := Moves(lines, a.1, used + {x});
    if r.2 in {None, Some(PlayerWon)} {
      ReadingCons(Moves(lines, at, used), x, m, CellsBy(r.0, Player), Moves(lines, r.1, (used + {x}) + ShotsBy(r.0, Player)));
    }
  }

  /** The turn's cells counted as shot after its first cell are its cells counted after none. */
  lemma UsedShift(used: set<Cell>, x: Cell, rest: set<Cell>)
    ensures used + ({x} + rest) == (used + {x}) + rest
  {
  }

  /** A reading whose first cell is followed by a reading of `done` and then `rest`. */
  lemma ReadingCons(total: Reading, x: Cell, inner: Reading, done: seq<Cell>, rest: Reading)
    requires total == Reading([x] + inner.cells, inner.stop)
    requires inner == Reading(done + rest.cells, rest.stop)
    ensures total == Reading(([x] + done) + rest.cells, rest.stop)
  {
    assert [x] + (done + rest.cells) == ([x] + done) + rest.cells;
  }


  /**
   * One more move of the player's turn, read at line `at` and fired as the
   * shot `Shot(Player, cell, hit)`, after the shots `fired` of the turn that
   * started at line `pos`: it ends the turn on a miss or the last hit, and
   * otherwise moves from the rest of the turn to `fired`.
   */
  lemma PlayerRunThen(lines: seq<string>, pos: nat, used0: set<Cell>, hits0: set<Cell>, f: Fleet, fired: seq<Shot>,
                      at: nat, used: set<Cell>, hits: set<Cell>, cell: Cell, hit: bool, next: nat)
    requires pos <= |lines| && at <= |lines|
    requires PlayerRun(lines, pos, used0, hits0, f) == Then(fired, PlayerRun(lines, at, used, hits, f))
    requires NextAnswer(lines, at, used) == (Some(Move(cell)), next)
    requires hit <==> cell in f.cellToShip
    ensures !hit ==> PlayerRun(lines, pos, used0, hits0, f) == (fired + [Shot(Player, cell, hit)], next, None)
    ensures hit && |hits + {cell}| == TotalCells ==>
      PlayerRun(lines, pos, used0, hits0, f) == (fired + [Shot(Player, cell, hit)], next, Some(PlayerWon))
    ensures hit && |hits + {cell}| != TotalCells ==>
      PlayerRun(lines, pos, used0, hits0, f) ==
        Then(fired + [Shot(Player, cell, hit)], PlayerRun(lines, next, used + {cell}, hits + {cell}, f))
  {
    if hit && |hits + {cell}| != TotalCells {
      ShotsAssoc(fired, [Shot(Player, cell, hit)], PlayerRun(lines, next, used + {cell}, hits + {cell}, f).0);
    }
  }

  /** An answer at line `at` that is no move ends the player's turn there, after the shots `fired`. */
  lemma PlayerRunStop(lines: seq<string>, pos: nat, used0: set<Cell>, hits0: set<Cell>, f: Fleet, fired: seq<Shot>,
                      at: nat, used: set<Cell>, hits: set<Cell>)
    requires pos <= |lines| && at <= |lines|
    requires PlayerRun(lines, pos, used0, hits0, f) == Then(fired, PlayerRun(lines, at, used, hits, f))
    requires NextAnswer(lines, at, used).0.None? || !NextAnswer(lines, at, used).0.value.Move?
    ensures NextAnswer(lines, at, used).0.None? ==>
      PlayerRun(lines, pos, used0, hits0, f) == (fired, NextAnswer(lines, at, used).1, Some(OutOfInput))
    ensures NextAnswer(lines, at, used).0 == Some(Exit) ==>
      PlayerRun(lines, pos, used0, hits0, f) == (fired, NextAnswer(lines, at, used).1, Some(Aborted))
    ensures NextAnswer(lines, at, used).0 == Some(Overflow) ==>
      PlayerRun(lines, pos, used0, hits0, f) == (fired, NextAnswer(lines, at, used).1, Some(Crashed))
  {
    assert fired + [] == fired;
  }

  /** A fresh hit in front of fresh shots that come after it. */
  lemma FreshShotsCons(s: Shot, rest: seq<Shot>, side: Side, shots: set<Cell>, f: Fleet)
    requires s.side == side && s.cell !in shots && s.hit && s.cell in f.cellToShip
    requires FreshShots(rest, side, shots + {s.cell}, f) && HitsBeforeLast(rest)
    ensures FreshShots([s] + rest, side, shots, f) && HitsBeforeLast([s] + rest)
  {
    assert forall i :: 0 < i < |[s] + rest| ==> ([s] + rest)[i] == rest[i - 1];
  }

  /**
   * The bot's turn (corably.py:216-249) against the fleet `f`, from the queue
   * `q` with `shots` and `hits` so far and the hunt-mode draws `hunt`: the
   * shots it fires, each at the cell `choose_bot_shot` picks at that moment,
   * until a miss or the last hit, and the queue it leaves. Each hit queues
   * the neighbours of its cell, and a sinking hit clears the queue.
   */
  function BotRun(f: Fleet, q: seq<Cell>, shots: set<Cell>, hits: set<Cell>, hunt: nat -> nat): (seq<Shot>, seq<Cell>)
    requires Placed(f) && hits <= shots && |hits| < TotalCells
    decreases TotalCells - |hits|
  {
    var c := ChooseShot(q, shots, hunt(|shots|));
    if c.shot.None? then ([], c.rest)
    else
      var x := c.shot.value;
      if x !in f.cellToShip then ([Shot(Bot, x, false)], c.rest)
      else
        var newHits := hits + {x};
        var newQueue := if f.ships[f.cellToShip[x]] <= newHits then [] else Enqueued(x, c.rest, shots + {x});
        if |newHits| == TotalCells then ([Shot(Bot, x, true)], newQueue)
        else
          var r := BotRun(f, newQueue, shots + {x}, newHits, hunt);
          ([Shot(Bot, x, true)] + r.0, r.1)
  }

  /**
   * The shots of the bot's turn are the bot's, at cells not shot before; each
   * hits exactly when its cell is a ship cell of `f`, and every shot but the
   * last is a hit.
   */
  lemma {:induction false} BotRunShots(f: Fleet, q: seq<Cell>, shots: set<Cell>, hits: set<Cell>, hunt: nat -> nat)
    requires Placed(f) && hits <= shots && |hits| < TotalCells
    ensures FreshShots(BotRun(f, q, shots, hits, hunt).0, Bot, shots, f)
    ensures HitsBeforeLast(BotRun(f, q, shots, hits, hunt).0)
    decreases TotalCells - |hits|
  {
    var c := ChooseShot(q, shots, hunt(|shots|));
    var fired := BotRun(f, q, shots, hits, hunt).0;
    if c.shot.None? {
      assert fired == [];
    } else {
      var x := c.shot.value;
      assert x !in shots;
      if x !in f.cellToShip {
        assert fired == [Shot(Bot, x, false)];
        assert FreshShots(fired, Bot, shots, f);
      } else {
        var newHits := hits + {x};
        var newQueue := if f.ships[f.cellToShip[x]] <= newHits then [] else Enqueued(x, c.rest, shots + {x});
        if |newHits| == TotalCells {
          assert fired == [Shot(Bot, x, true)];
          assert FreshShots(fired, Bot, shots, f);
        } else {
          BotRunShots(f, newQueue, shots + {x}, newHits, hunt);
          var rest := BotRun(f, newQueue, shots + {x}, newHits, hunt).0;
          assert fired == [Shot(Bot, x, true)] + rest;
          FreshShotsCons(Shot(Bot, x, true), rest, Bot, shots, f);
        }
      }
    }
  }

  /** One shot of the bot's turn, as `BotFire` reports it, unfolds `BotRun` once. */
  lemma BotRunStep(f: Fleet, q: seq<Cell>, shots: set<Cell>, hits: set<Cell>, hunt: nat -> nat,
                   cell: Cell, hit: bool, sunk: bool, q2: seq<Cell>)
    requires Placed(f) && hits <= shots && |hits| < TotalCells
    requires ChooseShot(q, shots, hunt(|shots|)).shot == Some(cell)
    requires hit <==> cell in f.cellToShip
    requires sunk <==> hit && f.ships[f.cellToShip[cell]] <= hits + {cell}
    requires var rest := ChooseShot(q, shots, hunt(|shots|)).rest;
      q2 == if !hit then rest else if sunk then [] else Enqueued(cell, rest, shots + {cell})
    ensures !hit || |hits + {cell}| == TotalCells ==> BotRun(f, q, shots, hits, hunt) == ([Shot(Bot, cell, hit)], q2)
    ensures hit && |hits + {cell}| < TotalCells ==>
      BotRun(f, q, shots, hits, hunt) ==
        ([Shot(Bot, cell, hit)] + BotRun(f, q2, shots + {cell}, hits + {cell}, hunt).0,
         BotRun(f, q2, shots + {cell}, hits + {cell}, hunt).1)
  {
  }

  /**
   * The bot's turn so far: `fired` shot from the start of the turn and the
   * rest of the turn run from the queue, shots and hits where those left it.
   * One more shot, as `BotFire` reports it, moves from the rest to `fired`.
   */
  lemma BotRunThen(f: Fleet, q0: seq<Cell>, shots0: set<Cell>, hits0: set<Cell>, hunt: nat -> nat, fired: seq<Shot>,
                   q: seq<Cell>, shots: set<Cell>, hits: set<Cell>, cell: Cell, hit: bool, sunk: bool,
                   q2: seq<Cell>, shots2: set<Cell>, hits2: set<Cell>)
    requires Placed(f) && hits0 <= shots0 && |hits0| < TotalCells && hits <= shots && |hits| < TotalCells
    requires BotRun(f, q0, shots0, hits0, hunt) == BotThen(fired, BotRun(f, q, shots, hits, hunt))
    requires ChooseShot(q, shots, hunt(|shots|)).shot == Some(cell)
    requires hit <==> cell in f.cellToShip
    requires shots2 == shots + {cell} && hits2 == hits + (if hit then {cell} else {})
    requires sunk <==> hit && f.ships[f.cellToShip[cell]] <= hits2
    requires var rest := ChooseShot(q, shots, hunt(|shots|)).rest;
      q2 == if !hit then rest else if sunk then [] else Enqueued(cell, rest, shots2)
    ensures (fired + [Shot(Bot, cell, hit)])[|fired|] == Shot(Bot, cell, hit)
    ensures !hit || |hits2| == TotalCells ==> BotRun(f, q0, shots0, hits0, hunt) == (fired + [Shot(Bot, cell, hit)], q2)
    ensures hit && |hits2| < TotalCells ==>
      hits2 <= shots2 &&
      BotRun(f, q0, shots0, hits0, hunt) == BotThen(fired + [Shot(Bot, cell, hit)], BotRun(f, q2, shots2, hits2, hunt))
  {
    BotRunStep(f, q, shots, hits, hunt, cell, hit, sunk, q2);
    if hit {
      assert hits2 == hits + {cell};
      if |hits2| < TotalCells {
        ShotsAssoc(fired, [Shot(Bot, cell, hit)], BotRun(f, q2, shots2, hits2, hunt).0);
      }
    }
  }

  /** A bot's turn that starts with the shots `fired` and goes on as `rest`. */
  function BotThen(fired: seq<Shot>, rest: (seq<Shot>, seq<Cell>)): (seq<Shot>, seq<Cell>) {
    (fired + rest.0, rest.1)
  }

  /**
   * What the player typed, read as the cells of `before` followed by the
   * moves from line `pos`, reads the same after a player's turn from there:
   * the cells of the longer log, then the moves from where the turn stopped
   * reading, or just those cells when the turn ended the reading.
   */
  lemma TypedAfterPlayer(lines: seq<string>, pos: nat, used: set<Cell>, hits: set<Cell>, f: Fleet,
                         typed: Reading, before: seq<Shot>, fired: seq<Shot>, next: nat, ended: Option<Outcome>)
    requires pos <= |lines| && (fired, next, ended) == PlayerRun(lines, pos, used, hits, f)
    requires typed == Reading(CellsBy(before, Player) + Moves(lines, pos, used).cells, Moves(lines, pos, used).stop)
    ensures ended != Some(BotWon) && pos <= next <= |lines|
    ensures ended in {None, Some(PlayerWon)} ==>
      pos < next &&
      typed == Reading(CellsBy(before + fired, Player) + Moves(lines, next, used + ShotsBy(fired, Player)).cells,
                       Moves(lines, next, used + ShotsBy(fired, Player)).stop)
    ensures ended.Some? && ended != Some(PlayerWon) ==> typed == Reading(CellsBy(before + fired, Player), ended.value)
  {
    PlayerRunLast(lines, pos, used, hits, f);
    PlayerRunMoves(lines, pos, used, hits, f);
    CellsByAppend(before, fired, Player);
    if ended.Some? && ended != Some(PlayerWon) {
      ReadingStops(typed, CellsBy(before, Player), CellsBy(fired, Player), Moves(lines, pos, used), ended.value);
    } else {
      ReadingGoesOn(typed, CellsBy(before, Player), CellsBy(fired, Player), Moves(lines, pos, used),
                    Moves(lines, next, used + ShotsBy(fired, Player)));
    }
  }

  /** A bot's turn adds no cell to those the player fired at. */
  lemma BotRunLeavesPlayer(f: Fleet, q: seq<Cell>, shots: set<Cell>, hits: set<Cell>, hunt: nat -> nat, before: seq<Shot>)
    requires Placed(f) && hits <= shots && |hits| < TotalCells
    ensures CellsBy(before + BotRun(f, q, shots, hits, hunt).0, Player) == CellsBy(before, Player)
  {
    BotRunShots(f, q, shots, hits, hunt);
    CellsByOtherAppend(before, BotRun(f, q, shots, hits, hunt).0, Player);
  }

  /** A bot's turn with no shots before its rest is its rest. */
  lemma BotThenNothing(rest: (seq<Shot>, seq<Cell>))
    ensures BotThen([], rest) == rest
  {
    assert [] + rest.0 == rest.0;
  }


  lemma ShotsAssoc(a: seq<Shot>, b: seq<Shot>, c: seq<Shot>)
    ensures a + (b + c) == (a + b) + c
  {
  }

  class Game {
    /** The player's fleet, which the bot shoots at. */
    const you: Fleet
    /** The bot's fleet, which the player shoots at. */
    const bot: Fleet
    var youShots: set<Cell>
    var youHits: set<Cell>
    var botShots: set<Cell>
    var botHits: set<Cell>
    /** The bot's queue of cells to try next. */
    var targets: seq<Cell>
    /** Every shot fired so far, in order. */
    ghost var log: seq<Shot>

    /**
     * The shot bookkeeping: each side's hits are exactly its shots on the
     * opponent's ship cells; shots lie on the board; the shot and hit sets are
     * those of the side's log entries.
     */
    ghost predicate Books()
      reads this`youShots, this`youHits, this`botShots, this`botHits, this`log
    {
      && HitsOn(youHits, youShots, bot)
      && HitsOn(botHits, botShots, you)
      && AllOnBoard(youShots) && AllOnBoard(botShots)
      && youShots == ShotsBy(log, Player) && botShots == ShotsBy(log, Bot)
      && youHits == HitsBy(log, Player) && botHits == HitsBy(log, Bot)
    }

    /** The bot's queue lists on-board cells, none twice. */
    predicate QueueOk()
      reads this`targets
    {
      (forall i :: 0 <= i < |targets| ==> OnBoard(targets[i])) && NoDup(targets)
    }

    /** The game invariant: both fleets are placed, the books and the queue are in order. */
    ghost predicate Valid()
      reads this
    {
      Placed(you) && Placed(bot) && Books() && QueueOk()
    }

    /** A new game between two placed fleets: nothing shot, nothing queued (corably.py:143-159). */
    constructor (you: Fleet, bot: Fleet)
      requires Placed(you) && Placed(bot)
      ensures Valid()
      ensures this.you == you && this.bot == bot
      ensures youShots == {} && botShots == {} && targets == [] && log == []
    {
      this.you := you;
      this.bot := bot;
      youShots, youHits, botShots, botHits := {}, {}, {}, {};
      targets := [];
      log := [];
    }

    /** The books of a game whose log went on from `log0` by `fired`: each side's shots and hits grew by those of `fired`. */
    lemma BooksSince(log0: seq<Shot>, fired: seq<Shot>)
      requires Books() && log == log0 + fired
      ensures youShots == ShotsBy(log0, Player) + ShotsBy(fired, Player) && youHits == HitsBy(log0, Player) + HitsBy(fired, Player)
      ensures botShots == ShotsBy(log0, Bot) + ShotsBy(fired, Bot) && botHits == HitsBy(log0, Bot) + HitsBy(fired, Bot)
    {
      ShotsByAppend(log0, fired, Player);
      ShotsByAppend(log0, fired, Bot);
      HitsByAppend(log0, fired, Player);
      HitsByAppend(log0, fired, Bot);
    }

    /** Neither side has more hits than the opponent has ship cells. */
    lemma HitsBounded()
      requires Valid()
      ensures |youHits| <= TotalCells && |botHits| <= TotalCells
    {
      SubsetSize(youHits, bot.cellToShip.Keys);
      SubsetSize(botHits, you.cellToShip.Keys);
    }

    /**
     * The player's shot at `cell` (corably.py:190-200): it is recorded, it
     * hits exactly when `cell` is a bot ship cell, and `sunk` says whether
     * that hit completed its ship, which picks the message.
     */
    method PlayerFire(cell: Cell) returns (hit: bool, sunk: bool)
      requires Valid() && OnBoard(cell) && cell !in youShots
      modifies this
      ensures Valid()
      ensures hit <==> cell in bot.cellToShip
      ensures sunk <==> hit && bot.ships[bot.cellToShip[cell]] <= youHits
      ensures youShots == old(youShots) + {cell}
      ensures youHits == old(youHits) + (if hit then {cell} else {})
      ensures botShots == old(botShots) && botHits == old(botHits) && targets == old(targets)
      ensures log == old(log) + [Shot(Player, cell, hit)]
    {
      AppendShots(log, Shot(Player, cell, cell in bot.cellToShip), Player);
      AppendShots(log, Shot(Player, cell, cell in bot.cellToShip), Bot);
      AppendHits(log, Shot(Player, cell, cell in bot.cellToShip), Player);
      AppendHits(log, Shot(Player, cell, cell in bot.cellToShip), Bot);
      youShots := youShots + {cell};
      hit := cell in bot.cellToShip;
      sunk := false;
      if hit {
        youHits := youHits + {cell};
        var idx := bot.cellToShip[cell];
        sunk := ShipSunk(idx, youHits, bot.ships);
      }
      log := log + [Shot(Player, cell, hit)];
    }

    /** `enqueue_targets_from_hit` run in place on `targets` (corably.py:124-128). */
    method EnqueueTargetsFromHit(hit: Cell)
      modifies this
      ensures targets == Enqueued(hit, old(targets), botShots)
      ensures youShots == old(youShots) && youHits == old(youHits)
      ensures botShots == old(botShots) && botHits == old(botHits) && log == old(log)
    {
      var ns := Neighbors4(hit.row, hit.col);
      for j := 0 to |ns|
        invariant youShots == old(youShots) && youHits == old(youHits)
        invariant botShots == old(botShots) && botHits == old(botHits) && log == old(log)
        invariant targets == Enqueue(ns[..j], old(targets), botShots)
      {
        EnqueueStep(ns, j, old(targets), botShots);
        if ns[j] !in botShots && ns[j] !in targets {
          targets := targets + [ns[j]];
        }
      }
      EnqueueAll(ns, old(targets), botShots);
    }

    /**
     * `choose_bot_shot` run in place on `targets` (corably.py:131-137): the
     * pick and the queue left over are those of `ChooseShot`.
     */
    method ChooseBotShot(seed: nat) returns (shot: Option<Cell>)
      modifies this
      ensures Choice(shot, targets) == ChooseShot(old(targets), botShots, seed)
      ensures youShots == old(youShots) && youHits == old(youHits)
      ensures botShots == old(botShots) && botHits == old(botHits) && log == old(log)
    {
      while targets != []
        invariant ChooseShot(targets, botShots, seed) == ChooseShot(old(targets), botShots, seed)
        invariant youShots == old(youShots) && youHits == old(youHits)
        invariant botShots == old(botShots) && botHits == old(botHits) && log == old(log)
        decreases |targets|
      {
        var cell := targets[0];
        ghost var q := targets;
        targets := targets[1..];
        if cell !in botShots {
          assert ShotPrefix(q, botShots) == 0;
          return Some(cell);
        }
        ChooseShotSkip(q, botShots, seed);
      }
      var free := FreeCells(botShots);
      if free == [] {
        return None;
      }
      shot := Some(free[seed % |free|]);
    }

    /**
     * Recording the bot's shot at `cell` (corably.py:220-230): it hits exactly
     * when `cell` is one of the player's ship cells, and `sunk` says whether
     * that hit completed its ship.
     */
    method RecordBotShot(cell: Cell) returns (hit: bool, sunk: bool)
      requires Valid() && OnBoard(cell) && cell !in botShots
      modifies this
      ensures Valid()
      ensures hit <==> cell in you.cellToShip
      ensures sunk <==> hit && you.ships[you.cellToShip[cell]] <= botHits
      ensures botShots == old(botShots) + {cell}
      ensures botHits == old(botHits) + (if hit then {cell} else {})
      ensures youShots == old(youShots) && youHits == old(youHits) && targets == old(targets)
      ensures log == old(log) + [Shot(Bot, cell, hit)]
    {
      AppendShots(log, Shot(Bot, cell, cell in you.cellToShip), Player);
      AppendShots(log, Shot(Bot, cell, cell in you.cellToShip), Bot);
      AppendHits(log, Shot(Bot, cell, cell in you.cellToShip), Player);
      AppendHits(log, Shot(Bot, cell, cell in you.cellToShip), Bot);
      botShots := botShots + {cell};
      hit := cell in you.cellToShip;
      sunk := false;
      if hit {
        botHits := botHits + {cell};
        var idx := you.cellToShip[cell];
        sunk := ShipSunk(idx, botHits, you.ships);
      }
      log := log + [Shot(Bot, cell, hit)];
    }

    /**
     * The queue update after the bot hit `cell` (corably.py:227-232): the
     * unshot orthogonal neighbours are queued, then the queue is cleared if
     * the hit sank the ship.
     */
    method AfterBotHit(cell: Cell, sunk: bool)
      requires QueueOk()
      modifies this
      ensures QueueOk()
      ensures targets == if sunk then [] else Enqueued(cell, old(targets), botShots)
      ensures youShots == old(youShots) && youHits == old(youHits)
      ensures botShots == old(botShots) && botHits == old(botHits) && log == old(log)
    {
      EnqueuedKeepsQueue(cell, targets, botShots);
      EnqueueTargetsFromHit(cell);
      if sunk {
        targets := [];
      }
    }

    /**
     * The bot's shot (corably.py:219-232): the cell `ChooseShot` picks is
     * recorded; on a hit its unshot orthogonal neighbours are queued, and the
     * queue is cleared when the hit sank the ship.
     */
    method BotFire(seed: nat) returns (cell: Cell, hit: bool, sunk: bool)
      requires Valid() && |botHits| < TotalCells
      modifies this
      ensures Valid()
      ensures ChooseShot(old(targets), old(botShots), seed).shot == Some(cell)
      ensures OnBoard(cell) && cell !in old(botShots)
      ensures hit <==> cell in you.cellToShip
      ensures sunk <==> hit && you.ships[you.cellToShip[cell]] <= botHits
      ensures botShots == old(botShots) + {cell}
      ensures botHits == old(botHits) + (if hit then {cell} else {})
      ensures youShots == old(youShots) && youHits == old(youHits)
      ensures var rest := ChooseShot(old(targets), old(botShots), seed).rest;
        targets == if !hit then rest else if sunk then [] else Enqueued(cell, rest, botShots)
      ensures sunk ==> targets == []
      ensures log == old(log) + [Shot(Bot, cell, hit)]
    {
      UnshotFleetCell(you, botShots, botHits);
      ChooseShotOnBoard(targets, botShots, seed);
      var shot := ChooseBotShot(seed);
      cell := shot.value;
      hit, sunk := RecordBotShot(cell);
      if hit {
        AfterBotHit(cell, sunk);
      }
    }

    /**
     * One shot of the player's turn (corably.py:190-213): the shot is fired
     * by the side whose turn it is while neither side has won, so the turn
     * rules hold after it; a hit keeps the turn and a miss passes it.
     */
    method PlayerShot(cell: Cell) returns (hit: bool)
      requires Valid() && OnBoard(cell) && cell !in youShots
      requires TurnsFollowRules(log) && StopsAtWin(log) && Turn(log) == Player
      requires |youHits| < TotalCells && |botHits| < TotalCells
      modifies this
      ensures Valid() && TurnsFollowRules(log) && StopsAtWin(log)
      ensures hit <==> cell in bot.cellToShip
      ensures youShots == old(youShots) + {cell}
      ensures youHits == old(youHits) + (if hit then {cell} else {})
      ensures botShots == old(botShots) && botHits == old(botHits) && targets == old(targets)
      ensures log == old(log) + [Shot(Player, cell, hit)]
      ensures Turn(log) == if hit then Player else Bot
      ensures |youHits| <= TotalCells
    {
      AppendKeepsTurns(log, Shot(Player, cell, cell in bot.cellToShip));
      AppendKeepsStop(log, Shot(Player, cell, cell in bot.cellToShip));
      var sunk;
      hit, sunk := PlayerFire(cell);
      HitsBounded();
    }

    /**
     * The player's turn (corably.py:183-213): the moves `read_move` takes
     * from the lines are fired in order until a miss, a win, "exit", a number
     * `int()` refuses, or the end of the lines. The shots fired, the line
     * reached and how the turn ends are those of `PlayerRun`; `fired` is what
     * the turn adds to the log.
     */
    method PlayerTurn(lines: seq<string>, pos: nat) returns (ended: Option<Outcome>, next: nat, ghost fired: seq<Shot>)
      requires Valid() && pos <= |lines|
      requires TurnsFollowRules(log) && StopsAtWin(log) && Turn(log) == Player
      requires |youHits| < TotalCells && |botHits| < TotalCells
      modifies this
      ensures Valid() && TurnsFollowRules(log) && StopsAtWin(log)
      ensures botShots == old(botShots) && botHits == old(botHits) && targets == old(targets)
      ensures log == old(log) + fired
      ensures youShots == old(youShots) + ShotsBy(fired, Player) && youHits == old(youHits) + HitsBy(fired, Player)
      ensures (fired, next, ended) == PlayerRun(lines, pos, old(youShots), old(youHits), bot)
      ensures ended == Some(PlayerWon) <==> |youHits| == TotalCells
      ensures ended.None? ==> Turn(log) == Bot
    {
      ghost var shots0, hits0 := youShots, youHits;
      next := pos;
      fired := [];
      ThenNothing(PlayerRun(lines, pos, youShots, youHits, bot));
      while true
        invariant Valid() && pos <= next <= |lines|
        invariant TurnsFollowRules(log) && StopsAtWin(log) && Turn(log) == Player
        invariant |youHits| < TotalCells
        invariant botShots == old(botShots) && botHits == old(botHits) && targets == old(targets)
        invariant log == old(log) + fired
        invariant PlayerRun(lines, pos, shots0, hits0, bot) == Then(fired, PlayerRun(lines, next, youShots, youHits, bot))
        decreases |lines| - next
      {
        ghost var before := next;
        var answer, n := ReadMove(lines, next, youShots);
        next := n;
        if answer.None? || !answer.value.Move? {
          PlayerRunStop(lines, pos, shots0, hits0, bot, fired, before, youShots, youHits);
          BooksSince(old(log), fired);
        }
        if answer.None? {
          return Some(OutOfInput), next, fired;
        }
        if answer.value.Exit? {
          return Some(Aborted), next, fired;
        }
        if answer.value.Overflow? {
          return Some(Crashed), next, fired;
        }
        var cell := answer.value.cell;
        ghost var used, hits := youShots, youHits;
        var hit := PlayerShot(cell);
        PlayerRunThen(lines, pos, shots0, hits0, bot, fired, before, used, hits, cell, hit, next);
        AppendFired(old(log), fired, Shot(Player, cell, hit));
        fired := fired + [Shot(Player, cell, hit)];
        BooksSince(old(log), fired);
        if !hit {
          return None, next, fired;
        }
        if |youHits| == TotalCells {
          return Some(PlayerWon), next, fired;
        }
      }
    }

    /**
     * One shot of the bot's turn (corably.py:218-247), told the start of the
     * turn (`q0`, `shots0`, `hits0`, `log0`) and what it has fired so far:
     * `fired` grows by the shot, and the turn's `BotRun` is what was fired
     * followed by the run from here on, or ends here after a miss or the
     * last hit.
     */
    method BotTurnShot(hunt: nat -> nat, ghost q0: seq<Cell>, ghost shots0: set<Cell>, ghost hits0: set<Cell>,
                       ghost log0: seq<Shot>, ghost fired: seq<Shot>) returns (hit: bool, ghost fired': seq<Shot>)
      requires Valid() && TurnsFollowRules(log) && StopsAtWin(log) && Turn(log) == Bot
      requires |youHits| < TotalCells && |botHits| < TotalCells
      requires hits0 <= shots0 && |hits0| < TotalCells && log == log0 + fired
      requires BotRun(you, q0, shots0, hits0, hunt) == BotThen(fired, BotRun(you, targets, botShots, botHits, hunt))
      modifies this
      ensures Valid() && TurnsFollowRules(log) && StopsAtWin(log)
      ensures youShots == old(youShots) && youHits == old(youHits)
      ensures log == log0 + fired' && fired' != [] && fired'[|fired'| - 1].hit == hit
      ensures botShots == ShotsBy(log0, Bot) + ShotsBy(fired', Bot) && botHits == HitsBy(log0, Bot) + HitsBy(fired', Bot)
      ensures hit ==> Turn(log) == Bot && |old(botHits)| < |botHits| <= TotalCells
      ensures !hit ==> Turn(log) == Player && botHits == old(botHits)
      ensures !hit || |botHits| == TotalCells ==> BotRun(you, q0, shots0, hits0, hunt) == (fired', targets)
      ensures hit && |botHits| < TotalCells ==>
        BotRun(you, q0, shots0, hits0, hunt) == BotThen(fired', BotRun(you, targets, botShots, botHits, hunt))
    {
      ghost var before, q, shots, hitsBefore := log, targets, botShots, botHits;
      var cell, sunk;
      cell, hit, sunk := BotFire(hunt(|botShots|));
      BotRunThen(you, q0, shots0, hits0, hunt, fired, q, shots, hitsBefore, cell, hit, sunk, targets, botShots, botHits);
      AppendKeepsTurns(before, Shot(Bot, cell, hit));
      AppendKeepsStop(before, Shot(Bot, cell, hit));
      AppendFired(log0, fired, Shot(Bot, cell, hit));
      fired' := fired + [Shot(Bot, cell, hit)];
      BooksSince(log0, fired');
      if hit {
        AddNew(hitsBefore, cell);
        HitsBounded();
      }
    }

    /**
     * The bot's turn (corably.py:216-249): the bot fires at the cells
     * `choose_bot_shot` picks until it misses or has hit every ship cell of
     * the player; `won` says which. The shots and the queue left are those of
     * `BotRun`; `fired` is what the turn adds to the log.
     */
    method BotTurn(hunt: nat -> nat) returns (won: bool, ghost fired: seq<Shot>)
      requires Valid() && TurnsFollowRules(log) && StopsAtWin(log) && Turn(log) == Bot
      requires |youHits| < TotalCells && |botHits| < TotalCells
      modifies this
      ensures Valid() && TurnsFollowRules(log) && StopsAtWin(log)
      ensures youShots == old(youShots) && youHits == old(youHits)
      ensures log == old(log) + fired
      ensures botShots == old(botShots) + ShotsBy(fired, Bot) && botHits == old(botHits) + HitsBy(fired, Bot)
      ensures (fired, targets) == BotRun(you, old(targets), old(botShots), old(botHits), hunt)
      ensures fired != [] && (fired[|fired| - 1].hit <==> won)
      ensures CellsBy(log, Player) == CellsBy(old(log), Player)
      ensures won <==> |botHits| == TotalCells
      ensures !won ==> Turn(log) == Player
    {
      ghost var q0, shots0, hits0 := targets, botShots, botHits;
      fired := [];
      BotThenNothing(BotRun(you, targets, botShots, botHits, hunt));
      while true
        invariant Valid() && TurnsFollowRules(log) && StopsAtWin(log) && Turn(log) == Bot
        invariant youShots == old(youShots) && youHits == old(youHits)
        invariant |youHits| < TotalCells && |botHits| < TotalCells
        invariant log == old(log) + fired
        invariant BotRun(you, q0, shots0, hits0, hunt) == BotThen(fired, BotRun(you, targets, botShots, botHits, hunt))
        decreases TotalCells - |botHits|
      {
        var hit;
        hit, fired := BotTurnShot(hunt, q0, shots0, hits0, old(log), fired);
        if !hit || |botHits| == TotalCells {
          BotRunLeavesPlayer(you, q0, shots0, hits0, hunt, old(log));
          return hit, fired;
        }
      }
    }

    /**
     * The player's part of a pass of the turn loop of `main` (corably.py:182-212),
     * told what the player typed: `ended` is the outcome when the game ends
     * in it; otherwise the bot is to move, and what was typed reads on from
     * line `next`.
     */
    method PlayerRound(lines: seq<string>, pos: nat, ghost typed: Reading) returns (ended: Option<Outcome>, next: nat)
      requires Valid() && pos <= |lines| && TurnsFollowRules(log) && StopsAtWin(log) && Turn(log) == Player
      requires |youHits| < TotalCells && |botHits| < TotalCells
      requires typed == Reading(CellsBy(log, Player) + Moves(lines, pos, youShots).cells, Moves(lines, pos, youShots).stop)
      modifies this
      ensures Valid() && TurnsFollowRules(log) && StopsAtWin(log)
      ensures botHits == old(botHits) && ended != Some(BotWon)
      ensures ended == Some(PlayerWon) <==> |youHits| == TotalCells
      ensures ended.None? ==> pos < next <= |lines| && Turn(log) == Bot
      ensures ended.None? ==>
        typed == Reading(CellsBy(log, Player) + Moves(lines, next, youShots).cells, Moves(lines, next, youShots).stop)
      ensures ended.Some? ==> CellsBy(log, Player) <= typed.cells
      ensures ended.Some? && ended != Some(PlayerWon) ==> typed == Reading(CellsBy(log, Player), ended.value)
    {
      ghost var before, shots, hits := log, youShots, youHits;
      ghost var fired;
      ended, next, fired := PlayerTurn(lines, pos);
      TypedAfterPlayer(lines, pos, shots, hits, bot, typed, before, fired, next, ended);
      if ended == Some(PlayerWon) {
        CellsPrefix(CellsBy(log, Player), Moves(lines, next, youShots).cells);
      }
    }

    /**
     * The bot's part of a pass of the turn loop of `main` (corably.py:214-249):
     * the bot's turn, seen from the turn loop. It leaves the player's shots
     * alone, and the bot wins exactly when it has hit every ship cell of the
     * player; otherwise it is the player's turn again.
     */
    method BotRound(hunt: nat -> nat) returns (won: bool)
      requires Valid() && TurnsFollowRules(log) && StopsAtWin(log) && Turn(log) == Bot
      requires |youHits| < TotalCells && |botHits| < TotalCells
      modifies this
      ensures Valid() && TurnsFollowRules(log) && StopsAtWin(log)
      ensures youShots == old(youShots) && youHits == old(youHits)
      ensures CellsBy(log, Player) == CellsBy(old(log), Player)
      ensures won <==> |botHits| == TotalCells
      ensures !won ==> Turn(log) == Player
    {
      ghost var fired;
      won, fired := BotTurn(hunt);
    }

    /**
     * One pass of the turn loop of `main` (corably.py:182-249): the player's
     * part, then, after a miss, the bot's. `ended` is the outcome when the
     * game ends in this pass; otherwise it is the player's turn again, and
     * what was typed reads on from line `next`.
     */
    method PlayRound(lines: seq<string>, pos: nat, hunt: nat -> nat, ghost typed: Reading) returns (ended: Option<Outcome>, next: nat)
      requires Valid() && pos <= |lines| && TurnsFollowRules(log) && StopsAtWin(log) && Turn(log) == Player
      requires |youHits| < TotalCells && |botHits| < TotalCells
      requires typed == Reading(CellsBy(log, Player) + Moves(lines, pos, youShots).cells, Moves(lines, pos, youShots).stop)
      modifies this
      ensures Valid() && TurnsFollowRules(log) && StopsAtWin(log)
      ensures ended == Some(PlayerWon) <==> |youHits| == TotalCells
      ensures ended == Some(BotWon) <==> |botHits| == TotalCells
      ensures ended.None? ==> pos < next <= |lines| && Turn(log) == Player && |youHits| < TotalCells && |botHits| < TotalCells
      ensures ended.None? ==>
        typed == Reading(CellsBy(log, Player) + Moves(lines, next, youShots).cells, Moves(lines, next, youShots).stop)
      ensures ended.Some? ==> CellsBy(log, Player) <= typed.cells
      ensures ended.Some? && ended.value in {Aborted, Crashed, OutOfInput} ==> typed == Reading(CellsBy(log, Player), ended.value)
    {
      ended, next := PlayerRound(lines, pos, typed);
      if ended.None? {
        var won := BotRound(hunt);
        if won {
          CellsPrefix(CellsBy(log, Player), Moves(lines, next, youShots).cells);
          ended := Some(BotWon);
        }
      }
    }

    /**
     * The turn loop of `main` (corably.py:174-249) on a new game, with the
     * player's typed `lines` and the bot's hunt-mode draws `hunt`: every shot
     * is fired by the side whose turn it is, so a hit keeps the shooter and a
     * miss passes the turn; no shot follows a side's `TotalCells`-th hit; a
     * side wins exactly when it has hit every opponent ship cell.
     */
    method Play(lines: seq<string>, hunt: nat -> nat) returns (outcome: Outcome)
      requires Valid() && youShots == {} && botShots == {} && targets == [] && log == []
      modifies this
      ensures Valid()
      ensures TurnsFollowRules(log) && StopsAtWin(log)
      ensures outcome == PlayerWon <==> |youHits| == TotalCells
      ensures outcome == BotWon <==> |botHits| == TotalCells
      ensures CellsBy(log, Player) <= Moves(lines, 0, {}).cells
      ensures outcome in {Aborted, Crashed, OutOfInput} ==> Moves(lines, 0, {}) == Reading(CellsBy(log, Player), outcome)
      ensures outcome == OutOfInput ==> NoEnds(lines, 0, |lines|)
      ensures outcome == Aborted ==> exists i :: 0 <= i < |lines| && NoEnds(lines, 0, i) && IsExit(lines[i])
      ensures outcome == Crashed ==> exists i :: 0 <= i < |lines| && NoEnds(lines, 0, i) && Ends(lines[i]) && !IsExit(lines[i])
    {
      MovesStop(lines, 0, {});
      var pos := 0;
      ghost var typed := Moves(lines, 0, {});
      assert CellsBy(log, Player) + typed.cells == typed.cells;
      while true
        invariant Valid() && pos <= |lines|
        invariant TurnsFollowRules(log) && StopsAtWin(log) && Turn(log) == Player
        invariant |youHits| < TotalCells && |botHits| < TotalCells
        invariant typed == Reading(CellsBy(log, Player) + Moves(lines, pos, youShots).cells, Moves(lines, pos, youShots).stop)
        decreases |lines| - pos
      {
        var ended, next := PlayRound(lines, pos, hunt, typed);
        if ended.Some? {
          return ended.value;
        }
        pos := next;
      }
    }
  }

  /**
   * The start of `main` (corably.py:143-159): both fleets placed with at most
   * `restarts` restarts each, then a new game; `None` when a placement used
   * up its restarts.
   */
  method NewGame(pickYou: Picker, pickBot: Picker, restarts: nat) returns (g: Option<Game>)
    ensures g.Some? ==> fresh(g.value) && g.value.Valid()
    ensures g.Some? ==> g.value.youShots == {} && g.value.botShots == {} && g.value.targets == [] && g.value.log == []
    ensures g.Some? <==> PlaceRounds(pickYou, 0, restarts).Some? && PlaceRounds(pickBot, 0, restarts).Some?
    ensures g.Some? ==>
      g.value.you == PlaceRounds(pickYou, 0, restarts).value && g.value.bot == PlaceRounds(pickBot, 0, restarts).value
    ensures g.Some? ==> ValidFleet(g.value.you) && ValidFleet(g.value.bot)
  {
    var you := PlaceShipsNoTouch(pickYou, 0, restarts);
    var bot := PlaceShipsNoTouch(pickBot, 0, restarts);
    if you.None? || bot.None? {
      return None;
    }
    PlaceRoundsValid(pickYou, 0, restarts);
    PlaceRoundsValid(pickBot, 0, restarts);
    ValidFleetPlaced(you.value);
    ValidFleetPlaced(bot.value);
    var game := new Game(you.value, bot.value);
    g := Some(game);
  }
}
