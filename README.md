# corably — a verified model of the 6×6 Battleship engine

`corably.py` is a terminal Battleship game: a human plays a bot on a 6×6
board, each side with a fleet of ships of lengths 3, 2, 1 and 1. This project
models the game engine in Dafny and proves what the code promises about it:

- **Grid** (`grid.dfy`): `inside`, and the 8- and 4-neighbourhoods from
  `neighbors8` and `neighbors4`, including the order in which they are
  generated.
- **Fleet** (`fleet.dfy`): the no-touch check `can_place` and the rejection
  sampler `place_ships_no_touch`. The sampler draws an orientation and an
  anchor for each ship, gives up after 5000 rejected draws and restarts the
  whole placement by calling itself. This module also holds `ship_sunk`.
  - The random draws come from a `Picker` function indexed by (restart
    round, ship, try). Each `randrange(n)` result is the draw taken modulo
    `n`.
  - The sampler is written as methods with loops (`DrawShip`, `MarkShip`,
    `PlaceAttempt`) and a recursive restart (`PlaceShipsNoTouch`). Each is
    proved equal to a specification function.
  - The placement invariant, and the total of 7 ship cells, are proved for
    those functions for every picker.
- **Input** (`input.dfy`): the validation part of `read_move`. The typed line
  is stripped and lower-cased, "exit" ends the game, and otherwise the line
  must be two digit tokens naming an on-board cell not yet shot at. Any
  other line makes the player type again, except a digit token longer than
  `int()` accepts, whose `ValueError` nothing catches: the game then ends
  with the outcome `Crashed`. The player's input is a sequence of lines.
- **Targeting** (`targeting.dfy`): the bot's queue. `enqueue_targets_from_hit`
  appends the unshot, not-yet-queued orthogonal neighbours of a hit.
  `choose_bot_shot` pops stale entries and falls back to a random unshot
  cell, drawn as `free[seed % |free|]`.
- **Game** (`game.dfy`): the state of `main` is a class `Game`.
  - Fields: both fleets, each side's shot and hit sets, the bot's target
    queue, and a ghost log of shots.
  - Methods: the player's shot, the bot's shot (choose, record, queue
    update), the two nested turn loops, and the outer loop of
    `main`.
  - Each turn loop is proved equal to a function of the state it starts
    from: `PlayerRun` fires the moves the typed lines give, `BotRun` fires
    the cells `choose_bot_shot` picks. Over the whole game, the cells the
    player fired at are the moves read from the lines, in order, and an
    outcome other than a win says which line ended the game.
  - Proved of every game:
    - every shot is fired by the side whose turn it is: the player opens, a
      hit keeps the turn and a miss passes it;
    - no shot follows a side's seventh hit;
    - a side wins exactly when it has hit every ship cell of the other;
    - the bot always has a cell to shoot at.

## Model

| member | source | states |
|---|---|---|
| Grid.Neighbors8Spec | corably.py:22-29 | `neighbors8(r, c)` yields exactly the on-board cells at Chebyshev distance 1 from `(r, c)`, never the cell itself, in row-major order |
| Grid.Neighbors4Spec | corably.py:32-36 | `neighbors4(r, c)` yields exactly the on-board cells at Manhattan distance 1, in the order up, down, left, right |
| Fleet.CandidateIsRun | corably.py:74-82 | every draw of orientation and anchor gives a straight, on-board run of exactly `L` cells |
| Fleet.CanPlaceMeaning | corably.py:52-59 | `can_place` accepts exactly when no cell is occupied and no 8-neighbour of any cell is occupied |
| Fleet.CanPlaceIffApart | corably.py:52-59 | on an on-board occupied set, `can_place` accepts exactly when every cell is at Chebyshev distance at least 2 from every occupied cell |
| Fleet.FirstAcceptedIsFirst | corably.py:68-85 | the try counter gives up (more than 5000 tries) exactly when every try is rejected; otherwise it stops at the first accepted try |
| Fleet.TryShipSound | corably.py:68-85 | a run the sampler accepts passed `can_place` and is a run of the ship's length |
| Fleet.DrawShip | corably.py:69-92 | the `while True` loop with its try counter returns the sampler's first accepted candidate, or `None` after 5000 rejections |
| Fleet.MarkShip | corably.py:89-91 | after the loop, every cell of the run is mapped to the ship's index and added to `occupied`; nothing else changes |
| Fleet.AddShipKeepsInvariant | corably.py:84-91 | appending a run that is apart from every occupied cell keeps the placement invariant and adds its cells to the map's keys |
| Fleet.PlaceFromValid | corably.py:67-94 | placing the remaining ships on a partial fleet that satisfies the invariant gives a complete valid fleet when it succeeds |
| Fleet.AttemptValid | corably.py:62-94 | a placement attempt that does not run out of tries gives a valid fleet: four ships of lengths 3, 2, 1, 1, pairwise apart, indexed by `cell2ship` |
| Fleet.PlaceAttempt | corably.py:62-94 | the per-ship loops build the attempt's fleet, or `None` when a ship runs out of tries |
| Fleet.FirstSuccessFirst | corably.py:71-72 | restarting until an attempt succeeds finds nothing exactly when every attempt of the rounds tried fails, and otherwise returns the first attempt that succeeds |
| Fleet.PlaceRoundsFirst | corably.py:62-94 | `place_ships_no_touch` gives no fleet exactly when every attempt within the restart budget runs out of tries; otherwise it gives the fleet of the first attempt that does not |
| Fleet.PlaceShipsNoTouch | corably.py:62-94 | the recursive restart returns the result of the restart rule `PlaceRounds` |
| Fleet.PlaceRoundsValid | corably.py:62-94 | every fleet `place_ships_no_touch` returns satisfies the placement invariant |
| Fleet.FleetCellCount | corably.py:157 | a valid fleet has exactly `total_cells = sum(SHIP_SIZES) = 7` cells, all on the board |
| Fleet.ShipSunkByIndex | corably.py:97-98 | `ship_sunk(idx, …)` holds exactly when every cell that `cell2ship` maps to `idx` has been hit |
| Input.LeadingSpaceIsRun | corably.py:105 | the prefix that `strip` removes is all whitespace and is followed by a non-space |
| Input.TrailingSpaceIsRun | corably.py:105 | the suffix that `strip` removes is all whitespace and is preceded by a non-space |
| Input.SplitGivesWords | corably.py:108 | every token `split()` returns is non-empty and contains no whitespace |
| Input.SplitSpaces | corably.py:108 | a line of whitespace only has no tokens |
| Input.SplitEmpty | corably.py:108 | `split()` gives no tokens exactly when the line is all whitespace |
| Input.SplitCons | corably.py:108 | whitespace, then a word, then the end or whitespace: the word is the first token and the rest of the line gives the other tokens |
| Input.SplitFirst | corably.py:108 | when there are tokens, the first is a word with only whitespace before it and the end or whitespace after it, and the rest of the line gives the other tokens |
| Input.SplitTwoWords | corably.py:108 | two words with one space between them split into exactly those two tokens |
| Input.ValueOfDecimal | corably.py:113-114 | `int` of the decimal digits of `n` is `n` |
| Input.ParseTokens | corably.py:108-119 | on the tokens of a line that is not "exit": the `ValueError` outcome exactly when one of two digit tokens has more than 4300 digits; a move exactly at the unshot on-board cell the two tokens name; otherwise rejected |
| Input.ParseMoveMeaning | corably.py:105-119 | one pass of `read_move`: `Exit` exactly when the stripped, lower-cased line is "exit"; `Overflow` (the uncaught `ValueError` of `int()`) exactly when two digit tokens include one longer than 4300 digits; a move exactly at the cell named by two digit tokens when that cell is on the board and unshot; every other line is rejected |
| Input.ParseRendered | corably.py:105-119 | the line "r c" with 1-based row and column decodes to the cell `(r-1, c-1)`, and is rejected when that cell was already shot |
| Input.NextAnswerIsLine | corably.py:104-119 | the prompt loop's answer is the parse of the line it stopped after |
| Input.NextAnswerSkipsRejected | corably.py:104-119 | every line the prompt loop passes over before its answer was rejected |
| Input.ReadMove | corably.py:103-119 | the prompt loop returns the parse of the first line that is not rejected (an on-board, unshot cell, "exit", or a number `int()` refuses), or reports that the lines ran out |
| Targeting.EnqueuedCells | corably.py:124-128 | the old queue is kept as a prefix; the appended cells are on board, orthogonally adjacent to the hit, unshot and not already queued; every such neighbour ends up in the queue |
| Targeting.EnqueuedOrder | corably.py:124-128 | the appended neighbours come in the order up, down, left, right |
| Targeting.EnqueuedKeepsQueue | corably.py:124-128 | an on-board queue without duplicates stays on-board and without duplicates |
| Targeting.FreeCells | corably.py:136 | `free` lists exactly the unshot board cells, in row-major order |
| Targeting.ChooseShot | corably.py:131-137 | the pick is never a shot cell, and what is left of the queue is a suffix of it |
| Targeting.ChooseShotPicks | corably.py:131-137 | if the queue holds an unshot cell, the pick is its first unshot entry and only the entries up to it are popped; otherwise the queue ends up empty, and the pick is an unshot board cell, which exists exactly when one is left |
| Targeting.ChooseShotOnBoard | corably.py:131-137 | with an on-board, duplicate-free queue and an unshot cell left, the bot always gets an on-board shot, and the queue left over stays on-board and duplicate-free |
| Game.TurnsFollowRulesMeaning | corably.py:183-249 | the turn rule, stated recursively, equals "every shot was fired by the side whose turn it was after the shots before it" |
| Game.StopsAtWinMeaning | corably.py:174-249 | no shot was fired after either side reached `total_cells` hits, stated for every prefix of the log |
| Game.WinnerFiredLast | corably.py:203-205 | when a side has all `total_cells` hits, the game's last shot was that side's, and it was a hit |
| Game.UnshotFleetCell | corably.py:136-137 | while a side has fewer than `total_cells` hits, some board cell is still unshot, so `random.choice(free)` cannot fail |
| Game.ValidFleetPlaced | corably.py:143-157 | a fleet from `place_ships_no_touch` has the 7 on-board ship cells the game loop relies on |
| Game.MovesCells | corably.py:103-119 | the moves read one after the other from the typed lines are on-board cells, none shot before and none twice |
| Game.MovesStop | corably.py:103-119 | reading moves ends at the end of the lines exactly when no line reads "exit" or a number `int()` refuses; otherwise at the first such line, `Aborted` for "exit" and `Crashed` for the number |
| Game.PlayerRunShots | corably.py:183-213 | the shots of a player's turn are the player's, at cells not shot before, each a hit exactly on a bot ship cell, and all but the last are hits |
| Game.PlayerRunLast | corably.py:183-213 | a player's turn never gives a bot win; when it passes the turn or wins it fired at least one shot, and its last shot is a hit exactly when it wins |
| Game.PlayerRunEnds | corably.py:184-187 | a turn ending `Aborted` stopped on an "exit" line, one ending `Crashed` on a number `int()` refuses, and one ending `OutOfInput` at the end of the lines |
| Game.PlayerRunMoves | corably.py:183-213 | the player's turn fires the moves read from the lines, in order: when it passes the turn or wins, the reading goes on after its last line with its cells shot; otherwise the reading stops where the turn does |
| Game.BotRunShots | corably.py:216-249 | the shots of a bot's turn are the bot's, at cells not shot before, each a hit exactly on a player ship cell, and all but the last are hits |
| Game.TypedAfterPlayer | corably.py:182-213 | what the player typed reads the same after a player's turn: the cells fired so far, then the moves from where the turn stopped, or just the cells fired when the turn ended the reading |
| Game.BotRunLeavesPlayer | corably.py:216-249 | a bot's turn adds no cell to those the player fired at |
| Game.Game.constructor | corably.py:146-159 | a new game holds the two fleets, with no shots, no hits and an empty queue |
| Game.Game.HitsBounded | corably.py:193-195 | the hits of either side never outnumber the opponent's ship cells |
| Game.Game.PlayerFire | corably.py:190-200 | the shot is added to `you_shots`; it hits exactly when it is a bot ship cell, and is then added to `you_hits`; `sunk` is `ship_sunk` of that ship; the bot's state is untouched |
| Game.Game.PlayerShot | corably.py:190-213 | a player's shot keeps the turn rule and the stop-at-win rule; after a hit the player moves again, after a miss the bot moves |
| Game.Game.EnqueueTargetsFromHit | corably.py:124-128 | the in-place loop leaves `targets` equal to `Enqueued` of the old queue |
| Game.Game.ChooseBotShot | corably.py:131-137 | the in-place pops leave the pick and the queue that `ChooseShot` gives |
| Game.Game.RecordBotShot | corably.py:220-230 | the bot's shot is added to `bot_shots`; it hits exactly when it is a player ship cell, and is then added to `bot_hits`; `sunk` is `ship_sunk` of that ship |
| Game.Game.AfterBotHit | corably.py:227-232 | after a bot hit the queue gets the hit's neighbours, and is cleared when the hit sank the ship |
| Game.Game.BotFire | corably.py:219-232 | the bot shoots at the cell `choose_bot_shot` picks, which is on board and unshot; the sets and the queue change as the source does, including the clear on a sinking hit |
| Game.Game.PlayerTurn | corably.py:183-213 | the inner loop fires exactly the shots of `PlayerRun` on the typed lines, appending them to the log and to `you_shots`/`you_hits`; a win is reported exactly when all 7 bot cells are hit, a miss passes the turn; the bot's state is untouched |
| Game.Game.BotTurnShot | corably.py:218-247 | one bot shot inside the turn: the log grows by it, and the turn so far followed by the rest of `BotRun` from the new state is still the turn's `BotRun` |
| Game.Game.BotTurn | corably.py:216-249 | the inner loop fires exactly the shots of `BotRun` from the queue and sets at the start, appending them to the log and to `bot_shots`/`bot_hits`, and leaves `BotRun`'s queue; the last shot is a hit exactly when the bot won, which is exactly when all 7 player cells are hit; the player's state is untouched |
| Game.Game.PlayerRound | corably.py:182-213 | the player's part of a round keeps the turn rules; a player win exactly when all bot cells are hit; otherwise either the bot moves next and the typed lines read on, or the game ended where the typed lines stopped |
| Game.Game.BotRound | corably.py:215-249 | the bot's part of a round keeps the turn rules and the player's shots; a bot win exactly when all player cells are hit, else the player moves next |
| Game.Game.PlayRound | corably.py:174-249 | one pass of the outer loop keeps the turn rules and the reading of the typed lines; a reported win is exactly the side with all 7 hits; an ended reading is the game's outcome |
| Game.Game.Play | corably.py:174-249 | over the whole game the turn rule and the stop-at-win rule hold; a player win exactly when all bot cells are hit, a bot win exactly when all player cells are hit; the player's shots are the moves read from the lines, in order; `OutOfInput` exactly when neither side wins and no line ends the game, `Aborted` at the first line that reads "exit", `Crashed` at the first with a number `int()` refuses |
| Game.NewGame | corably.py:143-159 | the game starts exactly when both placements succeed within the restart budget; it then holds the two fleets the placements returned, both valid, with nothing shot |

## Left out

- Rendering is left out: `clear`, `print_boards`, `redraw`, the message lists and the `you_view`/`enemy_view` grids. They hold display state only; the markers they draw follow from the shot and hit sets.
- `time.sleep` before each bot shot is left out; it only delays the display.
- Randomness is not modelled as a distribution. Placement draws come from a `Picker` and hunt-mode draws from a `hunt` function of the number of bot shots. Every property holds for every choice, but uniformity is not stated.
- Fleet.PlaceShipsNoTouch: the source restarts by calling itself, without a bound of its own. The model's recursion takes a `budget` of restarts and returns `None` when the budget is used up. The budget also stands for CPython's recursion limit (about 1000 nested calls), at which a long restart chain would raise `RecursionError`. Termination with probability 1 is a probabilistic argument that is not modelled.
- Input.ReadMove: `input()` is a sequence of typed lines. Running out of lines, where Python would raise `EOFError`, is the outcome `OutOfInput`.
- Input.ParseMove: `str.strip`, `str.isspace`, `str.isdigit` and `str.lower` are modelled on ASCII only. Unicode whitespace, Unicode digits and non-ASCII case mappings are not.
- Targeting.ChooseShot: `random.choice` on an empty `free` list raises `IndexError`; the model returns `None` instead. Game.Game.BotFire proves that this case never occurs during a game.
- Fleet.ShipSunk carries no contract of its own; its meaning is stated by Fleet.ShipSunkByIndex.
- The "sunk" message changes no state except the bot's queue clear (`targets.clear()`), which is modelled.
- `can_place` iterates over a Python set, whose order is unspecified; the model checks the run's cells in order along the run. The answer does not depend on the order, as Fleet.CanPlaceMeaning shows.
- The code has no board operation that rejects a duplicate shot: `read_move` never offers a cell already shot at, and `choose_bot_shot` never returns one. The model follows the code, so Game.Game.PlayerFire and Game.Game.RecordBotShot require an unshot cell. Both callers are proved to meet that requirement.
- Input.ParseTokens: the 4300-digit limit is CPython's default `sys.int_info.default_max_str_digits`. A limit changed through `PYTHONINTMAXSTRDIGITS` or `sys.set_int_max_str_digits`, and interpreters without the limit, are not modelled. Such an interpreter reads the line by the tokens' values: usually a cell off the board, but an on-board shot when the extra digits are leading zeros (4300 `0`s followed by `1` reads as 1). The traceback itself is represented by the outcome `Crashed`.
- Game.Game.Play: the win checks at the top of the outer loop (corably.py:175-180) are not written as separate tests. The inner loops already return on the seventh hit (corably.py:203-205 and 237-239), so those checks never fire; the model reports the win where the inner loop does.
