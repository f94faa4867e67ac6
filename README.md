# ascifight rules engine in Dafny

ascifight is a turn-based capture-the-flag game. Teams command a fixed roster of typed actors on a
square grid, and each team has a home base and a flag. In every tick the game collects orders
(move, grab/put, attack, destroy, build) and resolves them in a fixed order of kinds. Resolution
updates the board, credits capture and kill scores, and appends an action record to the tick's log.
At the end of a game the scores, with a winning bonus, are appended to a score file. When a game
starts, the totals in that file are read back.

This project models the rules engine of two revisions of the repository:

- The current revision (`src/ascifight/...`):
  - `board/data.py`: board values and the lookups over them;
  - `board/actions.py`: the per-order actions;
  - `game.py`: the tick driver and the score file.
- The legacy revision (`ascifight/...`):
  - `board/computations.py`: pure grid arithmetic;
  - its own `board/data.py`, `board/actions.py` and `game.py`.

Files:

- `wrappers.dfy`: `Option`, `Result` and the Python exceptions the code can raise (`IndexError`,
  `KeyError`, `ValueError`, `UnboundLocalError`).
- `computations.dfy` (module `Computations`): target cells, distances and directions. The current
  revision's `_calc_target_coordinates` is the same function as the legacy `calc_target_coordinates`.
- `data.dfy` (module `Data`):
  - coordinates, teams and board objects with their Python equality;
  - the actor catalogue;
  - the board as a fixed `Layout` (map size, teams, roster kinds, bases) plus a mutable `BoardState`
    (actor cells, carried flags, flag cells, walls);
  - the reverse dictionary views;
  - the validity invariant `BoardValid`;
  - the class `Board`, which holds the board and is updated in place.
- `actions.dfy` (module `Actions`):
  - every action as a function from a board to a new board and a resolution;
  - lemmas saying what each action means and that it keeps `BoardValid`;
  - the class `BoardActions`, whose methods mutate the `Board` and are proved equal to those
    functions.
- `scorelog.dfy` (module `ScoreLog`):
  - the score-line format `name: score\n` and its parser (Python's `str.split`, `int`, `str.strip`);
  - `sorted(..., reverse=True)` as a stable descending insertion sort.
- `game.py` of each revision is modelled twice:
  - `game.dfy` (module `Game`) for the current revision: the per-kind order loops as one function
    `Run` over a resolver, the tick `GameStep`, score crediting, game end, and writing and reading
    the score file;
  - `legacy_game.dfy` (module `LegacyGame`) for the legacy revision;
  - in each, the class (`Game`, `LegacyGame`) updates its fields in place and its methods are proved
    equal to those functions.
- `legacy_actions.dfy` (module `LegacyActions`): the legacy actions. They are stated as the current
  functions without the action record. The only exception is destroy, which differs.

Python behaviour that the model states explicitly:

- **Dictionary order.** A reverse view `{v: k for k, v in d.items()}` keeps the last key that maps
  to a value. `LastIndexAt` states this, and flags on a shared cell report the last team.
- **Randomness.** `random.random() < p` becomes a draw from an injected stream `Random.draws`.
  `random.choice` becomes an index from `Random.picks`.
- **The attack at the map edge.** Attacking toward the edge targets the attacker's own cell, so a
  hit respawns the attacker.
- **`board_objects_coordinates` on a wall.** It raises `UnboundLocalError`.
- **Score order.** The order of the `scores` dictionary is the team order in which `_set_scores`
  creates it.

Where the prose description of the game and the code disagree, the model follows the code:

- The game ends when a score reaches `max_score` in the current revision, but only when a score
  equals it in the legacy revision.
- The legacy revision credits no kills.
- The legacy revision's destroy keeps the wall.

## Model

| member | source | states |
|---|---|---|
| Computations.CalcTargetCoordinates | ascifight/board/computations.py:13-28 | a step keeps the other axis, stays on the map, stays put exactly at the edge in that direction, and otherwise moves one cell |
| Computations.CalcTargetCoordinatesExamples | tests/board_computations_test.py:6-43 | the test's moves inside the map and its clamped moves at the edge |
| Computations.CalcTargetCoordinatesMovesAtMostOne | src/ascifight/board/actions.py:261-277 | from a cell on the map a target is at Manhattan distance at most 1 |
| Computations.DistanceVector | ascifight/board/computations.py:77-83 | origin plus the vector is the target |
| Computations.Distance | ascifight/board/computations.py:69-74 | the distance is zero exactly when the cells coincide |
| Computations.DistanceSymmetric | ascifight/board/computations.py:69-74 | the distance is symmetric |
| Computations.DistanceTriangle | ascifight/board/computations.py:69-74 | the distance obeys the triangle inequality |
| Computations.DistanceExamples | tests/board_computations_test.py:82-103 | the test's distances |
| Computations.CalcTargetCoordinateDirection | ascifight/board/computations.py:31-66 | one or two directions are returned |
| Computations.CalcTargetCoordinateDirectionMeaning | ascifight/board/computations.py:31-66 | the longer axis gives one direction, a diagonal gives both, and the same cell gives `up` |
| Computations.CalcTargetCoordinateDirectionApproaches | ascifight/board/computations.py:31-66 | each suggested direction brings the origin one step closer to a distinct target |
| Computations.CalcTargetCoordinateDirectionExamples | tests/board_computations_test.py:46-79 | the test's expected direction sets |
| Data.TeamEqIgnoresCredentials | src/ascifight/board/data.py:21-27 | teams are equal when their names are, whatever the password and number |
| Data.TeamEq | src/ascifight/board/data.py:22-24 | `Team.__eq__`: teams are equal by name; TeamEqIgnoresCredentials states that password and number play no part |
| Data.NewCoordinates | src/ascifight/board/data.py:35-51 | coordinates are built exactly when both values are in [0, map_size), and otherwise raise ValueError |
| Data.CoordEqIsValueEquality | src/ascifight/board/data.py:57-64 | `__eq__` against coordinates is value equality |
| Data.CoordNeNegatesEqOnlyWithAttributes | src/ascifight/board/data.py:66-72 | `__ne__` negates `__eq__` only for objects with x and y; otherwise both are false |
| Data.CoordLtStrictOrder | src/ascifight/board/data.py:74-80 | `__lt__` (a larger norm is "less") is irreflexive, asymmetric and transitive |
| Data.CoordLtNotTotal | src/ascifight/board/data.py:74-80 | two different cells with equal norm are unordered |
| Data.CoordEq | src/ascifight/board/data.py:58-64 | `Coordinates.__eq__`: equal x and y; CoordEqIsValueEquality states it is value equality |
| Data.CoordNe | src/ascifight/board/data.py:66-72 | `Coordinates.__ne__`; CoordNeNegatesEqOnlyWithAttributes states when it negates `__eq__` |
| Data.CoordLt | src/ascifight/board/data.py:74-80 | `Coordinates.__lt__` by the larger norm; CoordLtStrictOrder and CoordLtNotTotal state its order |
| Data.Capabilities | src/ascifight/board/data.py:177-199 | all probabilities lie in [0,1]; only Generalist and Runner grab, only Generalist and Attacker attack, only Builder builds, only Destroyer destroys, and Guardian does nothing |
| Data.GetProperties | src/ascifight/board/data.py:162-170 | the property record carries the class name and the catalogue's profile |
| Data.GetActorProperties | src/ascifight/board/data.py:302-303 | one record per roster kind, in roster order, carrying that class's four capability probabilities |
| Data.ObjectEqIsKeyEquality | src/ascifight/board/data.py:117-215 | flag, actor and base equality (class name plus team, and ident for actors) is equality of the board key |
| Data.ObjectEq | src/ascifight/board/data.py:117-215 | `__eq__` of the board objects; ObjectEqIsKeyEquality states it agrees with equality of board keys |
| Data.ClassNameDeterminesClass | src/ascifight/board/data.py:148-160 | equal class names mean the same kind of board object |
| Data.LastIndexAt | src/ascifight/board/data.py:275-286 | the index found holds the value, and no later key does |
| Data.LastAtInverse | src/ascifight/board/data.py:275-286 | for an injective map the reverse view returns exactly the key at that value, and nothing when no key has it |
| Data.TeamRoster | src/ascifight/board/setup.py:62-68 | a team's roster has one actor per kind, numbered in order |
| Data.RosterMembership | src/ascifight/board/setup.py:62-68 | an actor is in the roster exactly when its team, ident and kind match the layout |
| Data.TeamsActors | src/ascifight/board/setup.py:62-68 | actor `i` of a team is the `i`-th class of the roster, with ident `i`; TeamRoster and RosterMembership state the roster it builds |
| Data.AllActorsAreRoster | src/ascifight/board/data.py:222-239 | `teams_actors` holds exactly the roster actors |
| Data.CarrierIsUnique | src/ascifight/board/data.py:138-141 | on a valid board a flag has at most one carrier |
| Data.ValidAfterStep | src/ascifight/board/data.py:222-239 | moving an actor, and its carried flag, onto a free floor cell keeps the board valid |
| Data.ValidAfterFlagsMoved | src/ascifight/board/data.py:222-239 | moving flags on the map while carried flags stay with their carriers keeps the board valid |
| Data.ActorTeamIsKeyed | src/ascifight/board/data.py:222-239 | every actor's team has a base and a flag |
| Data.ActorAt | src/ascifight/board/data.py:275-277 | the actor found stands on the cell, and nothing is found exactly when no actor does |
| Data.FlagAt | src/ascifight/board/data.py:279-282 | the flag found lies on the cell, and nothing is found exactly when no flag does |
| Data.BaseAt | src/ascifight/board/data.py:284-286 | the base found is on the cell, and nothing is found exactly when no base is |
| Data.BaseAtExact | src/ascifight/board/data.py:284-286 | the base view returns a team exactly when that team's base is on the cell |
| Data.ActorAtExact | src/ascifight/board/data.py:275-277 | on a valid board the actor view returns an actor exactly when it stands there |
| Data.FlagAtReportsLastTeam | src/ascifight/board/data.py:279-282 | when two flags share a cell the view reports the later team |
| Data.FlagIsAtHome | src/ascifight/board/data.py:252-263 | true exactly when the base on the flag's cell is the flag's own |
| Data.BoardObjectsCoordinates | src/ascifight/board/data.py:288-297 | a wall raises UnboundLocalError; a flag, base or actor gives its own recorded cell exactly when its key is present, and KeyError otherwise |
| Data.BoardObjectsCoordinatesInvertsViews | src/ascifight/board/data.py:275-297 | on a valid board the actor or base found at the returned cell is the one asked for |
| Data.Present | src/ascifight/board/data.py:305-311 | the present objects, and no others, are listed |
| Data.ObjectsAtRanked | src/ascifight/board/data.py:305-311 | lookups come in the order base, actor, flag, wall |
| Data.GetAllObjects | src/ascifight/board/data.py:305-311 | at most four objects, in that order |
| Data.GetAllObjectsListsLookups | src/ascifight/board/data.py:305-311 | the list is exactly the successful lookups |
| Data.GetAllObjectsContents | src/ascifight/board/data.py:305-311 | a base is listed exactly when it is on the cell, and a wall exactly when the cell is walled |
| Data.GetAllObjectsReportsViews | src/ascifight/board/data.py:305-311 | the actor and flag listed are exactly what the reverse views report |
| Data.GetAllObjectsOnValidBoard | src/ascifight/board/data.py:305-311 | on a valid board an actor is listed exactly when it stands on the cell, and a flag is listed exactly when some flag lies there |
| Data.Board.constructor | src/ascifight/board/data.py:222-239 | the board starts from a valid layout and state |
| Data.Board.ActorsOfTeam | src/ascifight/board/data.py:265-273 | every team maps to its actors, one per roster kind with ident i |
| ScoreLog.StripLeft | src/ascifight/game.py:232 | the leading whitespace is removed, and only that |
| ScoreLog.StripRight | src/ascifight/game.py:232 | the trailing whitespace is removed, and only that |
| ScoreLog.Strip | src/ascifight/game.py:232 | the result neither starts nor ends with whitespace |
| ScoreLog.StripTrimmed | src/ascifight/game.py:232 | stripping a trimmed string leaves it unchanged |
| ScoreLog.StripPadded | src/ascifight/game.py:232 | stripping removes whitespace padding around a trimmed word |
| ScoreLog.IntToString | src/ascifight/game.py:224 | the decimal text is trimmed and starts with '-' exactly for negatives |
| ScoreLog.NatToString | src/ascifight/game.py:224 | digits only, with no leading zero |
| ScoreLog.ParseInt | src/ascifight/game.py:231 | `int()` fails only with ValueError |
| ScoreLog.ParseIntOfIntToString | src/ascifight/game.py:222-231 | `int()` reads back the written decimal, whatever whitespace surrounds it |
| ScoreLog.Split | src/ascifight/game.py:230 | `str.split` returns at least one piece |
| ScoreLog.SplitJoin | src/ascifight/game.py:230 | joining the pieces with the separator gives back the string |
| ScoreLog.SplitPiecesLackSeparator | src/ascifight/game.py:230 | no piece contains the separator |
| ScoreLog.SplitWithoutSeparator | src/ascifight/game.py:230 | a string without the separator splits into itself |
| ScoreLog.SplitAtFirst | src/ascifight/game.py:230 | a split cuts at the first separator |
| ScoreLog.Lines | src/ascifight/game.py:229 | the file has no lines exactly when it is empty |
| ScoreLog.LinesMeaning | src/ascifight/game.py:229 | the lines concatenate to the file, and each line but the last ends with its only newline |
| ScoreLog.LinesAfterLine | src/ascifight/game.py:229 | a complete first line is read on its own |
| ScoreLog.TranslateNewlines | src/ascifight/game.py:228-229 | text-mode reading leaves no carriage return and never lengthens the text |
| ScoreLog.TranslateNewlinesWithoutReturns | src/ascifight/game.py:228-229 | text without carriage returns is read as written |
| ScoreLog.ReturnTranslated | src/ascifight/game.py:228-229 | a lone carriage return, or one before a newline, is read as one newline |
| ScoreLog.ReturnEndsLine | src/ascifight/game.py:228-229 | a carriage return, lone or before a newline, ends a line |
| ScoreLog.FormatLines | src/ascifight/game.py:222-224 | one written line per entry |
| ScoreLog.FormatLine | src/ascifight/game.py:224 | the f-string `name: score` line; FormatLineIsLine and ParseFormatLine state it is one line that reads back as its entry |
| ScoreLog.ParseLine | src/ascifight/game.py:230-232 | a bad line raises ValueError, and the name read is stripped |
| ScoreLog.ScoreFieldParses | src/ascifight/game.py:224 | the score field has no colon and parses back to the score |
| ScoreLog.ParseFormatLine | src/ascifight/game.py:222-232 | reading a written line returns its entry (for names without colons or edge whitespace) |
| ScoreLog.FormatLineIsLine | src/ascifight/game.py:224 | a written line ends with its only newline |
| ScoreLog.LinesOfScoreText | src/ascifight/game.py:222-229 | reading the file's lines gives back the written lines |
| ScoreLog.ScoreTextAppend | src/ascifight/game.py:222 | appending entries appends their text |
| ScoreLog.ScoreTextLacksReturn | src/ascifight/game.py:222-224 | the written text has no carriage return when no name has one |
| ScoreLog.ScoreTextSnoc | src/ascifight/game.py:223-224 | writing one more entry appends one more line |
| ScoreLog.InsertDesc | src/ascifight/game.py:212 | an insertion adds exactly the entry |
| ScoreLog.SortDesc | src/ascifight/game.py:212 | sorting permutes the entries |
| ScoreLog.SortDescMeaning | src/ascifight/game.py:212 | the sort is descending, a permutation, and stable: entries with the same score keep their order |
| Actions.NextDraw | src/ascifight/board/actions.py:95 | a draw consumes one value of the random stream |
| Actions.Choice | src/ascifight/board/actions.py:361 | a choice picks an index below n and consumes one pick |
| Actions.SucceedsAtTheExtremes | src/ascifight/board/actions.py:95 | probability 0 never succeeds, and probability 1 always does |
| Actions.Succeeds | src/ascifight/board/actions.py:95 | `random.random() < p`; SucceedsAtTheExtremes states that p = 0 never and p = 1 always succeeds |
| Actions.Target | src/ascifight/board/actions.py:261-277 | the cell one step in the direction, kept on the map; CalcTargetCoordinatesMovesAtMostOne bounds it |
| Actions.FlagToBase | src/ascifight/board/actions.py:336-339 | the flag is back on its base |
| Actions.HandOver | src/ascifight/board/actions.py:191-195 | keeps the board keyed; HandOverCarriers and ValidAfterHandOver state the flag moves to the receiver |
| Actions.Drop | src/ascifight/board/actions.py:213-216 | keeps the board keyed; DropCarriers and ValidAfterDrop state the flag lies on the target cell |
| Actions.Grab | src/ascifight/board/actions.py:230-237 | keeps the board keyed; GrabCarriers and ValidAfterGrab state the grabber takes the flag from any holder |
| Actions.ClearCarry | src/ascifight/board/actions.py:350-351 | keeps the board keyed; ValidAfterClearCarry states the released flag keeps the board valid |
| Actions.Relocate | src/ascifight/board/actions.py:362-365 | keeps the board keyed; RelocateCarriers and ValidAfterRelocate state the respawned actor leaves its flag behind |
| Actions.HandOverCarriers | src/ascifight/board/actions.py:191-195 | after a hand-over every carried flag lies on its carrier's cell |
| Actions.ValidAfterHandOver | src/ascifight/board/actions.py:191-195 | a hand-over keeps the board valid |
| Actions.DropCarriers | src/ascifight/board/actions.py:213-216 | after a drop every carried flag lies on its carrier's cell |
| Actions.ValidAfterDrop | src/ascifight/board/actions.py:213-216 | dropping a flag on the map keeps the board valid |
| Actions.GrabCarriers | src/ascifight/board/actions.py:230-237 | after a grab, which takes the flag from any holder, every carried flag lies on its carrier's cell |
| Actions.ValidAfterGrab | src/ascifight/board/actions.py:230-237 | a grab keeps the board valid |
| Actions.ValidAfterClearCarry | src/ascifight/board/actions.py:350-351 | releasing a carried flag keeps the board valid |
| Actions.RelocateCarriers | src/ascifight/board/actions.py:362-365 | a respawned actor leaves its flag behind, and carried flags stay with their carriers |
| Actions.ValidAfterRelocate | src/ascifight/board/actions.py:362-365 | respawning onto a free floor cell keeps the board valid |
| Actions.TryPut | src/ascifight/board/actions.py:381-407 | the board stays keyed |
| Actions.TryPutSucceeds | src/ascifight/board/actions.py:381-407 | the actor moves exactly when the target is another cell free of actors, bases and walls; otherwise nothing changes |
| Actions.TryPutEffect | src/ascifight/board/actions.py:381-407 | a move carries the actor's flag along and changes nothing else |
| Actions.TryPutPreservesValid | src/ascifight/board/actions.py:381-407 | moving keeps the board valid |
| Actions.CaptureFlag | src/ascifight/board/actions.py:288-314 | only flags on enemy bases move, and they move home; the scoring team has a base |
| Actions.CaptureFlagMeaning | src/ascifight/board/actions.py:288-314 | a capture happens exactly when the flag is on another team's base and that team's flag is home or not required; the flag then returns home |
| Actions.CheckCapture | src/ascifight/board/actions.py:279-315 | a sweep over one or all flags only sends captured flags home |
| Actions.CaptureSweep | src/ascifight/board/actions.py:279-315 | the loop over the flags keeps the board keyed, only sends flags home, and reports the capturing team or a team that has a base |
| Actions.ValidAfterSweep | src/ascifight/board/actions.py:279-315 | a capture sweep keeps the board valid |
| Actions.SweepKeepsHomeFlags | src/ascifight/board/actions.py:279-315 | a flag at home stays at home during a sweep |
| Actions.FlagReturn | src/ascifight/board/actions.py:341-352 | actors and walls are untouched |
| Actions.FlagReturnElsewhere | src/ascifight/board/actions.py:341-352 | on a cell without the actor's own flag nothing happens |
| Actions.FlagReturnHome | src/ascifight/board/actions.py:341-352 | on its own flag the actor sends it home, drops any carried flag and runs a full capture sweep |
| Actions.ReturnKeepsCarriers | src/ascifight/board/actions.py:341-352 | after a return and sweep, carried flags stay with their carriers |
| Actions.FlagReturnPreservesValid | src/ascifight/board/actions.py:341-352 | a flag return keeps the board valid |
| Actions.SpawnPointsMeaning | src/ascifight/board/actions.py:317-326 | the spawn candidates are exactly the map cells within 2 of the base on both axes |
| Actions.SpawnPoints | src/ascifight/board/actions.py:319-326 | the cells of the 5x5 square round the base that exist; SpawnPointsMeaning states exactly which |
| Actions.FreeCells | src/ascifight/board/actions.py:360 | the allowed cells are the candidates that are not forbidden |
| Actions.PlaceInAreaMeaning | src/ascifight/board/actions.py:354-366 | IndexError exactly when every candidate is forbidden; otherwise one pick relocates the actor, without its flag, to an allowed cell |
| Actions.PlaceInArea | src/ascifight/board/actions.py:354-366 | a placement keeps the board keyed; PlaceInAreaMeaning states IndexError exactly when no cell is free |
| Actions.Respawn | src/ascifight/board/actions.py:317-334 | the board stays keyed |
| Actions.RespawnMeaning | src/ascifight/board/actions.py:317-334 | IndexError exactly when no cell near the home base is free of flags, actors, bases and walls; otherwise the actor lands on such a cell without its flag |
| Actions.RespawnPreservesValid | src/ascifight/board/actions.py:317-334 | a respawn keeps the board valid |
| Actions.MoveResult | src/ascifight/board/actions.py:65-77 | the board stays keyed, and a scoring team has a base |
| Actions.MoveMeaning | src/ascifight/board/actions.py:65-77 | the move succeeds exactly when the next cell is on the map and free; then the actor is there and a move record is produced; otherwise nothing changes |
| Actions.MovePreservesValid | src/ascifight/board/actions.py:65-77 | a move keeps the board valid |
| Actions.AttackResult | src/ascifight/board/actions.py:79-106 | the board stays keyed, and a killer has a base |
| Actions.AttackWithoutHit | src/ascifight/board/actions.py:79-98 | no attack capability or no victim rejects the order; a failed draw uses one draw and changes nothing |
| Actions.AttackHit | src/ascifight/board/actions.py:99-105 | a hit respawns the victim, credits the attacker's team and records the attack; IndexError when the respawn has no room |
| Actions.AttackOnVictim | src/ascifight/board/actions.py:89-105 | the same for the victim the actor view reports |
| Actions.AttackAcrossTheEdgeHitsTheAttacker | src/ascifight/board/actions.py:79-106 | attacking off the map hits the attacker itself |
| Actions.AttackPreservesValid | src/ascifight/board/actions.py:79-106 | an attack keeps the board valid |
| Actions.BuildResult | src/ascifight/board/actions.py:108-136 | the board stays keyed |
| Actions.BuildMeaning | src/ascifight/board/actions.py:108-136 | a build is accepted exactly for builders aiming at a cell free of flags, actors, bases and walls; one draw then decides whether the wall is added |
| Actions.BuildPreservesValid | src/ascifight/board/actions.py:108-136 | a build keeps the board valid |
| Actions.DestroyResult | src/ascifight/board/actions.py:138-162 | the board stays keyed |
| Actions.DestroyRemovesWall | src/ascifight/board/actions.py:138-162 | a destroy is accepted exactly for destroyers aiming at a wall; one draw then decides whether the wall is removed |
| Actions.DestroyPreservesValid | src/ascifight/board/actions.py:138-162 | a destroy keeps the board valid |
| Actions.PutResult | src/ascifight/board/actions.py:176-223 | the board stays keyed, and a scoring team has a base |
| Actions.GrabPutResult | src/ascifight/board/actions.py:164-259 | exactly one draw is used, and a scoring team has a base |
| Actions.GrabResult | src/ascifight/board/actions.py:225-257 | keeps the board keyed and credits only a team that has a base; GrabSucceeds and GrabMeaning state when and how the flag is taken |
| Actions.HandOverMeaning | src/ascifight/board/actions.py:178-205 | putting onto an actor hands the flag over exactly when the receiver can grab and carries nothing; the receiver's flag-return check follows |
| Actions.DropMeaning | src/ascifight/board/actions.py:208-223 | putting onto a cell without actors drops the flag exactly when the cell has no wall; a capture check of that flag follows |
| Actions.GrabSucceeds | src/ascifight/board/actions.py:225-257 | a grab happens exactly when a flag lies on the target and the draw succeeds; otherwise nothing changes |
| Actions.GrabMeaning | src/ascifight/board/actions.py:225-257 | a grab takes the flag from its holder and runs the grabber's flag-return check |
| Actions.PutPreservesValid | src/ascifight/board/actions.py:176-223 | a put keeps the board valid |
| Actions.GrabPreservesValid | src/ascifight/board/actions.py:225-257 | a grab keeps the board valid |
| Actions.GrabPutPreservesValid | src/ascifight/board/actions.py:164-259 | grab/put keeps the board valid |
| Actions.BoardActions.constructor | src/ascifight/board/actions.py:58-63 | the actions hold the board, the configuration flag and the random source |
| Actions.BoardActions.RandomRandom | src/ascifight/board/actions.py:95 | `random.random()` returns the next draw |
| Actions.BoardActions.RandomChoice | src/ascifight/board/actions.py:361 | `random.choice` returns the next pick |
| Actions.BoardActions.TryPutActor | src/ascifight/board/actions.py:381-407 | the in-place move leaves the board that TryPut describes |
| Actions.BoardActions.ReturnFlagToBase | src/ascifight/board/actions.py:336-339 | the flag is set to its base cell |
| Actions.BoardActions.CheckCaptureConditions | src/ascifight/board/actions.py:279-315 | the loop over flags leaves the board and scoring team that CheckCapture describes |
| Actions.BoardActions.CaptureOne | src/ascifight/board/actions.py:289-314 | one loop iteration is CaptureFlag |
| Actions.BoardActions.CheckFlagReturnConditions | src/ascifight/board/actions.py:341-352 | the in-place return is FlagReturn |
| Actions.BoardActions.PlaceActorInArea | src/ascifight/board/actions.py:354-366 | the in-place placement is PlaceInArea, and the board is untouched on IndexError |
| Actions.BoardActions.PossibleSpawnPoints | src/ascifight/board/actions.py:319-326 | the nested loops collect exactly the spawn candidates |
| Actions.BoardActions.RespawnActor | src/ascifight/board/actions.py:317-334 | the in-place respawn is Respawn |
| Actions.BoardActions.Move | src/ascifight/board/actions.py:65-77 | the in-place move is MoveResult and keeps the board valid |
| Actions.BoardActions.Attack | src/ascifight/board/actions.py:79-106 | the in-place attack is AttackResult and keeps the board valid |
| Actions.BoardActions.Build | src/ascifight/board/actions.py:108-136 | the in-place build is BuildResult and keeps the board valid |
| Actions.BoardActions.Destroy | src/ascifight/board/actions.py:138-162 | the in-place destroy is DestroyResult and keeps the board valid |
| Actions.BoardActions.HandFlagOver | src/ascifight/board/actions.py:191-195 | the in-place hand-over is HandOver |
| Actions.BoardActions.DropFlag | src/ascifight/board/actions.py:213-216 | the in-place drop is Drop |
| Actions.BoardActions.TakeFlag | src/ascifight/board/actions.py:230-237 | the in-place grab is Grab |
| Actions.BoardActions.PutFlag | src/ascifight/board/actions.py:176-223 | the in-place put is PutResult |
| Actions.BoardActions.GrabFlag | src/ascifight/board/actions.py:225-257 | the in-place grab branch is GrabResult |
| Actions.BoardActions.GrabPutFlag | src/ascifight/board/actions.py:164-259 | the in-place grab/put is GrabPutResult and keeps the board valid |
| Game.OrderActor | src/ascifight/game.py:253-255 | the lookup finds the roster actor with that team and ident, and otherwise raises KeyError |
| Game.Partition | src/ascifight/game.py:158-168 | a kind's batch is no longer than the orders |
| Game.PartitionMeaning | src/ascifight/game.py:158-168 | a kind's batch holds exactly the orders of that kind |
| Game.PartitionConcat | src/ascifight/game.py:158-168 | batching keeps submission order |
| Game.CreditMeaning | src/ascifight/game.py:266-292 | at most one record is appended: any action, and an attack only with a killer; only the credited team's score changes, by capture_score or kill_score; builds and destroys never score |
| Game.Credit | src/ascifight/game.py:266-292 | keeps the team set, and a missing team is a KeyError; CreditMeaning states the single record and score change |
| Game.DoneActorIgnored | src/ascifight/game.py:257-258 | once an actor has acted, its later orders of that kind are skipped |
| Game.SuccessBlocksRepeat | src/ascifight/game.py:257-265 | after a successful order, the same actor's next order is ignored |
| Game.Pass | src/ascifight/game.py:250-269 | one loop iteration keeps the team set and the actors of the guard map |
| Game.FailureAllowsRetry | src/ascifight/game.py:282-289 | after a rejected order (attacks included), the same actor may try again |
| Game.EntriesOnlyGrow | src/ascifight/game.py:248-357 | a loop only appends to the tick's log, at most one record per order |
| Game.BuildsAndDestroysNeverScore | src/ascifight/game.py:319-357 | build and destroy loops leave the scores unchanged |
| Game.ScoresNeverDecrease | src/ascifight/game.py:248-317 | with non-negative rewards no score goes down |
| Game.RunPreserves | src/ascifight/game.py:248-357 | any property every resolution keeps holds after a loop |
| Game.Run | src/ascifight/game.py:248-357 | one kind's loop keeps the team set; RunPreserves carries any invariant of its resolutions through it |
| Game.Resolve | src/ascifight/game.py:248-357 | the board stays keyed |
| Game.ResolvePreservesValid | src/ascifight/game.py:248-357 | every order kind keeps the board valid |
| Game.RunKeepsValid | src/ascifight/game.py:248-357 | every loop keeps the board valid |
| Game.GrabPutRejectionKeepsBoard | src/ascifight/game.py:296-317 | a rejected grab/put leaves the board as it was |
| Game.AttackRejectionKeepsBoard | src/ascifight/game.py:273-294 | a rejected attack leaves the board as it was |
| Game.MoveRejectionKeepsBoard | src/ascifight/game.py:248-271 | a rejected move leaves the board as it was |
| Game.RejectionKeepsBoard | src/ascifight/game.py:248-357 | a rejected order of any kind leaves the board as it was |
| Game.Fresh | src/ascifight/game.py:242-246 | every roster actor starts the loop marked as not having acted |
| Game.GameStepKeepsValid | src/ascifight/game.py:149-183 | a tick keeps the board valid |
| Game.GameStep | src/ascifight/game.py:169-183 | a tick keeps the team set; GameStepKeepsValid states it keeps the board valid |
| Game.PlainOrdersIgnored | src/ascifight/game.py:158-168 | an order of no action kind changes nothing in a tick |
| Game.ScoreLimitIsSticky | src/ascifight/game.py:359-362 | once a score reaches max_score the game stays over as scores grow |
| Game.GameOver | src/ascifight/game.py:359-362 | over at the tick limit; ValueError exactly when no team has a score; not over exactly when every score is below the limit |
| Game.Standings | src/ascifight/game.py:212 | the team scores are listed in team order |
| Game.GameScoresMeaning | src/ascifight/game.py:214-220 | IndexError with fewer than two teams; otherwise every score is kept and the leader gets the bonus only when strictly ahead |
| Game.GameScores | src/ascifight/game.py:214-220 | IndexError exactly under two teams; every team is kept in rank order, and only the leader may gain the bonus |
| Game.RankingMeaning | src/ascifight/game.py:212 | the ranking is descending, a permutation of the scores, and stable among ties |
| Game.AddScore | src/ascifight/game.py:233-237 | reading a line never adds or removes teams |
| Game.Accumulate | src/ascifight/game.py:228-237 | reading lines never adds or removes teams |
| Game.AccumulateMeaning | src/ascifight/game.py:228-237 | each known team's total grows by the sum of its lines, and unknown teams are skipped |
| Game.AccumulateConcat | src/ascifight/game.py:228-237 | reading two files in a row sums both |
| Game.ReadLinesStep | src/ascifight/game.py:229-237 | a good line is added and reading continues |
| Game.UnknownTeamSkipped | src/ascifight/game.py:233-237 | a line for a team not in the game is skipped |
| Game.ReadLinesAt | src/ascifight/game.py:229-237 | a bad line stops the reading with ValueError, and a good one is added |
| Game.ReadLines | src/ascifight/game.py:229-237 | the team set is kept, and the only error is ValueError |
| Game.ReadBackWritten | src/ascifight/game.py:222-237 | reading written lines adds up their scores without error |
| Game.WriteThenRead | src/ascifight/game.py:222-240 | a file written over several games reads back as the sum of every game |
| Game.ReadScoreFile | src/ascifight/game.py:226-240 | the team set is kept, and a missing file leaves the totals as they are |
| Game.LogAt | src/ascifight/game.py:118 | the `defaultdict(list)` log: the empty list for a tick with no entry |
| Game.ZeroScoresMeaning | src/ascifight/game.py:205-208 | every team's score is set to 0, and others are kept |
| Game.ZeroScores | src/ascifight/game.py:205-208 | the scores with every team set to zero; ZeroScoresMeaning states the keys and values |
| Game.BoardResolverIsResolve | src/ascifight/game.py:253-265 | the loops resolve each order on its roster actor |
| Game.BoardResolver | src/ascifight/game.py:253-265 | the roster lookup, then the actor's board action; BoardResolverIsResolve states it resolves each order on its roster actor |
| Game.Game.constructor | src/ascifight/game.py:106-130 | the game starts at tick 0 with no scores and an empty log |
| Game.Game.SetScores | src/ascifight/game.py:205-208 | the in-place reset is ZeroScores on both score tables |
| Game.Game.ActorDict | src/ascifight/game.py:242-246 | the loop builds the map Fresh describes |
| Game.Game.Dispatch | src/ascifight/game.py:248-357 | the order runs the action its kind names |
| Game.Game.CreditResult | src/ascifight/game.py:266-292 | the in-place scoring and logging is Credit |
| Game.Game.Perform | src/ascifight/game.py:250-269 | one loop iteration is Pass |
| Game.Game.ExecuteOrders | src/ascifight/game.py:248-357 | the loop over one kind's orders is Run |
| Game.Game.SortOrders | src/ascifight/game.py:152-168 | the sorting loop builds the five batches Partition describes |
| Game.Game.ExecuteGameStep | src/ascifight/game.py:149-183 | a tick advances the clock and runs Move, GrabPut, Attack, Destroy and Build, as GameStep describes |
| Game.Game.CheckGameEnd | src/ascifight/game.py:359-362 | the max loop decides "tick is max_ticks or some score is at least max_score", with ValueError for no scores |
| Game.Game.WriteScores | src/ascifight/game.py:210-224 | the file gets exactly the ranked, bonus-adjusted lines appended; on IndexError it is unchanged |
| Game.Game.PayBonus | src/ascifight/game.py:214-220 | the branch of `_write_scores` written as statements: the same expression as GameScores, so what it means is what GameScores and GameScoresMeaning state |
| Game.Game.WriteLines | src/ascifight/game.py:222-224 | the write loop appends the text of every entry |
| Game.Game.ReadScores | src/ascifight/game.py:226-240 | the totals become what ReadScoreFile accumulates, and a bad line raises its error |
| Game.Game.InitiateGame | src/ascifight/game.py:132-143 | scores are reset, and the totals are reset and then read from the file |
| Game.Game.EndGame | src/ascifight/game.py:145-147 | ending a game writes the scores |
| LegacyActions.LegacyGetProperties | ascifight/board/data.py:110-137 | the legacy record has the class name, a grab for Generalist and Runner, and an attack for Generalist and Attacker |
| LegacyActions.LegacyPropertiesOmitBuildAndDestroy | ascifight/board/data.py:57-65 | the legacy record is the current one without build and destroy |
| LegacyActions.CalcTargetDirection | ascifight/board/actions.py:36-53 | succeeds exactly when both places resolve; a wall raises UnboundLocalError; one or two directions are returned |
| LegacyActions.CalcTargetDirectionApproaches | ascifight/board/actions.py:36-53 | from an actor toward a flag, each direction shortens the distance by one |
| LegacyActions.LegacyMove | ascifight/board/actions.py:55-63 | no randomness is used, and a capture only comes with a move |
| LegacyActions.LegacyAttack | ascifight/board/actions.py:65-88 | a killer is the attacker's team |
| LegacyActions.LegacyBuild | ascifight/board/actions.py:90-114 | a build never credits a team |
| LegacyActions.LegacyDestroy | ascifight/board/actions.py:116-136 | a destroy never credits a team |
| LegacyActions.LegacyPut | ascifight/board/actions.py:149-188 | a rejected put changes nothing |
| LegacyActions.LegacyGrabPut | ascifight/board/actions.py:138-216 | exactly one draw is used |
| LegacyActions.LegacyMoveIsCurrent | ascifight/board/actions.py:55-63 | the legacy move equals the current one |
| LegacyActions.LegacyAttackIsCurrent | ascifight/board/actions.py:65-88 | the legacy attack equals the current one without the record |
| LegacyActions.LegacyBuildIsCurrent | ascifight/board/actions.py:90-114 | the legacy build equals the current one |
| LegacyActions.LegacyPutIsCurrent | ascifight/board/actions.py:149-188 | the legacy put equals the current one |
| LegacyActions.LegacyGrabIsCurrent | ascifight/board/actions.py:190-214 | the legacy grab equals the current one |
| LegacyActions.LegacyGrab | ascifight/board/actions.py:190-214 | a failed grab changes nothing and credits nobody; LegacyGrabIsCurrent states it equals the current grab |
| LegacyActions.LegacyGrabPutIsCurrent | ascifight/board/actions.py:138-216 | legacy grab/put equals the current one |
| LegacyActions.LegacyDestroyKeepsWalls | ascifight/board/actions.py:116-136 | the legacy destroy leaves the board unchanged even when it reports success, where the current one removes the wall |
| LegacyActions.LegacyMovePreservesValid | ascifight/board/actions.py:55-63 | a legacy move keeps the board valid |
| LegacyActions.LegacyAttackPreservesValid | ascifight/board/actions.py:65-88 | a legacy attack keeps the board valid |
| LegacyActions.LegacyGrabPutPreservesValid | ascifight/board/actions.py:138-216 | legacy grab/put keeps the board valid |
| LegacyActions.LegacyBuildPreservesValid | ascifight/board/actions.py:90-114 | a legacy build keeps the board valid |
| LegacyActions.LegacyBoardActions.constructor | ascifight/board/actions.py:12-20 | the actions hold the board, the configuration flag and the random source |
| LegacyActions.LegacyBoardActions.Move | ascifight/board/actions.py:55-63 | the in-place move is LegacyMove and keeps the board valid |
| LegacyActions.LegacyBoardActions.Attack | ascifight/board/actions.py:65-88 | the in-place attack is LegacyAttack |
| LegacyActions.LegacyBoardActions.GrabPutFlag | ascifight/board/actions.py:138-216 | the in-place grab/put is LegacyGrabPut |
| LegacyActions.LegacyBoardActions.Build | ascifight/board/actions.py:90-114 | the in-place build is LegacyBuild |
| LegacyActions.LegacyBoardActions.Destroy | ascifight/board/actions.py:116-136 | the in-place destroy is LegacyDestroy |
| LegacyGame.LegacyCredit | ascifight/game.py:190-246 | credits keep the team set, and a missing team raises KeyError |
| LegacyGame.LegacyCreditMeaning | ascifight/game.py:190-246 | moves and grab/puts credit +1 to the capturing team, and attacks credit nothing |
| LegacyGame.LegacyGuard | ascifight/game.py:223-225 | for other kinds the guard is the success flag |
| LegacyGame.LegacySuccessBlocksRepeat | ascifight/game.py:190-209 | after a successful non-attack order, the same actor's next order is ignored |
| LegacyGame.LegacyPass | ascifight/game.py:190-209 | one loop iteration keeps the team set and the actors of the guard map |
| LegacyGame.LegacyFailureAllowsRetry | ascifight/game.py:190-209 | after a rejected non-attack order, the same actor may try again |
| LegacyGame.RejectedAttackBlocksActor | ascifight/game.py:211-227 | even a rejected attack marks the attacker as done, so it cannot retry |
| LegacyGame.LegacyAttacksNeverScore | ascifight/game.py:211-227 | the attack loop never changes scores |
| LegacyGame.LegacyScoresGrowByCaptures | ascifight/game.py:190-246 | each order adds at most one point to a team |
| LegacyGame.LegacyRunPreserves | ascifight/game.py:190-246 | any property every resolution keeps holds after a loop |
| LegacyGame.LegacyRun | ascifight/game.py:190-246 | one kind's loop keeps the team set; LegacyRunPreserves carries any invariant of its resolutions through it |
| LegacyGame.LegacyBoardResolverIsResolve | ascifight/game.py:190-246 | the loops resolve each order on its roster actor |
| LegacyGame.LegacyResolve | ascifight/game.py:190-246 | only an attack can raise; an order other than move, attack or grab/put leaves board and random source as they are |
| LegacyGame.LegacyBoardResolver | ascifight/game.py:190-246 | the roster lookup, then the legacy action; LegacyBoardResolverIsResolve states it resolves each order on its roster actor |
| LegacyGame.LegacyResolvePreservesValid | ascifight/game.py:190-246 | every legacy order keeps the board valid |
| LegacyGame.LegacyRunKeepsValid | ascifight/game.py:190-246 | every legacy loop keeps the board valid |
| LegacyGame.LegacyGameStepKeepsValid | ascifight/game.py:110-132 | a legacy tick keeps the board valid |
| LegacyGame.LegacyGameStep | ascifight/game.py:110-132 | a legacy tick keeps the team set; LegacyGameStepKeepsValid states it keeps the board valid |
| LegacyGame.LegacyIgnoresBuildsAndDestroys | ascifight/game.py:113-123 | build, destroy and other orders do nothing in a legacy tick |
| LegacyGame.OvershootDoesNotEnd | ascifight/game.py:248-251 | a score above max_score does not end the legacy game, though it ends the current one |
| LegacyGame.OvershootExample | ascifight/game.py:248-251 | a concrete game that jumps from 2 to 4 with max_score 3 does not end |
| LegacyGame.LegacyGameOver | ascifight/game.py:248-251 | over at the tick limit; ValueError exactly when no team has a score; otherwise over only when some score equals the limit |
| LegacyGame.Rewarded | ascifight/game.py:159-160 | every tied team gets the same points |
| LegacyGame.LegacyGameScoresMeaning | ascifight/game.py:154-166 | IndexError with fewer than two teams; a strict leader alone gets 3×multiplier; otherwise exactly the tied leaders get 1×multiplier each |
| LegacyGame.LegacyGameScores | ascifight/game.py:154-166 | IndexError exactly under two teams; every written team gets the multiplier on a tie and three times it otherwise |
| LegacyGame.UnknownTeamRaises | ascifight/game.py:168-182 | a line for a team not in the game raises KeyError and stops the reading |
| LegacyGame.UnknownTeamExample | ascifight/game.py:168-182 | a concrete file whose first line names another team raises KeyError |
| LegacyGame.LegacyReadLinesStep | ascifight/game.py:171-176 | a good line for a known team is added and reading continues |
| LegacyGame.LegacyReadBackWritten | ascifight/game.py:154-182 | written lines of known teams read back as their sum |
| LegacyGame.LegacyWriteThenRead | ascifight/game.py:154-182 | a file written over several games reads back as the sum of every game |
| LegacyGame.LegacyReadLinesAt | ascifight/game.py:170-182 | a bad line raises ValueError, an unknown team raises KeyError, and a good line is added |
| LegacyGame.LegacyReadLines | ascifight/game.py:170-182 | the team set is kept, and the only errors are ValueError and KeyError |
| LegacyGame.LegacyReadScoreFile | ascifight/game.py:168-182 | the team set is kept, and a missing file leaves the totals as they are |
| LegacyGame.LegacyGame.constructor | ascifight/game.py:73-92 | the game starts at tick 0 with no scores |
| LegacyGame.LegacyGame.SetScores | ascifight/game.py:149-152 | the in-place reset is ZeroScores on both score tables |
| LegacyGame.LegacyGame.ActorDict | ascifight/game.py:184-188 | the loop builds the map Fresh describes |
| LegacyGame.LegacyGame.Dispatch | ascifight/game.py:190-246 | the order runs the legacy action its kind names |
| LegacyGame.LegacyGame.CreditResult | ascifight/game.py:206-207 | the in-place scoring is LegacyCredit |
| LegacyGame.LegacyGame.Perform | ascifight/game.py:190-209 | one loop iteration is LegacyPass |
| LegacyGame.LegacyGame.ExecuteOrders | ascifight/game.py:190-246 | the loop over one kind's orders is LegacyRun |
| LegacyGame.LegacyGame.SortOrders | ascifight/game.py:113-123 | the sorting loop builds the three batches |
| LegacyGame.LegacyGame.ExecuteGameStep | ascifight/game.py:110-132 | a legacy tick advances the clock and runs Move, GrabPut, then Attack, as LegacyGameStep describes |
| LegacyGame.LegacyGame.CheckGameEnd | ascifight/game.py:248-251 | the max loop decides "tick is max_ticks or the top score equals max_score", with ValueError for no scores |
| LegacyGame.LegacyGame.WriteScores | ascifight/game.py:154-166 | the file gets exactly the legacy payout lines appended; on IndexError it is unchanged |
| LegacyGame.LegacyGame.Payout | ascifight/game.py:157-162 | the tie loop computes LegacyGameScores |
| LegacyGame.LegacyGame.ReadScores | ascifight/game.py:168-182 | the totals become what LegacyReadScoreFile accumulates, and the error raised is the one it reports |
| LegacyGame.LegacyGame.InitiateGame | ascifight/game.py:94-104 | scores are reset, and the totals are reset and then read from the file |
| LegacyGame.LegacyGame.EndGame | ascifight/game.py:106-108 | ending a legacy game writes the payout |

## Left out

- Map setup (`board/setup.py`, wall generators, base placement) is not part of this model. The
  starting board is an input, required to satisfy `BoardValid`. Only the roster shape that setup
  creates (`TeamsActors`) is modelled.
- Rendering, the HTTP routers, the game loop, the clients and logging are not part of this model.
- Probabilities are reals, and a draw is compared with `<`, as in the code. Floating-point rounding
  is not modelled.
- Score-file I/O is modelled as a field holding the file's text (`None` when the file does not
  exist). Opening, encoding and write failures are not modelled.
- `dict.items()` order of `scores` is taken to be `board.teams` order, the order `_set_scores`
  creates. WriteScores therefore requires every team to have a score.
- `random.choice(list(set))` lists the set in hash order. The model lists the free cells in scan
  order and lets the injected pick choose among them; both reach the same cells.
- `_get_area_positions` is dead code in both revisions and is not modelled.
- The legacy `__init__` reads `config.toml`. The model takes the values as constructor parameters.
- The current `Coordinates.__ne__` and `__lt__`, and `flag_is_at_home`, do not exist in the legacy
  data module. The shared `Data` module models the current data module, and the legacy one is its
  subset.
- LegacyActions.LegacyBoardActions reuses the current in-place procedures, where the two revisions'
  code is the same, instead of repeating them. LegacyMoveIsCurrent and its siblings prove that the
  results agree.
- Game.Game.Dispatch: the per-kind `if already_done[actor]` check and lookup of `teams_actors` are
  in Perform. Dispatch only names the action.
- LegacyActions.LegacyMove: does not state the board it leaves. LegacyMoveIsCurrent relates it to
  MoveResult, which states it.
- The per-tick log is a `defaultdict(list)` in the code and a map read through `LogAt` in the
  model.
- ScoreLog.ParseInt: accepts decimal strings of any length. Python 3.11 and later raises ValueError
  beyond 4300 digits, and a score the game writes is never that long.
- ScoreLog.ParseInt: accepts ASCII digits only. Python's `int()` also accepts other Unicode
  decimal digits, which a score written by the game never contains.
- Game.Game.CheckGameEnd: `max()` on an empty score table raises ValueError; the model returns
  that error.

## Findings

| source | as written | input that shows it | evidently intended | confidence | as-written member | corrected member |
|---|---|---|---|---|---|---|
| ascifight/board/actions.py:116-136 | a successful destroy calls `walls_coordinates.add` on the target, so the wall stays | a Destroyer next to a wall whose draw succeeds | remove the wall, as the current revision does | high, not executed | LegacyActions.LegacyDestroyKeepsWalls | Actions.DestroyRemovesWall |
| ascifight/game.py:211-227 | the attack guard stores the whole result tuple, which is always truthy, so even a rejected attack marks the attacker as done | an attacker orders an attack at an empty cell and then one at an enemy | only a successful attack blocks further attacks that tick | high, not executed | LegacyGame.RejectedAttackBlocksActor | Game.FailureAllowsRetry |
| ascifight/game.py:248-251 | the game ends only when the top score equals `max_score` | max_score 3, a team jumps from 2 to 4 in one tick | end once a score reaches `max_score` | medium, not executed | LegacyGame.OvershootDoesNotEnd | Game.ScoreLimitIsSticky |
| ascifight/game.py:168-182 | the handler for unknown teams catches `ValueError`, but the dictionary lookup raises `KeyError` | a score file with a line for a team that is not in this game | skip lines of unknown teams | high, not executed | LegacyGame.UnknownTeamRaises | Game.UnknownTeamSkipped |
