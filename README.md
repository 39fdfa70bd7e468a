# Four small programs of edu-ai-challenge-2025, modelled and proved in Dafny

This project models the core of four programs from the repository and proves
properties of each model.

- **Schema validation library** (`8/validation.ts`). Fluent validators for
  strings, numbers, booleans, dates, arrays and objects, built with the
  `Schema` factory. `validate(value, path)` returns `{ success, data, errors }`.
  - `validation.dfy` gives a validator tree's meaning as a pure function,
    `Validation.Validate`.
  - `schema.dfy` models the validator objects themselves. Setters update an
    object in place and return it, array and object validators hold their
    children by reference, and the `validate` methods loop over items and
    keys. Each method is proved to compute `Validation.Validate` of the tree
    the object currently stands for (`Spec()`).
  - `validation_facts.dfy` proves what validation means against an
    independent reference (`Conforms`, `Project`):
    - validation succeeds exactly on conforming values;
    - a conforming value comes back cleaned and without errors;
    - errors sit under the path they were found at;
    - the checks run in their fixed order, and the presence gate comes first.
- **Enigma machine** (`6/enigma.js`), in `enigma.dfy`. Three rotors with ring
  settings and notches, reflector B and a plugboard.
  - `Rotor` and `Enigma` are classes whose rotor positions step in place.
  - Each method is specified by a function on the rotor states.
  - Proved properties:
    - the wirings are permutations;
    - `backward` undoes `forward`;
    - the reflector and the plugboard are involutions;
    - no letter encrypts to itself;
    - the stepping rule as the source implements it: the right rotor
      always steps, and a rotor at its notch carries the next one (there is
      no double step of the middle rotor);
    - decrypting with a second machine set up the same way gives back the
      upper-cased plaintext.
- **Sea battle** (`7/seabattle-refactor/src/{Ship,Board,CPU,Game}.js`), in
  `ship.dfy`, `board.dfy`, `cpu.dfy` and `game.dfy`. Ships, boards, the
  computer player's hunt/target strategy and the game flow are classes with
  the source's fields. A board's ships are also read as plain values: the
  locations and hit marks of the fleet.
  - `processGuess` is specified by `GuessOutcome` and `MarksAfterGuess` on
    those values.
  - The game keeps these invariants:
    - no cell of the player's board belongs to two ships, because the
      player's ships are drawn on the grid and the collision check sees them;
    - on the player's board every guessed ship cell is marked hit;
    - on the CPU's board, whose ships are hidden, the same holds whenever
      no two of its ships share a cell;
    - the game is over exactly when there is a winner, and the winner has
      sunk the other fleet.
  - The CPU's ships are placed with the source's check, which only looks at
    the grid, so two hidden ships may share a cell. It is proved that such a
    fleet can never be sunk, and that a fleet with no shared cell always can.
- **Product filter** (`10/product_filter/filter_tool.py`, `apply_filters`),
  in `product_filter.dfy`. The category, price, rating and stock filters
  are chained list comprehensions, each run only when its argument is set.
  - The result keeps exactly the products that pass every active filter, in
    their order.
  - With no argument set, the input comes back unchanged.

`text.dfy` holds the string helpers the models share: `indexOf`, digits,
`String(n)` and ASCII case mapping.

## Model

| member | source | states |
|---|---|---|
| Validation.HandleUndefined | 8/validation.ts:80-91 | a result is produced exactly for undefined or null values; validation goes on for every other value |
| Validation.Validate | 8/validation.ts:102-455 | success exactly when there are no errors; a failed result has no data; a successful result lacks data exactly when the value is absent and the validator optional; data has the validator's type |
| Validation.ItemResults | 8/validation.ts:377-384 | one result per array item, each validated at `path[i]` |
| Validation.FieldResults | 8/validation.ts:439-448 | one result per declared key, in the schema's order |
| ValidationFacts.SucceedsIffConforms | 8/validation.ts:102-455 | validate succeeds exactly on the values that conform to the schema's reference meaning |
| ValidationFacts.ConformingRoundTrip | 8/validation.ts:376-455 | a conforming value validates with no errors, and its data is the value cleaned: absent optional items and fields dropped, strings coerced to dates, undeclared keys removed |
| ValidationFacts.AbsentValue | 8/validation.ts:80-91 | undefined and null pass without data when optional, and otherwise fail with the single error "Value is required" (or the custom message) at the path, whatever the validator's kind |
| ValidationFacts.WrongKindSingleError | 8/validation.ts:108-113 | a present value of the wrong kind gives exactly one type error and no data |
| ValidationFacts.StringChecks | 8/validation.ts:116-135 | length and pattern checks all run; at most one error per check, in the order min, max, pattern; each reported exactly when its condition fails |
| ValidationFacts.NumberChecks | 8/validation.ts:191-210 | min, max and integer checks all run in that order; each reported exactly when it fails |
| ValidationFacts.RangeAndIntegerOnMinusFive | 8/validation.ts:191-210 | min(0).max(100).integer() on -5 reports only "Number must be at least 0" |
| ValidationFacts.DateBoundsStrict | 8/validation.ts:302-316 | a date passes exactly when it is strictly before `before` and strictly after `after`; a date equal to a bound fails |
| ValidationFacts.CustomMessageOnLeaf | 8/validation.ts:54-72 | with a custom message set, every error of a leaf validator carries it |
| ValidationFacts.FailureErrorsEmpty | 8/validation.ts:377-390 | a composite collects no child error exactly when every child succeeded |
| ValidationFacts.FailureErrorSource | 8/validation.ts:379-380 | every collected error comes from a child that failed |
| ValidationFacts.ErrorsUnderPath | 8/validation.ts:378-441 | every error's path extends the path validation started at |
| ValidationFacts.OwnErrorsAtPath | 8/validation.ts:66-72 | errors a leaf raises itself carry exactly its path |
| ValidationFacts.ArrayErrors | 8/validation.ts:366-384 | an array's errors are at most two length errors at its own path, followed by the failed items' errors, each under that item's `[i]` path |
| ValidationFacts.ObjectErrors | 8/validation.ts:439-448 | an object's errors are those of its failed fields, each under that field's path |
| ValidationFacts.ArraySuccessData | 8/validation.ts:377-390 | a successful array validation has every item passing; its data holds one entry per present item, and equals the items' own data when none is absent |
| ValidationFacts.OptionalItemDropped | 8/validation.ts:381-382 | with an optional item validator, `[null, "a"]` validates to `["a"]`: absent items disappear from the data |
| ValidationFacts.UndeclaredKeysIgnored | 8/validation.ts:439-448 | keys the schema does not declare change neither the outcome nor the errors |
| ValidationFacts.ObjectDataKeys | 8/validation.ts:436-452 | an object's data is a plain object whose keys are declared keys |
| ValidationFacts.FailureErrorsCount | 8/validation.ts:379-380 | the collected errors are exactly as many as the children's errors |
| Schema.Validator.Leaf | 8/validation.ts:28-30 | a new string, number, boolean or date validator: required, no custom message, no constraint |
| Schema.Validator.ArrayOf | 8/validation.ts:347-349 | the array validator holds its item validator, with no length bounds |
| Schema.Validator.ObjectOf | 8/validation.ts:418-420 | the object validator holds the schema's validators under their keys |
| Schema.Validator.Optional | 8/validation.ts:44-47 | the same object, now optional, with nothing else changed |
| Schema.Validator.WithMessage | 8/validation.ts:54-57 | the same object, now with the custom message, with nothing else changed |
| Schema.Validator.MinLength | 8/validation.ts:143-146 | the same string or array validator, with the lower length bound set |
| Schema.Validator.MaxLength | 8/validation.ts:153-156 | the same string or array validator, with the upper length bound set |
| Schema.Validator.Pattern | 8/validation.ts:163-166 | the same string validator, with the pattern set |
| Schema.Validator.Min | 8/validation.ts:218-221 | the same number validator, with the lower bound set |
| Schema.Validator.Max | 8/validation.ts:228-231 | the same number validator, with the upper bound set |
| Schema.Validator.Integer | 8/validation.ts:237-240 | the same number validator, now requiring integers |
| Schema.Validator.Before | 8/validation.ts:324-327 | the same date validator, with the upper date bound set |
| Schema.Validator.After | 8/validation.ts:334-337 | the same date validator, with the lower date bound set |
| Schema.Validator.Validate | 8/validation.ts:102-455 | the object's validate computes exactly the validation of the schema tree it currently stands for |
| Schema.Validator.ValidateStringValue | 8/validation.ts:107-135 | the string validator past the presence gate agrees with the tree's validation |
| Schema.Validator.ValidateNumberValue | 8/validation.ts:182-210 | the number validator past the presence gate agrees with the tree's validation |
| Schema.Validator.ValidateDateValue | 8/validation.ts:280-316 | the date validator past the presence gate agrees with the tree's validation |
| Schema.Validator.ValidateArray | 8/validation.ts:351-391 | the array validator agrees with the tree's validation |
| Schema.Validator.ValidateItems | 8/validation.ts:376-384 | the item loop appends exactly the failed items' errors and keeps exactly the defined data of the successful items |
| Schema.Validator.ValidateObject | 8/validation.ts:422-455 | the object validator's key loop agrees with the tree's validation |
| Schema.String | 8/validation.ts:467-469 | a fresh unconstrained string validator |
| Schema.Number | 8/validation.ts:475-477 | a fresh unconstrained number validator |
| Schema.Boolean | 8/validation.ts:483-485 | a fresh boolean validator |
| Schema.Date | 8/validation.ts:491-493 | a fresh unconstrained date validator |
| Schema.Object | 8/validation.ts:500-502 | a fresh object validator whose fields are the given validators under their keys, in order |
| Schema.Array | 8/validation.ts:509-511 | a fresh array validator over the given item validator |
| Enigma.Mod | 6/enigma.js:4-6 | the double remainder always lies in 0..25 |
| Enigma.ModIsModulus | 6/enigma.js:4-6 | with JavaScript's truncating `%`, mod(n, 26) is the Euclidean modulus, negative n included |
| Enigma.RotorWirings | 6/enigma.js:8-12 | each of rotors I, II and III is wired as a permutation of the alphabet |
| Enigma.ReflectorInvolution | 6/enigma.js:13 | the reflector sends a letter to another letter, never to itself, and back |
| Enigma.PlugboardFixes | 6/enigma.js:15-21 | a character on no cable passes unchanged |
| Enigma.PlugboardRange | 6/enigma.js:15-21 | the swap gives the character or another end of a cable |
| Enigma.PlugboardInvolution | 6/enigma.js:15-21 | with no letter on two cables, swapping twice gives the character back |
| Enigma.PlugboardLetters | 6/enigma.js:15-21 | cables between letters keep letters letters |
| Enigma.PlugboardExamples | 6/enigma.js:15-21 | with the single cable A-B, A and B trade places and C stays |
| Enigma.AlphabetIndex | 6/enigma.js:56 | indexOf in the alphabet is the letter's position, and -1 for anything else |
| Enigma.BackwardForward | 6/enigma.js:55-62 | backward undoes forward, at any position and ring setting |
| Enigma.ForwardBackward | 6/enigma.js:55-62 | forward undoes backward on letters |
| Enigma.StepOne | 6/enigma.js:49-51 | stepping keeps the wiring, notch and ring setting, and leaves the position in 0..25 |
| Enigma.SteppingRule | 6/enigma.js:78-82 | the right rotor always steps; the middle one steps exactly when the right one was at its notch; the left one steps exactly when the middle one is at its notch after that |
| Enigma.FirstStepFromStart | 6/enigma.js:78-82 | from AAA on rotors I, II and III, the first letter moves only the right rotor |
| Enigma.ThroughInverse | 6/enigma.js:88-96 | the left-to-right pass undoes the right-to-left pass |
| Enigma.ThroughInverse2 | 6/enigma.js:88-96 | the right-to-left pass undoes the left-to-right pass |
| Enigma.ScrambleReciprocal | 6/enigma.js:87-99 | at fixed rotor positions the substitution is an involution without fixed points |
| Enigma.EncryptStepReciprocal | 6/enigma.js:83-101 | letters encrypt to other letters; other characters pass without stepping; encrypting the output from the same states takes the same step and gives the input back |
| Enigma.Run | 6/enigma.js:102-108 | one output character per input character; the wirings, notches and ring settings never change |
| Enigma.RunReciprocal | 6/enigma.js:102-108 | a run re-entered with its own output from the same states gives back the input; non-letters are kept |
| Enigma.Configure | 6/enigma.js:66-77 | the starting rotor states: one per id, each wired as a permutation; a ring setting or position left out is 0, the Rotor constructor's default |
| Enigma.Rotor.constructor | 6/enigma.js:43-48 | the rotor holds the given wiring, notch, ring setting and position |
| Enigma.Rotor.Step | 6/enigma.js:49-51 | the position advances by one modulo 26 |
| Enigma.Enigma.constructor | 6/enigma.js:66-77 | one fresh rotor per id, taking its wiring and notch from the table and its ring setting and position from the same index, or 0 when the arguments leave it out |
| Enigma.Enigma.StepRotors | 6/enigma.js:78-82 | the rotor states become their stepped states |
| Enigma.Enigma.ForwardPass | 6/enigma.js:88-90 | the loop computes the right-to-left pass |
| Enigma.Enigma.BackwardPass | 6/enigma.js:94-96 | the loop computes the left-to-right pass |
| Enigma.Enigma.EncryptChar | 6/enigma.js:83-101 | the output and the new rotor states are those of one encryption step |
| Enigma.Enigma.Process | 6/enigma.js:102-108 | the output is the run over the upper-cased text, of the same length |
| Enigma.EncryptDecrypt | 6/enigma.js:102-108 | two machines set up alike decrypt what they encrypt, giving back the upper-cased plaintext |
| Enigma.EncryptedIsUpper | 6/enigma.js:102-108 | the output of a run over upper-cased text is upper-cased already |
| BattleShip.Coord | 7/seabattle-refactor/src/Board.js:142 | on a board of at most ten rows and columns, String(row) + String(col) is two digits that read back as the row and the column |
| BattleShip.CoordInjective | 7/seabattle-refactor/src/Board.js:142 | on such a board a coordinate string names exactly one cell |
| BattleShip.HitEffect | 7/seabattle-refactor/src/Ship.js:14-19 | a hit off the ship changes nothing; a hit on it marks the first matching slot and no other; marks are never removed; hitting twice is hitting once |
| BattleShip.HitsAccumulate | 7/seabattle-refactor/src/Ship.js:14-19 | marks stay set through a series of hits, and every position hit is marked |
| BattleShip.HittingEveryCellSinks | 7/seabattle-refactor/src/Ship.js:14-27 | a ship with distinct cells is sunk once each cell has been hit, in any order |
| BattleShip.DuplicateCellNeverSinks | 7/seabattle-refactor/src/Ship.js:14-27 | a ship listing one cell twice is never sunk, because only the first copy is marked |
| BattleShip.OneCellSinks | 7/seabattle-refactor/src/Ship.js:14-27 | a one-cell ship sinks on its first hit |
| BattleShip.Ship.constructor | 7/seabattle-refactor/src/Ship.js:5-8 | one empty mark per location |
| BattleShip.Ship.Hit | 7/seabattle-refactor/src/Ship.js:14-19 | the marks become those after the hit |
| BattleShip.Ship.IsHit | 7/seabattle-refactor/src/Ship.js:34-37 | a hit position is one the ship occupies |
| BattleBoard.Remaining | 7/seabattle-refactor/src/Board.js:128-130 | the number of ships not sunk is at most the fleet size |
| BattleBoard.RemainingZero | 7/seabattle-refactor/src/Board.js:128-130 | no ship remains exactly when every ship is sunk |
| BattleBoard.RemainingUpdate | 7/seabattle-refactor/src/Board.js:128-130 | changing one ship's marks changes the count only by that ship |
| BattleBoard.FirstOwner | 7/seabattle-refactor/src/Board.js:103-104 | the first ship holding the cell, and no earlier ship holds it; -1 when none does |
| BattleBoard.MarksAfterShot | 7/seabattle-refactor/src/Board.js:103-121 | the fleet keeps its shape after a shot |
| BattleBoard.GuessCases | 7/seabattle-refactor/src/Board.js:93-121 | a repeated guess is reported and changes nothing; a new guess misses exactly when no ship holds the cell, and hits exactly when the first ship holding it has not been hit there yet |
| BattleBoard.RemainingAfterGuess | 7/seabattle-refactor/src/Board.js:109-130 | a guess lowers the ships remaining by one exactly when it sinks a ship |
| BattleBoard.GuessKeepsHitsGuessed | 7/seabattle-refactor/src/Board.js:94-109 | a ship is marked hit only at guessed cells, and processGuess keeps this |
| BattleBoard.FreshGuessNeverAlreadyHit | 7/seabattle-refactor/src/Board.js:94-107 | with hits only at guessed cells, the "already hit" report can never happen |
| BattleBoard.GuessKeepsGuessedHit | 7/seabattle-refactor/src/Board.js:103-109 | in a fleet with no shared cell, every guessed ship cell stays marked hit |
| BattleBoard.PlayKeepsGuessedHit | 7/seabattle-refactor/src/Board.js:93-121 | the same holds through any series of guesses, and every guess is recorded |
| BattleBoard.ApartFleetSinks | 7/seabattle-refactor/src/Board.js:93-130 | in a fleet with no shared cell, guessing every ship cell leaves no ship remaining |
| BattleBoard.ShadowedCellUnmarked | 7/seabattle-refactor/src/Board.js:103-109 | a cell that an earlier ship also holds is never marked on the later ship |
| BattleBoard.ShadowedShipNeverSinks | 7/seabattle-refactor/src/Board.js:103-130 | a ship with such a cell is never sunk, so a ship always remains |
| BattleBoard.HiddenOverlapNeverSinks | 7/seabattle-refactor/src/Board.js:52-68 | the two overlapping hidden ships of HiddenShipsOverlap can never both be sunk |
| BattleBoard.HiddenShipsOverlap | 7/seabattle-refactor/src/Board.js:33-86 | with ships hidden, a ship across and a ship down from the same corner are both placed, and they share that cell |
| BattleBoard.PlannedDistinct | 7/seabattle-refactor/src/Board.js:52-67 | the planned cells of a ship on the board are pairwise distinct |
| BattleBoard.DisjointAppend | 7/seabattle-refactor/src/Board.js:70-73 | a ship with distinct cells that no placed ship holds keeps the fleet free of shared cells |
| BattleBoard.Board.constructor | 7/seabattle-refactor/src/Board.js:7-13 | an empty size × size sea with no ship and no guess |
| BattleBoard.Board.CreateBoard | 7/seabattle-refactor/src/Board.js:18-25 | every cell of the grid is water |
| BattleBoard.Board.ShipsRemaining | 7/seabattle-refactor/src/Board.js:128-130 | the ships not sunk, at most the fleet size |
| BattleBoard.Board.AllSunkIffNoneRemaining | 7/seabattle-refactor/src/Board.js:128-130 | no ship remains exactly when every ship is sunk |
| BattleBoard.Board.IsValidAndNewGuess | 7/seabattle-refactor/src/Board.js:138-144 | true exactly for a cell on the board not guessed yet, which is then a readable cell |
| BattleBoard.Board.FindShip | 7/seabattle-refactor/src/Board.js:103-104 | the loop finds the first ship occupying the cell |
| BattleBoard.Board.FireAt | 7/seabattle-refactor/src/Board.js:109-115 | that ship is hit at the cell, the cell shows fire, and sunk is whether the ship is now sunk |
| BattleBoard.Board.Shoot | 7/seabattle-refactor/src/Board.js:103-121 | the outcome and the marks are those of a new shot; the grid is GridAfterShot: the guessed cell shows a splash after a miss and fire after a hit, and no other cell changes |
| BattleBoard.Board.ProcessGuess | 7/seabattle-refactor/src/Board.js:93-122 | a new guess is recorded; the outcome and the marks are GuessOutcome and MarksAfterGuess; the grid is GridAfterShot, and a repeated guess leaves it unchanged; the ships remaining drop by one exactly on a sinking hit |
| BattleBoard.Board.CheckPlacement | 7/seabattle-refactor/src/Board.js:52-68 | no collision exactly when every planned cell is on the board and water; the locations are then the planned cells |
| BattleBoard.Board.DrawShip | 7/seabattle-refactor/src/Board.js:75-81 | exactly the ship's cells show the ship |
| BattleBoard.Board.AddShip | 7/seabattle-refactor/src/Board.js:70-83 | the new ship joins the fleet with no marks, and is drawn only when shown; a shown fleet stays drawn |
| BattleBoard.Board.PlaceShip | 7/seabattle-refactor/src/Board.js:37-84 | one placement attempt: placed exactly when every planned cell is on the board and water; when ships are shown and already drawn, they stay drawn and a fleet with no shared cell stays so |
| BattleBoard.Board.WaterCellsUnowned | 7/seabattle-refactor/src/Board.js:52-68 | when every ship is drawn on the grid, a water cell belongs to no ship, so the collision check sees the shown ships |
| BattleBoard.Board.ClearOfShips | 7/seabattle-refactor/src/Board.js:60-65 | true exactly when no placed ship holds any of the cells |
| BattleBoard.Board.CheckPlacementApart | 7/seabattle-refactor/src/Board.js:52-68 | the intended check: a cell is also refused when a placed ship holds it |
| BattleBoard.Board.PlaceShipApart | 7/seabattle-refactor/src/Board.js:37-84 | the intended attempt: a fleet with no shared cell stays so |
| BattleCpu.OfferAllEffect | 7/seabattle-refactor/src/CPU.js:85-101 | addAdjacentTargets only appends, at most one entry per neighbour, only neighbours on the board and not guessed, never one already queued, and every such neighbour ends up queued |
| BattleCpu.TargetIsCell | 7/seabattle-refactor/src/CPU.js:109-115 | a target on a board of at most ten rows and columns is a readable cell not guessed yet |
| BattleCpu.SkipCount | 7/seabattle-refactor/src/CPU.js:22-33 | the entries skipped at the front of the queue are exactly the guessed ones before the first new one |
| BattleCpu.CountGuessed | 7/seabattle-refactor/src/CPU.js:22-33 | the skipping loop counts exactly those entries |
| BattleCpu.CPU.constructor | 7/seabattle-refactor/src/CPU.js:5-10 | hunting, with an empty queue and no guesses |
| BattleCpu.CPU.IsValidNewTarget | 7/seabattle-refactor/src/CPU.js:109-115 | true exactly for a cell on the board not guessed yet |
| BattleCpu.CPU.AddAdjacentTargets | 7/seabattle-refactor/src/CPU.js:85-101 | the queue becomes the old queue with the valid, not yet queued neighbours appended; mode and guesses are unchanged |
| BattleCpu.CPU.ProcessGuessResult | 7/seabattle-refactor/src/CPU.js:58-78 | the mode and queue become PlanAfterResult of the old ones: a sinking hit returns to hunting with an empty queue; another hit targets, with the neighbours offered; a miss ends targeting once the queue is empty |
| BattleCpu.PlanStaysValid | 7/seabattle-refactor/src/CPU.js:17-78 | choosing a guess and learning its result keep the queue well formed and empty while hunting; after a sinking hit the queue is empty, after another hit the CPU targets with every valid neighbour queued, and a miss leaves the queue as it was |
| BattleCpu.CPU.TakeTarget | 7/seabattle-refactor/src/CPU.js:22-33 | in target mode, the first entry not guessed yet is taken and recorded, and the entries before it are dropped; a queue that runs dry gives nothing |
| BattleCpu.CPU.MakeGuess | 7/seabattle-refactor/src/CPU.js:17-51 | the mode and queue become PlanAfterGuess of the old ones; a target is taken while one is left; otherwise the CPU hunts with the drawn cell when the opponent's board accepts it; a guess is a readable cell, never guessed before, and is recorded |
| BattleCpu.CPU.GetMode | 7/seabattle-refactor/src/CPU.js:121-123 | the mode; hunting always comes with an empty queue |
| BattleGame.ValidateInput | 7/seabattle-refactor/src/Game.js:137-158 | accepted exactly for two digits naming a cell of the board; the length message for missing or wrong-length input; the range message otherwise |
| BattleGame.TakeShot | 7/seabattle-refactor/src/Board.js:93-122 | processGuess on any well-formed board with a guess naming a cell: the ships and owned objects stay; never reports "already hit"; gives the outcome and marks of GuessOutcome and MarksAfterGuess and the grid of GridAfterShot, with the grid unchanged on a repeated guess; keeps the board settled; drops the ships remaining by one exactly on a sinking hit |
| BattleGame.Game.constructor | 7/seabattle-refactor/src/Game.js:8-19 | two fresh empty boards of water and a hunting CPU, no winner, the game not over; the setupGame call at Game.js:20 is not made here, placement being a series of SetupAttempt calls |
| BattleGame.Game.SetupAttempt | 7/seabattle-refactor/src/Game.js:26-39 | one placement attempt with the source's check, placed exactly when every planned cell is on the board and water in the grid. On the player's board the ship is shown: the new locations, unmarked, and exactly its cells turn to ship, so the fleet stays drawn and keeps no shared cell. On the CPU's board it is hidden: the grid stays water, so its ships may overlap. The other board is unchanged, and the game invariant is kept |
| BattleGame.Game.CheckVictory | 7/seabattle-refactor/src/Game.js:73-78 | once the other side has no ship left, the game is over and the side that fired has won |
| BattleGame.Game.ValidatePlayerInput | 7/seabattle-refactor/src/Game.js:137-158 | accepted exactly for a two-digit cell of the board |
| BattleGame.Game.ProcessPlayerGuess | 7/seabattle-refactor/src/Game.js:46-88 | invalid input is refused with its message, and a repeated guess with "already guessed", both leaving the guesses, marks and grid of the CPU's board as they were; a new guess is fired at the CPU's board with the outcome, marks, grid and message of processGuess reported; the game ends once no CPU ship is left; the CPU's ships and owned objects stay, and the player's board is untouched |
| BattleGame.Game.PlayerFires | 7/seabattle-refactor/src/Game.js:54-87 | an accepted guess: refused with "already guessed" and no change when the cell was guessed before; otherwise recorded, with the outcome, marks and grid of processGuess, the player winning once no CPU ship is left |
| BattleGame.Game.PlayerShot | 7/seabattle-refactor/src/Game.js:54 | the player's shot at the CPU's board, whatever its ships, is recorded; its outcome is never "already hit", and it, the marks and the grid are those of processGuess; the CPU's ships and owned objects stay |
| BattleGame.Game.ProcessCPUTurn | 7/seabattle-refactor/src/Game.js:94-130 | the CPU fires at a cell of the player's board not guessed before, with the marks and grid of processGuess, and its mode and queue become PlanAfterResult of PlanAfterGuess of the old ones for that outcome; it wins once no player ship is left; the player's ships and owned objects stay and the CPU's board is untouched; a refused draw leaves the CPU hunting and the player's grid unchanged |
| BattleGame.Game.CpuChooses | 7/seabattle-refactor/src/Game.js:97 | the CPU's choice is a cell not guessed before, recorded by the CPU; its mode and queue become PlanAfterGuess of the old ones |
| BattleGame.Game.CpuFires | 7/seabattle-refactor/src/Game.js:98-129 | the shot, with the outcome, marks and grid of processGuess and the player's ships and owned objects kept; the CPU's mode and queue become PlanAfterResult for that outcome; the victory check and the turn's report |
| BattleGame.Game.AnswerCpu | 7/seabattle-refactor/src/Game.js:98-101 | the shot at the player's board is a miss or a hit with the marks and grid of processGuess, the ships and owned objects kept; the CPU's mode and queue become PlanAfterResult for it, and the CPU and the board agree on the guesses again |
| BattleGame.Game.CpuShot | 7/seabattle-refactor/src/Game.js:98 | the CPU's shot is recorded, and its outcome, marks and grid are those of processGuess; the player's ships and owned objects stay |
| BattleGame.Game.CpuLearns | 7/seabattle-refactor/src/Game.js:101 | the CPU's mode and queue become PlanAfterResult for the outcome, its guesses unchanged, and the game invariant is kept |
| BattleGame.Game.IsGameOver | 7/seabattle-refactor/src/Game.js:209-211 | the game is over exactly when there is a winner |
| BattleGame.Game.GetWinner | 7/seabattle-refactor/src/Game.js:217-219 | a winner is named exactly when the game is over, and has sunk every ship of the other side |
| BattleGame.Game.GetGameStatus | 7/seabattle-refactor/src/Game.js:225-233 | the counts are at most the fleet sizes; the game is over exactly when there is a winner, who has sunk the other fleet; a hunting CPU has an empty queue |
| BattleGame.Game.CpuFleetCanBeSunk | 7/seabattle-refactor/src/Game.js:46-88 | when no two CPU ships share a cell, guessing every cell of the CPU's ships, in any order and with other guesses between, leaves no CPU ship remaining |
| BattleGame.HiddenFleetUnsinkable | 7/seabattle-refactor/src/Game.js:26-39 | the game's own setup can leave the CPU with two ships sharing a cell, and then no series of guesses sinks the CPU's fleet |
| ProductFilter.Keep | 10/product_filter/filter_tool.py:79-81 | a comprehension keeps exactly the elements that pass its condition, and no more than it was given |
| ProductFilter.KeepIsSubsequence | 10/product_filter/filter_tool.py:79-81 | a comprehension keeps its elements in their order |
| ProductFilter.KeepKeep | 10/product_filter/filter_tool.py:77-96 | two comprehensions in a row keep what passes both conditions |
| ProductFilter.Lowered | 10/product_filter/filter_tool.py:78 | the categories, each lower-cased, in order |
| ProductFilter.KeepIf | 10/product_filter/filter_tool.py:77-96 | one optional filter step: the result is the list with some elements deleted, in order, and holds exactly the elements of the list that pass the condition when the argument is set, or all of them when it is not |
| ProductFilter.ApplyFilters | 10/product_filter/filter_tool.py:70-98 | every product kept is an input product passing every active filter, every input product passing them is kept, and with no argument set the input comes back unchanged |
| ProductFilter.ApplyFiltersKeepsPassing | 10/product_filter/filter_tool.py:75-98 | the chain is the single comprehension over all active conditions: order, multiplicity and the order of the filters do not matter |
| ProductFilter.ApplyFiltersIsSubsequence | 10/product_filter/filter_tool.py:75-98 | the result is the input with some products deleted, in the input's order |

## Left out

- Randomness (`Math.random`) becomes parameters.
  - Placement takes the orientation and start cell of one attempt, so `placeShipsRandomly`'s retry loop is one call per attempt.
  - The CPU's hunt draw is `huntRow`/`huntCol`. When a draw is refused, `MakeGuess` and `ProcessCPUTurn` return `None`, standing for the source drawing again.
- `BattleCpu.CPU.MakeGuess`: the source's loop runs until a draw is accepted. The model takes one draw per call, so a turn that needs several draws is several calls.
- Console output is not modelled: `printBoards`, `setupGame`'s logging, `console.log` in `processCPUTurn`, `promptEnigma`'s readline dialogue, `display_products`, `main`, and `get_products_from_query` with its OpenAI call. `index.js` is not part of this model.
- Grid cells are a datatype (water, ship, fire, splash) instead of emoji strings.
- Ships' `hits` entries are booleans ('hit' or '').
- `processGuess`'s result object is a datatype. A `hit` or `sunk` field that JavaScript leaves undefined reads as false in the game's reports.
- `BattleBoard.Board.constructor`, `BattleCpu.CPU.constructor`, `BattleGame.Game.constructor`: require a board size of at most 10. `String(row) + String(col)` names a cell uniquely only then, and the source's default is 10.
- `BattleBoard.Board.ProcessGuess`: requires a guess of two digits naming a cell. The game only calls it with such guesses. Other strings would make the source index the grid with NaN or out of range.
- `BattleCpu.CPU.ProcessGuessResult`: requires a two-digit guess. It is only called with the CPU's own guesses.
- `BattleGame.Game.SetupAttempt`: requires that no guess has been made yet and that fewer than `numShips` ships are placed, as in `setupGame`. For the player's board it also requires that the ships placed so far are drawn on the grid, which `setupGame` guarantees because the player's ships are always shown.
- `BattleCpu.CPU.TakeTarget`: counts the already-guessed entries at the front of the queue and drops them in one step, instead of shifting them one by one. The resulting queue is the same.
- `BattleGame.Game.ProcessPlayerGuess`: takes `Option<string>`. `None` stands for a null input; non-string input is not modelled.
- The "All 3 cells were hit" sinking message is kept as written, whatever the ship length.
- `getTargetQueueLength` and `getGrid` are plain field reads and are not modelled as members.
- `Enigma.Enigma.constructor`: requires rotor ids below 3. `ROTORS[id]` is undefined otherwise, and reading its wiring would throw. A position or ring setting the arguments leave out is 0, the Rotor constructor's default, as in the source.
- `Enigma.Enigma.EncryptChar`: requires plugboard cables between capital letters. The prompt's parser only produces such cables, and other cables could send a non-letter into the rotors.
- `Enigma.Enigma.Process`: requires at least three rotors, because `stepRotors` reads `rotors[2]`.
- `Enigma.EncryptDecrypt`, `Enigma.RunReciprocal`: need no letter on two cables (`DisjointPairs`); with a letter on two cables, reciprocity can fail.
- Positions and ring settings that `Number` parses to NaN are not modelled; they are integers here.
- Case mapping is ASCII only, for `toUpperCase` in the Enigma and `str.lower()` in the product filter. Unicode letters outside ASCII are not mapped, including those whose case mapping changes length.
- `RegExp.prototype.test` and `new Date(string)` are parameters of the model (`Host`). Dates are integer milliseconds or invalid. A pattern is a pure function here, so a regular expression with the `g` or `y` flag, whose `lastIndex` advances on each `test` (validation.ts:127), is not modelled: the source can give alternating results when the same validator is used repeatedly.
- JavaScript numbers and Python floats are real numbers here: no rounding, NaN or infinities.
- The product filter's products are records with the five fields it reads. A product dictionary missing a key (a `KeyError`) is not modelled.
- The product filter's arguments are optional typed values. A `category` that is a string, which Python would iterate character by character, is not modelled.
- `Validation.Validate`: an object's field is looked up among its own keys only. JavaScript's `value[key]` (validation.ts:441) also reads the prototype chain, so a schema key such as `toString` on `{}` gives "Expected string" in the source and "Value is required" in the model.
- `ValidationFacts.ObjectErrors`: errors come in the schema's declaration order. `Object.entries` (validation.ts:439) lists integer-like keys first, in numeric order, so for a schema declaring `b` before `"1"` the source reports the errors for `"1"` first.
- `Validation.Validate`: a string's length is its number of characters. JavaScript's `.length` (validation.ts:118, 122) counts UTF-16 code units, so a character outside the Basic Multilingual Plane counts twice in the source.
- `BattleGame.ValidateInput`: the same holds for `guess.length` (Game.js:138). A single emoji has length 2 in the source and gets the range message; the model gives it the two-digits message.
- Validator setters return the same object. TypeScript's generic result types are not modelled.

## Findings

| source | as written | input that shows it | evidently intended | confidence | as-written member | corrected member |
|---|---|---|---|---|---|---|
| 7/seabattle-refactor/src/Board.js:52-68 | the collision check only looks at the grid, and a board with hidden ships (the CPU's, Game.js:34) never draws them, so a new ship may overlap ships already placed; the later ship's shared cell is never marked, so it can never be sunk and the player can never win | board of size 10, ships hidden, length 3: first attempt across from row 0 column 0, second attempt down from row 0 column 0; both are placed and share cell "00" | a cell held by a ship already placed is refused, whether or not ships are drawn | not executed | BattleBoard.HiddenShipsOverlap, BattleBoard.HiddenOverlapNeverSinks, BattleGame.HiddenFleetUnsinkable | BattleBoard.Board.PlaceShipApart, BattleBoard.ApartFleetSinks |

The game (`BattleGame.Game.SetupAttempt`) places its ships with the check as
written, as the source does; `BattleGame.HiddenFleetUnsinkable` shows that its
setup can leave the computer with a fleet that can never be sunk, and
`BattleGame.Game.CpuFleetCanBeSunk` proves the corrected promise for a fleet
with no shared cell, which the corrected placement keeps.
