/** A sea-battle board: a square grid of cells, the ships placed on it and the
    coordinates guessed so far. The ships' locations and hit marks are also
    read as plain values (a fleet), and processGuess is specified by
    functions on those values. */
module BattleBoard {
  import opened Text
  import opened BattleShip

  /** A grid cell: water, a ship shown to its owner, a hit, a miss. */
  datatype Cell = Water | ShipPart | Fire | Splash

  /** What processGuess reports. */
  datatype GuessResult = AlreadyGuessed | AlreadyHit | Hit(sunk: bool) | Miss

  /** Every ship of the fleet has one mark per location. */
  predicate Shaped(locations: seq<seq<string>>, marks: seq<seq<bool>>) {
    |locations| == |marks| && forall j :: 0 <= j < |marks| ==> |marks[j]| == |locations[j]|
  }

  /** A ship is marked hit only at a cell that has been guessed. */
  predicate HitsGuessed(locations: seq<seq<string>>, marks: seq<seq<bool>>, guesses: seq<string>)
    requires Shaped(locations, marks)
  {
    forall j, k :: 0 <= j < |marks| && 0 <= k < |marks[j]| && marks[j][k] ==> locations[j][k] in guesses
  }

  /** The number of ships not yet sunk. */
  function Remaining(marks: seq<seq<bool>>): (n: nat)
    ensures n <= |marks|
  {
    if marks == [] then 0
    else Remaining(marks[..|marks| - 1]) + (if AllHit(marks[|marks| - 1]) then 0 else 1)
  }

  /** No ship is left exactly when every ship is sunk. */
  lemma {:induction false} RemainingZero(marks: seq<seq<bool>>)
    ensures Remaining(marks) == 0 <==> forall i :: 0 <= i < |marks| ==> AllHit(marks[i])
  {
    if marks != [] {
      var init := marks[..|marks| - 1];
      RemainingZero(init);
      if Remaining(marks) == 0 {
        forall i | 0 <= i < |marks| ensures AllHit(marks[i]) {
          if i < |init| {
            assert marks[i] == init[i];
          }
        }
      } else if AllHit(marks[|marks| - 1]) {
        var i :| 0 <= i < |init| && !AllHit(init[i]);
        assert marks[i] == init[i];
      }
    }
  }

  /** Replacing one ship's marks changes the count only by that ship. */
  lemma {:induction false} RemainingUpdate(marks: seq<seq<bool>>, k: int, h: seq<bool>)
    requires 0 <= k < |marks|
    ensures Remaining(marks[k := h]) + (if AllHit(marks[k]) then 0 else 1)
         == Remaining(marks) + (if AllHit(h) then 0 else 1)
  {
    var n := |marks| - 1;
    if k == n {
      assert marks[k := h][..n] == marks[..n];
    } else {
      assert marks[k := h][..n] == marks[..n][k := h];
      RemainingUpdate(marks[..n], k, h);
    }
  }

  /** The first ship whose locations hold the position, or -1. */
  function FirstOwner(locations: seq<seq<string>>, position: string): (k: int)
    ensures -1 <= k < |locations|
    ensures k >= 0 ==> position in locations[k]
    ensures forall j :: 0 <= j < |locations| && (k == -1 || j < k) ==> position !in locations[j]
  {
    if locations == [] then -1
    else if position in locations[0] then 0
    else
      var k := FirstOwner(locations[1..], position);
      assert forall j :: 1 <= j < |locations| ==> locations[j] == locations[1..][j - 1];
      if k == -1 then -1 else k + 1
  }

  /** What processGuess reports for a new guess: a miss, a cell already
      hit, or a hit and whether it sank the ship. */
  function ShotOutcome(locations: seq<seq<string>>, marks: seq<seq<bool>>, guess: string): GuessResult
    requires Shaped(locations, marks)
  {
    var k := FirstOwner(locations, guess);
    if k == -1 then Miss
    else if IsMarked(marks[k], locations[k], guess) then AlreadyHit
    else Hit(AllHit(AfterHit(marks[k], locations[k], guess)))
  }

  /** The fleet's marks after a new guess: the first ship on the cell is hit
      there, unless it already was. */
  function MarksAfterShot(locations: seq<seq<string>>, marks: seq<seq<bool>>, guess: string)
    : (after: seq<seq<bool>>)
    requires Shaped(locations, marks)
    ensures Shaped(locations, after)
  {
    var k := FirstOwner(locations, guess);
    if k == -1 || IsMarked(marks[k], locations[k], guess) then marks
    else marks[k := AfterHit(marks[k], locations[k], guess)]
  }

  /** What processGuess reports for a guess, given the fleet and the guesses
      made before it. */
  function GuessOutcome(locations: seq<seq<string>>, marks: seq<seq<bool>>, guesses: seq<string>, guess: string): GuessResult
    requires Shaped(locations, marks)
  {
    if guess in guesses then AlreadyGuessed else ShotOutcome(locations, marks, guess)
  }

  /** The fleet's marks after processGuess. */
  function MarksAfterGuess(locations: seq<seq<string>>, marks: seq<seq<bool>>, guesses: seq<string>, guess: string)
    : (after: seq<seq<bool>>)
    requires Shaped(locations, marks)
    ensures Shaped(locations, after)
  {
    if guess in guesses then marks else MarksAfterShot(locations, marks, guess)
  }

  /** A repeated guess changes nothing; a new guess misses exactly when no
      ship occupies the cell. */
  lemma GuessCases(locations: seq<seq<string>>, marks: seq<seq<bool>>, guesses: seq<string>, guess: string)
    requires Shaped(locations, marks)
    ensures guess in guesses <==> GuessOutcome(locations, marks, guesses, guess) == AlreadyGuessed
    ensures guess in guesses ==> MarksAfterGuess(locations, marks, guesses, guess) == marks
    ensures GuessOutcome(locations, marks, guesses, guess) == Miss <==>
      guess !in guesses && forall j :: 0 <= j < |locations| ==> guess !in locations[j]
    ensures GuessOutcome(locations, marks, guesses, guess).Hit? <==>
      guess !in guesses && MarksAfterGuess(locations, marks, guesses, guess) != marks
  {
    var k := FirstOwner(locations, guess);
    if guess !in guesses && k >= 0 && !IsMarked(marks[k], locations[k], guess) {
      HitEffect(marks[k], locations[k], guess);
      assert MarksAfterGuess(locations, marks, guesses, guess)[k] != marks[k];
    }
  }

  /** A guess lowers the number of ships left by one exactly when it sinks a
      ship, and otherwise leaves it alone. */
  lemma RemainingAfterGuess(locations: seq<seq<string>>, marks: seq<seq<bool>>, guesses: seq<string>, guess: string)
    requires Shaped(locations, marks)
    ensures Remaining(MarksAfterGuess(locations, marks, guesses, guess))
         == Remaining(marks) - (if GuessOutcome(locations, marks, guesses, guess) == Hit(true) then 1 else 0)
  {
    var k := FirstOwner(locations, guess);
    if guess !in guesses && k >= 0 && !IsMarked(marks[k], locations[k], guess) {
      var h := AfterHit(marks[k], locations[k], guess);
      var index := IndexOf(locations[k], guess);
      assert !marks[k][index];
      RemainingUpdate(marks, k, h);
    }
  }

  /** Marking a guessed cell keeps every mark on a guessed cell. */
  lemma HitKeepsHitsGuessed(locations: seq<seq<string>>, marks: seq<seq<bool>>, guesses: seq<string>, i: int, guess: string)
    requires Shaped(locations, marks) && HitsGuessed(locations, marks, guesses)
    requires 0 <= i < |marks| && guess in guesses
    ensures Shaped(locations, marks[i := AfterHit(marks[i], locations[i], guess)])
    ensures HitsGuessed(locations, marks[i := AfterHit(marks[i], locations[i], guess)], guesses)
  {
    var after := marks[i := AfterHit(marks[i], locations[i], guess)];
    forall j, k | 0 <= j < |after| && 0 <= k < |after[j]| && after[j][k] ensures locations[j][k] in guesses {
      if j == i && !marks[j][k] {
        HitEffect(marks[i], locations[i], guess);
      }
    }
  }

  /** processGuess keeps the board invariant, with the guess recorded. */
  lemma GuessKeepsHitsGuessed(locations: seq<seq<string>>, marks: seq<seq<bool>>, guesses: seq<string>, guess: string)
    requires Shaped(locations, marks) && HitsGuessed(locations, marks, guesses)
    ensures HitsGuessed(locations, MarksAfterGuess(locations, marks, guesses, guess),
                        if guess in guesses then guesses else guesses + [guess])
  {
    if guess !in guesses {
      var more := guesses + [guess];
      var k := FirstOwner(locations, guess);
      assert HitsGuessed(locations, marks, more);
      if k >= 0 && !IsMarked(marks[k], locations[k], guess) {
        HitKeepsHitsGuessed(locations, marks, more, k, guess);
      }
    }
  }

  /** Under the board invariant a new guess is never reported as a cell
      already hit. */
  lemma FreshGuessNeverAlreadyHit(locations: seq<seq<string>>, marks: seq<seq<bool>>, guesses: seq<string>, guess: string)
    requires Shaped(locations, marks) && HitsGuessed(locations, marks, guesses)
    ensures GuessOutcome(locations, marks, guesses, guess) != AlreadyHit
  {
    var k := FirstOwner(locations, guess);
    if guess !in guesses && k >= 0 {
      var index := IndexOf(locations[k], guess);
      assert locations[k][index] == guess;
    }
  }

  /** The fleet's marks and the guesses after processGuess has handled a
      series of guesses in order. */
  function Play(locations: seq<seq<string>>, marks: seq<seq<bool>>, guesses: seq<string>, moves: seq<string>)
    : (after: (seq<seq<bool>>, seq<string>))
    requires Shaped(locations, marks)
    ensures Shaped(locations, after.0)
  {
    if moves == [] then (marks, guesses)
    else
      var before := Play(locations, marks, guesses, moves[..|moves| - 1]);
      var guess := moves[|moves| - 1];
      (MarksAfterGuess(locations, before.0, before.1, guess),
       if guess in before.1 then before.1 else before.1 + [guess])
  }

  /** A fleet with nothing hit yet. */
  function Unmarked(locations: seq<seq<string>>): (marks: seq<seq<bool>>)
    ensures Shaped(locations, marks)
    ensures forall j, k :: 0 <= j < |marks| && 0 <= k < |marks[j]| ==> !marks[j][k]
    ensures GuessedHit(locations, marks, [])
  {
    seq(|locations|, j requires 0 <= j < |locations| => seq(|locations[j]|, _ => false))
  }

  /** Every cell of a ship that has been guessed is marked hit on it. */
  predicate GuessedHit(locations: seq<seq<string>>, marks: seq<seq<bool>>, guesses: seq<string>)
    requires Shaped(locations, marks)
  {
    forall j, k :: 0 <= j < |locations| && 0 <= k < |locations[j]| && locations[j][k] in guesses ==> marks[j][k]
  }

  /** In a fleet without shared cells, processGuess marks every guessed
      cell on the ship that holds it. */
  lemma GuessKeepsGuessedHit(locations: seq<seq<string>>, marks: seq<seq<bool>>, guesses: seq<string>, guess: string)
    requires Shaped(locations, marks) && Disjoint(locations) && GuessedHit(locations, marks, guesses)
    ensures GuessedHit(locations, MarksAfterGuess(locations, marks, guesses, guess),
                       if guess in guesses then guesses else guesses + [guess])
  {
    if guess !in guesses {
      var after := MarksAfterGuess(locations, marks, guesses, guess);
      var o := FirstOwner(locations, guess);
      forall j, k | 0 <= j < |locations| && 0 <= k < |locations[j]| && locations[j][k] in guesses + [guess]
        ensures after[j][k]
      {
        DisjointOwner(locations, j, k);
        if o >= 0 {
          HitEffect(marks[o], locations[o], guess);
        }
      }
    }
  }

  /** In a fleet without shared cells, every guessed cell stays marked
      through any series of guesses, and every guess is recorded. */
  lemma {:induction false} PlayKeepsGuessedHit(locations: seq<seq<string>>, marks: seq<seq<bool>>, guesses: seq<string>, moves: seq<string>)
    requires Shaped(locations, marks) && Disjoint(locations) && GuessedHit(locations, marks, guesses)
    ensures GuessedHit(locations, Play(locations, marks, guesses, moves).0, Play(locations, marks, guesses, moves).1)
    ensures forall x :: x in guesses || x in moves ==> x in Play(locations, marks, guesses, moves).1
  {
    if moves != [] {
      var init := moves[..|moves| - 1];
      PlayKeepsGuessedHit(locations, marks, guesses, init);
      var before := Play(locations, marks, guesses, init);
      GuessKeepsGuessedHit(locations, before.0, before.1, moves[|moves| - 1]);
      forall x | x in guesses || x in moves ensures x in Play(locations, marks, guesses, moves).1 {
        if x in moves && x != moves[|moves| - 1] {
          assert x in init;
        }
      }
    }
  }

  /** In a fleet without shared cells in which every guessed cell is marked,
      guessing every remaining cell of every ship, in any order and with any
      other guesses between, sinks every ship. */
  lemma ApartFleetSinks(locations: seq<seq<string>>, marks: seq<seq<bool>>, guesses: seq<string>, moves: seq<string>)
    requires Shaped(locations, marks) && Disjoint(locations) && GuessedHit(locations, marks, guesses)
    requires forall j, k :: 0 <= j < |locations| && 0 <= k < |locations[j]| ==>
      locations[j][k] in guesses || locations[j][k] in moves
    ensures Remaining(Play(locations, marks, guesses, moves).0) == 0
  {
    var after := Play(locations, marks, guesses, moves).0;
    PlayKeepsGuessedHit(locations, marks, guesses, moves);
    forall j | 0 <= j < |after| ensures AllHit(after[j]) {
      assert forall k :: 0 <= k < |after[j]| ==> locations[j][k] in guesses || locations[j][k] in moves;
    }
    RemainingZero(after);
  }

  /** A cell of a ship that an earlier ship also holds is never marked on
      the later ship: processGuess only ever hits the first owner. */
  lemma ShadowedCellUnmarked(locations: seq<seq<string>>, marks: seq<seq<bool>>, guesses: seq<string>, guess: string, j: int, k: int)
    requires Shaped(locations, marks) && 0 <= j < |locations| && 0 <= k < |locations[j]|
    requires FirstOwner(locations, locations[j][k]) < j
    ensures MarksAfterGuess(locations, marks, guesses, guess)[j][k] == marks[j][k]
  {
    var o := FirstOwner(locations, guess);
    if o == j {
      HitEffect(marks[j], locations[j], guess);
    }
  }

  /** When placeShipsRandomly has let a ship overlap an earlier one, the
      later ship can never be sunk, whatever is guessed: the game cannot be
      won. */
  lemma {:induction false} ShadowedShipNeverSinks(locations: seq<seq<string>>, marks: seq<seq<bool>>, guesses: seq<string>, moves: seq<string>, j: int, k: int)
    requires Shaped(locations, marks) && 0 <= j < |locations| && 0 <= k < |locations[j]| && !marks[j][k]
    requires FirstOwner(locations, locations[j][k]) < j
    ensures !Play(locations, marks, guesses, moves).0[j][k]
    ensures Remaining(Play(locations, marks, guesses, moves).0) > 0
  {
    if moves != [] {
      var init := moves[..|moves| - 1];
      ShadowedShipNeverSinks(locations, marks, guesses, init, j, k);
      var before := Play(locations, marks, guesses, init);
      ShadowedCellUnmarked(locations, before.0, before.1, moves[|moves| - 1], j, k);
    }
    RemainingZero(Play(locations, marks, guesses, moves).0);
  }

  /** The two hidden ships that HiddenShipsOverlap places: the corner cell
      belongs to the first, so the second is never sunk. */
  lemma HiddenOverlapNeverSinks(moves: seq<string>)
    ensures var locations := [PlannedLocations(true, 0, 0, 3), PlannedLocations(false, 0, 0, 3)];
      Remaining(Play(locations, [seq(3, _ => false), seq(3, _ => false)], [], moves).0) > 0
  {
    var locations := [PlannedLocations(true, 0, 0, 3), PlannedLocations(false, 0, 0, 3)];
    assert locations[1][0] == Coord(0, 0) == locations[0][0];
    ShadowedShipNeverSinks(locations, [seq(3, _ => false), seq(3, _ => false)], [], moves, 1, 0);
  }

  /** A guess string processGuess can read: two digits, each naming a row or
      column of the board. */
  predicate IsCell(guess: string, size: nat) {
    && |guess| == 2 && IsDigit(guess[0]) && IsDigit(guess[1])
    && DigitValue(guess[0]) < size && DigitValue(guess[1]) < size
  }

  /** The row and column of the i-th cell of a ship placed from a start cell. */
  function CellRow(horizontal: bool, startRow: nat, i: nat): nat {
    if horizontal then startRow else startRow + i
  }

  function CellCol(horizontal: bool, startCol: nat, i: nat): nat {
    if horizontal then startCol + i else startCol
  }

  /** The first n coordinate strings of a ship placed from a start cell. */
  function PlannedLocations(horizontal: bool, startRow: nat, startCol: nat, n: nat): (locs: seq<string>)
    ensures |locs| == n
  {
    seq(n, i requires 0 <= i => Coord(CellRow(horizontal, startRow, i), CellCol(horizontal, startCol, i)))
  }

  /** The cell (row, col) is one of the first n cells of a ship placed from a
      start cell. */
  predicate OnShip(horizontal: bool, startRow: nat, startCol: nat, n: nat, row: int, col: int) {
    if horizontal then row == startRow && startCol <= col < startCol + n
    else col == startCol && startRow <= row < startRow + n
  }

  /** The cells of a ship placed on a board of at most ten rows and columns
      are all different, so hitting each of them sinks it. */
  lemma PlannedDistinct(horizontal: bool, startRow: nat, startCol: nat, n: nat)
    requires forall i :: 0 <= i < n ==> CellRow(horizontal, startRow, i) < 10 && CellCol(horizontal, startCol, i) < 10
    ensures forall i, j :: 0 <= i < j < n ==>
      PlannedLocations(horizontal, startRow, startCol, n)[i] != PlannedLocations(horizontal, startRow, startCol, n)[j]
  {
    forall i, j | 0 <= i < j < n
      ensures PlannedLocations(horizontal, startRow, startCol, n)[i] != PlannedLocations(horizontal, startRow, startCol, n)[j]
    {
      CoordInjective(CellRow(horizontal, startRow, i), CellCol(horizontal, startCol, i),
                     CellRow(horizontal, startRow, j), CellCol(horizontal, startCol, j));
    }
  }

  /** Slot a of ship i and slot b of ship j hold the same cell. */
  predicate SameCell(locations: seq<seq<string>>, i: int, a: int, j: int, b: int) {
    && 0 <= i < |locations| && 0 <= a < |locations[i]| && 0 <= j < |locations| && 0 <= b < |locations[j]|
    && locations[i][a] == locations[j][b]
  }

  /** No cell belongs to two ships, or twice to one ship. */
  ghost predicate Disjoint(locations: seq<seq<string>>) {
    forall i, a, j, b {:trigger SameCell(locations, i, a, j, b)} ::
      SameCell(locations, i, a, j, b) ==> i == j && a == b
  }

  /** In a fleet without shared cells a cell's only owner is the first one,
      at the cell's first index. */
  lemma DisjointOwner(locations: seq<seq<string>>, j: int, k: int)
    requires Disjoint(locations) && 0 <= j < |locations| && 0 <= k < |locations[j]|
    ensures FirstOwner(locations, locations[j][k]) == j
    ensures IndexOf(locations[j], locations[j][k]) == k
  {
    var o := FirstOwner(locations, locations[j][k]);
    var b := IndexOf(locations[o], locations[j][k]);
    assert SameCell(locations, o, b, j, k);
  }

  /** The first owner of a cell in a fleet with one more ship. */
  lemma {:induction false} FirstOwnerAppend(locations: seq<seq<string>>, cells: seq<string>, position: string)
    ensures FirstOwner(locations + [cells], position) ==
      if FirstOwner(locations, position) >= 0 then FirstOwner(locations, position)
      else if position in cells then |locations| else -1
  {
    if locations != [] {
      assert (locations + [cells])[1..] == locations[1..] + [cells];
      FirstOwnerAppend(locations[1..], cells, position);
    }
  }

  /** A ship whose cells are all different and held by no ship yet joins a
      fleet without shared cells and keeps it so. */
  lemma DisjointAppend(locations: seq<seq<string>>, cells: seq<string>)
    requires Disjoint(locations)
    requires forall i, j :: 0 <= i < j < |cells| ==> cells[i] != cells[j]
    requires forall i :: 0 <= i < |cells| ==> FirstOwner(locations, cells[i]) == -1
    ensures Disjoint(locations + [cells])
  {
    var more := locations + [cells];
    forall i, a, j, b | SameCell(more, i, a, j, b) ensures i == j && a == b {
      FirstOwnerAppend(locations, cells, more[i][a]);
      if i < |locations| && j < |locations| {
        assert SameCell(locations, i, a, j, b);
      }
    }
  }

  /** A ship with nothing hit joins a fleet and keeps its marks on guessed
      cells. */
  lemma FleetAppend(locations: seq<seq<string>>, marks: seq<seq<bool>>, guesses: seq<string>,
                    cells: seq<string>, h: seq<bool>)
    requires Shaped(locations, marks) && HitsGuessed(locations, marks, guesses)
    requires |h| == |cells| && forall k :: 0 <= k < |h| ==> !h[k]
    ensures Shaped(locations + [cells], marks + [h])
    ensures HitsGuessed(locations + [cells], marks + [h], guesses)
  {
    var ls, ms := locations + [cells], marks + [h];
    assert Shaped(ls, ms);
    forall j, k | 0 <= j < |ms| && 0 <= k < |ms[j]| && ms[j][k] ensures ls[j][k] in guesses {
      assert j < |marks| && ms[j] == marks[j] && ls[j] == locations[j];
    }
  }

  /** The locations of each ship, in order. */
  function LocationsOf(ships: seq<Ship>): (locations: seq<seq<string>>)
    ensures |locations| == |ships| && forall j :: 0 <= j < |ships| ==> locations[j] == ships[j].locations
  {
    seq(|ships|, j requires 0 <= j < |ships| => ships[j].locations)
  }

  /** The hit marks of each ship, in order. */
  function MarksOf(ships: seq<Ship>): (marks: seq<seq<bool>>)
    reads ships
    ensures |marks| == |ships| && forall j :: 0 <= j < |ships| ==> marks[j] == ships[j].hits
  {
    seq(|ships|, j reads ships requires 0 <= j < |ships| => ships[j].hits)
  }

  class Board {
    const size: nat
    const grid: array2<Cell>
    var ships: seq<Ship>
    var guesses: seq<string>
    ghost var Repr: set<object>

    /** The board owns itself and its ships but not its grid; the grid is
        size × size with size at most 10, so coordinates are one digit each;
        every ship belongs to the board and appears once, with one mark per
        location; and a ship is marked hit only at a cell that has been
        guessed. */
    ghost predicate Valid()
      reads this, Repr
    {
      && this in Repr && grid !in Repr
      && size <= 10 && grid.Length0 == size && grid.Length1 == size
      && (forall i :: 0 <= i < |ships| ==> ships[i] in Repr)
      && (forall i, j :: 0 <= i < j < |ships| ==> ships[i] != ships[j])
      && Shaped(LocationsOf(ships), MarksOf(ships))
      && HitsGuessed(LocationsOf(ships), MarksOf(ships), guesses)
    }

    /** Every cell of every ship is a cell of the board that is not water,
        as on a board whose ships are drawn. */
    ghost predicate ShipsDrawn()
      reads this, grid
    {
      && grid.Length0 == size && grid.Length1 == size
      && forall j, k :: 0 <= j < |ships| && 0 <= k < |ships[j].locations| ==>
        && IsCell(ships[j].locations[k], size)
        && grid[DigitValue(ships[j].locations[k][0]), DigitValue(ships[j].locations[k][1])] != Water
    }

    /** On a board whose ships are drawn, planned cells that are water are
        held by no ship. */
    lemma WaterCellsUnowned(horizontal: bool, startRow: nat, startCol: nat, n: nat)
      requires size <= 10 && ShipsDrawn()
      requires forall i :: 0 <= i < n ==>
        && CellRow(horizontal, startRow, i) < size && CellCol(horizontal, startCol, i) < size
        && grid[CellRow(horizontal, startRow, i), CellCol(horizontal, startCol, i)] == Water
      ensures forall i :: 0 <= i < n ==>
        FirstOwner(LocationsOf(ships), PlannedLocations(horizontal, startRow, startCol, n)[i]) == -1
    {
      var locations := LocationsOf(ships);
      forall i | 0 <= i < n
        ensures FirstOwner(locations, PlannedLocations(horizontal, startRow, startCol, n)[i]) == -1
      {
        var cell := PlannedLocations(horizontal, startRow, startCol, n)[i];
        assert cell == Coord(CellRow(horizontal, startRow, i), CellCol(horizontal, startCol, i));
        forall j | 0 <= j < |locations| ensures cell !in locations[j] {
          forall k | 0 <= k < |locations[j]| ensures locations[j][k] != cell {
            assert locations[j][k] == ships[j].locations[k];
          }
        }
      }
    }

    /** new Board(size): an empty size × size sea. */
    constructor(size: nat)
      requires size <= 10
      ensures Valid() && fresh(Repr) && fresh(grid)
      ensures this.size == size && ships == [] && guesses == []
      ensures forall i, j :: 0 <= i < size && 0 <= j < size ==> grid[i, j] == Water
    {
      this.size := size;
      grid := new Cell[size, size];
      ships := [];
      guesses := [];
      new;
      Repr := {this};
      CreateBoard();
    }

    /** createBoard(): every cell becomes water. */
    method CreateBoard()
      requires grid.Length0 == size && grid.Length1 == size
      modifies grid
      ensures forall i, j :: 0 <= i < size && 0 <= j < size ==> grid[i, j] == Water
    {
      for i := 0 to size
        invariant forall a, b :: 0 <= a < i && 0 <= b < size ==> grid[a, b] == Water
      {
        for j := 0 to size
          invariant forall a, b :: 0 <= a < i && 0 <= b < size ==> grid[a, b] == Water
          invariant forall b :: 0 <= b < j ==> grid[i, b] == Water
        {
          grid[i, j] := Water;
        }
      }
    }

    /** The hit marks of the board's ships, in order. */
    ghost function Marks(): seq<seq<bool>>
      requires Valid()
      reads this, Repr
    {
      MarksOf(ships)
    }

    /** getShipsRemaining(): the number of ships not yet sunk. */
    function ShipsRemaining(): (n: nat)
      requires Valid()
      reads this, Repr
      ensures n <= |ships|
    {
      Remaining(MarksOf(ships))
    }

    /** No ship is left exactly when every ship is sunk. */
    lemma AllSunkIffNoneRemaining()
      requires Valid()
      ensures ShipsRemaining() == 0 <==> forall i :: 0 <= i < |ships| ==> ships[i].IsSunk()
    {
      RemainingZero(MarksOf(ships));
    }

    /** isValidAndNewGuess(row, col) */
    function IsValidAndNewGuess(row: int, col: int): (b: bool)
      reads this
      ensures b <==> 0 <= row < size && 0 <= col < size && Coord(row, col) !in guesses
      ensures b && size <= 10 ==> IsCell(Coord(row, col), size)
    {
      if row < 0 || row >= size || col < 0 || col >= size then false
      else Coord(row, col) !in guesses
    }

    /** The ship loop of processGuess: the index of the first ship occupying
        the position, or -1. */
    method FindShip(guess: string) returns (k: int)
      ensures k == FirstOwner(LocationsOf(ships), guess)
    {
      k := 0;
      while k < |ships| && !ships[k].Occupies(guess)
        invariant 0 <= k <= |ships|
        invariant forall j :: 0 <= j < k ==> !ships[j].Occupies(guess)
      {
        k := k + 1;
      }
      if k == |ships| {
        k := -1;
      }
    }

    /** The hit branch of processGuess: the ship at index i is hit at the
        guessed cell, which turns to fire. */
    method FireAt(i: int, guess: string) returns (sunk: bool)
      requires Valid() && IsCell(guess, size) && guess in guesses && 0 <= i < |ships|
      modifies ships[i], grid
      ensures Valid()
      ensures MarksOf(ships) == old(MarksOf(ships))[i := AfterHit(old(ships[i].hits), ships[i].locations, guess)]
      ensures sunk == ships[i].IsSunk()
      ensures forall a, b :: 0 <= a < size && 0 <= b < size ==>
        grid[a, b] == if a == DigitValue(guess[0]) && b == DigitValue(guess[1]) then Fire else old(grid[a, b])
    {
      var ship := ships[i];
      HitKeepsHitsGuessed(LocationsOf(ships), MarksOf(ships), guesses, i, guess);
      ship.Hit(guess);
      grid[DigitValue(guess[0]), DigitValue(guess[1])] := Fire;
      sunk := ship.IsSunk();
      assert MarksOf(ships) == old(MarksOf(ships))[i := ship.hits];
    }

    /** The grid after a shot at guess with outcome r: the guessed cell
        shows a splash after a miss and fire after a hit, and every other
        cell, or every cell when nothing was fired, is as it was. */
    twostate predicate GridAfterShot(guess: string, r: GuessResult)
      requires grid.Length0 == size && grid.Length1 == size && IsCell(guess, size)
      reads grid
    {
      forall a, b :: 0 <= a < size && 0 <= b < size ==>
        grid[a, b] == if a == DigitValue(guess[0]) && b == DigitValue(guess[1]) && (r == Miss || r.Hit?)
                      then (if r == Miss then Splash else Fire)
                      else old(grid[a, b])
    }

    /** processGuess(guess) past the repeated-guess check: find the ship on
        the cell, and mark the hit or the miss. */
    method Shoot(guess: string) returns (r: GuessResult)
      requires Valid() && IsCell(guess, size) && guess in guesses
      modifies ships, grid
      ensures Valid()
      ensures r == ShotOutcome(LocationsOf(ships), old(MarksOf(ships)), guess)
      ensures MarksOf(ships) == MarksAfterShot(LocationsOf(ships), old(MarksOf(ships)), guess)
      ensures GridAfterShot(guess, r)
    {
      var i := FindShip(guess);
      if i == -1 {
        grid[DigitValue(guess[0]), DigitValue(guess[1])] := Splash;
        r := Miss;
      } else if ships[i].IsHit(guess) {
        r := AlreadyHit;
      } else {
        var sunk := FireAt(i, guess);
        r := Hit(sunk);
      }
    }

    /** processGuess(guess) */
    method ProcessGuess(guess: string) returns (r: GuessResult)
      requires Valid() && IsCell(guess, size)
      modifies Repr, grid
      ensures Valid() && Repr == old(Repr) && ships == old(ships)
      ensures guesses == if old(guess in guesses) then old(guesses) else old(guesses) + [guess]
      ensures r == GuessOutcome(LocationsOf(ships), old(MarksOf(ships)), old(guesses), guess)
      ensures MarksOf(ships) == MarksAfterGuess(LocationsOf(ships), old(MarksOf(ships)), old(guesses), guess)
      ensures GridAfterShot(guess, r)
      ensures guess in old(guesses) ==> unchanged(grid)
      ensures ShipsRemaining() == old(ShipsRemaining()) - (if r == Hit(true) then 1 else 0)
    {
      if guess in guesses {
        return AlreadyGuessed;
      }
      ghost var marks := MarksOf(ships);
      ghost var locations := LocationsOf(ships);
      ghost var before := guesses;
      guesses := guesses + [guess];
      assert HitsGuessed(locations, marks, guesses);
      r := Shoot(guess);
      assert LocationsOf(ships) == locations;
      assert r == GuessOutcome(locations, marks, before, guess);
      assert MarksOf(ships) == MarksAfterGuess(locations, marks, before, guess);
      RemainingAfterGuess(locations, marks, before, guess);
    }

    /** The collision check of placeShipsRandomly: the planned cells of a
        ship, and whether one of them is off the board or not water. */
    method CheckPlacement(shipLength: nat, horizontal: bool, startRow: nat, startCol: nat)
      returns (shipLocations: seq<string>, collision: bool)
      requires grid.Length0 == size && grid.Length1 == size
      ensures !collision <==> forall i :: 0 <= i < shipLength ==>
        && CellRow(horizontal, startRow, i) < size && CellCol(horizontal, startCol, i) < size
        && grid[CellRow(horizontal, startRow, i), CellCol(horizontal, startCol, i)] == Water
      ensures !collision ==> shipLocations == PlannedLocations(horizontal, startRow, startCol, shipLength)
    {
      shipLocations := [];
      collision := false;
      var i := 0;
      while i < shipLength
        invariant 0 <= i <= shipLength
        invariant shipLocations == PlannedLocations(horizontal, startRow, startCol, i)
        invariant forall t :: 0 <= t < i ==>
          && CellRow(horizontal, startRow, t) < size && CellCol(horizontal, startCol, t) < size
          && grid[CellRow(horizontal, startRow, t), CellCol(horizontal, startCol, t)] == Water
      {
        var checkRow := if horizontal then startRow else startRow + i;
        var checkCol := if horizontal then startCol + i else startCol;
        var locationStr := Coord(checkRow, checkCol);
        if checkRow >= size || checkCol >= size {
          collision := true;
          break;
        }
        if grid[checkRow, checkCol] != Water {
          collision := true;
          break;
        }
        shipLocations := shipLocations + [locationStr];
        i := i + 1;
      }
      if collision {
        assert i < shipLength;
        assert !(&& CellRow(horizontal, startRow, i) < size && CellCol(horizontal, startCol, i) < size
                 && grid[CellRow(horizontal, startRow, i), CellCol(horizontal, startCol, i)] == Water);
      }
    }

    /** The drawing loop of placeShipsRandomly: each location string is read
        back as a row digit and a column digit and that cell shows the ship. */
    method DrawShip(horizontal: bool, startRow: nat, startCol: nat, shipLocations: seq<string>)
      requires grid.Length0 == size && grid.Length1 == size && size <= 10
      requires shipLocations == PlannedLocations(horizontal, startRow, startCol, |shipLocations|)
      requires forall i :: 0 <= i < |shipLocations| ==>
        CellRow(horizontal, startRow, i) < size && CellCol(horizontal, startCol, i) < size
      modifies grid
      ensures forall a, b :: 0 <= a < size && 0 <= b < size ==>
        grid[a, b] == if OnShip(horizontal, startRow, startCol, |shipLocations|, a, b) then ShipPart else old(grid[a, b])
    {
      for k := 0 to |shipLocations|
        invariant forall a, b :: 0 <= a < size && 0 <= b < size ==>
          grid[a, b] == if OnShip(horizontal, startRow, startCol, k, a, b) then ShipPart else old(grid[a, b])
      {
        var location := shipLocations[k];
        var row := DigitValue(location[0]);
        var col := DigitValue(location[1]);
        grid[row, col] := ShipPart;
      }
    }

    /** The part of placeShipsRandomly that records a new ship with the
        given locations on the board, nothing hit. */
    method Enlist(shipLocations: seq<string>)
      requires Valid()
      modifies this
      ensures Valid() && fresh(Repr - old(Repr)) && guesses == old(guesses)
      ensures |ships| == |old(ships)| + 1 && ships[..|old(ships)|] == old(ships) && fresh(ships[|old(ships)|])
      ensures LocationsOf(ships) == old(LocationsOf(ships)) + [shipLocations]
      ensures MarksOf(ships) == old(MarksOf(ships)) + [seq(|shipLocations|, _ => false)]
    {
      ghost var locations := LocationsOf(ships);
      ghost var marks := MarksOf(ships);
      var ship := new Ship(shipLocations);
      ships := ships + [ship];
      Repr := Repr + {ship};
      assert LocationsOf(ships) == locations + [shipLocations];
      assert MarksOf(ships) == marks + [ship.hits];
      FleetAppend(locations, marks, guesses, shipLocations, ship.hits);
    }

    /** A ship just enlisted and drawn keeps every ship's cells drawn. */
    lemma DrawnAfterAdd(horizontal: bool, startRow: nat, startCol: nat, shipLocations: seq<string>)
      requires grid.Length0 == size && grid.Length1 == size && size <= 10 && ships != []
      requires shipLocations == PlannedLocations(horizontal, startRow, startCol, |shipLocations|)
      requires forall i :: 0 <= i < |shipLocations| ==>
        CellRow(horizontal, startRow, i) < size && CellCol(horizontal, startCol, i) < size
      requires ships[|ships| - 1].locations == shipLocations
      requires forall j, k :: 0 <= j < |ships| - 1 && 0 <= k < |ships[j].locations| ==>
        && IsCell(ships[j].locations[k], size)
        && (grid[DigitValue(ships[j].locations[k][0]), DigitValue(ships[j].locations[k][1])] != Water)
      requires forall i :: 0 <= i < |shipLocations| ==>
        grid[CellRow(horizontal, startRow, i), CellCol(horizontal, startCol, i)] == ShipPart
      ensures ShipsDrawn()
    {
      var last := |ships| - 1;
      forall k | 0 <= k < |ships[last].locations|
        ensures IsCell(ships[last].locations[k], size)
        ensures grid[DigitValue(ships[last].locations[k][0]), DigitValue(ships[last].locations[k][1])] != Water
      {
        assert ships[last].locations[k] == Coord(CellRow(horizontal, startRow, k), CellCol(horizontal, startCol, k));
      }
    }

    /** The placing branch of placeShipsRandomly: a new ship on the planned
        cells joins the fleet, and is drawn on the grid when showShips is
        set. */
    method AddShip(horizontal: bool, startRow: nat, startCol: nat, shipLocations: seq<string>, showShips: bool)
      requires Valid()
      requires shipLocations == PlannedLocations(horizontal, startRow, startCol, |shipLocations|)
      requires forall i :: 0 <= i < |shipLocations| ==>
        CellRow(horizontal, startRow, i) < size && CellCol(horizontal, startCol, i) < size
      modifies this, grid
      ensures Valid() && fresh(Repr - old(Repr)) && guesses == old(guesses)
      ensures |ships| == |old(ships)| + 1 && ships[..|old(ships)|] == old(ships) && fresh(ships[|old(ships)|])
      ensures LocationsOf(ships) == old(LocationsOf(ships)) + [shipLocations]
      ensures MarksOf(ships) == old(MarksOf(ships)) + [seq(|shipLocations|, _ => false)]
      ensures forall a, b :: 0 <= a < size && 0 <= b < size ==>
        grid[a, b] == if showShips && OnShip(horizontal, startRow, startCol, |shipLocations|, a, b)
                      then ShipPart else old(grid[a, b])
      ensures showShips && old(ShipsDrawn()) ==> ShipsDrawn()
    {
      Enlist(shipLocations);
      if showShips {
        DrawShip(horizontal, startRow, startCol, shipLocations);
        if old(ShipsDrawn()) {
          DrawnAfterAdd(horizontal, startRow, startCol, shipLocations);
        }
      }
    }

    /** One attempt of placeShipsRandomly, from a chosen orientation and start
        cell: the ship is placed when all its cells are on the board and
        water, and drawn on the grid only when showShips is set. The check
        reads the grid alone, so on a board whose ships are not drawn it
        lets a new ship overlap the ones already placed. */
    method PlaceShip(shipLength: nat, horizontal: bool, startRow: nat, startCol: nat, showShips: bool)
      returns (placed: bool)
      requires Valid()
      modifies this, grid
      ensures Valid() && fresh(Repr - old(Repr)) && guesses == old(guesses)
      ensures placed <==> forall i :: 0 <= i < shipLength ==>
        && CellRow(horizontal, startRow, i) < size && CellCol(horizontal, startCol, i) < size
        && old(grid[CellRow(horizontal, startRow, i), CellCol(horizontal, startCol, i)]) == Water
      ensures |ships| == |old(ships)| + (if placed then 1 else 0) && ships[..|old(ships)|] == old(ships)
      ensures placed ==> fresh(ships[|old(ships)|])
      ensures LocationsOf(ships) == old(LocationsOf(ships))
        + (if placed then [PlannedLocations(horizontal, startRow, startCol, shipLength)] else [])
      ensures MarksOf(ships) == old(MarksOf(ships)) + (if placed then [seq(shipLength, _ => false)] else [])
      ensures forall a, b :: 0 <= a < size && 0 <= b < size ==>
        grid[a, b] == if placed && showShips && OnShip(horizontal, startRow, startCol, shipLength, a, b)
                      then ShipPart else old(grid[a, b])
      ensures showShips && old(ShipsDrawn()) ==> ShipsDrawn()
      ensures showShips && old(ShipsDrawn()) && old(Disjoint(LocationsOf(ships))) ==> Disjoint(LocationsOf(ships))
    {
      var shipLocations, collision := CheckPlacement(shipLength, horizontal, startRow, startCol);
      if collision {
        return false;
      }
      if showShips && ShipsDrawn() && Disjoint(LocationsOf(ships)) {
        WaterCellsUnowned(horizontal, startRow, startCol, shipLength);
        PlannedDistinct(horizontal, startRow, startCol, shipLength);
        DisjointAppend(LocationsOf(ships), shipLocations);
      }
      AddShip(horizontal, startRow, startCol, shipLocations, showShips);
      placed := true;
    }

    /** Whether none of the given cells belongs to a ship already placed. */
    method ClearOfShips(cells: seq<string>) returns (clear: bool)
      ensures clear <==> forall i :: 0 <= i < |cells| ==> FirstOwner(LocationsOf(ships), cells[i]) == -1
    {
      clear := true;
      var i := 0;
      while i < |cells|
        invariant 0 <= i <= |cells|
        invariant forall t :: 0 <= t < i ==> FirstOwner(LocationsOf(ships), cells[t]) == -1
      {
        var owner := FindShip(cells[i]);
        if owner != -1 {
          return false;
        }
        i := i + 1;
      }
    }

    /** The collision check placeShipsRandomly evidently intends: a cell is
        refused when it is off the board, not water, or held by a ship
        already placed, whether or not ships are drawn. */
    method CheckPlacementApart(shipLength: nat, horizontal: bool, startRow: nat, startCol: nat)
      returns (shipLocations: seq<string>, collision: bool)
      requires grid.Length0 == size && grid.Length1 == size
      ensures !collision <==> forall i :: 0 <= i < shipLength ==>
        && CellRow(horizontal, startRow, i) < size && CellCol(horizontal, startCol, i) < size
        && grid[CellRow(horizontal, startRow, i), CellCol(horizontal, startCol, i)] == Water
        && FirstOwner(LocationsOf(ships), PlannedLocations(horizontal, startRow, startCol, shipLength)[i]) == -1
      ensures !collision ==> shipLocations == PlannedLocations(horizontal, startRow, startCol, shipLength)
    {
      shipLocations, collision := CheckPlacement(shipLength, horizontal, startRow, startCol);
      if !collision {
        var clear := ClearOfShips(shipLocations);
        collision := !clear;
      }
    }

    /** One attempt of placeShipsRandomly with the intended collision check.
        A fleet in which no cell is shared stays so. */
    method PlaceShipApart(shipLength: nat, horizontal: bool, startRow: nat, startCol: nat, showShips: bool)
      returns (placed: bool)
      requires Valid()
      modifies this, grid
      ensures Valid() && fresh(Repr - old(Repr)) && guesses == old(guesses)
      ensures placed <==> forall i :: 0 <= i < shipLength ==>
        && CellRow(horizontal, startRow, i) < size && CellCol(horizontal, startCol, i) < size
        && old(grid[CellRow(horizontal, startRow, i), CellCol(horizontal, startCol, i)]) == Water
        && FirstOwner(old(LocationsOf(ships)), PlannedLocations(horizontal, startRow, startCol, shipLength)[i]) == -1
      ensures |ships| == |old(ships)| + (if placed then 1 else 0) && ships[..|old(ships)|] == old(ships)
      ensures placed ==> fresh(ships[|old(ships)|])
      ensures LocationsOf(ships) == old(LocationsOf(ships))
        + (if placed then [PlannedLocations(horizontal, startRow, startCol, shipLength)] else [])
      ensures MarksOf(ships) == old(MarksOf(ships)) + (if placed then [seq(shipLength, _ => false)] else [])
      ensures forall a, b :: 0 <= a < size && 0 <= b < size ==>
        grid[a, b] == if placed && showShips && OnShip(horizontal, startRow, startCol, shipLength, a, b)
                      then ShipPart else old(grid[a, b])
      ensures old(Disjoint(LocationsOf(ships))) ==> Disjoint(LocationsOf(ships))
    {
      var shipLocations, collision := CheckPlacementApart(shipLength, horizontal, startRow, startCol);
      if collision {
        return false;
      }
      if Disjoint(LocationsOf(ships)) {
        PlannedDistinct(horizontal, startRow, startCol, shipLength);
        DisjointAppend(LocationsOf(ships), shipLocations);
      }
      AddShip(horizontal, startRow, startCol, shipLocations, showShips);
      placed := true;
    }
  }

  /** placeShipsRandomly with ships hidden, as the computer's board is set
      up: two ships of three cells from the same corner, one across and one
      down, are both placed, and share the corner cell. */
  method HiddenShipsOverlap() returns (board: Board)
    ensures board.Valid() && board.guesses == []
    ensures LocationsOf(board.ships) == [PlannedLocations(true, 0, 0, 3), PlannedLocations(false, 0, 0, 3)]
    ensures LocationsOf(board.ships)[1][0] == LocationsOf(board.ships)[0][0]
    ensures MarksOf(board.ships) == [seq(3, _ => false), seq(3, _ => false)]
  {
    board := new Board(10);
    var across := board.PlaceShip(3, true, 0, 0, false);
    assert across;
    assert forall i :: 0 <= i < 3 ==> board.grid[i, 0] == Water;
    var down := board.PlaceShip(3, false, 0, 0, false);
    assert down;
  }
}
