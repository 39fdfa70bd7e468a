/** The sea-battle game: the player's board, the computer's board, the
    computer player, and who has won. */
module BattleGame {
  import opened Text
  import opened BattleShip
  import opened BattleBoard
  import opened BattleCpu

  /** A side that can win: 'player' or 'cpu'. */
  datatype Side = PlayerSide | CpuSide

  /** What validatePlayerInput reports. */
  datatype InputCheck = Accepted | Refused(message: string)

  /** What processPlayerGuess reports: the refusal of the input, or the
      outcome of the shot. A hit or sunk flag the board leaves undefined
      reads as false. */
  datatype PlayerTurn =
    | Rejected(message: string)
    | Played(hit: bool, sunk: bool, message: string, gameOver: bool, winner: Option<Side>)

  /** What processCPUTurn reports. */
  datatype CpuTurn = CpuTurn(guess: string, hit: bool, sunk: bool, message: string, gameOver: bool, winner: Option<Side>)

  /** What getGameStatus reports. */
  datatype GameStatus = GameStatus(
    playerShipsRemaining: nat, cpuShipsRemaining: nat, gameOver: bool, winner: Option<Side>, cpuMode: Mode)

  const TwoDigitsMessage := "Oops, input must be exactly two digits (e.g., 00, 34, 98)."
  const AlreadyGuessedMessage := "You already guessed that location!"

  /** The refusal of a coordinate outside the board. */
  function RangeMessage(boardSize: nat): string {
    "Oops, please enter valid row and column numbers between 0 and " + IntToString(boardSize - 1) + "."
  }

  /** The player's shot as processPlayerGuess describes it. */
  function PlayerMessage(outcome: GuessResult): string {
    if outcome.Hit? then
      "🔥 PLAYER HIT! 🔥 Keep firing at the same ship to sink it!"
      + (if outcome.sunk then "\n💥 BOOM! You sunk an enemy battleship! All 3 cells were hit! 💥" else "")
    else "💨 PLAYER MISS 💨"
  }

  /** The computer's shot as processCPUTurn describes it. */
  function CpuMessage(guess: string, outcome: GuessResult): string {
    if outcome.Hit? then
      "🔥 CPU HIT at " + guess + "! 🔥" + (if outcome.sunk then " 💥 CPU sunk your battleship! 💥" else "")
    else "💨 CPU MISS at " + guess + " 💨"
  }

  /** validatePlayerInput(guess) on a board of the given size; None stands
      for null. */
  function ValidateInput(guess: Option<string>, boardSize: nat): (r: InputCheck)
    ensures r == Accepted <==> guess.Some? && IsCell(guess.value, boardSize)
    ensures guess.None? || |guess.value| != 2 ==> r == Refused(TwoDigitsMessage)
    ensures guess.Some? && |guess.value| == 2 && !IsCell(guess.value, boardSize) ==> r == Refused(RangeMessage(boardSize))
  {
    if guess.None? || |guess.value| != 2 then Refused(TwoDigitsMessage)
    else
      var g := guess.value;
      if !IsDigit(g[0]) || !IsDigit(g[1]) || DigitValue(g[0]) >= boardSize || DigitValue(g[1]) >= boardSize
      then Refused(RangeMessage(boardSize))
      else Accepted
  }

  /** A board as the game keeps it: well formed, and, when no cell is held
      by two ships, every guessed ship cell is marked hit. */
  ghost predicate Settled(board: Board)
    reads board, board.Repr
  {
    && board.Valid()
    && (Disjoint(LocationsOf(board.ships)) ==> GuessedHit(LocationsOf(board.ships), board.Marks(), board.guesses))
  }

  /** A settled board on which no cell is held by two ships. */
  ghost predicate Sound(board: Board)
    reads board, board.Repr
  {
    Settled(board) && Disjoint(LocationsOf(board.ships))
  }

  /** processGuess on a board as the game keeps it: a cell already hit is
      never reported, and the board stays settled. */
  method TakeShot(board: Board, guess: string) returns (r: GuessResult)
    requires board.Valid() && IsCell(guess, board.size)
    modifies board.Repr, board.grid
    ensures board.Valid() && board.Repr == old(board.Repr) && board.ships == old(board.ships)
    ensures board.guesses == if guess in old(board.guesses) then old(board.guesses) else old(board.guesses) + [guess]
    ensures r == GuessOutcome(LocationsOf(board.ships), old(board.Marks()), old(board.guesses), guess)
    ensures r != AlreadyHit
    ensures board.Marks() == MarksAfterGuess(LocationsOf(board.ships), old(board.Marks()), old(board.guesses), guess)
    ensures board.GridAfterShot(guess, r)
    ensures guess in old(board.guesses) ==> unchanged(board.grid)
    ensures board.ShipsRemaining() == old(board.ShipsRemaining()) - (if r == Hit(true) then 1 else 0)
    ensures old(Settled(board)) ==> Settled(board)
  {
    ghost var marks := board.Marks();
    ghost var locations := LocationsOf(board.ships);
    ghost var settled := Settled(board);
    FreshGuessNeverAlreadyHit(locations, marks, board.guesses, guess);
    r := board.ProcessGuess(guess);
    if settled && Disjoint(locations) {
      GuessKeepsGuessedHit(locations, marks, old(board.guesses), guess);
      assert GuessedHit(locations, board.Marks(), board.guesses);
    }
  }

  class Game {
    const boardSize: nat
    const numShips: nat
    const shipLength: nat
    const playerBoard: Board
    const cpuBoard: Board
    const cpu: CPU
    var gameOver: bool
    var winner: Option<Side>

    /** The boards and the computer player are well formed and share no
        state; the player's board has no cell held by two ships, and on it,
        as on the computer's board when its ships do not overlap, every
        guessed ship cell is marked hit; the game is over exactly when there
        is a winner, and the winner has sunk every ship of the other side. */
    ghost predicate Core()
      reads this, playerBoard, playerBoard.Repr, cpuBoard, cpuBoard.Repr, cpu
    {
      && Sound(playerBoard) && Settled(cpuBoard) && cpu.Valid()
      && playerBoard.Repr !! cpuBoard.Repr
      && playerBoard.grid !in cpuBoard.Repr && cpuBoard.grid !in playerBoard.Repr
      && playerBoard.grid != cpuBoard.grid
      && this !in playerBoard.Repr && this !in cpuBoard.Repr
      && cpu !in playerBoard.Repr && cpu !in cpuBoard.Repr
      && playerBoard.size == boardSize && cpuBoard.size == boardSize && cpu.boardSize == boardSize
      && (gameOver <==> winner.Some?)
      && (winner == Some(PlayerSide) ==> cpuBoard.ShipsRemaining() == 0)
      && (winner == Some(CpuSide) ==> playerBoard.ShipsRemaining() == 0)
    }

    /** Between turns, moreover, the computer's own list of guesses is the
        player's board's. */
    ghost predicate Valid()
      reads this, playerBoard, playerBoard.Repr, cpuBoard, cpuBoard.Repr, cpu
    {
      Core() && cpu.guesses == playerBoard.guesses
    }

    /** new Game(boardSize, numShips, shipLength), before its ships are
        placed. */
    constructor(boardSize: nat, numShips: nat, shipLength: nat)
      requires boardSize <= 10
      ensures Valid()
      ensures this.boardSize == boardSize && this.numShips == numShips && this.shipLength == shipLength
      ensures playerBoard.ships == [] && cpuBoard.ships == [] && playerBoard.guesses == [] && cpuBoard.guesses == []
      ensures fresh(playerBoard) && fresh(cpuBoard) && fresh(cpu) && fresh(playerBoard.grid) && fresh(cpuBoard.grid)
      ensures playerBoard.ShipsDrawn()
      ensures forall i, j :: 0 <= i < boardSize && 0 <= j < boardSize ==> cpuBoard.grid[i, j] == Water
      ensures cpu.mode == Hunt && !gameOver && winner == None
    {
      this.boardSize := boardSize;
      this.numShips := numShips;
      this.shipLength := shipLength;
      playerBoard := new Board(boardSize);
      cpuBoard := new Board(boardSize);
      cpu := new CPU(boardSize);
      gameOver := false;
      winner := None;
    }

    /** One placement attempt of setupGame, from a chosen orientation and
        start cell: on the player's board the ships are drawn, so its grid
        check keeps them apart; on the computer's they are hidden, and a new
        ship may overlap those already placed. */
    method SetupAttempt(forPlayer: bool, horizontal: bool, startRow: nat, startCol: nat) returns (placed: bool)
      requires Valid() && !gameOver
      requires forPlayer ==> playerBoard.guesses == [] && |playerBoard.ships| < numShips && playerBoard.ShipsDrawn()
      requires !forPlayer ==> cpuBoard.guesses == [] && |cpuBoard.ships| < numShips
      modifies playerBoard, playerBoard.grid, cpuBoard, cpuBoard.grid
      ensures Valid() && !gameOver
      ensures playerBoard.guesses == old(playerBoard.guesses) && cpuBoard.guesses == old(cpuBoard.guesses)
      ensures forPlayer ==>
        && placed == (forall i :: 0 <= i < shipLength ==>
             && CellRow(horizontal, startRow, i) < boardSize && CellCol(horizontal, startCol, i) < boardSize
             && old(playerBoard.grid[CellRow(horizontal, startRow, i), CellCol(horizontal, startCol, i)]) == Water)
        && LocationsOf(playerBoard.ships) == old(LocationsOf(playerBoard.ships))
             + (if placed then [PlannedLocations(horizontal, startRow, startCol, shipLength)] else [])
        && playerBoard.Marks() == old(playerBoard.Marks()) + (if placed then [seq(shipLength, _ => false)] else [])
        && (forall a, b :: 0 <= a < boardSize && 0 <= b < boardSize ==>
             playerBoard.grid[a, b] == if placed && OnShip(horizontal, startRow, startCol, shipLength, a, b)
                                       then ShipPart else old(playerBoard.grid[a, b]))
        && playerBoard.ShipsDrawn()
        && unchanged(cpuBoard, cpuBoard.grid)
      ensures !forPlayer ==>
        && placed == (forall i :: 0 <= i < shipLength ==>
             && CellRow(horizontal, startRow, i) < boardSize && CellCol(horizontal, startCol, i) < boardSize
             && old(cpuBoard.grid[CellRow(horizontal, startRow, i), CellCol(horizontal, startCol, i)]) == Water)
        && LocationsOf(cpuBoard.ships) == old(LocationsOf(cpuBoard.ships))
             + (if placed then [PlannedLocations(horizontal, startRow, startCol, shipLength)] else [])
        && cpuBoard.Marks() == old(cpuBoard.Marks()) + (if placed then [seq(shipLength, _ => false)] else [])
        && (forall a, b :: 0 <= a < boardSize && 0 <= b < boardSize ==> cpuBoard.grid[a, b] == old(cpuBoard.grid[a, b]))
        && unchanged(playerBoard, playerBoard.grid)
    {
      var board := if forPlayer then playerBoard else cpuBoard;
      placed := board.PlaceShip(shipLength, horizontal, startRow, startCol, forPlayer);
    }

    /** The victory check that ends processPlayerGuess and processCPUTurn:
        once the other side has no ship left, the game is over and the side
        that fired has won. */
    method CheckVictory(side: Side)
      requires Valid()
      modifies this`gameOver, this`winner
      ensures Valid()
      ensures cpuBoard.ShipsRemaining() == old(cpuBoard.ShipsRemaining())
      ensures playerBoard.ShipsRemaining() == old(playerBoard.ShipsRemaining())
      ensures playerBoard.Marks() == old(playerBoard.Marks()) && cpuBoard.Marks() == old(cpuBoard.Marks())
      ensures var left := if side == PlayerSide then cpuBoard.ShipsRemaining() else playerBoard.ShipsRemaining();
        && gameOver == (old(gameOver) || left == 0)
        && winner == (if left == 0 then Some(side) else old(winner))
    {
      var shipsRemaining := if side == PlayerSide then cpuBoard.ShipsRemaining() else playerBoard.ShipsRemaining();
      if shipsRemaining == 0 {
        gameOver := true;
        winner := Some(side);
      }
    }

    /** validatePlayerInput(guess) */
    function ValidatePlayerInput(guess: Option<string>): (r: InputCheck)
      ensures r == Accepted <==> guess.Some? && IsCell(guess.value, boardSize)
    {
      ValidateInput(guess, boardSize)
    }

    /** processPlayerGuess(guess): the input is checked, the shot is fired at
        the computer's board, and the player wins once no ship is left on
        it. A refused or repeated input changes nothing. */
    method ProcessPlayerGuess(guess: Option<string>) returns (turn: PlayerTurn)
      requires Valid()
      modifies this, cpuBoard.Repr, cpuBoard.grid
      ensures Valid()
      ensures old(gameOver) ==> gameOver
      ensures cpuBoard.ShipsRemaining() <= old(cpuBoard.ShipsRemaining())
      ensures cpuBoard.Repr == old(cpuBoard.Repr) && cpuBoard.ships == old(cpuBoard.ships)
      ensures playerBoard.guesses == old(playerBoard.guesses) && playerBoard.Marks() == old(playerBoard.Marks())
      ensures turn.Rejected? ==>
        && cpuBoard.guesses == old(cpuBoard.guesses) && cpuBoard.Marks() == old(cpuBoard.Marks())
        && unchanged(cpuBoard.grid)
        && gameOver == old(gameOver) && winner == old(winner)
      ensures ValidatePlayerInput(guess).Refused? ==> turn == Rejected(ValidatePlayerInput(guess).message)
      ensures ValidatePlayerInput(guess) == Accepted && guess.value in old(cpuBoard.guesses) ==>
        turn == Rejected(AlreadyGuessedMessage)
      ensures ValidatePlayerInput(guess) == Accepted && guess.value !in old(cpuBoard.guesses) ==>
        var outcome := GuessOutcome(old(LocationsOf(cpuBoard.ships)), old(cpuBoard.Marks()), old(cpuBoard.guesses), guess.value);
        && cpuBoard.guesses == old(cpuBoard.guesses) + [guess.value]
        && cpuBoard.Marks() == MarksAfterGuess(old(LocationsOf(cpuBoard.ships)), old(cpuBoard.Marks()), old(cpuBoard.guesses), guess.value)
        && cpuBoard.GridAfterShot(guess.value, outcome)
        && (outcome == Miss || outcome.Hit?)
        && gameOver == (old(gameOver) || cpuBoard.ShipsRemaining() == 0)
        && winner == (if cpuBoard.ShipsRemaining() == 0 then Some(PlayerSide) else old(winner))
        && turn == Played(outcome.Hit?, outcome == Hit(true), PlayerMessage(outcome), gameOver, winner)
    {
      var validation := ValidatePlayerInput(guess);
      if validation.Refused? {
        return Rejected(validation.message);
      }
      turn := PlayerFires(guess.value);
    }

    /** processPlayerGuess once the input is accepted: the shot at the
        computer's board, refused when the cell was guessed before, and
        otherwise reported and followed by the victory check. */
    method PlayerFires(g: string) returns (turn: PlayerTurn)
      requires Valid() && IsCell(g, boardSize)
      modifies this`gameOver, this`winner, cpuBoard.Repr, cpuBoard.grid
      ensures Valid()
      ensures old(gameOver) ==> gameOver
      ensures cpuBoard.ShipsRemaining() <= old(cpuBoard.ShipsRemaining())
      ensures cpuBoard.Repr == old(cpuBoard.Repr) && cpuBoard.ships == old(cpuBoard.ships)
      ensures playerBoard.guesses == old(playerBoard.guesses) && playerBoard.Marks() == old(playerBoard.Marks())
      ensures g in old(cpuBoard.guesses) ==>
        && turn == Rejected(AlreadyGuessedMessage)
        && cpuBoard.guesses == old(cpuBoard.guesses) && cpuBoard.Marks() == old(cpuBoard.Marks())
        && unchanged(cpuBoard.grid)
        && gameOver == old(gameOver) && winner == old(winner)
      ensures g !in old(cpuBoard.guesses) ==>
        var outcome := GuessOutcome(old(LocationsOf(cpuBoard.ships)), old(cpuBoard.Marks()), old(cpuBoard.guesses), g);
        && cpuBoard.guesses == old(cpuBoard.guesses) + [g]
        && cpuBoard.Marks() == MarksAfterGuess(old(LocationsOf(cpuBoard.ships)), old(cpuBoard.Marks()), old(cpuBoard.guesses), g)
        && cpuBoard.GridAfterShot(g, outcome)
        && (outcome == Miss || outcome.Hit?)
        && gameOver == (old(gameOver) || cpuBoard.ShipsRemaining() == 0)
        && winner == (if cpuBoard.ShipsRemaining() == 0 then Some(PlayerSide) else old(winner))
        && turn == Played(outcome.Hit?, outcome == Hit(true), PlayerMessage(outcome), gameOver, winner)
    {
      var result := PlayerShot(g);
      if result == AlreadyGuessed {
        return Rejected(AlreadyGuessedMessage);
      }
      var message := PlayerMessage(result);
      CheckVictory(PlayerSide);
      turn := Played(result.Hit?, result == Hit(true), message, gameOver, winner);
    }

    /** The shot of processPlayerGuess at the computer's board. */
    method PlayerShot(g: string) returns (result: GuessResult)
      requires Valid() && IsCell(g, boardSize)
      modifies cpuBoard.Repr, cpuBoard.grid
      ensures Valid()
      ensures cpuBoard.guesses == if g in old(cpuBoard.guesses) then old(cpuBoard.guesses) else old(cpuBoard.guesses) + [g]
      ensures result == GuessOutcome(old(LocationsOf(cpuBoard.ships)), old(cpuBoard.Marks()), old(cpuBoard.guesses), g)
      ensures result != AlreadyHit
      ensures cpuBoard.Marks() == MarksAfterGuess(old(LocationsOf(cpuBoard.ships)), old(cpuBoard.Marks()), old(cpuBoard.guesses), g)
      ensures cpuBoard.Repr == old(cpuBoard.Repr) && cpuBoard.ships == old(cpuBoard.ships)
      ensures cpuBoard.GridAfterShot(g, result)
      ensures g in old(cpuBoard.guesses) ==> unchanged(cpuBoard.grid)
      ensures cpuBoard.ShipsRemaining() <= old(cpuBoard.ShipsRemaining())
      ensures playerBoard.Marks() == old(playerBoard.Marks())
    {
      result := TakeShot(cpuBoard, g);
    }

    /** processCPUTurn(), with the computer's hunt-mode draw as huntRow and
        huntCol. None stands for a draw the player's board refuses, where
        makeGuess draws again. The computer shoots at a cell not guessed
        before, learns the outcome, and wins once no ship is left on the
        player's board. */
    method ProcessCPUTurn(huntRow: nat, huntCol: nat) returns (turn: Option<CpuTurn>)
      requires Valid()
      modifies this, cpu, playerBoard.Repr, playerBoard.grid
      ensures Valid()
      ensures old(gameOver) ==> gameOver
      ensures playerBoard.ShipsRemaining() <= old(playerBoard.ShipsRemaining())
      ensures cpuBoard.guesses == old(cpuBoard.guesses) && cpuBoard.Marks() == old(cpuBoard.Marks())
      ensures playerBoard.Repr == old(playerBoard.Repr) && playerBoard.ships == old(playerBoard.ships)
      ensures turn.None? ==>
        && playerBoard.guesses == old(playerBoard.guesses) && playerBoard.Marks() == old(playerBoard.Marks())
        && unchanged(playerBoard.grid)
        && gameOver == old(gameOver) && winner == old(winner) && cpu.State() == Plan(Hunt, [])
      ensures turn.Some? ==>
        var g := turn.value.guess;
        var outcome := GuessOutcome(old(LocationsOf(playerBoard.ships)), old(playerBoard.Marks()), old(playerBoard.guesses), g);
        && IsCell(g, boardSize) && g !in old(playerBoard.guesses)
        && cpu.State() == PlanAfterResult(PlanAfterGuess(old(cpu.State()), old(cpu.guesses)), boardSize, cpu.guesses, g, outcome)
        && playerBoard.guesses == old(playerBoard.guesses) + [g]
        && playerBoard.Marks() == MarksAfterGuess(old(LocationsOf(playerBoard.ships)), old(playerBoard.Marks()), old(playerBoard.guesses), g)
        && playerBoard.GridAfterShot(g, outcome)
        && (outcome == Miss || outcome.Hit?)
        && gameOver == (old(gameOver) || playerBoard.ShipsRemaining() == 0)
        && winner == (if playerBoard.ShipsRemaining() == 0 then Some(CpuSide) else old(winner))
        && turn.value == CpuTurn(g, outcome.Hit?, outcome == Hit(true), CpuMessage(g, outcome), gameOver, winner)
    {
      var guess := CpuChooses(huntRow, huntCol);
      if guess.None? {
        return None;
      }
      var played := CpuFires(guess.value);
      turn := Some(played);
    }

    /** The choice of makeGuess within processCPUTurn: a cell of the board
        not guessed before, which the computer records as guessed. */
    method CpuChooses(huntRow: nat, huntCol: nat) returns (guess: Option<string>)
      requires Valid()
      modifies cpu
      ensures guess.None? ==> Valid() && cpu.mode == Hunt
      ensures cpu.State() == PlanAfterGuess(old(cpu.State()), old(cpu.guesses))
      ensures guess.Some? ==>
        && Core() && IsCell(guess.value, boardSize) && guess.value !in playerBoard.guesses
        && cpu.guesses == playerBoard.guesses + [guess.value]
      ensures playerBoard.Marks() == old(playerBoard.Marks()) && cpuBoard.Marks() == old(cpuBoard.Marks())
    {
      guess := cpu.MakeGuess(playerBoard, huntRow, huntCol);
    }

    /** processCPUTurn once the computer has chosen a new cell: the shot, the
        computer learning its outcome, and the victory check. */
    method CpuFires(g: string) returns (turn: CpuTurn)
      requires Core() && IsCell(g, boardSize) && g !in playerBoard.guesses
      requires cpu.guesses == playerBoard.guesses + [g]
      modifies this`gameOver, this`winner, cpu, playerBoard.Repr, playerBoard.grid
      ensures Valid()
      ensures old(gameOver) ==> gameOver
      ensures playerBoard.guesses == old(playerBoard.guesses) + [g]
      ensures playerBoard.Repr == old(playerBoard.Repr) && playerBoard.ships == old(playerBoard.ships)
      ensures var outcome := GuessOutcome(old(LocationsOf(playerBoard.ships)), old(playerBoard.Marks()), old(playerBoard.guesses), g);
        && playerBoard.Marks() == MarksAfterGuess(old(LocationsOf(playerBoard.ships)), old(playerBoard.Marks()), old(playerBoard.guesses), g)
        && playerBoard.GridAfterShot(g, outcome)
        && (outcome == Miss || outcome.Hit?)
        && playerBoard.ShipsRemaining() <= old(playerBoard.ShipsRemaining())
        && gameOver == (old(gameOver) || playerBoard.ShipsRemaining() == 0)
        && winner == (if playerBoard.ShipsRemaining() == 0 then Some(CpuSide) else old(winner))
        && turn == CpuTurn(g, outcome.Hit?, outcome == Hit(true), CpuMessage(g, outcome), gameOver, winner)
        && cpu.State() == PlanAfterResult(old(cpu.State()), boardSize, cpu.guesses, g, outcome)
    {
      var result := AnswerCpu(g);
      var message := CpuMessage(g, result);
      CheckVictory(CpuSide);
      turn := CpuTurn(g, result.Hit?, result == Hit(true), message, gameOver, winner);
    }

    /** The middle of processCPUTurn, once the computer has chosen a new
        cell: the shot at the player's board, and the computer learning its
        outcome. */
    method AnswerCpu(g: string) returns (result: GuessResult)
      requires Core() && IsCell(g, boardSize) && g !in playerBoard.guesses
      requires cpu.guesses == playerBoard.guesses + [g]
      modifies cpu, playerBoard.Repr, playerBoard.grid
      ensures Valid()
      ensures playerBoard.guesses == old(playerBoard.guesses) + [g]
      ensures result == GuessOutcome(old(LocationsOf(playerBoard.ships)), old(playerBoard.Marks()), old(playerBoard.guesses), g)
      ensures result == Miss || result.Hit?
      ensures playerBoard.Marks() == MarksAfterGuess(old(LocationsOf(playerBoard.ships)), old(playerBoard.Marks()), old(playerBoard.guesses), g)
      ensures playerBoard.Repr == old(playerBoard.Repr) && playerBoard.ships == old(playerBoard.ships)
      ensures playerBoard.GridAfterShot(g, result)
      ensures playerBoard.ShipsRemaining() <= old(playerBoard.ShipsRemaining())
      ensures cpu.guesses == old(cpu.guesses)
      ensures cpu.State() == PlanAfterResult(old(cpu.State()), boardSize, cpu.guesses, g, result)
    {
      result := CpuShot(g);
      CpuLearns(g, result);
    }

    /** The computer's shot at the player's board, its choice already
        recorded by the computer. */
    method CpuShot(g: string) returns (result: GuessResult)
      requires Core() && IsCell(g, boardSize) && g !in playerBoard.guesses
      requires cpu.guesses == playerBoard.guesses + [g]
      modifies playerBoard.Repr, playerBoard.grid
      ensures Valid()
      ensures playerBoard.guesses == old(playerBoard.guesses) + [g]
      ensures result == GuessOutcome(old(LocationsOf(playerBoard.ships)), old(playerBoard.Marks()), old(playerBoard.guesses), g)
      ensures result == Miss || result.Hit?
      ensures playerBoard.Marks() == MarksAfterGuess(old(LocationsOf(playerBoard.ships)), old(playerBoard.Marks()), old(playerBoard.guesses), g)
      ensures playerBoard.Repr == old(playerBoard.Repr) && playerBoard.ships == old(playerBoard.ships)
      ensures playerBoard.GridAfterShot(g, result)
      ensures playerBoard.ShipsRemaining() <= old(playerBoard.ShipsRemaining())
    {
      result := TakeShot(playerBoard, g);
    }

    /** The computer learning the outcome of its shot. */
    method CpuLearns(g: string, result: GuessResult)
      requires Valid() && IsCell(g, boardSize)
      modifies cpu
      ensures Valid() && cpu.guesses == old(cpu.guesses)
      ensures cpu.State() == PlanAfterResult(old(cpu.State()), boardSize, cpu.guesses, g, result)
    {
      cpu.ProcessGuessResult(g, result);
    }

    /** isGameOver() */
    function IsGameOver(): (b: bool)
      requires Valid()
      reads this, playerBoard, playerBoard.Repr, cpuBoard, cpuBoard.Repr, cpu
      ensures b <==> winner.Some?
    {
      gameOver
    }

    /** getWinner(): a winner is named only once the game is over, and has
        sunk every ship of the other side. */
    function GetWinner(): (w: Option<Side>)
      requires Valid()
      reads this, playerBoard, playerBoard.Repr, cpuBoard, cpuBoard.Repr, cpu
      ensures w.Some? <==> gameOver
      ensures w == Some(PlayerSide) ==> cpuBoard.ShipsRemaining() == 0
      ensures w == Some(CpuSide) ==> playerBoard.ShipsRemaining() == 0
    {
      winner
    }

    /** getGameStatus() */
    function GetGameStatus(): (s: GameStatus)
      requires Valid()
      reads this, playerBoard, playerBoard.Repr, cpuBoard, cpuBoard.Repr, cpu
      ensures s.playerShipsRemaining <= |playerBoard.ships| && s.cpuShipsRemaining <= |cpuBoard.ships|
      ensures s.gameOver <==> s.winner.Some?
      ensures s.winner == Some(PlayerSide) ==> s.cpuShipsRemaining == 0
      ensures s.winner == Some(CpuSide) ==> s.playerShipsRemaining == 0
      ensures s.cpuMode == Hunt ==> cpu.targetQueue == []
    {
      GameStatus(playerBoard.ShipsRemaining(), cpuBoard.ShipsRemaining(), gameOver, winner, cpu.GetMode())
    }

    /** When no cell of the computer's board is held by two ships, every
        ship on it can be sunk: guessing each of its cells not guessed yet,
        in any order and with any other guesses between, leaves no ship
        afloat. */
    lemma CpuFleetCanBeSunk(moves: seq<string>)
      requires Valid() && Disjoint(LocationsOf(cpuBoard.ships))
      requires forall j, k :: 0 <= j < |cpuBoard.ships| && 0 <= k < |cpuBoard.ships[j].locations| ==>
        cpuBoard.ships[j].locations[k] in cpuBoard.guesses || cpuBoard.ships[j].locations[k] in moves
      ensures Remaining(Play(LocationsOf(cpuBoard.ships), cpuBoard.Marks(), cpuBoard.guesses, moves).0) == 0
    {
      ApartFleetSinks(LocationsOf(cpuBoard.ships), cpuBoard.Marks(), cpuBoard.guesses, moves);
    }
  }

  /** setupGame as written can leave the computer with a fleet the player
      can never sink: its ships are hidden, so two ships of three cells from
      the same corner, one across and one down, are both placed, and no
      series of guesses sinks them both. */
  method HiddenFleetUnsinkable(moves: seq<string>) returns (game: Game)
    ensures game.Valid() && !game.gameOver && game.cpuBoard.guesses == []
    ensures LocationsOf(game.cpuBoard.ships) == [PlannedLocations(true, 0, 0, 3), PlannedLocations(false, 0, 0, 3)]
    ensures Remaining(Play(LocationsOf(game.cpuBoard.ships), game.cpuBoard.Marks(), game.cpuBoard.guesses, moves).0) > 0
  {
    var unmarked := seq(3, _ => false);
    game := new Game(10, 2, 3);
    var across := game.SetupAttempt(false, true, 0, 0);
    assert across;
    assert game.cpuBoard.Marks() == [unmarked];
    assert forall i :: 0 <= i < 3 ==> game.cpuBoard.grid[i, 0] == Water;
    var down := game.SetupAttempt(false, false, 0, 0);
    assert down;
    assert game.cpuBoard.Marks() == [unmarked, unmarked];
    HiddenOverlapNeverSinks(moves);
  }
}
