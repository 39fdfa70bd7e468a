/** The computer player of the sea-battle game: a hunt/target state machine
    with a first-in first-out queue of cells to try next. */
module BattleCpu {
  import opened Text
  import opened BattleShip
  import opened BattleBoard

  datatype Mode = Hunt | Target

  /** The four neighbours of a cell, in the order up, down, left, right. */
  function Adjacent(row: int, col: int): seq<(int, int)> {
    [(row - 1, col), (row + 1, col), (row, col - 1), (row, col + 1)]
  }

  /** isValidNewTarget on values: on the board and not guessed yet. */
  predicate ValidNewTarget(row: int, col: int, boardSize: nat, guesses: seq<string>) {
    0 <= row < boardSize && 0 <= col < boardSize && Coord(row, col) !in guesses
  }

  /** No entry occurs twice. */
  predicate NoRepeats(queue: seq<string>) {
    forall i, j :: 0 <= i < j < |queue| ==> queue[i] != queue[j]
  }

  /** The cells, among the given ones, that may be enqueued. */
  function TargetStrings(cells: seq<(int, int)>, boardSize: nat, guesses: seq<string>): set<string> {
    set c | c in cells && ValidNewTarget(c.0, c.1, boardSize, guesses) :: Coord(c.0, c.1)
  }

  /** The queue after addAdjacentTargets has considered one cell. */
  function Offer(queue: seq<string>, cell: (int, int), boardSize: nat, guesses: seq<string>): seq<string> {
    if ValidNewTarget(cell.0, cell.1, boardSize, guesses) && Coord(cell.0, cell.1) !in queue
    then queue + [Coord(cell.0, cell.1)]
    else queue
  }

  /** The queue after addAdjacentTargets has considered the cells in order. */
  function OfferAll(queue: seq<string>, cells: seq<(int, int)>, boardSize: nat, guesses: seq<string>): seq<string> {
    if cells == [] then queue
    else Offer(OfferAll(queue, cells[..|cells| - 1], boardSize, guesses), cells[|cells| - 1], boardSize, guesses)
  }

  /** addAdjacentTargets only appends; it appends at most one entry per
      cell, only cells on the board and not guessed yet, nothing already
      queued; and afterwards every such cell is queued. */
  lemma {:induction false} OfferAllEffect(queue: seq<string>, cells: seq<(int, int)>, boardSize: nat, guesses: seq<string>)
    ensures var q := OfferAll(queue, cells, boardSize, guesses);
      && queue <= q && |q| <= |queue| + |cells|
      && (forall k :: |queue| <= k < |q| ==> q[k] in TargetStrings(cells, boardSize, guesses))
      && (NoRepeats(queue) ==> NoRepeats(q))
      && (forall c :: c in cells && ValidNewTarget(c.0, c.1, boardSize, guesses) ==> Coord(c.0, c.1) in q)
  {
    if cells != [] {
      var init := cells[..|cells| - 1];
      var last := cells[|cells| - 1];
      OfferAllEffect(queue, init, boardSize, guesses);
      var p := OfferAll(queue, init, boardSize, guesses);
      var q := OfferAll(queue, cells, boardSize, guesses);
      assert q == Offer(p, last, boardSize, guesses);
      assert TargetStrings(init, boardSize, guesses) <= TargetStrings(cells, boardSize, guesses);
      forall c | c in cells && ValidNewTarget(c.0, c.1, boardSize, guesses) ensures Coord(c.0, c.1) in q {
        if c != last {
          assert c in init;
        }
      }
    }
  }

  /** A queued cell on a board of at most ten rows and columns is a guess
      string processGuess can read. */
  lemma TargetIsCell(cells: seq<(int, int)>, boardSize: nat, guesses: seq<string>, s: string)
    requires boardSize <= 10 && s in TargetStrings(cells, boardSize, guesses)
    ensures IsCell(s, boardSize) && s !in guesses
  {
  }

  /** Every queued cell is a guess string processGuess can read, and no
      cell is queued twice. */
  predicate WellQueued(queue: seq<string>, boardSize: nat) {
    (forall i :: 0 <= i < |queue| ==> IsCell(queue[i], boardSize)) && NoRepeats(queue)
  }

  /** Dropping entries from the front of a well-formed queue leaves a
      well-formed queue. */
  lemma WellQueuedSuffix(queue: seq<string>, boardSize: nat, n: nat)
    requires WellQueued(queue, boardSize) && n <= |queue|
    ensures WellQueued(queue[n..], boardSize)
  {
    assert forall i :: 0 <= i < |queue| - n ==> queue[n..][i] == queue[i + n];
  }

  /** How many entries at the front of the target queue have been guessed
      already: makeGuess discards exactly these before it takes one. */
  function SkipCount(queue: seq<string>, guesses: seq<string>): (n: nat)
    ensures n <= |queue|
    ensures n < |queue| ==> queue[n] !in guesses
    ensures forall k :: 0 <= k < n ==> queue[k] in guesses
  {
    if queue == [] || queue[0] !in guesses then 0
    else
      var m := SkipCount(queue[1..], guesses);
      assert forall k :: 1 <= k < m + 1 ==> queue[k] == queue[1..][k - 1];
      1 + m
  }

  /** The discarding loop of makeGuess, counting instead of shifting: the
      front entries are passed over while they have been guessed already. */
  method CountGuessed(queue: seq<string>, guesses: seq<string>) returns (n: nat)
    ensures n == SkipCount(queue, guesses)
  {
    n := 0;
    while n < |queue| && queue[n] in guesses
      invariant n <= |queue|
      invariant forall k :: 0 <= k < n ==> queue[k] in guesses
    {
      n := n + 1;
    }
  }

  /** The computer player's mode and target queue. */
  datatype Plan = Plan(mode: Mode, queue: seq<string>)

  /** The mode and queue after makeGuess has taken its guess: in target mode
      the first queued cell not guessed yet is taken with those before it;
      otherwise, or once the queue runs dry, the CPU hunts with an empty
      queue. */
  function PlanAfterGuess(p: Plan, guesses: seq<string>): Plan {
    var n := SkipCount(p.queue, guesses);
    if p.mode == Target && n < |p.queue| then Plan(Target, p.queue[n + 1..]) else Plan(Hunt, [])
  }

  /** The mode and queue after processGuessResult(guess, result). */
  function PlanAfterResult(p: Plan, boardSize: nat, guesses: seq<string>, guess: string, result: GuessResult): Plan
    requires |guess| == 2 && IsDigit(guess[0]) && IsDigit(guess[1])
  {
    if result == Hit(true) then Plan(Hunt, [])
    else if result.Hit? then
      Plan(Target, OfferAll(p.queue, Adjacent(DigitValue(guess[0]), DigitValue(guess[1])), boardSize, guesses))
    else if p.mode == Target && p.queue == [] then Plan(Hunt, [])
    else p
  }

  /** A plan the CPU can be in: queued cells are readable, once each, and
      hunting comes with an empty queue. */
  predicate PlanValid(p: Plan, boardSize: nat) {
    boardSize <= 10 && WellQueued(p.queue, boardSize) && (p.mode == Hunt ==> p.queue == [])
  }

  /** Offering cells to a well-formed queue keeps it well formed. */
  lemma OfferAllWellQueued(queue: seq<string>, cells: seq<(int, int)>, boardSize: nat, guesses: seq<string>)
    requires boardSize <= 10 && WellQueued(queue, boardSize)
    ensures WellQueued(OfferAll(queue, cells, boardSize, guesses), boardSize)
  {
    var q := OfferAll(queue, cells, boardSize, guesses);
    OfferAllEffect(queue, cells, boardSize, guesses);
    forall i | 0 <= i < |q| ensures IsCell(q[i], boardSize) {
      if i >= |queue| {
        TargetIsCell(cells, boardSize, guesses, q[i]);
      }
    }
  }

  /** Taking a guess and learning its outcome keep the plan valid. A hit
      that does not sink leaves the CPU targeting with every neighbour of
      the hit that is on the board and not guessed queued. A sinking hit
      empties the queue. A miss leaves the queue alone. */
  lemma PlanStaysValid(p: Plan, boardSize: nat, guesses: seq<string>, guess: string, result: GuessResult)
    requires PlanValid(p, boardSize) && |guess| == 2 && IsDigit(guess[0]) && IsDigit(guess[1])
    ensures PlanValid(PlanAfterGuess(p, guesses), boardSize)
    ensures var q := PlanAfterResult(p, boardSize, guesses, guess, result);
      && PlanValid(q, boardSize)
      && (result == Hit(true) ==> q.queue == [])
      && (result == Hit(false) ==> q.mode == Target)
      && (result == Hit(false) ==> forall c ::
            (c in Adjacent(DigitValue(guess[0]), DigitValue(guess[1])) && ValidNewTarget(c.0, c.1, boardSize, guesses))
            ==> Coord(c.0, c.1) in q.queue)
      && (!result.Hit? ==> q.queue == p.queue)
  {
    var n := SkipCount(p.queue, guesses);
    if p.mode == Target && n < |p.queue| {
      WellQueuedSuffix(p.queue, boardSize, n + 1);
    }
    var cells := Adjacent(DigitValue(guess[0]), DigitValue(guess[1]));
    OfferAllWellQueued(p.queue, cells, boardSize, guesses);
    OfferAllEffect(p.queue, cells, boardSize, guesses);
  }

  class CPU {
    const boardSize: nat
    var mode: Mode
    var targetQueue: seq<string>
    var guesses: seq<string>

    /** Cells are one digit each and the queue holds readable cells, once
        each. */
    ghost predicate QueueValid()
      reads this
    {
      boardSize <= 10 && WellQueued(targetQueue, boardSize)
    }

    /** The queue is well formed, and empty in hunt mode. */
    ghost predicate Valid()
      reads this
    {
      QueueValid() && (mode == Hunt ==> targetQueue == [])
    }

    /** The mode and target queue, as a value. */
    function State(): Plan
      reads this
    {
      Plan(mode, targetQueue)
    }

    /** new CPU(boardSize) */
    constructor(boardSize: nat)
      requires boardSize <= 10
      ensures Valid() && this.boardSize == boardSize
      ensures mode == Hunt && targetQueue == [] && guesses == []
    {
      this.boardSize := boardSize;
      mode := Hunt;
      targetQueue := [];
      guesses := [];
    }

    /** isValidNewTarget(row, col) */
    function IsValidNewTarget(row: int, col: int): (b: bool)
      reads this
      ensures b <==> ValidNewTarget(row, col, boardSize, guesses)
      ensures b && boardSize <= 10 ==> IsCell(Coord(row, col), boardSize)
    {
      if row < 0 || row >= boardSize || col < 0 || col >= boardSize then false
      else
        var targetStr := Coord(row, col);
        targetStr !in guesses
    }

    /** addAdjacentTargets(row, col) */
    method AddAdjacentTargets(row: int, col: int)
      requires QueueValid()
      modifies this
      ensures QueueValid()
      ensures mode == old(mode) && guesses == old(guesses)
      ensures targetQueue == OfferAll(old(targetQueue), Adjacent(row, col), boardSize, guesses)
    {
      var adjacent := Adjacent(row, col);
      for k := 0 to |adjacent|
        invariant mode == old(mode) && guesses == old(guesses)
        invariant targetQueue == OfferAll(old(targetQueue), adjacent[..k], boardSize, guesses)
      {
        assert adjacent[..k + 1][..k] == adjacent[..k];
        var adj := adjacent[k];
        if IsValidNewTarget(adj.0, adj.1) {
          var adjStr := Coord(adj.0, adj.1);
          if adjStr !in targetQueue {
            targetQueue := targetQueue + [adjStr];
          }
        }
      }
      assert adjacent[..|adjacent|] == adjacent;
      OfferAllWellQueued(old(targetQueue), adjacent, boardSize, guesses);
    }

    /** processGuessResult(guess, result): a sinking hit returns to hunting
        with an empty queue, any other hit switches to targeting with the
        neighbours queued, and a miss ends targeting once the queue is
        empty. Results other than a hit count as a miss. */
    method ProcessGuessResult(guess: string, result: GuessResult)
      requires Valid() && |guess| == 2 && IsDigit(guess[0]) && IsDigit(guess[1])
      modifies this
      ensures Valid() && guesses == old(guesses)
      ensures State() == PlanAfterResult(old(State()), boardSize, guesses, guess, result)
      ensures result == Hit(true) ==> mode == Hunt && targetQueue == []
      ensures result == Hit(false) ==>
        && mode == Target
        && targetQueue == OfferAll(old(targetQueue), Adjacent(DigitValue(guess[0]), DigitValue(guess[1])), boardSize, guesses)
      ensures !result.Hit? ==>
        && targetQueue == old(targetQueue)
        && mode == if old(mode) == Target && old(targetQueue) == [] then Hunt else old(mode)
    {
      var guessRow := DigitValue(guess[0]);
      var guessCol := DigitValue(guess[1]);
      if result.Hit? {
        if result.sunk {
          mode := Hunt;
          targetQueue := [];
        } else {
          mode := Target;
          AddAdjacentTargets(guessRow, guessCol);
        }
      } else {
        if mode == Target && |targetQueue| == 0 {
          mode := Hunt;
        }
      }
    }

    /** The target-mode branch of makeGuess: entries are taken from the
        front of the queue until one has not been guessed yet; a queue that
        runs dry returns the CPU to hunting. */
    method TakeTarget() returns (guess: Option<string>)
      requires Valid()
      modifies this
      ensures Valid() && mode == old(mode)
      ensures var n := SkipCount(old(targetQueue), old(guesses));
        if old(mode) == Target && n < |old(targetQueue)| then
          && guess == Some(old(targetQueue)[n]) && targetQueue == old(targetQueue)[n + 1..]
          && guesses == old(guesses) + [old(targetQueue)[n]]
        else
          guess == None && targetQueue == [] && guesses == old(guesses)
    {
      if mode == Hunt {
        return None;
      }
      var n := CountGuessed(targetQueue, guesses);
      if n == |targetQueue| {
        targetQueue := [];
        return None;
      }
      WellQueuedSuffix(targetQueue, boardSize, n + 1);
      guess := Some(targetQueue[n]);
      guesses := guesses + [targetQueue[n]];
      targetQueue := targetQueue[n + 1..];
    }

    /** makeGuess(opponentBoard), with the hunt-mode draw as huntRow and
        huntCol. In target mode the front of the queue is taken, skipping
        cells already guessed; once the queue runs dry the CPU hunts. None
        stands for a hunt draw the opponent's board refuses, where the
        loop draws again: calling again with a new draw continues it. */
    method MakeGuess(opponent: Board, huntRow: nat, huntCol: nat) returns (guess: Option<string>)
      requires Valid()
      modifies this
      ensures Valid()
      ensures State() == PlanAfterGuess(old(State()), old(guesses))
      ensures var n := SkipCount(old(targetQueue), old(guesses));
        if old(mode) == Target && n < |old(targetQueue)| then
          && guess == Some(old(targetQueue)[n]) && mode == Target && targetQueue == old(targetQueue)[n + 1..]
          && guesses == old(guesses) + [old(targetQueue)[n]]
        else
          && mode == Hunt && targetQueue == []
          && guess == (if opponent.IsValidAndNewGuess(huntRow, huntCol) then Some(Coord(huntRow, huntCol)) else None)
          && guesses == old(guesses) + (if guess.Some? then [guess.value] else [])
      ensures guess.Some? && opponent.size == boardSize ==> IsCell(guess.value, boardSize)
      ensures guess.Some? && old(guesses) == opponent.guesses ==> guess.value !in old(guesses)
    {
      guess := TakeTarget();
      if guess.Some? {
        return;
      }
      mode := Hunt;
      var guessStr := Coord(huntRow, huntCol);
      if !opponent.IsValidAndNewGuess(huntRow, huntCol) {
        return None;
      }
      guesses := guesses + [guessStr];
      return Some(guessStr);
    }

    /** getMode(): hunting always comes with an empty queue. */
    function GetMode(): (m: Mode)
      requires Valid()
      reads this
      ensures m == mode && (m == Hunt ==> targetQueue == [])
    {
      mode
    }
  }
}
