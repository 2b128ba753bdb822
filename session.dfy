/** The game page: the session state it keeps (started or not, matches, turns,
    elapsed time, difficulty) and how the board and the timer report into it. */
module Session {
  import opened Wrappers
  import opened Difficulties
  import opened Timer
  import opened GameBoard

  /** The page's state fields. */
  class Game {
    var gameStarted: bool
    var score: nat
    var turns: nat
    var difficulty: Difficulty
    var gameTime: nat

    /** The initial state: not started, counters at zero, easy difficulty. */
    constructor ()
      ensures !gameStarted && score == 0 && turns == 0 && gameTime == 0 && difficulty == Easy
    {
      gameStarted := false;
      score, turns, gameTime := 0, 0, 0;
      difficulty := Easy;
    }

    /** `startGame`: starts and zeroes the three counters; the difficulty stays. */
    method StartGame()
      modifies this
      ensures gameStarted && score == 0 && turns == 0 && gameTime == 0
      ensures difficulty == old(difficulty)
    {
      gameStarted := true;
      score := 0;
      turns := 0;
      gameTime := 0;
    }

    /** `endGame`: stops; the counters and difficulty keep their values. */
    method EndGame()
      modifies this
      ensures !gameStarted
      ensures score == old(score) && turns == old(turns) && gameTime == old(gameTime)
      ensures difficulty == old(difficulty)
    {
      gameStarted := false;
    }

    /** `handleTimeUpdate`: takes over the reported time and nothing else. */
    method HandleTimeUpdate(time: nat)
      modifies this
      ensures gameTime == time
      ensures gameStarted == old(gameStarted) && score == old(score) && turns == old(turns)
      ensures difficulty == old(difficulty)
    {
      gameTime := time;
    }

    /** The `incrementScore` callback handed to the board. */
    method IncrementScore()
      modifies this
      ensures score == old(score) + 1
      ensures gameStarted == old(gameStarted) && turns == old(turns) && gameTime == old(gameTime)
      ensures difficulty == old(difficulty)
    {
      score := score + 1;
    }

    /** The `incrementTurns` callback handed to the board. */
    method IncrementTurns()
      modifies this
      ensures turns == old(turns) + 1
      ensures gameStarted == old(gameStarted) && score == old(score) && gameTime == old(gameTime)
      ensures difficulty == old(difficulty)
    {
      turns := turns + 1;
    }

    /** `setDifficulty`, handed to the controls, which are shown only before a
        game is started. */
    method SetDifficulty(d: Difficulty)
      requires !gameStarted
      modifies this
      ensures difficulty == d
      ensures gameStarted == old(gameStarted) && score == old(score) && turns == old(turns)
      ensures gameTime == old(gameTime)
    {
      difficulty := d;
    }
  }

  /** While a game runs, the page's counters are the ones the mounted board has
      reported and the time the mounted timer has reported. */
  ghost predicate Agrees(game: Game, board: Board, ticker: Ticker)
    reads game, board, ticker
  {
    && game.gameStarted && ticker.running
    && board.difficulty == game.difficulty
    && board.Valid()
    && game.score == board.score && game.turns == board.turns
    && game.gameTime == ticker.seconds
  }

  /** Pressing "Start Game": the page starts and a fresh board and a fresh timer
      are mounted for the chosen difficulty. */
  method Start(game: Game) returns (board: Board, ticker: Ticker)
    modifies game
    ensures fresh(board) && fresh(ticker)
    ensures Agrees(game, board, ticker)
    ensures board.State() == Mounted() && game.difficulty == old(game.difficulty)
    ensures game.score == 0 && game.turns == 0 && game.gameTime == 0 && ticker.seconds == 0
  {
    game.StartGame();
    board := new Board(game.difficulty);
    ticker := new Ticker(true);
  }

  /** A click on a card: the board's step, with its increment callbacks landing on
      the page; the page's match count never exceeds the number of pairs. */
  method Click(game: Game, board: Board, ticker: Ticker, i: nat)
    requires Agrees(game, board, ticker) && i < |board.cards|
    modifies game, board
    ensures Agrees(game, board, ticker)
    ensures board.State() == Select(old(board.State()), i)
    ensures game.gameTime == old(game.gameTime)
    ensures game.score <= PairCount(game.difficulty)
  {
    var turnTaken, matchFound := board.HandleChoice(i);
    if turnTaken {
      game.IncrementTurns();
    }
    if matchFound {
      game.IncrementScore();
    }
    ScoreBounded(board.difficulty, board.State());
  }

  /** A render of the page, which follows every change of its state (an increment
      reported by the board, each second of the timer): the page hands the board
      new increment callbacks, so the match effect runs again, and whatever it
      reports lands on the page as well. During a mismatch wait that is one more
      turn each time (`GameBoard.MismatchReruns`). */
  method Rerender(game: Game, board: Board, ticker: Ticker)
    requires Agrees(game, board, ticker)
    modifies game, board
    ensures Agrees(game, board, ticker)
    ensures board.State() == CheckMatch(old(board.State()))
    ensures game.turns == old(game.turns) + (if old(board.secondChoice).Some? then 1 else 0)
    ensures game.score == old(game.score) && game.gameTime == old(game.gameTime)
  {
    RerunInv(board.difficulty, board.State());
    // A re-run never finds a match: a matching pair is resolved by the run the
    // click itself triggers, so only `incrementTurns` can be called here.
    var turnTaken, _ := board.MatchCheck();
    if turnTaken {
      game.IncrementTurns();
    }
  }

  /** A delayed `resetTurn` firing: the one queued by the mismatch, or one queued
      by an earlier re-run, which may also flip back a later first pick. */
  method TurnTimeout(game: Game, board: Board, ticker: Ticker)
    requires Agrees(game, board, ticker)
    modifies board
    ensures Agrees(game, board, ticker)
    ensures board.State() == ResetTurn(old(board.State()))
  {
    board.Reset();
  }

  /** One second of the running timer, reported to the page. */
  method Second(game: Game, board: Board, ticker: Ticker)
    requires Agrees(game, board, ticker)
    modifies game, ticker
    ensures Agrees(game, board, ticker)
    ensures game.gameTime == old(game.gameTime) + 1
    ensures game.score == old(game.score) && game.turns == old(game.turns)
  {
    var reported := ticker.Tick();
    match reported {
      case Some(t) => game.HandleTimeUpdate(t);
      case None =>
    }
  }
}
