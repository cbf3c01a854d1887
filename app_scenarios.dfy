/** Whole sessions driven through the `App` events, as a player would:
    a game of five timeouts, a correct submit racing a timeout, and playing
    again after a finished game, with the reset as written and as intended. */
module AppScenarios {
  import opened Types
  import opened GameLevels
  import opened Pieces
  import opened PuzzleUtils
  import opened UserProfiles
  import opened App

  /** A random source for one level: every piece starts at the holding
      position and every shuffle step swaps with index 0. */
  function Scatter(): (s: seq<Point>)
    ensures |s| == PUZZLE_GRID_SIZE * PUZZLE_GRID_SIZE
  {
    seq(9, _ => Point(HOLDING_X, HOLDING_Y))
  }

  function Draws(): (js: seq<int>)
    ensures IsShuffleOracle(js, PUZZLE_GRID_SIZE * PUZZLE_GRID_SIZE)
  {
    seq(9, _ => 0)
  }

  /** Every piece moved onto its home position and placed. */
  function Solved(pieces: seq<Piece>): (r: seq<Piece>)
    ensures CheckPuzzleComplete(r) && CheckPuzzleCorrectness(r)
  {
    var r := seq(|pieces|, i requires 0 <= i < |pieces| =>
      pieces[i].(x := pieces[i].correctX, y := pieces[i].correctY, isPlaced := true));
    assert forall p :: p in r ==> p.isPlaced;
    r
  }

  /** Starts a game and lets the timer run out on every level. The game ends
      after exactly five levels, none completed, with a total score of 0, and
      the profile records one game. */
  method TimeOutEveryLevel(app: GameApp, start: int) returns (now: int)
    requires app.Valid() && !app.latch && app.pending == None && !app.gameState.isComplete
    requires app.store.readable && app.store.writable && app.store.stored == None
    modifies app, app.store
    ensures app.Valid() && app.session.gameCompleted && app.showResultScreen && app.latch
    ensures |app.session.levelResults| == |GAME_LEVELS| && app.session.totalScore == 0
    ensures forall i :: 0 <= i < |app.session.levelResults| ==> !app.session.levelResults[i].completed
    ensures app.store.stored != None && app.store.stored.value.gamesPlayed == 1
    ensures app.store.stored.value.name == "Ann" && app.session.playerName == "Ann"
    ensures app.store.readable && app.store.writable
  {
    app.StartGame("Ann");
    now := start;
    while !app.session.gameCompleted
      invariant app.Valid() && app.session.gameStarted && app.session.playerName == "Ann"
      invariant !app.session.gameCompleted ==>
                  !app.latch && app.pending == None && !app.gameState.isComplete && app.store.stored == None
      invariant app.session.gameCompleted ==>
                  app.showResultScreen && app.store.stored != None && app.store.stored.value.gamesPlayed == 1 &&
                  app.store.stored.value.name == "Ann"
      invariant app.store.readable && app.store.writable
      invariant forall i :: 0 <= i < |app.session.levelResults| ==> !app.session.levelResults[i].completed
      decreases |GAME_LEVELS| - |app.session.levelResults|
    {
      app.LevelInitEffect(now, Scatter(), Draws());
      now := now + LEVEL_TIME_LIMIT * 1000;
      app.HandleTimeUp(now, "2026-10-18T00:00:00.000Z");
    }
    TotalOfUncompleted(app.session.levelResults);
  }

  /** Results that were all left uncompleted score nothing in total. */
  lemma {:induction false} TotalOfUncompleted(results: seq<LevelResult>)
    requires forall i :: 0 <= i < |results| ==> !results[i].completed
    requires forall i :: 0 <= i < |results| ==> WellFormedResult(results[i], i + 1)
    ensures Scoring.CalculateTotalScore(results) == 0
  {
    if results != [] {
      var xs := results[..|results| - 1];
      assert forall i :: 0 <= i < |xs| ==> xs[i] == results[i];
      TotalOfUncompleted(xs);
      assert results == xs + [results[|results| - 1]];
      Scoring.TotalScoreAppend(xs, results[|results| - 1]);
    }
  }

  /** A correct submit takes the latch: the timer running out before the
      scheduled completion, and a second submit, change nothing, so the level
      is recorded once, as completed, with its time-based score. */
  method SubmitRacesTimeout() returns (recorded: seq<LevelResult>)
    ensures |recorded| == 1 && recorded[0].completed && recorded[0].level == 1
    ensures recorded[0].timeUsed == 3 && recorded[0].score == Scoring.CalculateScore(3) == 120
  {
    var store := new ProfileStore(None, true, true);
    var app := new GameApp(store);
    app.StartGame("Ann");
    app.LevelInitEffect(0, Scatter(), Draws());
    app.UpdatePieces(Solved(app.gameState.pieces));
    app.HandleSubmit(2000);
    app.HandleTimeUp(2500, "2026-10-18T00:00:00.000Z");
    app.HandleSubmit(2600);
    app.DeferredComplete(3500, "2026-10-18T00:00:00.000Z");
    recorded := app.session.levelResults;
  }

  /** An incomplete board is refused with the advisory message alone; the
      level stays open. */
  method SubmitTooEarly() returns (recorded: seq<LevelResult>, message: Option<SubmitMessage>, open: bool)
    ensures recorded == [] && message == Some(PlaceAllPieces) && open
  {
    var store := new ProfileStore(None, true, true);
    var app := new GameApp(store);
    app.StartGame("Ann");
    app.LevelInitEffect(0, Scatter(), Draws());
    DealProperties(1, Scatter(), Draws());
    assert !CheckPuzzleComplete(app.gameState.pieces);
    app.HandleSubmit(1000);
    recorded, message := app.session.levelResults, app.submitMessage;
    open := !app.latch && !app.gameState.isComplete && app.TimerActive();
  }

  /** Playing again with `resetGame` as written: the latch from the finished
      game is still held, so in the new game neither the timer running out nor
      a correct submit records anything, while the timer keeps running. */
  method PlayAgainIsStuck() returns (firstGame: seq<LevelResult>, secondGame: seq<LevelResult>, timerRunning: bool)
    ensures |firstGame| == |GAME_LEVELS| && secondGame == [] && timerRunning
  {
    var store := new ProfileStore(None, true, true);
    var app := new GameApp(store);
    var now := TimeOutEveryLevel(app, 0);
    firstGame := app.session.levelResults;
    app.ResetGame();
    app.LevelInitEffect(now, Scatter(), Draws());
    app.StartGame("Ann");
    app.LevelInitEffect(now, Scatter(), Draws());
    app.HandleTimeUp(now + 30000, "2026-10-18T00:00:00.000Z");
    app.UpdatePieces(Solved(app.gameState.pieces));
    app.HandleSubmit(now + 31000);
    app.DeferredComplete(now + 33000, "2026-10-18T00:00:00.000Z");
    app.HandleTimeUp(now + 60000, "2026-10-18T00:00:00.000Z");
    secondGame := app.session.levelResults;
    timerRunning := app.TimerActive();
  }

  /** Playing again with the corrected reset: the new game's first timeout
      records level 1 and moves on to level 2. */
  method PlayAgainCorrected() returns (firstGame: seq<LevelResult>, secondGame: seq<LevelResult>, level: int)
    ensures |firstGame| == |GAME_LEVELS| && |secondGame| == 1 && !secondGame[0].completed && level == 2
  {
    var store := new ProfileStore(None, true, true);
    var app := new GameApp(store);
    var now := TimeOutEveryLevel(app, 0);
    firstGame := app.session.levelResults;
    app.ResetGameCorrected();
    app.LevelInitEffect(now, Scatter(), Draws());
    app.StartGame("Ann");
    app.LevelInitEffect(now, Scatter(), Draws());
    app.HandleTimeUp(now + 30000, "2026-10-18T00:00:00.000Z");
    secondGame := app.session.levelResults;
    level := app.session.currentLevel;
  }
}
