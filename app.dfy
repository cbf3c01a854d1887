/** The game session (src/App.tsx): five levels played in order, each ended
    by a timeout or a submit, with results, totals and the saved profile.

    React state setters become field assignments, applied in the order the
    handlers call them. The deferred `completeLevel` that a submit schedules
    with `setTimeout` is the explicit event `DeferredComplete`; the level
    initialisation effect is the explicit event `LevelInitEffect`, which does
    its work only when its dependencies changed since it last ran. Clock
    readings arrive as `now` (milliseconds) and `nowIso` (an ISO date string);
    the random source of piece generation arrives as `scatter` and `js`. */
module App {
  import opened Types
  import opened GameLevels
  import opened Pieces
  import opened Scoring
  import opened PuzzleUtils
  import opened UserProfiles

  /** The advisory line under the timer. */
  datatype SubmitMessage = PlaceAllPieces | Correct | Incorrect

  const INITIAL_GAME_STATE: GameState := GameState([], false, None, None, 0, None)

  const INITIAL_SESSION: GameSession :=
    GameSession(1, |GAME_LEVELS|, [], 0, 0, false, false, "")

  /** The board every level uses: a 3 by 3 grid of 100-pixel pieces showing the level's image. */
  function LevelConfig(level: int): PuzzleConfig
    requires 1 <= level <= |GAME_LEVELS|
  {
    PuzzleConfig(PUZZLE_GRID_SIZE, PUZZLE_GRID_SIZE, PIECE_SIZE, GAME_LEVELS[level - 1].imageUrl, Easy)
  }

  /** Whole seconds since the level started, rounded down; the full time limit
      when no start time was recorded. */
  function TimeUsed(levelStart: Option<int>, now: int): int
  {
    if levelStart != None then (now - levelStart.value) / 1000 else LEVEL_TIME_LIMIT
  }

  /** The seconds count is the whole number of seconds elapsed: never more than
      the elapsed milliseconds allow, and less than one second short of them. */
  lemma TimeUsedBounds(start: int, now: int)
    ensures TimeUsed(Some(start), now) * 1000 <= now - start < TimeUsed(Some(start), now) * 1000 + 1000
    ensures start <= now ==> TimeUsed(Some(start), now) >= 0
    ensures TimeUsed(None, now) == LEVEL_TIME_LIMIT
  {
  }

  /** The result recorded for the level being played. Only a correct board
      scores; any other ending scores zero. */
  function NewLevelResult(s: GameSession, completed: bool, timeUsed: int): (r: LevelResult)
    requires 1 <= s.currentLevel <= |GAME_LEVELS|
    ensures r.level == s.currentLevel && r.completed == completed && r.timeUsed == timeUsed
    ensures !completed ==> r.score == 0
    ensures completed ==> r.score == CalculateScore(timeUsed) && 0 <= r.score <= 120
    ensures r.imageUrl == GAME_LEVELS[s.currentLevel - 1].imageUrl
  {
    LevelResult(s.currentLevel, completed, timeUsed, if completed then CalculateScore(timeUsed) else 0,
                GAME_LEVELS[s.currentLevel - 1].imageUrl)
  }

  /** The session after `completeLevel` records `result`: the result appended,
      both totals recomputed over the whole list, then either the next level or
      the end of the game. */
  function CompleteSession(s: GameSession, result: LevelResult): GameSession
  {
    var results := s.levelResults + [result];
    var recorded := s.(levelResults := results,
                       totalScore := CalculateTotalScore(results),
                       totalTime := CalculateTotalTime(results));
    if s.currentLevel < s.totalLevels then recorded.(currentLevel := s.currentLevel + 1)
    else recorded.(gameCompleted := true)
  }

  /** What every recorded result satisfies: it is the result of level `level`,
      shows that level's image, and scores only when completed. */
  predicate WellFormedResult(r: LevelResult, level: int)
  {
    r.level == level && 1 <= level <= |GAME_LEVELS| &&
    r.imageUrl == GAME_LEVELS[level - 1].imageUrl &&
    r.score == (if r.completed then CalculateScore(r.timeUsed) else 0)
  }

  /** The session invariant: one result per finished level, in level order,
      and totals that are the sums over the results. */
  predicate SessionInvariant(s: GameSession)
  {
    s.totalLevels == |GAME_LEVELS| && 1 <= s.currentLevel <= s.totalLevels &&
    |s.levelResults| == (if s.gameCompleted then s.totalLevels else s.currentLevel - 1) &&
    (s.gameCompleted ==> s.currentLevel == s.totalLevels) &&
    s.totalScore == CalculateTotalScore(s.levelResults) &&
    s.totalTime == CalculateTotalTime(s.levelResults) &&
    forall i :: 0 <= i < |s.levelResults| ==> WellFormedResult(s.levelResults[i], i + 1)
  }

  lemma InitialSessionInvariant()
    ensures SessionInvariant(INITIAL_SESSION) && !INITIAL_SESSION.gameCompleted
  {
  }

  /** Completing a level keeps the invariant, adds exactly that level's result
      to the totals, and ends the game exactly on the last level. */
  lemma CompleteSessionKeepsInvariant(s: GameSession, completed: bool, timeUsed: int)
    requires SessionInvariant(s) && !s.gameCompleted
    ensures var result := NewLevelResult(s, completed, timeUsed);
            var r := CompleteSession(s, result);
            SessionInvariant(r) &&
            r.levelResults == s.levelResults + [result] &&
            r.totalScore == s.totalScore + result.score &&
            r.totalTime == s.totalTime + timeUsed &&
            (r.gameCompleted <==> s.currentLevel == s.totalLevels) &&
            (!r.gameCompleted ==> r.currentLevel == s.currentLevel + 1) &&
            r.playerName == s.playerName && r.gameStarted == s.gameStarted &&
            r.totalLevels == s.totalLevels
  {
    var result := NewLevelResult(s, completed, timeUsed);
    TotalScoreAppend(s.levelResults, result);
    TotalTimeAppend(s.levelResults, result);
    var r := CompleteSession(s, result);
    forall i | 0 <= i < |r.levelResults| ensures WellFormedResult(r.levelResults[i], i + 1) {
      if i < |s.levelResults| {
        assert r.levelResults[i] == s.levelResults[i];
      }
    }
  }

  /** Every total a session shows lies between 0 and 120 points per finished level. */
  lemma SessionScoreBounds(s: GameSession)
    requires SessionInvariant(s)
    ensures 0 <= s.totalScore <= 120 * |s.levelResults| <= 120 * |GAME_LEVELS|
  {
    forall i | 0 <= i < |s.levelResults| ensures 0 <= s.levelResults[i].score <= 120 {
      assert WellFormedResult(s.levelResults[i], i + 1);
    }
    TotalScoreBounds(s.levelResults);
  }

  /** Playing five levels from a fresh session ends the game with five results,
      whatever each level's outcome. */
  lemma {:induction false} FiveLevelsEndTheGame(s: GameSession, outcomes: seq<(bool, int)>)
    requires SessionInvariant(s) && !s.gameCompleted
    requires |outcomes| == s.totalLevels - s.currentLevel + 1
    ensures var r := PlayOut(s, outcomes);
            SessionInvariant(r) && r.gameCompleted && |r.levelResults| == |GAME_LEVELS| &&
            r.levelResults[..|s.levelResults|] == s.levelResults
    decreases |outcomes|
  {
    var next := CompleteSession(s, NewLevelResult(s, outcomes[0].0, outcomes[0].1));
    CompleteSessionKeepsInvariant(s, outcomes[0].0, outcomes[0].1);
    if |outcomes| > 1 {
      FiveLevelsEndTheGame(next, outcomes[1..]);
      assert next.levelResults[..|s.levelResults|] == s.levelResults;
    }
  }

  /** The session after completing the current level with each outcome in turn. */
  function PlayOut(s: GameSession, outcomes: seq<(bool, int)>): GameSession
    requires SessionInvariant(s)
    decreases |outcomes|
  {
    if outcomes == [] || s.gameCompleted then s
    else
      CompleteSessionKeepsInvariant(s, outcomes[0].0, outcomes[0].1);
      PlayOut(CompleteSession(s, NewLevelResult(s, outcomes[0].0, outcomes[0].1)), outcomes[1..])
  }

  /** The pieces dealt for a level: the generated grid shuffled by `js`. */
  function Deal(level: int, scatter: seq<Point>, js: seq<int>): seq<Piece>
    requires 1 <= level <= |GAME_LEVELS|
    requires |scatter| == PUZZLE_GRID_SIZE * PUZZLE_GRID_SIZE
    requires IsShuffleOracle(js, PUZZLE_GRID_SIZE * PUZZLE_GRID_SIZE)
  {
    Shuffle(GridPieces(LevelConfig(level), scatter), js)
  }

  /** A level starts with nine pieces, unique ids, distinct home positions and
      every piece in the holding area. */
  lemma DealProperties(level: int, scatter: seq<Point>, js: seq<int>)
    requires 1 <= level <= |GAME_LEVELS|
    requires |scatter| == PUZZLE_GRID_SIZE * PUZZLE_GRID_SIZE
    requires IsShuffleOracle(js, PUZZLE_GRID_SIZE * PUZZLE_GRID_SIZE)
    ensures var pieces := Deal(level, scatter, js);
            |pieces| == 9 && UniqueIds(pieces) && DistinctHomes(pieces) && Unplaced(pieces) == pieces
  {
    var config := LevelConfig(level);
    var grid := GridPieces(config, scatter);
    var pieces := Deal(level, scatter, js);
    GridPiecesDistinct(config, scatter);
    ShuffleKeepsIdsAndHomes(grid, js);
    ShufflePermutes(grid, js);
    forall p | p in pieces ensures IsFreshPiece(config, p) {
      assert p in multiset(pieces);
    }
    AllFreshAreUnplaced(config, pieces);
  }

  /** `generatePuzzlePieces(puzzleConfig)` for a level. */
  method DealPieces(level: int, scatter: seq<Point>, js: seq<int>) returns (pieces: seq<Piece>)
    requires 1 <= level <= |GAME_LEVELS|
    requires |scatter| == PUZZLE_GRID_SIZE * PUZZLE_GRID_SIZE
    requires IsShuffleOracle(js, PUZZLE_GRID_SIZE * PUZZLE_GRID_SIZE)
    ensures pieces == Deal(level, scatter, js)
  {
    pieces := GeneratePuzzlePieces(LevelConfig(level), scatter, js);
  }

  /** The storage slot after a finished game is saved: the merged profile when
      the write succeeds, the old contents otherwise. */
  function StoredAfterGame(stored: Option<UserProfile>, readable: bool, writable: bool,
                           playerName: string, levelResults: seq<LevelResult>, nowIso: string)
    : Option<UserProfile>
  {
    if writable then Some(MergeProfile(if readable then stored else None, playerName, levelResults, nowIso))
    else stored
  }

  /** The `App` component's state. `store` is the profile storage slot. */
  class GameApp {
    var session: GameSession
    var gameState: GameState
    var currentLevelStartTime: Option<int>
    var showResultScreen: bool
    var submitMessage: Option<SubmitMessage>
    /** `isProcessingLevelCompletion.current`: set when a timeout or a submit
        starts to end the level, so that the level is ended only once. */
    var latch: bool
    /** The outcome of the `completeLevel` call a submit has scheduled, if any. */
    var pending: Option<bool>
    /** The dependencies (`currentLevel`, `gameStarted`) the level
        initialisation effect last ran with. */
    var effectLevel: int
    var effectStarted: bool
    const store: ProfileStore

    predicate Valid()
      reads this
    {
      SessionInvariant(session) &&
      (pending != None ==> latch && !session.gameCompleted) &&
      (session.gameCompleted ==> latch) &&
      (gameState.isComplete ==> latch)
    }

    /** Whether the level's Timer is running. */
    predicate TimerActive()
      reads this
    {
      session.gameStarted && !gameState.isComplete
    }

    /** First render: nothing started, and the initialisation effect has run
        once with level 1 and the game not started, doing nothing. */
    constructor(store: ProfileStore)
      ensures Valid()
      ensures session == INITIAL_SESSION && gameState == INITIAL_GAME_STATE
      ensures currentLevelStartTime == None && !showResultScreen && submitMessage == None
      ensures !latch && pending == None
      ensures effectLevel == 1 && !effectStarted && this.store == store
    {
      session := INITIAL_SESSION;
      gameState := INITIAL_GAME_STATE;
      currentLevelStartTime := None;
      showResultScreen := false;
      submitMessage := None;
      latch := false;
      pending := None;
      effectLevel := 1;
      effectStarted := false;
      this.store := store;
    }

    /** The level initialisation effect, after a render. When `currentLevel` or
        `gameStarted` changed and the game is on, it deals the level's pieces
        and starts the level clock; the latch is left alone. */
    method LevelInitEffect(now: int, scatter: seq<Point>, js: seq<int>)
      requires Valid()
      requires |scatter| == PUZZLE_GRID_SIZE * PUZZLE_GRID_SIZE
      requires IsShuffleOracle(js, PUZZLE_GRID_SIZE * PUZZLE_GRID_SIZE)
      modifies this
      ensures Valid()
      ensures session == old(session) && latch == old(latch) && pending == old(pending)
      ensures submitMessage == old(submitMessage) && showResultScreen == old(showResultScreen)
      ensures effectLevel == session.currentLevel && effectStarted == session.gameStarted
      ensures var runs := (old(effectLevel) != session.currentLevel || old(effectStarted) != session.gameStarted)
                          && session.gameStarted;
              (runs ==>
                 gameState == GameState(Deal(session.currentLevel, scatter, js), false, Some(now), None, 0, None) &&
                 currentLevelStartTime == Some(now)) &&
              (!runs ==> gameState == old(gameState) && currentLevelStartTime == old(currentLevelStartTime))
    {
      var level, started := session.currentLevel, session.gameStarted;
      if effectLevel != level || effectStarted != started {
        effectLevel, effectStarted := level, started;
        if started {
          var pieces := DealPieces(level, scatter, js);
          gameState := GameState(pieces, false, Some(now), None, 0, None);
          currentLevelStartTime := Some(now);
        }
      }
    }

    /** `startGame`: a new session for `playerName` from level 1; the per-level
        state and the latch are left as they are. */
    method StartGame(playerName: string)
      requires Valid()
      modifies this
      ensures Valid()
      ensures session == old(session).(gameStarted := true, currentLevel := 1, levelResults := [],
                                       totalScore := 0, totalTime := 0, gameCompleted := false,
                                       playerName := playerName)
      ensures session.totalLevels == old(session.totalLevels)
      ensures !showResultScreen
      ensures gameState == old(gameState) && latch == old(latch) && pending == old(pending)
      ensures currentLevelStartTime == old(currentLevelStartTime) && submitMessage == old(submitMessage)
      ensures effectLevel == old(effectLevel) && effectStarted == old(effectStarted)
    {
      session := session.(gameStarted := true, currentLevel := 1, levelResults := [],
                          totalScore := 0, totalTime := 0, gameCompleted := false,
                          playerName := playerName);
      showResultScreen := false;
    }

    /** `resetGame` as written: session and per-level state back to their
        initial values, but the latch and any scheduled completion survive. */
    method ResetGame()
      requires Valid()
      modifies this
      ensures Valid()
      ensures session == INITIAL_SESSION && gameState == INITIAL_GAME_STATE && !showResultScreen
      ensures latch == old(latch) && pending == old(pending)
      ensures currentLevelStartTime == old(currentLevelStartTime) && submitMessage == old(submitMessage)
      ensures effectLevel == old(effectLevel) && effectStarted == old(effectStarted)
    {
      session := INITIAL_SESSION;
      gameState := INITIAL_GAME_STATE;
      showResultScreen := false;
    }

    /** `resetGame` as evidently intended: additionally releases the latch and
        drops a scheduled completion, so the next game can be ended. */
    method ResetGameCorrected()
      requires Valid()
      modifies this
      ensures Valid()
      ensures session == INITIAL_SESSION && gameState == INITIAL_GAME_STATE && !showResultScreen
      ensures !latch && pending == None && submitMessage == None
      ensures currentLevelStartTime == old(currentLevelStartTime)
      ensures effectLevel == old(effectLevel) && effectStarted == old(effectStarted)
    {
      session := INITIAL_SESSION;
      gameState := INITIAL_GAME_STATE;
      showResultScreen := false;
      latch := false;
      pending := None;
      submitMessage := None;
    }

    /** `updatePieces`: the new piece list, and one more move. */
    method UpdatePieces(newPieces: seq<Piece>)
      requires Valid()
      modifies this
      ensures Valid()
      ensures gameState == old(gameState).(pieces := newPieces, moves := old(gameState.moves) + 1)
      ensures session == old(session) && latch == old(latch) && pending == old(pending)
      ensures currentLevelStartTime == old(currentLevelStartTime) && submitMessage == old(submitMessage)
      ensures showResultScreen == old(showResultScreen)
      ensures effectLevel == old(effectLevel) && effectStarted == old(effectStarted)
    {
      gameState := gameState.(pieces := newPieces, moves := gameState.moves + 1);
    }

    /** The selection callback handed to the board and the side panel. */
    method SelectPiece(id: Option<string>)
      requires Valid()
      modifies this
      ensures Valid()
      ensures gameState == old(gameState).(selectedPiece := id)
      ensures session == old(session) && latch == old(latch) && pending == old(pending)
      ensures currentLevelStartTime == old(currentLevelStartTime) && submitMessage == old(submitMessage)
      ensures showResultScreen == old(showResultScreen)
      ensures effectLevel == old(effectLevel) && effectStarted == old(effectStarted)
    {
      gameState := gameState.(selectedPiece := id);
    }

    /** The 3-second timer that clears the advisory message. */
    method ClearSubmitMessage()
      requires Valid()
      modifies this
      ensures Valid()
      ensures submitMessage == None
      ensures session == old(session) && gameState == old(gameState)
      ensures latch == old(latch) && pending == old(pending)
      ensures currentLevelStartTime == old(currentLevelStartTime) && showResultScreen == old(showResultScreen)
      ensures effectLevel == old(effectLevel) && effectStarted == old(effectStarted)
    {
      submitMessage := None;
    }

    /** `completeLevel`: records the level's result and moves to the next level,
        or ends the game and saves the profile. Only the first of these
        releases the latch. */
    method CompleteLevel(completed: bool, now: int, nowIso: string)
      requires Valid() && latch && pending == None && !session.gameCompleted
      modifies this, store
      ensures Valid()
      ensures var result := NewLevelResult(old(session), completed, TimeUsed(old(currentLevelStartTime), now));
              session == CompleteSession(old(session), result) &&
              |session.levelResults| == |old(session.levelResults)| + 1 &&
              session.totalScore == old(session.totalScore) + result.score
      ensures pending == None
      ensures old(session.currentLevel) < old(session.totalLevels) ==>
                !latch && gameState == INITIAL_GAME_STATE && currentLevelStartTime == Some(now) &&
                submitMessage == None && showResultScreen == old(showResultScreen) &&
                store.stored == old(store.stored)
      ensures old(session.currentLevel) == old(session.totalLevels) ==>
                latch && session.gameCompleted && showResultScreen &&
                gameState == old(gameState) && currentLevelStartTime == old(currentLevelStartTime) &&
                submitMessage == old(submitMessage) &&
                store.stored == StoredAfterGame(old(store.stored), old(store.readable), old(store.writable),
                                                session.playerName, session.levelResults, nowIso)
      ensures store.readable == old(store.readable) && store.writable == old(store.writable)
      ensures effectLevel == old(effectLevel) && effectStarted == old(effectStarted)
    {
      var timeUsed := TimeUsed(currentLevelStartTime, now);
      var result := NewLevelResult(session, completed, timeUsed);
      CompleteSessionKeepsInvariant(session, completed, timeUsed);
      var next := CompleteSession(session, result);
      if session.currentLevel < session.totalLevels {
        session := next;
        gameState := INITIAL_GAME_STATE;
        currentLevelStartTime := Some(now);
        submitMessage := None;
        latch := false;
      } else {
        session := next;
        var profile := UpdateUserProfile(store, session.playerName, session.levelResults, nowIso);
        showResultScreen := true;
      }
    }

    /** `handleTimeUp`: ignored once the level is complete or already being
        ended; otherwise takes the latch, stops the level and records it as not
        completed, at once. */
    method HandleTimeUp(now: int, nowIso: string)
      requires Valid()
      modifies this, store
      ensures Valid()
      ensures old(gameState.isComplete || latch) ==>
                session == old(session) && gameState == old(gameState) && latch == old(latch) &&
                pending == old(pending) && submitMessage == old(submitMessage) &&
                currentLevelStartTime == old(currentLevelStartTime) &&
                showResultScreen == old(showResultScreen) && store.stored == old(store.stored)
      ensures !old(gameState.isComplete || latch) ==>
                session == CompleteSession(old(session),
                             NewLevelResult(old(session), false, TimeUsed(old(currentLevelStartTime), now))) &&
                session.levelResults[|session.levelResults| - 1].score == 0 &&
                (latch <==> session.gameCompleted) &&
                (!session.gameCompleted ==>
                   gameState == INITIAL_GAME_STATE && currentLevelStartTime == Some(now) &&
                   submitMessage == None && showResultScreen == old(showResultScreen)) &&
                (session.gameCompleted ==>
                   gameState == old(gameState).(isComplete := true, endTime := Some(now)) &&
                   currentLevelStartTime == old(currentLevelStartTime) && submitMessage == old(submitMessage))
      ensures store.readable == old(store.readable) && store.writable == old(store.writable)
      ensures session.gameCompleted && !old(session.gameCompleted) ==>
                showResultScreen &&
                store.stored == StoredAfterGame(old(store.stored), old(store.readable), old(store.writable),
                                                session.playerName, session.levelResults, nowIso)
      ensures !session.gameCompleted ==> store.stored == old(store.stored)
      ensures pending == old(pending)
      ensures effectLevel == old(effectLevel) && effectStarted == old(effectStarted)
    {
      if gameState.isComplete || latch {
        return;
      }
      latch := true;
      gameState := gameState.(isComplete := true, endTime := Some(now));
      CompleteLevel(false, now, nowIso);
    }

    /** `handleSubmit`: ignored once the level is complete or already being
        ended. With a piece still in the holding area only the advisory message
        changes. Otherwise it takes the latch and schedules `completeLevel`
        with the board's correctness; a correct board also stops the level. */
    method HandleSubmit(now: int)
      requires Valid()
      modifies this
      ensures Valid()
      ensures old(gameState.isComplete || latch) ==>
                session == old(session) && gameState == old(gameState) && latch == old(latch) &&
                pending == old(pending) && submitMessage == old(submitMessage)
      ensures !old(gameState.isComplete || latch) && !CheckPuzzleComplete(old(gameState.pieces)) ==>
                submitMessage == Some(PlaceAllPieces) &&
                session == old(session) && gameState == old(gameState) && !latch && pending == None
      ensures !old(gameState.isComplete || latch) && CheckPuzzleComplete(old(gameState.pieces)) ==>
                var correct := CheckPuzzleCorrectness(old(gameState.pieces));
                latch && pending == Some(correct) && session == old(session) &&
                submitMessage == Some(if correct then Correct else Incorrect) &&
                gameState == (if correct then old(gameState).(isComplete := true, endTime := Some(now))
                              else old(gameState))
      ensures currentLevelStartTime == old(currentLevelStartTime) && showResultScreen == old(showResultScreen)
      ensures effectLevel == old(effectLevel) && effectStarted == old(effectStarted)
    {
      if gameState.isComplete || latch {
        return;
      }
      var allPiecesPlaced := CheckPuzzleComplete(gameState.pieces);
      if !allPiecesPlaced {
        submitMessage := Some(PlaceAllPieces);
        return;
      }
      latch := true;
      var isCorrectlyCompleted := CheckPuzzleCorrectness(gameState.pieces);
      if isCorrectlyCompleted {
        submitMessage := Some(Correct);
        gameState := gameState.(isComplete := true, endTime := Some(now));
        pending := Some(true);
      } else {
        submitMessage := Some(Incorrect);
        pending := Some(false);
      }
    }

    /** The `setTimeout` callback a submit scheduled (1.5 s after a correct
        board, 2 s after an incorrect one): completes the level with the
        scheduled outcome, then clears the message. */
    method DeferredComplete(now: int, nowIso: string)
      requires Valid()
      modifies this, store
      ensures Valid()
      ensures old(pending) == None ==>
                session == old(session) && gameState == old(gameState) && latch == old(latch) &&
                submitMessage == old(submitMessage) && store.stored == old(store.stored) &&
                currentLevelStartTime == old(currentLevelStartTime) && showResultScreen == old(showResultScreen)
      ensures old(pending) != None ==>
                var result := NewLevelResult(old(session), old(pending).value, TimeUsed(old(currentLevelStartTime), now));
                session == CompleteSession(old(session), result) &&
                result.completed == old(pending).value &&
                submitMessage == None && (latch <==> session.gameCompleted) &&
                (!session.gameCompleted ==>
                   gameState == INITIAL_GAME_STATE && currentLevelStartTime == Some(now) &&
                   showResultScreen == old(showResultScreen)) &&
                (session.gameCompleted ==>
                   gameState == old(gameState) && currentLevelStartTime == old(currentLevelStartTime))
      ensures store.readable == old(store.readable) && store.writable == old(store.writable)
      ensures session.gameCompleted && !old(session.gameCompleted) ==>
                showResultScreen &&
                store.stored == StoredAfterGame(old(store.stored), old(store.readable), old(store.writable),
                                                session.playerName, session.levelResults, nowIso)
      ensures !session.gameCompleted ==> store.stored == old(store.stored)
      ensures pending == None
      ensures effectLevel == old(effectLevel) && effectStarted == old(effectStarted)
    {
      if pending == None {
        return;
      }
      var completed := pending.value;
      pending := None;
      CompleteLevel(completed, now, nowIso);
      submitMessage := None;
    }
  }

  /** Generated pieces all start in the holding area. */
  lemma {:induction false} AllFreshAreUnplaced(config: PuzzleConfig, pieces: seq<Piece>)
    requires forall p :: p in pieces ==> IsFreshPiece(config, p)
    ensures Unplaced(pieces) == pieces
  {
    if pieces != [] {
      assert IsFreshPiece(config, pieces[0]);
      assert forall p :: p in pieces[1..] ==> p in pieces;
      AllFreshAreUnplaced(config, pieces[1..]);
    }
  }
}
