/** Record shapes of the game (src/types.ts) as value types.
    Pixel coordinates and timestamps are integers: positions in board pixels,
    timestamps in milliseconds. */
module Types {

  datatype Option<+T> = None | Some(value: T)

  /** A pixel position or offset. */
  datatype Point = Point(x: int, y: int)

  /** A puzzle piece. `correctX/correctY` and `imageX/imageY` are fixed when the
      piece is generated; only `x`, `y` and `isPlaced` change during play. */
  datatype Piece = Piece(
    id: string,
    x: int,
    y: int,
    correctX: int,
    correctY: int,
    imageX: int,
    imageY: int,
    width: int,
    height: int,
    isPlaced: bool,
    isSelected: bool)

  datatype Difficulty = Easy | Medium | Hard

  datatype PuzzleConfig = PuzzleConfig(
    rows: nat,
    cols: nat,
    pieceSize: int,
    imageUrl: string,
    difficulty: Difficulty)

  /** The per-level play state. */
  datatype GameState = GameState(
    pieces: seq<Piece>,
    isComplete: bool,
    startTime: Option<int>,
    endTime: Option<int>,
    moves: int,
    selectedPiece: Option<string>)

  /** One finished level; appended to the session and never changed afterwards. */
  datatype LevelResult = LevelResult(
    level: int,
    completed: bool,
    timeUsed: int,
    score: int,
    imageUrl: string)

  datatype GameLevel = GameLevel(id: int, imageUrl: string, name: string)

  datatype GameSession = GameSession(
    currentLevel: int,
    totalLevels: int,
    levelResults: seq<LevelResult>,
    totalScore: int,
    totalTime: int,
    gameStarted: bool,
    gameCompleted: bool,
    playerName: string)

  datatype UserProfile = UserProfile(
    name: string,
    bestScore: int,
    bestTime: int,
    gamesPlayed: int,
    lastPlayed: string)
}

/** The level catalog and the fixed game constants (src/data/gameLevels.ts). */
module GameLevels {
  import opened Types

  const GAME_LEVELS: seq<GameLevel> := [
    GameLevel(1, "/images/level1.jpg", "Level 1 - Your Image 1"),
    GameLevel(2, "/images/level2.jpg", "Level 2 - Your Image 2"),
    GameLevel(3, "/images/level3.jpg", "Level 3 - Your Image 3"),
    GameLevel(4, "/images/level4.jpg", "Level 4 - Your Image 4"),
    GameLevel(5, "/images/level5.jpg", "Level 5 - Your Image 5")
  ]

  /** Seconds allowed per level. */
  const LEVEL_TIME_LIMIT: int := 30
  /** Rows and columns of every level's grid. */
  const PUZZLE_GRID_SIZE: nat := 3
  /** Edge of one piece, in pixels. */
  const PIECE_SIZE: int := 100
}
