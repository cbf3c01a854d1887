/** The side panel (src/components/GameControls.tsx): the holding area that
    takes pieces back off the board, the difficulty presets and the
    custom-image field. */
module GameControls {
  import opened Types
  import opened Text
  import opened Pieces
  import PuzzleUtils
  import PuzzleBoard

  /** The holding area's `drop` handler: with a drag offset, the dropped piece
      goes back to the holding position unplaced, and the update is emitted
      whether or not any piece has that id. */
  function HoldingDrop(pieces: seq<Piece>, id: string, delta: Option<Point>): (r: Option<seq<Piece>>)
    ensures delta == None <==> r == None
    ensures r != None ==> SameSkeleton(pieces, r.value)
    ensures r != None ==> forall i :: 0 <= i < |pieces| ==>
              if pieces[i].id == id
              then r.value[i].x == HOLDING_X && r.value[i].y == HOLDING_Y && !r.value[i].isPlaced
              else r.value[i] == pieces[i]
  {
    if delta == None then None
    else
      MoveWhereKeepsSkeleton(pieces, id, HOLDING_X, HOLDING_Y, false);
      Some(MoveWhere(pieces, id, HOLDING_X, HOLDING_Y, false))
  }

  /** Dropping into the holding area gives the same pieces as dropping outside
      the board's grid. */
  lemma HoldingDropMatchesBoardOutside(pieces: seq<Piece>, config: PuzzleConfig, id: string,
                                       delta: Point, boardOrigin: Point, clientOffset: Point)
    requires config.pieceSize > 0 && HasId(pieces, id)
    requires var p := PuzzleBoard.DropPoint(boardOrigin, clientOffset);
             p.x < 0 || p.y < 0 || p.x >= config.cols * config.pieceSize || p.y >= config.rows * config.pieceSize
    ensures HoldingDrop(pieces, id, Some(delta))
            == PuzzleBoard.Drop(pieces, config, id, Some(delta), Some(boardOrigin), Some(clientOffset))
  {
    PuzzleBoard.DropOutsideGrid(pieces, config, id, delta, boardOrigin, clientOffset);
  }

  /** A holding-area drop keeps unique ids and never creates two placed pieces on one position. */
  lemma HoldingDropKeepsNoSharedSlots(pieces: seq<Piece>, id: string, delta: Option<Point>)
    requires UniqueIds(pieces) && NoSharedSlots(pieces)
    ensures HoldingDrop(pieces, id, delta) != None ==>
              UniqueIds(HoldingDrop(pieces, id, delta).value) && NoSharedSlots(HoldingDrop(pieces, id, delta).value)
  {
  }

  /** Rows, columns and piece size of the difficulty presets. */
  function DifficultyPreset(d: Difficulty): (nat, nat, int)
  {
    match d
    case Easy => (3, 3, 100)
    case Medium => (4, 4, 80)
    case Hard => (6, 6, 60)
  }

  /** `handleDifficultyChange`: applies the preset's grid and piece size and the
      difficulty itself; the image is kept. */
  function HandleDifficultyChange(config: PuzzleConfig, d: Difficulty): (r: PuzzleConfig)
    ensures r.imageUrl == config.imageUrl && r.difficulty == d
    ensures r.rows == r.cols && r.pieceSize > 0
    ensures r.rows * r.pieceSize <= 360
  {
    var (rows, cols, size) := DifficultyPreset(d);
    config.(rows := rows, cols := cols, pieceSize := size, difficulty := d)
  }

  /** The preset grids are consistent with the difficulty the piece count
      implies, so the chosen difficulty is what `getPuzzleDifficulty` reports. */
  lemma PresetDifficultyRoundTrip(config: PuzzleConfig, d: Difficulty)
    ensures var r := HandleDifficultyChange(config, d);
            PuzzleUtils.GetPuzzleDifficulty(r.rows, r.cols) == r.difficulty
  {
  }

  /** More difficult presets have more and smaller pieces. */
  lemma PresetsGrowWithDifficulty(config: PuzzleConfig, d1: Difficulty, d2: Difficulty)
    requires PuzzleUtils.DifficultyRank(d1) < PuzzleUtils.DifficultyRank(d2)
    ensures var a, b := HandleDifficultyChange(config, d1), HandleDifficultyChange(config, d2);
            a.rows * a.cols < b.rows * b.cols && b.pieceSize < a.pieceSize
  {
  }

  /** `handleCustomImageSubmit`: a URL that is not blank after trimming becomes
      the image, trimmed, and the field is cleared; a blank one changes nothing.
      Returns the new configuration and the new field contents. */
  function HandleCustomImageSubmit(config: PuzzleConfig, customImageUrl: string)
    : (r: (PuzzleConfig, string))
    ensures AllWhitespace(customImageUrl) ==> r == (config, customImageUrl)
    ensures !AllWhitespace(customImageUrl) ==>
              r.1 == [] && r.0 == config.(imageUrl := r.0.imageUrl) &&
              r.0.imageUrl != [] && Trim(r.0.imageUrl) == r.0.imageUrl &&
              r.0.imageUrl == Trim(customImageUrl)
  {
    TrimIdempotent(customImageUrl);
    if Trim(customImageUrl) != [] then (config.(imageUrl := Trim(customImageUrl)), [])
    else (config, customImageUrl)
  }

  /** The holding area lists exactly the unplaced pieces, in their order. */
  function HoldingAreaPieces(pieces: seq<Piece>): (r: seq<Piece>)
    ensures forall p :: p in r <==> p in pieces && !p.isPlaced
    ensures r == [] <==> forall i :: 0 <= i < |pieces| ==> pieces[i].isPlaced
  {
    UnplacedEmptyIffAllPlaced(pieces);
    Unplaced(pieces)
  }
}
