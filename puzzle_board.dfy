/** The drop decision of the board (src/components/PuzzleBoard.tsx): a piece
    released over the board snaps into the grid cell under the pointer when
    that cell is free, returns to the holding area when the pointer is
    outside the grid, and stays where it was when the cell is taken.
    A result of `None` means no update is handed to the game. */
module PuzzleBoard {
  import opened Types
  import opened Pieces
  import opened Arithmetic

  /** The pointer position relative to the board's top-left corner. */
  function DropPoint(boardOrigin: Point, clientOffset: Point): Point
  {
    Point(clientOffset.x - boardOrigin.x, clientOffset.y - boardOrigin.y)
  }

  /** The grid cell (row, col) under a board position: `Math.floor(y / pieceSize)`
      and `Math.floor(x / pieceSize)`. */
  function CellAt(p: Point, pieceSize: int): (cell: (int, int))
    requires pieceSize > 0
  {
    (p.y / pieceSize, p.x / pieceSize)
  }

  /** The square of cell (row, col) holds the position, and no other cell's does. */
  lemma CellAtContainsPoint(p: Point, pieceSize: int, row: int, col: int)
    requires pieceSize > 0
    ensures CellAt(p, pieceSize) == (row, col) <==>
              row * pieceSize <= p.y < row * pieceSize + pieceSize &&
              col * pieceSize <= p.x < col * pieceSize + pieceSize
  {
    var (r, c) := CellAt(p, pieceSize);
    assert p.y == r * pieceSize + p.y % pieceSize;
    assert p.x == c * pieceSize + p.x % pieceSize;
    if row * pieceSize <= p.y < row * pieceSize + pieceSize {
      DivModUnique(p.y, pieceSize, row, p.y - row * pieceSize);
    }
    if col * pieceSize <= p.x < col * pieceSize + pieceSize {
      DivModUnique(p.x, pieceSize, col, p.x - col * pieceSize);
    }
  }

  predicate InGrid(row: int, col: int, config: PuzzleConfig)
  {
    0 <= col < config.cols && 0 <= row < config.rows
  }

  /** Another placed piece, not the dropped one, stands exactly at `slot`. */
  predicate SlotOccupied(pieces: seq<Piece>, id: string, slot: Point)
  {
    exists i :: 0 <= i < |pieces| && pieces[i].id != id && pieces[i].isPlaced &&
      pieces[i].x == slot.x && pieces[i].y == slot.y
  }

  /** The board's `drop` handler. `delta`, `boardOrigin` and `clientOffset` are
      the drag monitor's offset difference, the board rectangle's corner and the
      pointer position; each may be missing. */
  function Drop(pieces: seq<Piece>, config: PuzzleConfig, id: string,
                delta: Option<Point>, boardOrigin: Option<Point>, clientOffset: Option<Point>)
    : (r: Option<seq<Piece>>)
    requires config.pieceSize > 0
    ensures r != None ==> SameSkeleton(pieces, r.value)
    ensures r != None ==> forall i :: 0 <= i < |pieces| && pieces[i].id != id ==> r.value[i] == pieces[i]
    ensures r != None ==> HasId(pieces, id)
  {
    if delta == None || boardOrigin == None || clientOffset == None then None
    else if !HasId(pieces, id) then None
    else
      var (row, col) := CellAt(DropPoint(boardOrigin.value, clientOffset.value), config.pieceSize);
      MoveWhereKeepsSkeleton(pieces, id, HOLDING_X, HOLDING_Y, false);
      if InGrid(row, col, config) then
        var slot := SlotOf(row, col, config.pieceSize);
        MoveWhereKeepsSkeleton(pieces, id, slot.x, slot.y, true);
        if SlotOccupied(pieces, id, slot) then None
        else Some(MoveWhere(pieces, id, slot.x, slot.y, true))
      else Some(MoveWhere(pieces, id, HOLDING_X, HOLDING_Y, false))
  }

  /** Without an offset, a board rectangle, a pointer position or a piece with
      that id, nothing is updated. */
  lemma DropMissingInputIsNoop(pieces: seq<Piece>, config: PuzzleConfig, id: string,
                               delta: Option<Point>, boardOrigin: Option<Point>, clientOffset: Option<Point>)
    requires config.pieceSize > 0
    requires delta == None || boardOrigin == None || clientOffset == None || !HasId(pieces, id)
    ensures Drop(pieces, config, id, delta, boardOrigin, clientOffset) == None
  {
  }

  /** A drop over a grid cell is accepted exactly when no other placed piece
      stands on that cell's slot, and then moves the dropped piece onto the slot
      of the cell whose square contains the pointer. */
  lemma DropInsideGrid(pieces: seq<Piece>, config: PuzzleConfig, id: string,
                       delta: Point, boardOrigin: Point, clientOffset: Point, row: int, col: int)
    requires config.pieceSize > 0 && HasId(pieces, id)
    requires InGrid(row, col, config)
    requires var p := DropPoint(boardOrigin, clientOffset);
             row * config.pieceSize <= p.y < row * config.pieceSize + config.pieceSize &&
             col * config.pieceSize <= p.x < col * config.pieceSize + config.pieceSize
    ensures var r := Drop(pieces, config, id, Some(delta), Some(boardOrigin), Some(clientOffset));
            var slot := SlotOf(row, col, config.pieceSize);
            (r == None <==> SlotOccupied(pieces, id, slot)) &&
            (r != None ==>
               |r.value| == |pieces| &&
               forall i :: 0 <= i < |pieces| ==>
                 if pieces[i].id == id then r.value[i].x == slot.x && r.value[i].y == slot.y && r.value[i].isPlaced
                 else r.value[i] == pieces[i])
  {
    CellAtContainsPoint(DropPoint(boardOrigin, clientOffset), config.pieceSize, row, col);
  }

  /** A drop whose pointer lies outside the grid, on any side, always sends the
      piece back to the holding area, unplaced. */
  lemma DropOutsideGrid(pieces: seq<Piece>, config: PuzzleConfig, id: string,
                        delta: Point, boardOrigin: Point, clientOffset: Point)
    requires config.pieceSize > 0 && HasId(pieces, id)
    requires var p := DropPoint(boardOrigin, clientOffset);
             p.x < 0 || p.y < 0 || p.x >= config.cols * config.pieceSize || p.y >= config.rows * config.pieceSize
    ensures Drop(pieces, config, id, Some(delta), Some(boardOrigin), Some(clientOffset))
            == Some(MoveWhere(pieces, id, HOLDING_X, HOLDING_Y, false))
  {
    var p := DropPoint(boardOrigin, clientOffset);
    var (row, col) := CellAt(p, config.pieceSize);
    CellAtContainsPoint(p, config.pieceSize, row, col);
    if InGrid(row, col, config) {
      MulMono(col + 1, config.cols, config.pieceSize);
      MulMono(row + 1, config.rows, config.pieceSize);
      MulMono(0, col, config.pieceSize);
      MulMono(0, row, config.pieceSize);
    }
  }

  /** When ids are unique, a drop never puts two placed pieces on one position. */
  lemma DropKeepsNoSharedSlots(pieces: seq<Piece>, config: PuzzleConfig, id: string,
                               delta: Option<Point>, boardOrigin: Option<Point>, clientOffset: Option<Point>)
    requires config.pieceSize > 0
    requires UniqueIds(pieces) && NoSharedSlots(pieces)
    ensures var r := Drop(pieces, config, id, delta, boardOrigin, clientOffset);
            r != None ==> UniqueIds(r.value) && NoSharedSlots(r.value)
  {
  }

  /** Dropping a placed piece back onto its own slot is accepted and changes
      nothing but still emits an update: the piece does not count as occupying
      its own slot. */
  lemma ReDropOnOwnSlot(pieces: seq<Piece>, config: PuzzleConfig, k: nat,
                        delta: Point, boardOrigin: Point, clientOffset: Point, row: int, col: int)
    requires config.pieceSize > 0 && UniqueIds(pieces) && NoSharedSlots(pieces)
    requires k < |pieces| && pieces[k].isPlaced && InGrid(row, col, config)
    requires pieces[k].x == col * config.pieceSize && pieces[k].y == row * config.pieceSize
    requires var p := DropPoint(boardOrigin, clientOffset);
             row * config.pieceSize <= p.y < row * config.pieceSize + config.pieceSize &&
             col * config.pieceSize <= p.x < col * config.pieceSize + config.pieceSize
    ensures Drop(pieces, config, pieces[k].id, Some(delta), Some(boardOrigin), Some(clientOffset)) == Some(pieces)
  {
    var id := pieces[k].id;
    var slot := SlotOf(row, col, config.pieceSize);
    DropInsideGrid(pieces, config, id, delta, boardOrigin, clientOffset, row, col);
    var r := Drop(pieces, config, id, Some(delta), Some(boardOrigin), Some(clientOffset)).value;
    assert r == pieces;
  }
}
