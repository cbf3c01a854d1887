/** The tap-to-place panel (src/components/MobilePieceSelector.tsx). It keeps
    no state of its own: each tap turns into at most one request to the game,
    and the requests are returned here as values. */
module MobilePieceSelector {
  import opened Types
  import opened Pieces
  import PuzzleBoard

  /** What a tap on a board slot asks the game to do. */
  datatype SlotTapOutcome =
    | PlaceAndDeselect(id: string, x: int, y: int)   // `onPlacePiece(id, x, y)`, then clear the selection
    | RemoveFromSlot(id: string)                     // `onRemovePiece(id)`
    | NoAction

  /** JavaScript truthiness of the selection: `null` and the empty string are false. */
  predicate HasSelection(selected: Option<string>)
  {
    selected != None && selected.value != ""
  }

  /** The first piece of `pieces` standing exactly at (x, y), if any. */
  function FindAt(pieces: seq<Piece>, x: int, y: int): (r: Option<Piece>)
    ensures r == None <==> forall i :: 0 <= i < |pieces| ==> pieces[i].x != x || pieces[i].y != y
    ensures r != None ==>
              exists i :: 0 <= i < |pieces| && pieces[i] == r.value &&
                (forall j :: 0 <= j < i ==> pieces[j].x != x || pieces[j].y != y)
    ensures r != None ==> r.value in pieces && r.value.x == x && r.value.y == y
  {
    if pieces == [] then None
    else if pieces[0].x == x && pieces[0].y == y then Some(pieces[0])
    else
      FindAt(pieces[1..], x, y)
  }

  /** `handleSlotTap` for the slot at (slotX, slotY). */
  function HandleSlotTap(pieces: seq<Piece>, selected: Option<string>, slotX: int, slotY: int)
    : (r: SlotTapOutcome)
    ensures r.PlaceAndDeselect? ==> HasSelection(selected) && r.id == selected.value && r.x == slotX && r.y == slotY
    ensures r.RemoveFromSlot? ==> !HasSelection(selected)
  {
    var placed := Placed(pieces);
    if HasSelection(selected) then
      if FindAt(placed, slotX, slotY) == None then PlaceAndDeselect(selected.value, slotX, slotY)
      else NoAction
    else
      var inSlot := FindAt(placed, slotX, slotY);
      if inSlot != None then RemoveFromSlot(inSlot.value.id) else NoAction
  }

  /** With a piece selected, a tap places it exactly when no placed piece
      stands on the slot, and otherwise does nothing (keeping the selection). */
  lemma SlotTapWithSelection(pieces: seq<Piece>, selected: Option<string>, slotX: int, slotY: int)
    requires HasSelection(selected)
    ensures var r := HandleSlotTap(pieces, selected, slotX, slotY);
            (r == PlaceAndDeselect(selected.value, slotX, slotY) <==>
               forall i :: 0 <= i < |pieces| && pieces[i].isPlaced ==> pieces[i].x != slotX || pieces[i].y != slotY) &&
            (r == NoAction <==>
               exists i :: 0 <= i < |pieces| && pieces[i].isPlaced && pieces[i].x == slotX && pieces[i].y == slotY)
  {
    var placed := Placed(pieces);
    if FindAt(placed, slotX, slotY) != None {
      var p := FindAt(placed, slotX, slotY).value;
      var i :| 0 <= i < |pieces| && pieces[i] == p;
    } else {
      forall i | 0 <= i < |pieces| && pieces[i].isPlaced ensures pieces[i].x != slotX || pieces[i].y != slotY {
        assert pieces[i] in placed;
      }
    }
  }

  /** With nothing selected, a tap on a slot removes the first placed piece
      standing there, and does nothing on an empty slot. */
  lemma SlotTapWithoutSelection(pieces: seq<Piece>, selected: Option<string>, slotX: int, slotY: int)
    requires !HasSelection(selected)
    ensures var r := HandleSlotTap(pieces, selected, slotX, slotY);
            (r == NoAction <==>
               forall i :: 0 <= i < |pieces| && pieces[i].isPlaced ==> pieces[i].x != slotX || pieces[i].y != slotY) &&
            (r.RemoveFromSlot? ==>
               exists i :: 0 <= i < |pieces| && pieces[i].isPlaced && pieces[i].id == r.id &&
                 pieces[i].x == slotX && pieces[i].y == slotY) &&
            (r.RemoveFromSlot? ==> r.id == FindAt(Placed(pieces), slotX, slotY).value.id)
  {
    var placed := Placed(pieces);
    if FindAt(placed, slotX, slotY) != None {
      var p := FindAt(placed, slotX, slotY).value;
      var i :| 0 <= i < |pieces| && pieces[i] == p;
    } else {
      forall i | 0 <= i < |pieces| && pieces[i].isPlaced ensures pieces[i].x != slotX || pieces[i].y != slotY {
        assert pieces[i] in placed;
      }
    }
  }

  /** A placement requested by a tap would also pass the board's occupancy
      check; the converse fails because the tap counts the selected piece
      itself as occupying its own slot while the board does not. */
  lemma TapPlacementPassesBoardCheck(pieces: seq<Piece>, selected: Option<string>, slotX: int, slotY: int)
    requires HandleSlotTap(pieces, selected, slotX, slotY).PlaceAndDeselect?
    ensures !PuzzleBoard.SlotOccupied(pieces, selected.value, Point(slotX, slotY))
  {
    SlotTapWithSelection(pieces, selected, slotX, slotY);
  }

  /** The selected piece already standing on the tapped slot blocks the tap,
      although a board drop of the same piece there would be accepted. */
  lemma TapRefusesOwnSlot(pieces: seq<Piece>, k: nat)
    requires k < |pieces| && pieces[k].isPlaced && pieces[k].id != ""
    requires forall i :: 0 <= i < |pieces| && i != k ==> pieces[i].id != pieces[k].id
    requires NoSharedSlots(pieces)
    ensures HandleSlotTap(pieces, Some(pieces[k].id), pieces[k].x, pieces[k].y) == NoAction
    ensures !PuzzleBoard.SlotOccupied(pieces, pieces[k].id, Point(pieces[k].x, pieces[k].y))
  {
    SlotTapWithSelection(pieces, Some(pieces[k].id), pieces[k].x, pieces[k].y);
  }

  /** `renderSlot`'s coordinates for (row, col) are the corner of the square
      that the board maps back to the same cell. */
  lemma SlotCellRoundTrip(row: int, col: int, pieceSize: int)
    requires pieceSize > 0
    ensures PuzzleBoard.CellAt(SlotOf(row, col, pieceSize), pieceSize) == (row, col)
  {
    PuzzleBoard.CellAtContainsPoint(SlotOf(row, col, pieceSize), pieceSize, row, col);
  }
}
