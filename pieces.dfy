/** Operations over a level's piece list shared by the board, the holding
    area, the tap-to-place selector and the statistics panel. */
module Pieces {
  import opened Types

  /** Where a piece goes when it is sent back to the holding area. */
  const HOLDING_X: int := 50
  const HOLDING_Y: int := 50

  /** The pixel position of grid cell (row, col): the slot's top-left corner. */
  function SlotOf(row: int, col: int, pieceSize: int): Point
  {
    Point(col * pieceSize, row * pieceSize)
  }

  /** The pieces currently on the board, in list order (`filter(p => p.isPlaced)`). */
  function Placed(pieces: seq<Piece>): (r: seq<Piece>)
    ensures |r| <= |pieces|
    ensures forall p :: p in r <==> p in pieces && p.isPlaced
  {
    if pieces == [] then []
    else (if pieces[0].isPlaced then [pieces[0]] else []) + Placed(pieces[1..])
  }

  /** The pieces in the holding area, in list order (`filter(p => !p.isPlaced)`). */
  function Unplaced(pieces: seq<Piece>): (r: seq<Piece>)
    ensures |r| <= |pieces|
    ensures forall p :: p in r <==> p in pieces && !p.isPlaced
  {
    if pieces == [] then []
    else (if pieces[0].isPlaced then [] else [pieces[0]]) + Unplaced(pieces[1..])
  }

  /** The placed and unplaced lists split the piece list: together they hold
      every piece exactly as often as the list does. */
  lemma {:induction false} PlacedUnplacedPartition(pieces: seq<Piece>)
    ensures multiset(Placed(pieces)) + multiset(Unplaced(pieces)) == multiset(pieces)
    ensures |Placed(pieces)| + |Unplaced(pieces)| == |pieces|
  {
    if pieces != [] {
      PlacedUnplacedPartition(pieces[1..]);
      assert pieces == [pieces[0]] + pieces[1..];
    }
  }

  /** No piece is left in the holding area exactly when every piece is placed. */
  lemma {:induction false} UnplacedEmptyIffAllPlaced(pieces: seq<Piece>)
    ensures Unplaced(pieces) == [] <==> forall i :: 0 <= i < |pieces| ==> pieces[i].isPlaced
    ensures |Placed(pieces)| == |pieces| <==> forall i :: 0 <= i < |pieces| ==> pieces[i].isPlaced
  {
    PlacedUnplacedPartition(pieces);
    if Unplaced(pieces) == [] {
      forall i | 0 <= i < |pieces| ensures pieces[i].isPlaced {
        assert pieces[i] in pieces;
      }
    } else {
      var p := Unplaced(pieces)[0];
      assert p in Unplaced(pieces);
      var i :| 0 <= i < |pieces| && pieces[i] == p;
      assert !pieces[i].isPlaced;
    }
  }

  /** The selection toggle used by every piece click or tap: choosing the
      selected piece clears the selection, choosing any other selects it. */
  function ToggleSelection(selected: Option<string>, id: string): (r: Option<string>)
    ensures r == None <==> selected == Some(id)
    ensures r != None ==> r == Some(id)
  {
    if selected == Some(id) then None else Some(id)
  }

  /** Toggling the same piece twice ends with nothing selected, unless it was
      selected to begin with. */
  lemma ToggleTwice(selected: Option<string>, id: string)
    ensures ToggleSelection(ToggleSelection(selected, id), id)
            == (if selected == Some(id) then Some(id) else None)
  {
  }

  /** Every piece whose id is `id` moved to (x, y) with the given placement flag;
      the others untouched (`pieces.map(p => p.id === id ? {...p, x, y, isPlaced} : p)`). */
  function MoveWhere(pieces: seq<Piece>, id: string, x: int, y: int, placed: bool): (r: seq<Piece>)
    ensures |r| == |pieces|
    ensures forall i :: 0 <= i < |r| ==>
              r[i] == if pieces[i].id == id then pieces[i].(x := x, y := y, isPlaced := placed) else pieces[i]
  {
    seq(|pieces|, i requires 0 <= i < |pieces| =>
      if pieces[i].id == id then pieces[i].(x := x, y := y, isPlaced := placed) else pieces[i])
  }

  /** Some piece has id `id` (`pieces.find(p => p.id === id)` succeeds). */
  predicate HasId(pieces: seq<Piece>, id: string)
  {
    exists i :: 0 <= i < |pieces| && pieces[i].id == id
  }

  /** No two pieces share an id. */
  predicate UniqueIds(pieces: seq<Piece>)
  {
    forall i, j :: 0 <= i < |pieces| && 0 <= j < |pieces| && i != j ==> pieces[i].id != pieces[j].id
  }

  /** No two placed pieces stand on the same position. */
  predicate NoSharedSlots(pieces: seq<Piece>)
  {
    forall i, j :: 0 <= i < |pieces| && 0 <= j < |pieces| && i != j && pieces[i].isPlaced && pieces[j].isPlaced
      ==> pieces[i].x != pieces[j].x || pieces[i].y != pieces[j].y
  }

  /** The new list is the old one with only positions and placement flags
      changed: ids, home positions, image offsets and sizes stay as generated. */
  predicate SameSkeleton(before: seq<Piece>, after: seq<Piece>)
  {
    |before| == |after| &&
    forall i :: 0 <= i < |before| ==>
      after[i] == before[i].(x := after[i].x, y := after[i].y, isPlaced := after[i].isPlaced)
  }

  lemma MoveWhereKeepsSkeleton(pieces: seq<Piece>, id: string, x: int, y: int, placed: bool)
    ensures SameSkeleton(pieces, MoveWhere(pieces, id, x, y, placed))
    ensures UniqueIds(pieces) ==> UniqueIds(MoveWhere(pieces, id, x, y, placed))
  {
  }
}
