/** Piece generation, the Fisher-Yates shuffle and the completion and
    correctness checks (src/utils/puzzleUtils.ts).

    The random source is an input: `scatter` holds the holding-area position
    drawn for each piece in generation order, and `js` holds the index drawn
    at each step of the shuffle, `js[i]` in [0, i]. */
module PuzzleUtils {
  import opened Types
  import opened Text
  import opened Pieces
  import opened Arithmetic

  /** `piece-<row>-<col>`. */
  function PieceId(row: nat, col: nat): string
  {
    "piece-" + NatToString(row) + "-" + NatToString(col)
  }

  /** Different cells never get the same id. */
  lemma PieceIdInjective(r1: nat, c1: nat, r2: nat, c2: nat)
    requires PieceId(r1, c1) == PieceId(r2, c2)
    ensures r1 == r2 && c1 == c2
  {
    var a, b := NatToString(r1), NatToString(c1);
    var c, d := NatToString(r2), NatToString(c2);
    assert PieceId(r1, c1)[6..] == a + ['-'] + b;
    assert PieceId(r2, c2)[6..] == c + ['-'] + d;
    SplitAtSeparator(a, b, c, d, '-');
    NatToStringInjective(r1, r2);
    NatToStringInjective(c1, c2);
  }

  /** The piece generated for cell (row, col), standing at `at` in the holding area. */
  function GridPiece(config: PuzzleConfig, row: nat, col: nat, at: Point): Piece
  {
    var home := SlotOf(row, col, config.pieceSize);
    Piece(PieceId(row, col), at.x, at.y, home.x, home.y, home.x, home.y,
          config.pieceSize, config.pieceSize, false, false)
  }

  /** The unshuffled pieces, row by row: index `k` holds cell (k / cols, k % cols). */
  function GridPieces(config: PuzzleConfig, scatter: seq<Point>): (r: seq<Piece>)
    requires |scatter| == config.rows * config.cols
    ensures |r| == config.rows * config.cols
  {
    seq(config.rows * config.cols, k requires 0 <= k < config.rows * config.cols =>
      GridPiece(config, k / config.cols, k % config.cols, scatter[k]))
  }

  /** Cell (row, col) sits at index row * cols + col of the row-by-row order. */
  lemma CellIndex(row: nat, col: nat, rows: nat, cols: nat)
    requires row < rows && col < cols
    ensures row * cols + col < rows * cols
    ensures (row * cols + col) / cols == row && (row * cols + col) % cols == col
  {
    MulAtLeast(rows - row, cols);
    assert rows * cols == row * cols + (rows - row) * cols;
    DivModUnique(row * cols + col, cols, row, col);
  }

  /** An index below rows * cols lies in one of the first `rows` rows. */
  lemma DivBelow(k: nat, rows: nat, cols: nat)
    requires k < rows * cols
    ensures cols > 0 && 0 <= k / cols < rows && 0 <= k % cols < cols
  {
    var q := k / cols;
    if q >= rows {
      MulMono(rows, q, cols);
    }
  }

  /** A generated, not yet moved piece: in the holding area, unselected, with
      its image offset at its home position and the configured size. */
  predicate IsFreshPiece(config: PuzzleConfig, p: Piece)
  {
    !p.isPlaced && !p.isSelected && p.imageX == p.correctX && p.imageY == p.correctY &&
    p.width == config.pieceSize && p.height == config.pieceSize
  }

  /** No two pieces have the same home position. */
  predicate DistinctHomes(pieces: seq<Piece>)
  {
    forall i, j :: 0 <= i < |pieces| && 0 <= j < |pieces| && i != j ==>
      pieces[i].correctX != pieces[j].correctX || pieces[i].correctY != pieces[j].correctY
  }

  /** Cell (row, col) is generated at index row * cols + col: the piece with id
      `piece-<row>-<col>` whose home is (col * pieceSize, row * pieceSize). */
  lemma GridPieceAtCell(config: PuzzleConfig, scatter: seq<Point>, row: nat, col: nat)
    requires |scatter| == config.rows * config.cols
    requires row < config.rows && col < config.cols
    ensures row * config.cols + col < config.rows * config.cols
    ensures GridPieces(config, scatter)[row * config.cols + col]
              == GridPiece(config, row, col, scatter[row * config.cols + col])
  {
    CellIndex(row, col, config.rows, config.cols);
  }

  /** Every index of the generated list holds the piece of a cell of the grid. */
  lemma GridIndexIsCell(config: PuzzleConfig, scatter: seq<Point>, k: nat)
    requires |scatter| == config.rows * config.cols
    requires k < config.rows * config.cols
    ensures k / config.cols < config.rows && k % config.cols < config.cols
    ensures GridPieces(config, scatter)[k].id == PieceId(k / config.cols, k % config.cols)
  {
    DivBelow(k, config.rows, config.cols);
  }

  /** Pieces generated for two different cells differ in id and, for a
      positive piece size, in home position. */
  lemma CellPiecesDistinct(config: PuzzleConfig, r1: nat, c1: nat, r2: nat, c2: nat, a1: Point, a2: Point)
    requires r1 != r2 || c1 != c2
    ensures GridPiece(config, r1, c1, a1).id != GridPiece(config, r2, c2, a2).id
    ensures config.pieceSize > 0 ==>
              GridPiece(config, r1, c1, a1).correctX != GridPiece(config, r2, c2, a2).correctX ||
              GridPiece(config, r1, c1, a1).correctY != GridPiece(config, r2, c2, a2).correctY
  {
    if PieceId(r1, c1) == PieceId(r2, c2) {
      PieceIdInjective(r1, c1, r2, c2);
    }
    if config.pieceSize > 0 && c1 * config.pieceSize == c2 * config.pieceSize {
      MulCancel(c1, c2, config.pieceSize);
      if r1 * config.pieceSize == r2 * config.pieceSize {
        MulCancel(r1, r2, config.pieceSize);
      }
    }
  }

  /** Two different indices have a different quotient or remainder. */
  lemma DivModDistinct(i: nat, j: nat, d: nat)
    requires d > 0 && i != j
    ensures i / d != j / d || i % d != j % d
  {
  }

  /** Generated pieces have unique ids and, for a positive piece size, pairwise
      distinct home positions; every one of them is fresh. */
  lemma GridPiecesDistinct(config: PuzzleConfig, scatter: seq<Point>)
    requires |scatter| == config.rows * config.cols
    ensures UniqueIds(GridPieces(config, scatter))
    ensures config.pieceSize > 0 ==> DistinctHomes(GridPieces(config, scatter))
    ensures forall p :: p in GridPieces(config, scatter) ==> IsFreshPiece(config, p)
  {
    var g := GridPieces(config, scatter);
    forall i, j | 0 <= i < |g| && 0 <= j < |g| && i != j
      ensures g[i].id != g[j].id
      ensures config.pieceSize > 0 ==> g[i].correctX != g[j].correctX || g[i].correctY != g[j].correctY
    {
      DivBelow(i, config.rows, config.cols);
      DivBelow(j, config.rows, config.cols);
      var r1: nat, c1: nat, r2: nat, c2: nat := i / config.cols, i % config.cols, j / config.cols, j % config.cols;
      DivModDistinct(i, j, config.cols);
      CellPiecesDistinct(config, r1, c1, r2, c2, scatter[i], scatter[j]);
    }
  }

  /** The shuffle's random source for a list of `n` elements: one drawn index
      per step, `js[i]` in [0, i] (`Math.floor(Math.random() * (i + 1))`). */
  predicate IsShuffleOracle(js: seq<int>, n: int)
  {
    |js| == n && forall i :: 0 < i < n ==> 0 <= js[i] <= i
  }

  /** `[s[i], s[j]] = [s[j], s[i]]`. */
  function Swap<T>(s: seq<T>, i: nat, j: nat): (r: seq<T>)
    requires i < |s| && j < |s|
    ensures |r| == |s|
  {
    s[i := s[j]][j := s[i]]
  }

  /** The Fisher-Yates steps from index `i` down to 1 applied to `s`. */
  function ShuffleFrom<T>(s: seq<T>, js: seq<int>, i: int): (r: seq<T>)
    requires IsShuffleOracle(js, |s|) && i < |s|
    ensures |r| == |s|
    decreases i
  {
    if i <= 0 then s else ShuffleFrom(Swap(s, i, js[i]), js, i - 1)
  }

  /** The whole shuffle: every step from the last index down to 1. */
  function Shuffle<T>(s: seq<T>, js: seq<int>): seq<T>
    requires IsShuffleOracle(js, |s|)
  {
    ShuffleFrom(s, js, |s| - 1)
  }

  /** A swap only exchanges two elements. */
  lemma SwapPermutes<T>(s: seq<T>, i: nat, j: nat)
    requires i < |s| && j < |s|
    ensures multiset(Swap(s, i, j)) == multiset(s)
  {
  }

  /** The steps from index `i` down to 1 rearrange the elements and nothing more. */
  lemma {:induction false} ShuffleFromPermutes<T>(s: seq<T>, js: seq<int>, i: int)
    requires IsShuffleOracle(js, |s|) && i < |s|
    ensures multiset(ShuffleFrom(s, js, i)) == multiset(s)
    decreases i
  {
    if i > 0 {
      var swapped := Swap(s, i, js[i]);
      SwapPermutes(s, i, js[i]);
      ShuffleFromPermutes(swapped, js, i - 1);
      assert ShuffleFrom(s, js, i) == ShuffleFrom(swapped, js, i - 1);
    }
  }

  /** The shuffle is a permutation of its input. */
  lemma ShufflePermutes<T>(s: seq<T>, js: seq<int>)
    requires IsShuffleOracle(js, |s|)
    ensures |Shuffle(s, js)| == |s| && multiset(Shuffle(s, js)) == multiset(s)
  {
    ShuffleFromPermutes(s, js, |s| - 1);
  }

  /** All keys `key(s[i])` differ. */
  ghost predicate DistinctBy<T, K>(s: seq<T>, key: T -> K)
  {
    forall i, j :: 0 <= i < |s| && 0 <= j < |s| && i != j ==> key(s[i]) != key(s[j])
  }

  lemma SwapKeepsDistinct<T, K>(s: seq<T>, i: nat, j: nat, key: T -> K)
    requires i < |s| && j < |s| && DistinctBy(s, key)
    ensures DistinctBy(Swap(s, i, j), key)
  {
    var r := Swap(s, i, j);
    forall a, b | 0 <= a < |r| && 0 <= b < |r| && a != b ensures key(r[a]) != key(r[b]) {
      var a' := if a == i then j else if a == j then i else a;
      var b' := if b == i then j else if b == j then i else b;
      assert r[a] == s[a'] && r[b] == s[b'];
    }
  }

  /** Shuffling keeps distinct keys distinct. */
  lemma {:induction false} ShuffleKeepsDistinct<T, K>(s: seq<T>, js: seq<int>, i: int, key: T -> K)
    requires IsShuffleOracle(js, |s|) && i < |s| && DistinctBy(s, key)
    ensures DistinctBy(ShuffleFrom(s, js, i), key)
    decreases i
  {
    if i > 0 {
      var swapped := Swap(s, i, js[i]);
      SwapKeepsDistinct(s, i, js[i], key);
      ShuffleKeepsDistinct(swapped, js, i - 1, key);
      assert ShuffleFrom(s, js, i) == ShuffleFrom(swapped, js, i - 1);
    }
  }

  lemma ShuffleStep<T>(s: seq<T>, js: seq<int>, i: int)
    requires IsShuffleOracle(js, |s|) && 0 < i < |s|
    ensures ShuffleFrom(Swap(s, i, js[i]), js, i - 1) == ShuffleFrom(s, js, i)
  {
  }

  /** Shuffling a piece list keeps its ids unique and its home positions distinct. */
  lemma ShuffleKeepsIdsAndHomes(pieces: seq<Piece>, js: seq<int>)
    requires IsShuffleOracle(js, |pieces|)
    ensures UniqueIds(pieces) ==> UniqueIds(Shuffle(pieces, js))
    ensures DistinctHomes(pieces) ==> DistinctHomes(Shuffle(pieces, js))
  {
    var id := (p: Piece) => p.id;
    var home := (p: Piece) => (p.correctX, p.correctY);
    var r := Shuffle(pieces, js);
    if UniqueIds(pieces) {
      assert DistinctBy(pieces, id);
      ShuffleKeepsDistinct(pieces, js, |pieces| - 1, id);
      assert DistinctBy(r, id);
    }
    if DistinctHomes(pieces) {
      assert DistinctBy(pieces, home);
      ShuffleKeepsDistinct(pieces, js, |pieces| - 1, home);
      assert DistinctBy(r, home);
    }
  }

  /** `[...array]`: a fresh array holding the input. */
  method CopyToArray<T>(input: seq<T>) returns (a: array<T>)
    ensures fresh(a) && a[..] == input
  {
    a := new T[|input|](k requires 0 <= k < |input| => input[k]);
  }

  /** `[array[i], array[j]] = [array[j], array[i]]` on the array itself. */
  method SwapInPlace<T>(a: array<T>, i: nat, j: nat)
    requires i < a.Length && j < a.Length
    modifies a
    ensures a[..] == Swap(old(a[..]), i, j)
  {
    a[i], a[j] := a[j], a[i];
  }

  /** `shuffleArray`: copies its input, then swaps in place from the last index
      down to 1. The result is a permutation of the input, which is left as it was. */
  method ShuffleArray<T>(input: seq<T>, js: seq<int>) returns (shuffled: seq<T>)
    requires IsShuffleOracle(js, |input|)
    ensures shuffled == Shuffle(input, js)
    ensures |shuffled| == |input| && multiset(shuffled) == multiset(input)
  {
    var a := CopyToArray(input);
    var i := a.Length - 1;
    while i > 0
      invariant -1 <= i < a.Length
      invariant ShuffleFrom(a[..], js, i) == Shuffle(input, js)
    {
      var j := js[i];
      ghost var before := a[..];
      SwapInPlace(a, i, j);
      ShuffleStep(before, js, i);
      i := i - 1;
    }
    shuffled := a[..];
    ShufflePermutes(input, js);
  }

  /** `generatePuzzlePieces`: one piece per cell, built row by row, then shuffled. */
  method GeneratePuzzlePieces(config: PuzzleConfig, scatter: seq<Point>, js: seq<int>)
    returns (pieces: seq<Piece>)
    requires |scatter| == config.rows * config.cols
    requires IsShuffleOracle(js, config.rows * config.cols)
    ensures pieces == Shuffle(GridPieces(config, scatter), js)
    ensures |pieces| == config.rows * config.cols
    ensures multiset(pieces) == multiset(GridPieces(config, scatter))
    ensures UniqueIds(pieces)
    ensures config.pieceSize > 0 ==> DistinctHomes(pieces)
    ensures forall p :: p in pieces ==> IsFreshPiece(config, p)
  {
    var cols := config.cols;
    ghost var all := GridPieces(config, scatter);
    var grid: seq<Piece> := [];
    var row := 0;
    while row < config.rows
      invariant 0 <= row <= config.rows
      invariant |grid| == row * cols <= |all|
      invariant grid == all[..|grid|]
    {
      var col := 0;
      while col < cols
        invariant 0 <= col <= cols
        invariant |grid| == row * cols + col <= |all|
        invariant grid == all[..|grid|]
      {
        GridPieceAtCell(config, scatter, row, col);
        grid := grid + [GridPiece(config, row, col, scatter[row * cols + col])];
        col := col + 1;
      }
      assert row * cols + cols == (row + 1) * cols;
      row := row + 1;
    }
    assert grid == all;
    pieces := ShuffleArray(grid, js);
    GridPiecesDistinct(config, scatter);
    ShuffleKeepsIdsAndHomes(grid, js);
    ShufflePermutes(grid, js);
    forall p | p in pieces ensures IsFreshPiece(config, p) {
      assert p in multiset(grid);
    }
  }

  /** `checkPuzzleComplete`: every piece is placed, wherever it stands. */
  function CheckPuzzleComplete(pieces: seq<Piece>): (r: bool)
    ensures r <==> Unplaced(pieces) == []
    ensures r <==> |Placed(pieces)| == |pieces|
    ensures pieces == [] ==> r
  {
    UnplacedEmptyIffAllPlaced(pieces);
    forall p :: p in pieces ==> p.isPlaced
  }

  predicate AtHome(p: Piece)
  {
    p.x == p.correctX && p.y == p.correctY
  }

  /** `checkPuzzleCorrectness`: false as soon as one piece is unplaced;
      otherwise true when every piece stands exactly on its home position. */
  function CheckPuzzleCorrectness(pieces: seq<Piece>): (r: bool)
    ensures r ==> CheckPuzzleComplete(pieces)
    ensures (exists i :: 0 <= i < |pieces| && !pieces[i].isPlaced) ==> !r
    ensures r <==> forall i :: 0 <= i < |pieces| ==> pieces[i].isPlaced && AtHome(pieces[i])
  {
    if !(forall p :: p in pieces ==> p.isPlaced) then false
    else forall p :: p in pieces ==> AtHome(p)
  }

  /** A correctly assembled puzzle of generated pieces has no two pieces on one slot. */
  lemma CorrectBoardHasNoSharedSlots(pieces: seq<Piece>)
    requires DistinctHomes(pieces) && CheckPuzzleCorrectness(pieces)
    ensures NoSharedSlots(pieces)
  {
  }

  /** `getPuzzleDifficulty`: by the number of pieces. */
  function GetPuzzleDifficulty(rows: int, cols: int): (r: Difficulty)
    ensures r == Easy <==> rows * cols <= 9
    ensures r == Medium <==> 9 < rows * cols <= 25
    ensures r == Hard <==> 25 < rows * cols
  {
    var totalPieces := rows * cols;
    if totalPieces <= 9 then Easy
    else if totalPieces <= 25 then Medium
    else Hard
  }

  function DifficultyRank(d: Difficulty): int
  {
    match d
    case Easy => 0
    case Medium => 1
    case Hard => 2
  }

  /** More pieces never make a puzzle easier. */
  lemma DifficultyMonotone(r1: int, c1: int, r2: int, c2: int)
    requires r1 * c1 <= r2 * c2
    ensures DifficultyRank(GetPuzzleDifficulty(r1, c1)) <= DifficultyRank(GetPuzzleDifficulty(r2, c2))
  {
  }
}
