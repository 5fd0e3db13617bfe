/** The 8x8 board: row 0 is Black's back rank (rank 8), row 7 is White's (rank 1),
    column 0 is file a.
 */
module Boards {

  import opened Pieces

  /** A board coordinate.  Coordinates are plain integers because the engine
      computes them by adding direction offsets and only then tests the range. */
  datatype Loc = Loc(row: int, col: int)

  predicate OnBoard(l: Loc) {
    0 <= l.row < 8 && 0 <= l.col < 8
  }

  /** `k` steps from `l` in direction (dr, dc). */
  function Step(l: Loc, dr: int, dc: int, k: int): Loc {
    Loc(l.row + dr * k, l.col + dc * k)
  }

  type Board = b: seq<seq<Square>> | |b| == 8 && forall r | 0 <= r < 8 :: |b[r]| == 8
    witness seq(8, r => seq(8, c => Empty))

  function At(b: Board, l: Loc): Square
    requires OnBoard(l)
  {
    b[l.row][l.col]
  }

  /** The board with square `l` replaced by `v`: `board[row][col] = v`. */
  function Set(b: Board, l: Loc, v: Square): (r: Board)
    requires OnBoard(l)
    ensures At(r, l) == v
    ensures forall l' | OnBoard(l') && l' != l :: At(r, l') == At(b, l')
  {
    b[l.row := b[l.row][l.col := v]]
  }

  /** Two boards that agree on every square are the same board. */
  lemma BoardExt(a: Board, b: Board)
    requires forall l | OnBoard(l) :: At(a, l) == At(b, l)
    ensures a == b
  {
    forall r | 0 <= r < 8
      ensures a[r] == b[r]
    {
      forall c | 0 <= c < 8
        ensures a[r][c] == b[r][c]
      {
        assert At(a, Loc(r, c)) == At(b, Loc(r, c));
      }
    }
  }

  /** The starting position of `GameState.__init__`. */
  const InitialBoard: Board := [
    [P(Black, Rook), P(Black, Knight), P(Black, Bishop), P(Black, Queen), P(Black, King), P(Black, Bishop), P(Black, Knight), P(Black, Rook)],
    seq(8, c => P(Black, Pawn)),
    seq(8, c => Empty),
    seq(8, c => Empty),
    seq(8, c => Empty),
    seq(8, c => Empty),
    seq(8, c => P(White, Pawn)),
    [P(White, Rook), P(White, Knight), P(White, Bishop), P(White, Queen), P(White, King), P(White, Bishop), P(White, Knight), P(White, Rook)]
  ]
}
