/** `scoreBoard`: the static evaluation the searches use at depth 0.

    Positive scores favour White.  A checkmate scores CHECKMATE against the
    side to move, a stalemate STALEMATE; otherwise every piece counts its
    material value plus a fifth of its positional bonus, for White and
    against Black.  The engine computes in floating point; here the
    arithmetic is exact, on `real`.
 */
module Evaluate {

  import opened Pieces
  import opened Boards
  import opened State
  import opened Search

  /** `pieceScores`. */
  function Worth(k: Kind): int {
    match k
    case King => 0
    case Queen => 8
    case Rook => 5
    case Knight => 3
    case Bishop => 3
    case Pawn => 1
  }

  /** An eight-by-eight table of positional bonuses, indexed row then column. */
  type Table = t: seq<seq<int>> | |t| == 8 && forall r | 0 <= r < 8 :: |t[r]| == 8
    witness seq(8, r => seq(8, c => 0))

  const KnightScores: Table := [
    [1, 1, 1, 1, 1, 1, 1, 1],
    [1, 2, 2, 2, 2, 2, 2, 1],
    [1, 2, 3, 3, 3, 3, 2, 1],
    [1, 2, 4, 4, 4, 4, 2, 1],
    [1, 2, 4, 4, 4, 4, 2, 1],
    [1, 2, 3, 3, 3, 3, 2, 1],
    [1, 2, 2, 2, 2, 2, 2, 1],
    [1, 1, 1, 1, 1, 1, 1, 1]]

  const BishopScores: Table := [
    [4, 3, 2, 1, 1, 2, 3, 4],
    [3, 4, 3, 2, 2, 3, 4, 3],
    [2, 3, 4, 3, 3, 4, 3, 2],
    [1, 2, 3, 4, 4, 3, 2, 1],
    [1, 2, 3, 4, 4, 3, 2, 1],
    [2, 3, 4, 3, 3, 4, 3, 2],
    [3, 4, 3, 2, 2, 3, 4, 3],
    [4, 3, 2, 1, 1, 2, 3, 4]]

  const QueenScores: Table := [
    [1, 1, 1, 3, 1, 1, 1, 1],
    [1, 2, 3, 3, 3, 1, 1, 1],
    [1, 4, 3, 3, 3, 4, 2, 1],
    [1, 2, 3, 3, 3, 2, 2, 1],
    [1, 2, 3, 3, 3, 2, 2, 1],
    [1, 4, 3, 3, 3, 4, 2, 1],
    [1, 1, 2, 3, 3, 1, 1, 1],
    [1, 1, 1, 3, 1, 1, 1, 1]]

  const RookScores: Table := [
    [4, 3, 4, 4, 4, 4, 3, 4],
    [4, 4, 4, 4, 4, 4, 4, 4],
    [1, 1, 2, 3, 3, 2, 1, 1],
    [1, 2, 3, 4, 4, 3, 2, 1],
    [1, 2, 3, 4, 4, 3, 2, 1],
    [1, 1, 2, 2, 2, 2, 1, 1],
    [4, 4, 4, 4, 4, 4, 4, 4],
    [4, 3, 4, 4, 4, 4, 3, 4]]

  const WhitePawnScores: Table := [
    [8, 8, 8, 8, 8, 8, 8, 8],
    [8, 8, 8, 8, 8, 8, 8, 8],
    [5, 6, 6, 7, 7, 6, 6, 5],
    [2, 3, 3, 5, 5, 3, 3, 2],
    [1, 2, 3, 4, 4, 3, 2, 1],
    [1, 2, 2, 3, 3, 2, 1, 1],
    [1, 1, 1, 0, 0, 1, 1, 1],
    [0, 0, 0, 0, 0, 0, 0, 0]]

  const BlackPawnScores: Table := [
    [0, 0, 0, 0, 0, 0, 0, 0],
    [1, 1, 1, 0, 0, 1, 1, 1],
    [1, 2, 2, 3, 3, 2, 1, 1],
    [1, 2, 3, 4, 4, 3, 2, 1],
    [2, 3, 3, 5, 5, 3, 3, 2],
    [5, 6, 6, 7, 7, 6, 6, 5],
    [8, 8, 8, 8, 8, 8, 8, 8],
    [8, 8, 8, 8, 8, 8, 8, 8]]

  /** `piecePositionScores`: pawns look up the table of their colour, the
      other pieces one table shared by both colours, and kings have none. */
  function Bonus(s: Square, r: int, c: int): int
    requires s.P? && 0 <= r < 8 && 0 <= c < 8
  {
    match s.kind
    case King => 0
    case Pawn => if s.color == White then WhitePawnScores[r][c] else BlackPawnScores[r][c]
    case Knight => KnightScores[r][c]
    case Bishop => BishopScores[r][c]
    case Queen => QueenScores[r][c]
    case Rook => RookScores[r][c]
  }

  /** What the square on row `r`, column `c` adds to the score. */
  function SquareValue(s: Square, r: int, c: int): real
    requires 0 <= r < 8 && 0 <= c < 8
  {
    if s.Empty? then 0.0
    else
      var v := Worth(s.kind) as real + Bonus(s, r, c) as real * 0.2;
      if s.color == White then v else -v
  }

  /** The inner loop over row `r` from column `c` on. */
  function RowScore(b: Board, r: int, c: nat): real
    requires 0 <= r < 8 && c <= 8
    decreases 8 - c
  {
    if c == 8 then 0.0 else SquareValue(b[r][c], r, c) + RowScore(b, r, c + 1)
  }

  /** The outer loop from row `r` on. */
  function RowsScore(b: Board, r: nat): real
    requires r <= 8
    decreases 8 - r
  {
    if r == 8 then 0.0 else RowScore(b, r, 0) + RowsScore(b, r + 1)
  }

  /** The material and positional balance of a board. */
  function BoardScore(b: Board): real {
    RowsScore(b, 0)
  }

  /** `scoreBoard`. */
  function ScoreBoard(g: GameState): real {
    if g.checkmate then (if g.pos.whiteToMove then -CHECKMATE else CHECKMATE)
    else if g.stalemate then STALEMATE
    else BoardScore(g.pos.board)
  }

  // ---------------------------------------------------------------- bounds

  /** Every table entry lies between 0 and 8; the queen's are at most 4. */
  lemma BonusRange(s: Square, r: int, c: int)
    requires s.P? && 0 <= r < 8 && 0 <= c < 8
    ensures 0 <= Bonus(s, r, c) <= 8
    ensures s.kind != Pawn ==> Bonus(s, r, c) <= 4
  {
    assert r == 0 || r == 1 || r == 2 || r == 3 || r == 4 || r == 5 || r == 6 || r == 7;
    assert c == 0 || c == 1 || c == 2 || c == 3 || c == 4 || c == 5 || c == 6 || c == 7;
  }

  /** No square moves the score by more than a queen on its best square. */
  lemma SquareValueBound(s: Square, r: int, c: int)
    requires 0 <= r < 8 && 0 <= c < 8
    ensures -8.8 <= SquareValue(s, r, c) <= 8.8
    ensures s.P? && s.color == White ==> SquareValue(s, r, c) >= 0.0
    ensures s.P? && s.color == Black ==> SquareValue(s, r, c) <= 0.0
  {
    if s.P? {
      BonusRange(s, r, c);
    }
  }

  lemma {:induction false} RowScoreBound(b: Board, r: int, c: nat)
    requires 0 <= r < 8 && c <= 8
    ensures -8.8 * (8 - c) as real <= RowScore(b, r, c) <= 8.8 * (8 - c) as real
    decreases 8 - c
  {
    if c < 8 {
      SquareValueBound(b[r][c], r, c);
      RowScoreBound(b, r, c + 1);
    }
  }

  lemma {:induction false} RowsScoreBound(b: Board, r: nat)
    requires r <= 8
    ensures -70.4 * (8 - r) as real <= RowsScore(b, r) <= 70.4 * (8 - r) as real
    decreases 8 - r
  {
    if r < 8 {
      RowScoreBound(b, r, 0);
      RowsScoreBound(b, r + 1);
    }
  }

  /** The material balance of any board stays strictly inside the checkmate
      scores, so a forced mate outranks every material gain. */
  lemma BoardScoreBelowMate(b: Board)
    ensures -CHECKMATE < BoardScore(b) < CHECKMATE
  {
    RowsScoreBound(b, 0);
  }

  /** The score names a checkmate exactly when there is one: -CHECKMATE when
      White is mated, CHECKMATE when Black is; a stalemate that is not also
      flagged as mate scores STALEMATE; and every score lies inside the root
      window (-2 CHECKMATE, 2 CHECKMATE) of the search. */
  lemma ScoreBoardSpec(g: GameState)
    ensures ScoreBoard(g) == -CHECKMATE <==> g.checkmate && g.pos.whiteToMove
    ensures ScoreBoard(g) == CHECKMATE <==> g.checkmate && !g.pos.whiteToMove
    ensures !g.checkmate && g.stalemate ==> ScoreBoard(g) == STALEMATE
    ensures !g.checkmate && !g.stalemate ==> ScoreBoard(g) == BoardScore(g.pos.board)
    ensures -2.0 * CHECKMATE < ScoreBoard(g) < 2.0 * CHECKMATE
  {
    BoardScoreBelowMate(g.pos.board);
  }

  // ---------------------------------------------------------------- colour symmetry

  /** The same piece in the other colour. */
  function Recolour(s: Square): (r: Square)
    ensures r.Empty? <==> s.Empty?
    ensures s.P? ==> r.kind == s.kind && r.color != s.color
  {
    if s.P? then P(Opponent(s.color), s.kind) else Empty
  }

  /** The board seen from the other side: rows reversed and colours swapped. */
  function Mirror(b: Board): (m: Board)
    ensures forall r, c | 0 <= r < 8 && 0 <= c < 8 :: m[r][c] == Recolour(b[7 - r][c])
  {
    seq(8, r requires 0 <= r < 8 => seq(8, c requires 0 <= c < 8 => Recolour(b[7 - r][c])))
  }

  /** The shared queen and rook tables are not symmetric between the two
      sides: rows 1 and 6 of the queen table and rows 2 and 5 of the rook
      table differ.  A board is mirror-fair when no queen or rook stands on
      those rows. */
  predicate MirrorFairSquare(s: Square, r: int) {
    !(s.P? && s.kind == Queen && (r == 1 || r == 6)) && !(s.P? && s.kind == Rook && (r == 2 || r == 5))
  }

  predicate MirrorFair(b: Board) {
    forall r, c | 0 <= r < 8 && 0 <= c < 8 :: MirrorFairSquare(b[r][c], r)
  }

  /** The knight, bishop and pawn tables, and the queen and rook tables away
      from their uneven rows, read the same for the two sides. */
  lemma TablesMirror(r: int)
    requires 0 <= r < 8
    ensures KnightScores[7 - r] == KnightScores[r]
    ensures BishopScores[7 - r] == BishopScores[r]
    ensures WhitePawnScores[7 - r] == BlackPawnScores[r]
    ensures BlackPawnScores[7 - r] == WhitePawnScores[r]
    ensures r != 1 && r != 6 ==> QueenScores[7 - r] == QueenScores[r]
    ensures r != 2 && r != 5 ==> RookScores[7 - r] == RookScores[r]
  {
    assert r == 0 || r == 1 || r == 2 || r == 3 || r == 4 || r == 5 || r == 6 || r == 7;
  }

  lemma SquareMirror(s: Square, r: int, c: int)
    requires 0 <= r < 8 && 0 <= c < 8 && MirrorFairSquare(s, r)
    ensures SquareValue(Recolour(s), 7 - r, c) == -SquareValue(s, r, c)
  {
    if s.P? {
      TablesMirror(r);
      assert Bonus(Recolour(s), 7 - r, c) == Bonus(s, r, c);
    }
  }

  lemma {:induction false} RowMirror(b: Board, r: int, c: nat)
    requires 0 <= r < 8 && c <= 8 && MirrorFair(b)
    ensures RowScore(Mirror(b), 7 - r, c) == -RowScore(b, r, c)
    decreases 8 - c
  {
    if c < 8 {
      assert Mirror(b)[7 - r][c] == Recolour(b[r][c]);
      SquareMirror(b[r][c], r, c);
      RowMirror(b, r, c + 1);
    }
  }

  /** The outer loop written out row by row. */
  lemma RowsExpand(b: Board)
    ensures BoardScore(b) == RowScore(b, 0, 0) + RowScore(b, 1, 0) + RowScore(b, 2, 0) + RowScore(b, 3, 0)
                           + RowScore(b, 4, 0) + RowScore(b, 5, 0) + RowScore(b, 6, 0) + RowScore(b, 7, 0)
  {
    assert RowsScore(b, 7) == RowScore(b, 7, 0);
    assert RowsScore(b, 6) == RowScore(b, 6, 0) + RowsScore(b, 7);
    assert RowsScore(b, 5) == RowScore(b, 5, 0) + RowsScore(b, 6);
    assert RowsScore(b, 4) == RowScore(b, 4, 0) + RowsScore(b, 5);
    assert RowsScore(b, 3) == RowScore(b, 3, 0) + RowsScore(b, 4);
    assert RowsScore(b, 2) == RowScore(b, 2, 0) + RowsScore(b, 3);
    assert RowsScore(b, 1) == RowScore(b, 1, 0) + RowsScore(b, 2);
  }

  /** Seen from the other side, a mirror-fair board scores the negation: the
      evaluation favours neither colour. */
  lemma MirrorNegates(b: Board)
    requires MirrorFair(b)
    ensures BoardScore(Mirror(b)) == -BoardScore(b)
  {
    RowsExpand(b);
    RowsExpand(Mirror(b));
    forall r | 0 <= r < 8
      ensures RowScore(Mirror(b), 7 - r, 0) == -RowScore(b, r, 0)
    {
      RowMirror(b, r, 0);
    }
  }

  /** The starting position is its own mirror image. */
  lemma InitialMirrored()
    ensures Mirror(InitialBoard) == InitialBoard && MirrorFair(InitialBoard)
  {
    var b := InitialBoard;
    forall l | OnBoard(l)
      ensures At(Mirror(b), l) == At(b, l)
      ensures MirrorFairSquare(b[l.row][l.col], l.row)
    {
      var r := l.row;
      assert r == 0 || r == 1 || r == 2 || r == 3 || r == 4 || r == 5 || r == 6 || r == 7;
    }
    BoardExt(Mirror(b), b);
    forall r, c | 0 <= r < 8 && 0 <= c < 8
      ensures MirrorFairSquare(b[r][c], r)
    {
      assert OnBoard(Loc(r, c));
    }
  }

  /** The starting position is level. */
  lemma InitialLevel()
    ensures BoardScore(InitialBoard) == 0.0
    ensures ScoreBoard(InitialState) == 0.0
  {
    InitialMirrored();
    MirrorNegates(InitialBoard);
  }

  /** Without the fairness condition the symmetry fails: a white queen on
      row 6, column 1 earns 0.2 from its table while the black queen on the
      mirrored square earns 0.4. */
  lemma QueenTableUneven()
    ensures SquareValue(P(White, Queen), 6, 1) + SquareValue(P(Black, Queen), 1, 1) != 0.0
  {
  }

  // ---------------------------------------------------------------- one square changed

  lemma {:induction false} RowScoreSet(b: Board, l: Loc, v: Square, c: nat)
    requires OnBoard(l) && c <= 8
    ensures RowScore(Set(b, l, v), l.row, c)
            == RowScore(b, l.row, c)
               + (if c <= l.col then SquareValue(v, l.row, l.col) - SquareValue(At(b, l), l.row, l.col) else 0.0)
    decreases 8 - c
  {
    if c < 8 {
      RowScoreSet(b, l, v, c + 1);
      assert Set(b, l, v)[l.row][c] == At(Set(b, l, v), Loc(l.row, c));
      assert b[l.row][c] == At(b, Loc(l.row, c));
    }
  }

  lemma {:induction false} RowScoreOther(b: Board, l: Loc, v: Square, r: int, c: nat)
    requires OnBoard(l) && 0 <= r < 8 && r != l.row && c <= 8
    ensures RowScore(Set(b, l, v), r, c) == RowScore(b, r, c)
    decreases 8 - c
  {
    if c < 8 {
      RowScoreOther(b, l, v, r, c + 1);
      assert Set(b, l, v)[r][c] == At(Set(b, l, v), Loc(r, c));
      assert b[r][c] == At(b, Loc(r, c));
    }
  }

  lemma {:induction false} RowsScoreSet(b: Board, l: Loc, v: Square, r: nat)
    requires OnBoard(l) && r <= 8
    ensures RowsScore(Set(b, l, v), r)
            == RowsScore(b, r)
               + (if r <= l.row then SquareValue(v, l.row, l.col) - SquareValue(At(b, l), l.row, l.col) else 0.0)
    decreases 8 - r
  {
    if r < 8 {
      RowsScoreSet(b, l, v, r + 1);
      if r == l.row {
        RowScoreSet(b, l, v, 0);
      } else {
        RowScoreOther(b, l, v, r, 0);
      }
    }
  }

  /** Changing one square changes the score by exactly the difference of what
      the old and the new contents are worth there: capturing a piece costs
      its owner its material and its positional bonus, and nothing else moves. */
  lemma SetSquareScore(b: Board, l: Loc, v: Square)
    requires OnBoard(l)
    ensures BoardScore(Set(b, l, v))
            == BoardScore(b) + SquareValue(v, l.row, l.col) - SquareValue(At(b, l), l.row, l.col)
  {
    RowsScoreSet(b, l, v, 0);
  }
}
