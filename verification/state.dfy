/** The engine's `GameState`, split into the position that move generation
    reads (`Position`) and the undo history, result flags and per-generation
    scratch lists that sit around it (`GameState`).
 */
module State {

  import opened Options
  import opened Pieces
  import opened Boards
  import opened Moves

  /** `CastleRights(wks, bks, wqs, bqs)`: king side / queen side for each colour. */
  datatype CastleRights = CastleRights(wks: bool, bks: bool, wqs: bool, bqs: bool)

  /** A pin or a check as the engine records it: the square of the pinned piece
      (or of the checking piece) and the direction (dr, dc) from the king. */
  datatype Ray = Ray(loc: Loc, dr: int, dc: int)

  datatype Position = Position(
    board: Board,
    whiteToMove: bool,
    whiteKing: Loc,
    blackKing: Loc,
    /** The square a pawn skipped on the previous ply, if it advanced two rows. */
    enPassant: Option<Loc>,
    rights: CastleRights)
  {
    function Side(): Color {
      SideColor(whiteToMove)
    }

    /** The recorded location of the king of the side to move. */
    function OwnKing(): Loc {
      if whiteToMove then whiteKing else blackKing
    }

    /** The position with the other side to move (`whiteToMove = not whiteToMove`). */
    function Flipped(): Position {
      this.(whiteToMove := !whiteToMove)
    }
  }

  datatype GameState = GameState(
    pos: Position,
    moveLog: seq<Move>,
    epLog: seq<Option<Loc>>,
    rightsLog: seq<CastleRights>,
    inCheck: bool,
    checkmate: bool,
    stalemate: bool,
    pins: seq<Ray>,
    checks: seq<Ray>)

  /** Each king location names the one square that holds that king. */
  ghost predicate KingsPlaced(p: Position) {
    && OnBoard(p.whiteKing) && OnBoard(p.blackKing)
    && (forall l | OnBoard(l) :: At(p.board, l) == P(White, King) <==> l == p.whiteKing)
    && (forall l | OnBoard(l) :: At(p.board, l) == P(Black, King) <==> l == p.blackKing)
  }

  /** No pawn stands on the row it would promote on; a white pawn there would
      make the engine read the far edge of the board, a black one would make it
      index past the board. */
  predicate PawnsOffLastRow(b: Board) {
    forall c | 0 <= c < 8 :: b[0][c] != P(White, Pawn) && b[7][c] != P(Black, Pawn)
  }

  /** A castling right is only held while that side's king is on its home square. */
  predicate RightsAtHome(p: Position) {
    && (p.rights.wks || p.rights.wqs ==> p.whiteKing == Loc(7, 4))
    && (p.rights.bks || p.rights.bqs ==> p.blackKing == Loc(0, 4))
  }

  /** An en-passant target is the empty square just behind an enemy pawn
      that has advanced two rows: row 2 with a black pawn on row 3 when White
      is to move, row 5 with a white pawn on row 4 when Black is. */
  predicate EnPassantSound(p: Position) {
    p.enPassant.Some? ==>
      var t := p.enPassant.value;
      && 0 <= t.col < 8
      && t.row == (if p.whiteToMove then 2 else 5)
      && At(p.board, t) == Empty
      && At(p.board, Loc(if p.whiteToMove then 3 else 4, t.col)) == P(Opponent(p.Side()), Pawn)
  }

  /** The positions in which move generation stays on the board and every
      generated move can be taken back. */
  ghost predicate WF(p: Position) {
    KingsPlaced(p) && PawnsOffLastRow(p.board) && RightsAtHome(p) && EnPassantSound(p)
  }

  /** The three undo logs have the shape `undoMove` relies on: one more entry in
      the en-passant and castling-rights logs than moves, and every logged move
      indexes the board. */
  predicate HistoryOK(g: GameState) {
    && |g.epLog| == |g.moveLog| + 1
    && |g.rightsLog| == |g.moveLog| + 1
    && (forall i | 0 <= i < |g.moveLog| :: Fits(g.moveLog[i]))
  }

  /** The log tops hold the current en-passant target and castling rights. */
  predicate TopsCurrent(g: GameState) {
    && |g.epLog| > 0 && |g.rightsLog| > 0
    && g.epLog[|g.epLog| - 1] == g.pos.enPassant
    && g.rightsLog[|g.rightsLog| - 1] == g.pos.rights
  }

  const InitialPosition: Position :=
    Position(InitialBoard, true, Loc(7, 4), Loc(0, 4), None, CastleRights(true, true, true, true))

  /** `GameState.__init__`: White to move, all four castling rights, no
      en-passant target, and undo logs holding just the starting entries. */
  const InitialState: GameState :=
    GameState(InitialPosition, [], [None], [InitialPosition.rights], false, false, false, [], [])

  /** The starting position has one king of each colour, on the squares the
      king locations name, no pawn on a promotion row, and logs `undoMove` can use. */
  lemma InitialWF()
    ensures WF(InitialState.pos) && HistoryOK(InitialState) && TopsCurrent(InitialState)
  {
    var pos := InitialPosition;
    forall l | OnBoard(l)
      ensures At(pos.board, l) == P(White, King) <==> l == pos.whiteKing
      ensures At(pos.board, l) == P(Black, King) <==> l == pos.blackKing
    {
      assert l.row == 0 || l.row == 1 || l.row == 2 || l.row == 3 || l.row == 4 || l.row == 5 || l.row == 6 || l.row == 7;
    }
  }
}
