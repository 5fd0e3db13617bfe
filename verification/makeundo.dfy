/** `makeMove`, `undoMove` and `updateCastleRights`: applying one ply to a
    game state, taking it back again, and the castling rights a ply revokes.
 */
module MakeUndo {

  import opened Options
  import opened Pieces
  import opened Boards
  import opened Moves
  import opened State

  /** `updateCastleRights`: the mover's piece is examined first (king, then rook
      on its home corner), then the captured piece (a rook taken on its
      home corner).  Each right is cleared exactly when one of those events
      touches it; no right is ever granted. */
  function UpdateCastleRights(cr: CastleRights, m: Move): (r: CastleRights)
    ensures r.wks <==> cr.wks && m.pieceMoved != P(White, King)
                       && !(m.pieceMoved == P(White, Rook) && m.start == Loc(7, 7))
                       && !(m.pieceCaptured == P(White, Rook) && m.end == Loc(7, 7))
    ensures r.wqs <==> cr.wqs && m.pieceMoved != P(White, King)
                       && !(m.pieceMoved == P(White, Rook) && m.start == Loc(7, 0))
                       && !(m.pieceCaptured == P(White, Rook) && m.end == Loc(7, 0))
    ensures r.bks <==> cr.bks && m.pieceMoved != P(Black, King)
                       && !(m.pieceMoved == P(Black, Rook) && m.start == Loc(0, 7))
                       && !(m.pieceCaptured == P(Black, Rook) && m.end == Loc(0, 7))
    ensures r.bqs <==> cr.bqs && m.pieceMoved != P(Black, King)
                       && !(m.pieceMoved == P(Black, Rook) && m.start == Loc(0, 0))
                       && !(m.pieceCaptured == P(Black, Rook) && m.end == Loc(0, 0))
  {
    var afterMover :=
      if m.pieceMoved == P(White, King) then cr.(wks := false, wqs := false)
      else if m.pieceMoved == P(Black, King) then cr.(bks := false, bqs := false)
      else if m.pieceMoved == P(White, Rook) then
        (if m.start.row == 7 then
           (if m.start.col == 0 then cr.(wqs := false)
            else if m.start.col == 7 then cr.(wks := false)
            else cr)
         else cr)
      else if m.pieceMoved == P(Black, Rook) then
        (if m.start.row == 0 then
           (if m.start.col == 0 then cr.(bqs := false)
            else if m.start.col == 7 then cr.(bks := false)
            else cr)
         else cr)
      else cr;
    if m.pieceCaptured == P(White, Rook) then
      (if m.end.row == 7 then
         (if m.end.col == 0 then afterMover.(wqs := false)
          else if m.end.col == 7 then afterMover.(wks := false)
          else afterMover)
       else afterMover)
    else if m.pieceCaptured == P(Black, Rook) then
      (if m.end.row == 0 then
         (if m.end.col == 0 then afterMover.(bqs := false)
          else if m.end.col == 7 then afterMover.(bks := false)
          else afterMover)
       else afterMover)
    else afterMover
  }

  /** `Rights(a) <= Rights(b)`: every right held in `a` is held in `b`. */
  predicate RightsWithin(a: CastleRights, b: CastleRights) {
    (a.wks ==> b.wks) && (a.wqs ==> b.wqs) && (a.bks ==> b.bks) && (a.bqs ==> b.bqs)
  }

  /** Castling rights only go from true to false, and a move by neither a king
      nor a rook that captures no rook leaves them all as they were. */
  lemma CastleRightsMonotone(cr: CastleRights, m: Move)
    ensures RightsWithin(UpdateCastleRights(cr, m), cr)
    ensures !IsKing(m.pieceMoved) && !(m.pieceMoved.P? && m.pieceMoved.kind == Rook)
            && !(m.pieceCaptured.P? && m.pieceCaptured.kind == Rook)
            ==> UpdateCastleRights(cr, m) == cr
  {
  }

  /** The en-passant target a ply leaves behind: the square a pawn skipped
      when it advanced two rows, otherwise none.  The row is the floor of the
      mean of the two rows, as `//` computes it. */
  function EnPassantAfter(m: Move): (r: Option<Loc>)
    ensures r.Some? <==> IsPawn(m.pieceMoved) && (m.start.row - m.end.row == 2 || m.end.row - m.start.row == 2)
    ensures r.Some? && 0 <= m.start.row && 0 <= m.end.row ==>
              r.value.col == m.start.col
              && r.value.row - m.start.row == m.end.row - r.value.row
              && (r.value.row == m.start.row + 1 || r.value.row == m.start.row - 1)
  {
    var diff := m.start.row - m.end.row;
    if IsPawn(m.pieceMoved) && (if diff < 0 then -diff else diff) == 2 then
      Some(Loc((m.start.row + m.end.row) / 2, m.start.col))
    else
      None
  }

  /** The square whose pawn an en-passant capture removes: the start row, the end column. */
  function BypassedSquare(m: Move): Loc {
    Loc(m.start.row, m.end.col)
  }

  /** The square the castling rook leaves: one column beyond the king's end
      square when the king moved two columns right, otherwise two columns
      beyond it on the left. */
  function RookFrom(m: Move): Loc {
    if m.end.col - m.start.col == 2 then Loc(m.end.row, m.end.col + 1) else Loc(m.end.row, m.end.col - 2)
  }

  /** The square the castling rook lands on: the one the king passed over. */
  function RookTo(m: Move): Loc {
    if m.end.col - m.start.col == 2 then Loc(m.end.row, m.end.col - 1) else Loc(m.end.row, m.end.col + 1)
  }

  /** The board half of `makeMove`, in the engine's order of writes. */
  function ApplyToBoard(b: Board, m: Move): (r: Board)
    requires Fits(m)
  {
    var b1 := Set(b, m.start, Empty);
    var b2 := Set(b1, m.end, m.pieceMoved);
    var b3 := if m.isPawnPromotion then Set(b2, m.end, P(m.pieceMoved.color, Queen)) else b2;
    var b4 := if m.isEnpassant then Set(b3, BypassedSquare(m), Empty) else b3;
    if m.isCastle then
      var b5 := Set(b4, RookTo(m), At(b4, RookFrom(m)));
      Set(b5, RookFrom(m), Empty)
    else
      b4
  }

  /** `makeMove`. */
  function MakeMove(g: GameState, m: Move): (r: GameState)
    requires Fits(m)
    ensures r.pos.whiteToMove == !g.pos.whiteToMove
    ensures r.pos.whiteKing == (if m.pieceMoved == P(White, King) then m.end else g.pos.whiteKing)
    ensures r.pos.blackKing == (if m.pieceMoved == P(Black, King) then m.end else g.pos.blackKing)
    ensures r.pos.enPassant == EnPassantAfter(m)
    ensures RightsWithin(r.pos.rights, g.pos.rights)
    ensures r.moveLog == g.moveLog + [m]
    ensures r.epLog == g.epLog + [r.pos.enPassant] && r.rightsLog == g.rightsLog + [r.pos.rights]
    ensures HistoryOK(g) ==> HistoryOK(r)
    ensures TopsCurrent(r)
    ensures r.checkmate == g.checkmate && r.stalemate == g.stalemate
  {
    var wk := if m.pieceMoved == P(White, King) then m.end else g.pos.whiteKing;
    var bk := if m.pieceMoved == P(Black, King) then m.end else g.pos.blackKing;
    var ep := EnPassantAfter(m);
    var rights := UpdateCastleRights(g.pos.rights, m);
    CastleRightsMonotone(g.pos.rights, m);
    var pos := Position(ApplyToBoard(g.pos.board, m), !g.pos.whiteToMove, wk, bk, ep, rights);
    g.(pos := pos, moveLog := g.moveLog + [m], epLog := g.epLog + [ep], rightsLog := g.rightsLog + [rights])
  }

  /** The board half of `undoMove`, in the engine's order of writes. */
  function RevertOnBoard(b: Board, m: Move): (r: Board)
    requires Fits(m)
  {
    var b1 := Set(b, m.start, m.pieceMoved);
    var b2 := Set(b1, m.end, m.pieceCaptured);
    var b3 := if m.isEnpassant then Set(Set(b2, m.end, Empty), BypassedSquare(m), m.pieceCaptured) else b2;
    if m.isCastle then
      var b4 := Set(b3, RookFrom(m), At(b3, RookTo(m)));
      Set(b4, RookTo(m), Empty)
    else
      b3
  }

  /** The squares `makeMove` writes, and what ends up on each: the start
      square empties, the end square receives the mover (a queen of its colour
      on promotion), an en-passant capture empties the bypassed pawn's square,
      a castle carries the rook from its corner to the square the king passed
      over.  Every other square keeps its piece. */
  lemma MakeMoveEffects(b: Board, m: Move)
    requires Reversible(b, m)
    ensures var r := ApplyToBoard(b, m);
      && (m.start != m.end ==> At(r, m.start) == Empty)
      && At(r, m.end) == (if m.isPawnPromotion then P(m.pieceMoved.color, Queen) else m.pieceMoved)
      && (m.isEnpassant ==> At(r, BypassedSquare(m)) == Empty)
      && (m.isCastle ==> At(r, RookTo(m)) == At(b, RookFrom(m)) && At(r, RookFrom(m)) == Empty)
      && (forall l | OnBoard(l) && l != m.start && l != m.end
                     && (m.isEnpassant ==> l != BypassedSquare(m))
                     && (m.isCastle ==> l != RookFrom(m) && l != RookTo(m))
            :: At(r, l) == At(b, l))
  {
  }

  /** `undoMove`: with an empty log only the result flags are cleared; otherwise
      the last move is popped and the en-passant target and castling rights
      are read back from the new tops of their logs. */
  function UndoMove(g: GameState): (r: GameState)
    requires HistoryOK(g)
    ensures !r.checkmate && !r.stalemate
    ensures |g.moveLog| == 0 ==> r == g.(checkmate := false, stalemate := false)
    ensures |g.moveLog| > 0 ==>
              && r.moveLog == g.moveLog[..|g.moveLog| - 1]
              && r.epLog == g.epLog[..|g.epLog| - 1]
              && r.rightsLog == g.rightsLog[..|g.rightsLog| - 1]
              && r.pos.whiteToMove == !g.pos.whiteToMove
              && TopsCurrent(r)
    ensures HistoryOK(r)
    ensures r.inCheck == g.inCheck && r.pins == g.pins && r.checks == g.checks
  {
    if |g.moveLog| == 0 then
      g.(checkmate := false, stalemate := false)
    else
      var m := g.moveLog[|g.moveLog| - 1];
      var wk := if m.pieceMoved == P(White, King) then m.start else g.pos.whiteKing;
      var bk := if m.pieceMoved == P(Black, King) then m.start else g.pos.blackKing;
      var epLog := g.epLog[..|g.epLog| - 1];
      var rightsLog := g.rightsLog[..|g.rightsLog| - 1];
      var pos := Position(RevertOnBoard(g.pos.board, m), !g.pos.whiteToMove, wk, bk,
                          epLog[|epLog| - 1], rightsLog[|rightsLog| - 1]);
      g.(pos := pos, moveLog := g.moveLog[..|g.moveLog| - 1], epLog := epLog, rightsLog := rightsLog,
         checkmate := false, stalemate := false)
  }

  /** The shape of the moves the generators produce, which is what makes
      `undoMove` an exact inverse: an en-passant capture moves diagonally onto
      an empty square beside the captured pawn, and a castle moves the king two
      columns along its row past an empty square the rook lands on. */
  predicate Reversible(b: Board, m: Move) {
    && BuiltFrom(b, m) && Fits(m)
    && (m.isEnpassant ==>
          && m.start.row != m.end.row && m.start.col != m.end.col
          && At(b, m.end) == Empty && At(b, BypassedSquare(m)) == m.pieceCaptured)
    && (m.isCastle ==>
          && !m.isEnpassant && m.start.row == m.end.row
          && (m.end.col - m.start.col == 2 || m.start.col - m.end.col == 2)
          && At(b, RookTo(m)) == Empty)
  }

  /** Undoing a move restores the board it was made on. */
  lemma RevertApply(b: Board, m: Move)
    requires Reversible(b, m)
    ensures RevertOnBoard(ApplyToBoard(b, m), m) == b
  {
    var r := RevertOnBoard(ApplyToBoard(b, m), m);
    forall l | OnBoard(l)
      ensures At(r, l) == At(b, l)
    {
    }
    BoardExt(r, b);
  }

  /** `makeMove` followed by `undoMove` gives back the position and logs
      exactly; only the checkmate and stalemate flags are cleared. */
  lemma MakeUndoRoundTrip(g: GameState, m: Move)
    requires HistoryOK(g) && TopsCurrent(g) && KingsPlaced(g.pos)
    requires Reversible(g.pos.board, m)
    ensures UndoMove(MakeMove(g, m)) == g.(checkmate := false, stalemate := false)
  {
    RevertApply(g.pos.board, m);
    var h := MakeMove(g, m);
    assert h.moveLog[|h.moveLog| - 1] == m;
    assert h.moveLog[..|h.moveLog| - 1] == g.moveLog;
    assert h.epLog[..|h.epLog| - 1] == g.epLog;
    assert h.rightsLog[..|h.rightsLog| - 1] == g.rightsLog;
    if m.pieceMoved == P(White, King) {
      assert At(g.pos.board, m.start) == P(White, King);
    }
    if m.pieceMoved == P(Black, King) {
      assert At(g.pos.board, m.start) == P(Black, King);
    }
  }
}
