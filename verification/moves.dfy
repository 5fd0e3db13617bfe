/** The `Move` value type: one ply, with the flags the board update needs,
    the arithmetic identity the engine compares moves by, and the
    rank-file notation used for display.
 */
module Moves {

  import opened Options
  import opened Pieces
  import opened Boards

  datatype Move = Move(
    start: Loc,
    end: Loc,
    pieceMoved: Square,
    /** For an en-passant capture this is the bypassed pawn, not the landing square. */
    pieceCaptured: Square,
    isPawnPromotion: bool,
    isEnpassant: bool,
    isCastle: bool,
    /** Display-only flags, set by the caller after generation. */
    isCheck: bool,
    isCheckmate: bool,
    isDraw: bool)
  {
    predicate IsCapture() {
      pieceCaptured != Empty
    }
  }

  predicate IsPawn(s: Square) {
    s.P? && s.kind == Pawn
  }

  predicate IsKing(s: Square) {
    s.P? && s.kind == King
  }

  /** The row on which a pawn of colour `c` promotes. */
  function LastRow(c: Color): int {
    if c == White then 0 else 7
  }

  /** The constructor `Move(startSq, endSq, board, isEnpassantMove, isCastleMove)`. */
  function NewMove(start: Loc, end: Loc, b: Board, isEnpassant: bool, isCastle: bool): (m: Move)
    requires OnBoard(start) && OnBoard(end)
    ensures m.start == start && m.end == end
    ensures m.isEnpassant == isEnpassant && m.isCastle == isCastle
    ensures m.pieceMoved == At(b, start)
    ensures m.isPawnPromotion <==> IsPawn(m.pieceMoved) && end.row == LastRow(m.pieceMoved.color)
    ensures !isEnpassant ==> m.pieceCaptured == At(b, end)
    ensures isEnpassant ==> IsPawn(m.pieceCaptured) && (m.pieceCaptured.color == White <==> m.pieceMoved == P(Black, Pawn))
    ensures !m.isCheck && !m.isCheckmate && !m.isDraw
  {
    var moved := At(b, start);
    var promotion := (moved == P(White, Pawn) && end.row == 0) || (moved == P(Black, Pawn) && end.row == 7);
    var captured :=
      if isEnpassant then (if moved == P(Black, Pawn) then P(White, Pawn) else P(Black, Pawn))
      else At(b, end);
    Move(start, end, moved, captured, promotion, isEnpassant, isCastle, false, false, false)
  }

  /** `m` is what the constructor produces from board `b`. */
  predicate BuiltFrom(b: Board, m: Move) {
    OnBoard(m.start) && OnBoard(m.end) && m == NewMove(m.start, m.end, b, m.isEnpassant, m.isCastle)
  }

  /** What applying or undoing `m` needs to index the board: both squares on
      the board, a promotion moves a piece, and a castle's rook squares
      (two columns beyond or one column inside the king's landing square) exist. */
  predicate Fits(m: Move) {
    && OnBoard(m.start) && OnBoard(m.end)
    && (m.isPawnPromotion ==> m.pieceMoved.P?)
    && (m.isCastle ==> 2 <= m.end.col <= 6)
  }

  /** `moveID`: start row, start column, end row, end column as four decimal digits. */
  function MoveID(m: Move): int {
    m.start.row * 1000 + m.start.col * 100 + m.end.row * 10 + m.end.col
  }

  /** `Move.__eq__`: two moves are equal when their identifiers are. */
  predicate SameMove(a: Move, b: Move) {
    MoveID(a) == MoveID(b)
  }

  /** Reads the four coordinates back out of an identifier. */
  function DecodeMoveID(id: int): (r: (Loc, Loc))
    requires 0 <= id
  {
    (Loc(id / 1000, id / 100 % 10), Loc(id / 10 % 10, id % 10))
  }

  /** For on-board squares the identifier loses nothing: it decodes to the move's squares. */
  lemma MoveIDDecodes(m: Move)
    requires OnBoard(m.start) && OnBoard(m.end)
    ensures MoveID(m) >= 0 && DecodeMoveID(MoveID(m)) == (m.start, m.end)
  {
    var a, b, c, d := m.start.row, m.start.col, m.end.row, m.end.col;
    var id := MoveID(m);
    assert id == ((a * 10 + b) * 10 + c) * 10 + d;
    DivModDigit(((a * 10 + b) * 10 + c), d);
    DivModDigit(a * 10 + b, c);
    DivModDigit(a, b);
    assert id / 10 == (a * 10 + b) * 10 + c;
    assert id / 100 == (id / 10) / 10 by { DivDiv(id); }
    assert id / 1000 == (id / 100) / 10 by { DivDiv10(id); }
  }

  lemma DivModDigit(q: int, d: int)
    requires 0 <= q && 0 <= d < 10
    ensures (q * 10 + d) / 10 == q && (q * 10 + d) % 10 == d
  {
  }

  lemma DivDiv(x: int)
    requires 0 <= x
    ensures x / 100 == (x / 10) / 10
  {
  }

  lemma DivDiv10(x: int)
    requires 0 <= x
    ensures x / 1000 == (x / 100) / 10
  {
  }

  /** Move equality holds exactly when the start and end squares coincide;
      the promotion, en-passant and castle flags play no part. */
  lemma SameMoveIffSameSquares(a: Move, b: Move)
    requires OnBoard(a.start) && OnBoard(a.end) && OnBoard(b.start) && OnBoard(b.end)
    ensures SameMove(a, b) <==> a.start == b.start && a.end == b.end
  {
    MoveIDDecodes(a);
    MoveIDDecodes(b);
  }

  const Files: string := "abcdefgh"
  const Ranks: string := "87654321"

  /** `getRankFile`: file letter then rank digit (`colsToFiles`, `rowsToRanks`). */
  function RankFile(l: Loc): (r: string)
    requires OnBoard(l)
    ensures |r| == 2 && 'a' <= r[0] <= 'h' && '1' <= r[1] <= '8'
  {
    [Files[l.col], Ranks[l.row]]
  }

  /** `filesToCols` */
  function FileToCol(ch: char): Option<int> {
    match ch
    case 'a' => Some(0) case 'b' => Some(1) case 'c' => Some(2) case 'd' => Some(3)
    case 'e' => Some(4) case 'f' => Some(5) case 'g' => Some(6) case 'h' => Some(7)
    case _ => None
  }

  /** `ranksToRows`: rank 1 is row 7, rank 8 is row 0. */
  function RankToRow(ch: char): Option<int> {
    match ch
    case '1' => Some(7) case '2' => Some(6) case '3' => Some(5) case '4' => Some(4)
    case '5' => Some(3) case '6' => Some(2) case '7' => Some(1) case '8' => Some(0)
    case _ => None
  }

  function ParseRankFile(s: string): Option<Loc> {
    if |s| != 2 then None
    else
      var c := FileToCol(s[0]);
      var r := RankToRow(s[1]);
      if c.Some? && r.Some? then Some(Loc(r.value, c.value)) else None
  }

  /** The square name reads back as the square it names. */
  lemma RankFileRoundTrip(l: Loc)
    requires OnBoard(l)
    ensures ParseRankFile(RankFile(l)) == Some(l)
  {
  }

  /** `getChessNotation`: start square name followed by end square name. */
  function ChessNotation(m: Move): (r: string)
    requires OnBoard(m.start) && OnBoard(m.end)
    ensures |r| == 4
  {
    RankFile(m.start) + RankFile(m.end)
  }

  /** The notation of a move determines its start and end squares, and so
      (by `SameMoveIffSameSquares`) the move up to equality. */
  lemma ChessNotationRoundTrip(m: Move)
    requires OnBoard(m.start) && OnBoard(m.end)
    ensures ParseRankFile(ChessNotation(m)[..2]) == Some(m.start)
    ensures ParseRankFile(ChessNotation(m)[2..]) == Some(m.end)
  {
    var n := ChessNotation(m);
    assert n[..2] == RankFile(m.start);
    assert n[2..] == RankFile(m.end);
    RankFileRoundTrip(m.start);
    RankFileRoundTrip(m.end);
  }

  /** The piece character of the moved piece, `pieceMoved[1]`. */
  function PieceChar(s: Square): char {
    Code(s)[1]
  }

  /** `Move.__str__`. */
  function MoveText(m: Move): (r: string)
    requires OnBoard(m.start) && OnBoard(m.end)
    ensures m.isCastle ==> r == "O-O" || r == "O-O-O"
    ensures !m.isCastle && !m.isCheckmate && !m.isCheck && m.isDraw ==> r == "1/2 1/2"
    ensures !m.isCastle && (m.isCheck || m.isCheckmate || !m.isDraw) ==>
              ('x' in r <==> m.IsCapture())
    ensures !m.isCastle && !m.isPawnPromotion && !m.isEnpassant && !m.isCheck && !m.isCheckmate && !m.isDraw ==>
              |r| >= 2 && ParseRankFile(r[|r| - 2..]) == Some(m.end)
  {
    if m.isCastle then
      (if m.end.col == 6 then "O-O" else "O-O-O")
    else
      var endSquare := RankFile(m.end);
      var text :=
        if IsPawn(m.pieceMoved) then
          (if m.IsCapture() then [Files[m.start.col]] + "x" + endSquare else endSquare)
          + (if m.isPawnPromotion then "=Q" else "")
          + (if m.isEnpassant then " e.p." else "")
        else
          [PieceChar(m.pieceMoved)] + (if m.IsCapture() then "x" else "") + endSquare;
      assert 'x' !in endSquare;
      assert 'x' !in [Files[m.start.col]];
      assert PieceChar(m.pieceMoved) != 'x';
      assert !m.isPawnPromotion && !m.isEnpassant ==> text[|text| - 2..] == endSquare;
      RankFileRoundTrip(m.end);
      if m.isCheckmate then text + "#"
      else if m.isCheck then text + "+"
      else if m.isDraw then "1/2 1/2"
      else text
  }

  /** The printed form opens with what it was written from: a piece move
      with the letter of the piece that moved, a pawn capture with the file
      the pawn left, a quiet pawn move with the name of its target square. */
  lemma MoveTextOpens(m: Move)
    requires OnBoard(m.start) && OnBoard(m.end) && m.pieceMoved.P? && !m.isCastle
    requires m.isCheck || m.isCheckmate || !m.isDraw
    ensures var r := MoveText(m);
            && |r| >= 2
            && (m.pieceMoved.kind != Pawn ==> KindOfChar(r[0]) == Some(m.pieceMoved.kind))
            && (m.pieceMoved.kind == Pawn && m.IsCapture() ==> FileToCol(r[0]) == Some(m.start.col) && r[1] == 'x')
            && (m.pieceMoved.kind == Pawn && !m.IsCapture() ==> ParseRankFile(r[..2]) == Some(m.end))
  {
    var r := MoveText(m);
    var endSquare := RankFile(m.end);
    RankFileRoundTrip(m.end);
    if m.pieceMoved.kind == Pawn && !m.IsCapture() {
      assert r[..2] == endSquare;
    }
  }
}
