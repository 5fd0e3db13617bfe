/** `getAllPossibleMoves`, `squareUnderAttack` and `getCastleMoves`.

    The pseudo-legal generator visits the squares row by row, column by
    column, and hands every piece of the side to move to its own generator,
    threading the pin list (which the generators consume) and the position
    (whose king record the king generator rewrites).  `squareUnderAttack`
    runs the same generator for the other side by flipping the side to move
    and back.  Castling tests its squares with `squareUnderAttack`.
 */
module Generate {

  import opened Options
  import opened Pieces
  import opened Boards
  import opened Moves
  import opened State
  import opened Pins
  import opened MakeUndo
  import opened Sliders
  import opened Pawns
  import opened Kings
  import opened Checks

  /** What a generator leaves behind: its moves, the pin list and the position. */
  datatype Pseudo = Pseudo(moves: seq<Move>, pins: seq<Ray>, pos: Position)

  /** Two positions that differ at most in where the kings are recorded. */
  predicate SameButKings(p: Position, q: Position) {
    q.board == p.board && q.whiteToMove == p.whiteToMove && q.enPassant == p.enPassant && q.rights == p.rights
  }

  /** A pawn of the side to move on `l` has a square ahead of it. */
  predicate CanAdvance(p: Position, l: Loc) {
    0 <= l.row + Forward(p.whiteToMove) < 8
  }

  /** `self.movefunctions[piece](row, column, moves)`. */
  function PieceMoves(p: Position, pins: seq<Ray>, l: Loc): (r: Pseudo)
    requires OnBoard(l) && At(p.board, l).P? && (At(p.board, l).kind == Pawn ==> CanAdvance(p, l))
    ensures SameButKings(p, r.pos)
    ensures At(p.board, l).kind != King || p.OwnKing() == l ==> r.pos == p
  {
    match At(p.board, l).kind
    case Pawn =>
      var g := PawnMoves(p, AsWritten, pins, l);
      Pseudo(g.moves, g.pins, p)
    case Rook =>
      var g := RookMoves(p, pins, l);
      Pseudo(g.moves, g.pins, p)
    case Knight =>
      var g := KnightMoves(p, pins, l);
      Pseudo(g.moves, g.pins, p)
    case Bishop =>
      var g := BishopMoves(p, pins, l);
      Pseudo(g.moves, g.pins, p)
    case Queen =>
      var g := QueenMoves(p, pins, l);
      Pseudo(g.moves, g.pins, p)
    case King =>
      var k := KingMoves(p, l);
      Pseudo(k.moves, pins, k.pos)
  }

  /** The square with index `i` in the row-by-row order of the two loops. */
  function Square(i: nat): (l: Loc)
    requires i < 64
    ensures OnBoard(l)
  {
    Loc(i / 8, i % 8)
  }

  /** The two nested loops of `getAllPossibleMoves` from square `i` on. */
  function AllLoop(p: Position, pins: seq<Ray>, i: nat): (r: Pseudo)
    requires i <= 64 && PawnsOffLastRow(p.board)
    ensures SameButKings(p, r.pos)
    decreases 64 - i
  {
    if i == 64 then Pseudo([], pins, p)
    else
      var l := Square(i);
      var s := At(p.board, l);
      if s.P? && s.color == p.Side() then
        assert s.kind == Pawn ==> CanAdvance(p, l) by {
          assert p.board[0][l.col] != P(White, Pawn) && p.board[7][l.col] != P(Black, Pawn);
        }
        var here := PieceMoves(p, pins, l);
        var rest := AllLoop(here.pos, here.pins, i + 1);
        Pseudo(here.moves + rest.moves, rest.pins, rest.pos)
      else
        AllLoop(p, pins, i + 1)
  }

  /** `getAllPossibleMoves`. */
  function AllPossibleMoves(p: Position, pins: seq<Ray>): (r: Pseudo)
    requires PawnsOffLastRow(p.board)
    ensures SameButKings(p, r.pos)
  {
    AllLoop(p, pins, 0)
  }

  /** What `squareUnderAttack` answers, with the pin list and position it leaves. */
  datatype Probe = Probe(attacked: bool, pins: seq<Ray>, pos: Position)

  /** `squareUnderAttack(row, column)`: some pseudo-legal move of the other
      side ends on `sq` (a pawn push counts as much as a capture), or the
      other side's king stands next to `sq`. */
  function SquareUnderAttack(p: Position, pins: seq<Ray>, sq: Loc): (r: Probe)
    requires PawnsOffLastRow(p.board)
    ensures SameButKings(p, r.pos)
  {
    var opp := AllPossibleMoves(p.Flipped(), pins);
    var back := opp.pos.Flipped();
    var enemyKing := if back.whiteToMove then back.blackKing else back.whiteKing;
    var hit := exists i | 0 <= i < |opp.moves| :: opp.moves[i].end == sq;
    var adjacent := exists n | 0 <= n < 8 :: KingStep(sq, n) == enemyKing;
    Probe(hit || adjacent, opp.pins, back)
  }

  predicate OwnKingSide(p: Position) {
    if p.whiteToMove then p.rights.wks else p.rights.bks
  }

  predicate OwnQueenSide(p: Position) {
    if p.whiteToMove then p.rights.wqs else p.rights.bqs
  }

  /** The castling squares exist: the king the generator is called for is on
      the board, and on its home column while its side holds a right. */
  predicate CastleReady(p: Position, l: Loc) {
    OnBoard(l) && (OwnKingSide(p) || OwnQueenSide(p) ==> l.col == 4)
  }

  /** The king-side half of `getCastleMoves`. */
  function KingSideCastle(p: Position, pins: seq<Ray>, l: Loc): (r: Pseudo)
    requires PawnsOffLastRow(p.board) && CastleReady(p, l)
    ensures SameButKings(p, r.pos)
  {
    if OwnKingSide(p) && At(p.board, Loc(l.row, l.col + 1)) == Empty && At(p.board, Loc(l.row, l.col + 2)) == Empty then
      var a1 := SquareUnderAttack(p, pins, Loc(l.row, l.col + 1));
      if a1.attacked then Pseudo([], a1.pins, a1.pos)
      else
        var a2 := SquareUnderAttack(a1.pos, a1.pins, Loc(l.row, l.col + 2));
        if a2.attacked then Pseudo([], a2.pins, a2.pos)
        else
          var a3 := SquareUnderAttack(a2.pos, a2.pins, l);
          Pseudo(if a3.attacked then [] else [NewMove(l, Loc(l.row, l.col + 2), p.board, false, true)], a3.pins, a3.pos)
    else
      Pseudo([], pins, p)
  }

  /** The queen-side half of `getCastleMoves`: three empty squares, and the
      two the king crosses unattacked. */
  function QueenSideCastle(p: Position, pins: seq<Ray>, l: Loc): (r: Pseudo)
    requires PawnsOffLastRow(p.board) && CastleReady(p, l)
    ensures SameButKings(p, r.pos)
  {
    if && OwnQueenSide(p) && At(p.board, Loc(l.row, l.col - 1)) == Empty
       && At(p.board, Loc(l.row, l.col - 2)) == Empty && At(p.board, Loc(l.row, l.col - 3)) == Empty then
      var a1 := SquareUnderAttack(p, pins, Loc(l.row, l.col - 1));
      if a1.attacked then Pseudo([], a1.pins, a1.pos)
      else
        var a2 := SquareUnderAttack(a1.pos, a1.pins, Loc(l.row, l.col - 2));
        if a2.attacked then Pseudo([], a2.pins, a2.pos)
        else
          var a3 := SquareUnderAttack(a2.pos, a2.pins, l);
          Pseudo(if a3.attacked then [] else [NewMove(l, Loc(l.row, l.col - 2), p.board, false, true)], a3.pins, a3.pos)
    else
      Pseudo([], pins, p)
  }

  /** `getCastleMoves` for the king on `l`: nothing while in check. */
  function CastleMoves(p: Position, inCheck: bool, pins: seq<Ray>, l: Loc): (r: Pseudo)
    requires PawnsOffLastRow(p.board) && CastleReady(p, l)
    ensures SameButKings(p, r.pos)
  {
    if inCheck then Pseudo([], pins, p)
    else
      var k := KingSideCastle(p, pins, l);
      var q := QueenSideCastle(k.pos, k.pins, l);
      Pseudo(k.moves + q.moves, q.pins, q.pos)
  }

  // ---------------------------------------------------------------- the position comes back

  /** A piece's generator gives back the position when the kings are placed:
      only the king generator touches it, and it is run for the square the
      king is recorded on. */
  lemma PieceMovesRestores(p: Position, pins: seq<Ray>, l: Loc)
    requires OnBoard(l) && KingsPlaced(p)
    requires At(p.board, l).P? && At(p.board, l).color == p.Side()
    requires At(p.board, l).kind == Pawn ==> CanAdvance(p, l)
    ensures PieceMoves(p, pins, l).pos == p
  {
    if At(p.board, l).kind == King {
      assert At(p.board, l) == P(p.Side(), King);
    }
  }

  /** A piece of the side to move is never a pawn on its last row. */
  lemma OwnPawnAdvances(p: Position, l: Loc)
    requires OnBoard(l) && PawnsOffLastRow(p.board) && At(p.board, l) == P(p.Side(), Pawn)
    ensures CanAdvance(p, l)
  {
    assert p.board[0][l.col] != P(White, Pawn) && p.board[7][l.col] != P(Black, Pawn);
  }

  /** One step of the loop: if the rest of the loop gives the position back
      whatever pin list it starts from, so does the loop from square `i`. */
  lemma AllLoopStep(p: Position, pins: seq<Ray>, i: nat, next: nat)
    requires i < 64 && next == i + 1 && PawnsOffLastRow(p.board) && KingsPlaced(p)
    requires forall q :: AllLoop(p, q, next).pos == p
    ensures AllLoop(p, pins, i).pos == p
  {
    var l := Square(i);
    var s := At(p.board, l);
    if s.P? && s.color == p.Side() {
      if s.kind == Pawn {
        OwnPawnAdvances(p, l);
      }
      PieceMovesRestores(p, pins, l);
    }
  }

  /** With the kings placed, the loop from square `i` gives back the position
      it was handed, whatever the pin list. */
  lemma {:induction false} AllLoopRestores(p: Position, i: nat)
    requires i <= 64 && PawnsOffLastRow(p.board) && KingsPlaced(p)
    ensures forall pins :: AllLoop(p, pins, i).pos == p
    decreases 64 - i
  {
    if i < 64 {
      AllLoopRestores(p, i + 1);
      forall pins {
        AllLoopStep(p, pins, i, i + 1);
      }
    }
  }

  /** `squareUnderAttack` flips the side back and, with the kings placed,
      leaves the position exactly as it was. */
  lemma SquareUnderAttackRestores(p: Position, pins: seq<Ray>, sq: Loc)
    requires PawnsOffLastRow(p.board) && KingsPlaced(p)
    ensures SquareUnderAttack(p, pins, sq).pos == p
  {
    AllLoopRestores(p.Flipped(), 0);
  }

  /** The king-side half gives back the position and hands out at most the
      castle two columns to the right, only while the right is held and the
      two squares it crosses are empty. */
  lemma KingSideCastleSpec(p: Position, pins: seq<Ray>, l: Loc)
    requires PawnsOffLastRow(p.board) && CastleReady(p, l) && KingsPlaced(p)
    ensures var r := KingSideCastle(p, pins, l);
      && r.pos == p
      && forall m | m in r.moves ::
           && OwnKingSide(p) && l.col == 4
           && At(p.board, Loc(l.row, l.col + 1)) == Empty && At(p.board, Loc(l.row, l.col + 2)) == Empty
           && m == NewMove(l, Loc(l.row, l.col + 2), p.board, false, true)
  {
    if OwnKingSide(p) && At(p.board, Loc(l.row, l.col + 1)) == Empty && At(p.board, Loc(l.row, l.col + 2)) == Empty {
      SquareUnderAttackRestores(p, pins, Loc(l.row, l.col + 1));
      var a1 := SquareUnderAttack(p, pins, Loc(l.row, l.col + 1));
      SquareUnderAttackRestores(p, a1.pins, Loc(l.row, l.col + 2));
      var a2 := SquareUnderAttack(p, a1.pins, Loc(l.row, l.col + 2));
      SquareUnderAttackRestores(p, a2.pins, l);
    }
  }

  /** The queen-side half: at most the castle two columns to the left, only
      while the right is held and the three squares towards the rook are empty. */
  lemma QueenSideCastleSpec(p: Position, pins: seq<Ray>, l: Loc)
    requires PawnsOffLastRow(p.board) && CastleReady(p, l) && KingsPlaced(p)
    ensures var r := QueenSideCastle(p, pins, l);
      && r.pos == p
      && forall m | m in r.moves ::
           && OwnQueenSide(p) && l.col == 4
           && At(p.board, Loc(l.row, l.col - 1)) == Empty && At(p.board, Loc(l.row, l.col - 2)) == Empty
           && At(p.board, Loc(l.row, l.col - 3)) == Empty
           && m == NewMove(l, Loc(l.row, l.col - 2), p.board, false, true)
  {
    if && OwnQueenSide(p) && At(p.board, Loc(l.row, l.col - 1)) == Empty
       && At(p.board, Loc(l.row, l.col - 2)) == Empty && At(p.board, Loc(l.row, l.col - 3)) == Empty {
      SquareUnderAttackRestores(p, pins, Loc(l.row, l.col - 1));
      var a1 := SquareUnderAttack(p, pins, Loc(l.row, l.col - 1));
      SquareUnderAttackRestores(p, a1.pins, Loc(l.row, l.col - 2));
      var a2 := SquareUnderAttack(p, a1.pins, Loc(l.row, l.col - 2));
      SquareUnderAttackRestores(p, a2.pins, l);
    }
  }

  /** `getCastleMoves` leaves the position exactly as it was. */
  lemma CastleMovesRestore(p: Position, inCheck: bool, pins: seq<Ray>, l: Loc)
    requires PawnsOffLastRow(p.board) && CastleReady(p, l) && KingsPlaced(p)
    ensures CastleMoves(p, inCheck, pins, l).pos == p
  {
    if !inCheck {
      KingSideCastleSpec(p, pins, l);
      QueenSideCastleSpec(p, KingSideCastle(p, pins, l).pins, l);
    }
  }

  // ---------------------------------------------------------------- the moves can be taken back

  /** A move generated for the side to move: it starts on one of that side's
      pieces and `undoMove` takes it back exactly. */
  ghost predicate Generated(p: Position, m: Move) {
    && OnBoard(m.start) && At(p.board, m.start).P? && At(p.board, m.start).color == p.Side()
    && Reversible(p.board, m)
  }

  lemma SliderMovePlain(b: Board, l: Loc, enemy: Color, dirs: seq<(int, int)>, pl: PinLookup, m: Move)
    requires OnBoard(l) && SliderMove(b, l, enemy, dirs, pl, m)
    ensures m.start == l && Reversible(b, m)
  {
    var n, k :| 0 <= n < |dirs| && 1 <= k < 8 && AlongPin(pl, dirs[n]) && Reaches(b, l, enemy, dirs[n], k)
                && OnBoard(Along(l, dirs[n], k)) && m == Plain(b, l, Along(l, dirs[n], k));
    PlainReversible(b, l, Along(l, dirs[n], k));
  }

  lemma KnightMovePlain(p: Position, pins: seq<Ray>, l: Loc, m: Move)
    requires OnBoard(l) && m in KnightMoves(p, pins, l).moves
    ensures m.start == l && Reversible(p.board, m)
  {
    KnightMovesExact(p, pins, l, m);
    var j :| 0 <= j < 8 && KnightLands(p.board, l, Opponent(p.Side()), j) && m == Plain(p.board, l, Jump(l, j));
    PlainReversible(p.board, l, Jump(l, j));
  }

  lemma KingMovePlain(p: Position, l: Loc, m: Move)
    requires OnBoard(l) && m in KingMoves(p, l).moves
    ensures m.start == l && Reversible(p.board, m)
  {
    var j := KingLoopSound(p, l, 0, m);
    PlainReversible(p.board, l, KingStep(l, j));
  }

  /** Every move a piece's generator hands out starts on that piece and can
      be taken back. */
  lemma PieceMovesReversible(p: Position, pins: seq<Ray>, l: Loc)
    requires OnBoard(l) && EnPassantSound(p)
    requires At(p.board, l).P? && At(p.board, l).color == p.Side()
    requires At(p.board, l).kind == Pawn ==> CanAdvance(p, l)
    ensures forall m | m in PieceMoves(p, pins, l).moves :: m.start == l && Reversible(p.board, m)
  {
    var enemy := Opponent(p.Side());
    forall m | m in PieceMoves(p, pins, l).moves
      ensures m.start == l && Reversible(p.board, m)
    {
      match At(p.board, l).kind
      case Pawn =>
        PawnMovesShape(p, AsWritten, pins, l, m);
        PawnMovesReversible(p, AsWritten, pins, l);
      case Rook =>
        RookMovesExact(p, pins, l, m);
        SliderMovePlain(p.board, l, enemy, RookDirs, SliderPin(p, pins, l), m);
      case Bishop =>
        BishopMovesExact(p, pins, l, m);
        SliderMovePlain(p.board, l, enemy, BishopDirs, SliderPin(p, pins, l), m);
      case Queen =>
        QueenMovesExact(p, pins, l, m);
        var pl := LookUpPin(pins, l, true);
        if SliderMove(p.board, l, enemy, RookDirs, pl, m) {
          SliderMovePlain(p.board, l, enemy, RookDirs, pl, m);
        } else {
          SliderMovePlain(p.board, l, enemy, BishopDirs, pl, m);
        }
      case Knight =>
        KnightMovePlain(p, pins, l, m);
      case King =>
        KingMovePlain(p, l, m);
    }
  }

  /** The loop from an own piece's square: that piece's moves, then the
      rest of the loop from the position it was handed. */
  lemma AllLoopOwnSquare(p: Position, pins: seq<Ray>, i: nat)
    requires i < 64 && PawnsOffLastRow(p.board) && KingsPlaced(p)
    requires At(p.board, Square(i)).P? && At(p.board, Square(i)).color == p.Side()
    requires At(p.board, Square(i)).kind == Pawn ==> CanAdvance(p, Square(i))
    ensures var here := PieceMoves(p, pins, Square(i));
            AllLoop(p, pins, i).moves == here.moves + AllLoop(p, here.pins, i + 1).moves
  {
    PieceMovesRestores(p, pins, Square(i));
  }

  /** One step of the loop: if the rest of the loop generates only moves of
      the side to move that can be taken back, whatever pin list it starts
      from, so does the loop from square `i`. */
  lemma AllLoopGeneratedStep(p: Position, pins: seq<Ray>, i: nat, next: nat)
    requires i < 64 && next == i + 1 && WF(p)
    requires forall q, m | m in AllLoop(p, q, next).moves :: Generated(p, m)
    ensures forall m | m in AllLoop(p, pins, i).moves :: Generated(p, m)
  {
    var l := Square(i);
    var s := At(p.board, l);
    if s.P? && s.color == p.Side() {
      if s.kind == Pawn {
        OwnPawnAdvances(p, l);
      }
      AllLoopOwnSquare(p, pins, i);
      PieceMovesReversible(p, pins, l);
    }
  }

  lemma {:induction false} AllLoopGenerated(p: Position, i: nat)
    requires i <= 64 && WF(p)
    ensures forall pins, m | m in AllLoop(p, pins, i).moves :: Generated(p, m)
    decreases 64 - i
  {
    if i < 64 {
      AllLoopGenerated(p, i + 1);
      forall pins {
        AllLoopGeneratedStep(p, pins, i, i + 1);
      }
    }
  }

  /** `getAllPossibleMoves` hands out only moves of the side to move that
      `undoMove` takes back exactly. */
  lemma AllPossibleMovesGenerated(p: Position, pins: seq<Ray>)
    requires WF(p)
    ensures forall m | m in AllPossibleMoves(p, pins).moves :: Generated(p, m)
  {
    AllLoopGenerated(p, 0);
  }

  /** A castle the generator hands out: the king moves two columns along its
      home row towards a corner whose right it still holds, over empty
      squares, and the move can be taken back. */
  ghost predicate CastleShape(p: Position, m: Move) {
    && m.isCastle && m.start == p.OwnKing() && Generated(p, m) && m.start.col == 4 && m.end.row == m.start.row
    && (m.end.col == 6 ==> OwnKingSide(p) && At(p.board, Loc(m.start.row, 5)) == Empty)
    && (m.end.col == 2 ==> OwnQueenSide(p) && At(p.board, Loc(m.start.row, 3)) == Empty
                            && At(p.board, Loc(m.start.row, 1)) == Empty)
    && (m.end.col == 6 || m.end.col == 2)
  }

  /** The king-side half hands out only castles of the shape, and gives the
      position back. */
  lemma KingSideShape(p: Position, pins: seq<Ray>)
    requires WF(p)
    ensures KingSideCastle(p, pins, p.OwnKing()).pos == p
    ensures forall m | m in KingSideCastle(p, pins, p.OwnKing()).moves :: CastleShape(p, m)
  {
    var l := p.OwnKing();
    KingSideCastleSpec(p, pins, l);
    assert At(p.board, l) == P(p.Side(), King);
  }

  /** The queen-side half hands out only castles of the shape, and gives the
      position back. */
  lemma QueenSideShape(p: Position, pins: seq<Ray>)
    requires WF(p)
    ensures QueenSideCastle(p, pins, p.OwnKing()).pos == p
    ensures forall m | m in QueenSideCastle(p, pins, p.OwnKing()).moves :: CastleShape(p, m)
  {
    var l := p.OwnKing();
    QueenSideCastleSpec(p, pins, l);
    assert At(p.board, l) == P(p.Side(), King);
  }

  /** `getCastleMoves` for the king of the side to move hands out castles
      only: none while in check. */
  lemma CastleMovesShape(p: Position, inCheck: bool, pins: seq<Ray>)
    requires WF(p)
    ensures inCheck ==> CastleMoves(p, inCheck, pins, p.OwnKing()).moves == []
    ensures forall m | m in CastleMoves(p, inCheck, pins, p.OwnKing()).moves :: CastleShape(p, m)
  {
    var l := p.OwnKing();
    if !inCheck {
      var k := KingSideCastle(p, pins, l);
      KingSideShape(p, pins);
      QueenSideShape(p, k.pins);
      assert CastleMoves(p, inCheck, pins, l).moves == k.moves + QueenSideCastle(p, k.pins, l).moves;
    }
  }
}
