/** What `squareUnderAttack` answers, and the castling tests built on it.

    The other side's generators look up their own squares in the pin list;
    the list `getValidMoves` hands over names only squares of the side that
    asks, so the answer does not depend on it and the list comes back
    unchanged.  The answer is then compared with the ray-and-knight notion
    of an attacked square the pin and check scan decides.
 */
module Attacks {

  import opened Options
  import opened Pieces
  import opened Boards
  import opened Moves
  import opened State
  import opened Pins
  import opened MakeUndo
  import opened Sliders
  import opened Pawns
  import opened Kings
  import opened Checks
  import opened Generate

  // ---------------------------------------------------------------- the pin list does not matter

  /** No entry of `pins` names a square holding a piece of the side to move in `q`. */
  ghost predicate PinsElsewhere(q: Position, pins: seq<Ray>) {
    forall i | 0 <= i < |pins| ::
      OnBoard(pins[i].loc) ==> !(At(q.board, pins[i].loc).P? && At(q.board, pins[i].loc).color == q.Side())
  }

  /** A piece of the side to move finds no pin for its square. */
  lemma Unpinned(q: Position, pins: seq<Ray>, l: Loc, keep: bool)
    requires OnBoard(l) && At(q.board, l).P? && At(q.board, l).color == q.Side() && PinsElsewhere(q, pins)
    ensures LookUpPin(pins, l, keep) == PinLookup(false, 0, 0, pins)
  {
    assert FindPin(pins, l).None?;
  }

  /** A piece's generator ignores a pin list with no entry on its side's
      pieces, and hands the list back unchanged. */
  lemma PieceMovesPinFree(q: Position, pins: seq<Ray>, l: Loc)
    requires OnBoard(l) && KingsPlaced(q) && At(q.board, l).P? && At(q.board, l).color == q.Side()
    requires At(q.board, l).kind == Pawn ==> CanAdvance(q, l)
    requires PinsElsewhere(q, pins)
    ensures PieceMoves(q, pins, l) == Pseudo(PieceMoves(q, [], l).moves, pins, q)
  {
    PieceMovesRestores(q, pins, l);
    PieceMovesRestores(q, [], l);
    var b := q.board;
    var enemy := Opponent(q.Side());
    match At(b, l).kind
    case Pawn =>
      Unpinned(q, pins, l, false);
      Unpinned(q, [], l, false);
    case Rook =>
      Unpinned(q, pins, l, false);
      Unpinned(q, [], l, false);
      SlideAllUnpinned(b, l, enemy, RookDirs, SliderPin(q, pins, l), SliderPin(q, [], l), true, 0);
    case Bishop =>
      Unpinned(q, pins, l, false);
      Unpinned(q, [], l, false);
      SlideAllUnpinned(b, l, enemy, BishopDirs, SliderPin(q, pins, l), SliderPin(q, [], l), false, 0);
    case Queen =>
      Unpinned(q, pins, l, true);
      Unpinned(q, [], l, true);
      SlideAllUnpinned(b, l, enemy, RookDirs, SliderPin(q, pins, l), SliderPin(q, [], l), true, 0);
      SlideAllUnpinned(b, l, enemy, BishopDirs, SliderPin(q, pins, l), SliderPin(q, [], l), false, 0);
    case Knight =>
      Unpinned(q, pins, l, false);
      Unpinned(q, [], l, false);
    case King =>
  }

  /** One square of the loop: if the rest of the loop ignores the list, so
      does the loop from square `i`. */
  lemma AllLoopPinFreeStep(q: Position, pins: seq<Ray>, i: nat, next: nat)
    requires i < 64 && next == i + 1 && PawnsOffLastRow(q.board) && KingsPlaced(q) && PinsElsewhere(q, pins)
    requires AllLoop(q, pins, next) == Pseudo(AllLoop(q, [], next).moves, pins, q)
    requires AllLoop(q, [], next) == Pseudo(AllLoop(q, [], next).moves, [], q)
    ensures AllLoop(q, pins, i) == Pseudo(AllLoop(q, [], i).moves, pins, q)
  {
    var l := Generate.Square(i);
    var s := At(q.board, l);
    if s.P? && s.color == q.Side() {
      if s.kind == Pawn {
        OwnPawnAdvances(q, l);
      }
      PieceMovesPinFree(q, pins, l);
      PieceMovesPinFree(q, [], l);
    }
  }

  /** The generator loop from square `i` ignores such a pin list too. */
  lemma {:induction false} AllLoopPinFree(q: Position, pins: seq<Ray>, i: nat)
    requires i <= 64 && PawnsOffLastRow(q.board) && KingsPlaced(q) && PinsElsewhere(q, pins)
    ensures AllLoop(q, pins, i) == Pseudo(AllLoop(q, [], i).moves, pins, q)
    decreases 64 - i
  {
    if i < 64 {
      AllLoopPinFree(q, pins, i + 1);
      AllLoopPinFree(q, [], i + 1);
      AllLoopPinFreeStep(q, pins, i, i + 1);
    }
  }

  /** `squareUnderAttack` hands a pin list with no entry on the other side's
      pieces back unchanged, leaves the position as it was, and gives the
      answer it gives for the empty list. */
  lemma SquareUnderAttackPinFree(p: Position, pins: seq<Ray>, sq: Loc)
    requires PawnsOffLastRow(p.board) && KingsPlaced(p) && PinsElsewhere(p.Flipped(), pins)
    ensures SquareUnderAttack(p, pins, sq) == Probe(SquareUnderAttack(p, [], sq).attacked, pins, p)
  {
    AllLoopPinFree(p.Flipped(), pins, 0);
    AllLoopPinFree(p.Flipped(), [], 0);
  }

  /** `squareUnderAttack(sq)` with the pins out of the way. */
  function UnderAttack(p: Position, sq: Loc): bool
    requires PawnsOffLastRow(p.board)
  {
    SquareUnderAttack(p, [], sq).attacked
  }

  // ---------------------------------------------------------------- castling, with the pins out of the way

  /** The castle towards side `d` (1 the king side, -1 the queen side) is
      open: the right is held, the king stands on its home column, and the
      squares between it and the rook are empty. */
  predicate SideOpen(p: Position, l: Loc, d: int)
    requires OnBoard(l)
  {
    && (d == 1 || d == -1)
    && (if d == 1 then OwnKingSide(p) else OwnQueenSide(p))
    && l.col == 4
    && At(p.board, Loc(l.row, 4 + d)) == Empty && At(p.board, Loc(l.row, 4 + 2 * d)) == Empty
    && (d == -1 ==> At(p.board, Loc(l.row, 1)) == Empty)
  }

  /** The castling move two columns towards side `d`. */
  function CastleTo(p: Position, l: Loc, d: int): (m: Move)
    requires OnBoard(l) && l.col == 4 && (d == 1 || d == -1)
    ensures m.isCastle && !m.isEnpassant && m.start == l && m.end == Loc(l.row, l.col + 2 * d)
  {
    NewMove(l, Loc(l.row, 4 + 2 * d), p.board, false, true)
  }

  /** `squareUnderAttack` clears the two squares the king crosses towards
      side `d` and the square it stands on. */
  predicate CrossesUnattacked(p: Position, l: Loc, d: int)
    requires PawnsOffLastRow(p.board) && OnBoard(l) && l.col == 4 && (d == 1 || d == -1)
  {
    !UnderAttack(p, Loc(l.row, 4 + d)) && !UnderAttack(p, Loc(l.row, 4 + 2 * d)) && !UnderAttack(p, l)
  }

  /** The king-side half of `getCastleMoves`, with its three probes resolved. */
  lemma KingSideCastleExact(p: Position, pins: seq<Ray>, l: Loc)
    requires PawnsOffLastRow(p.board) && CastleReady(p, l) && KingsPlaced(p) && PinsElsewhere(p.Flipped(), pins)
    ensures var r := KingSideCastle(p, pins, l);
            && r.pins == pins && r.pos == p
            && r.moves == if SideOpen(p, l, 1) && CrossesUnattacked(p, l, 1) then [CastleTo(p, l, 1)] else []
  {
    SquareUnderAttackPinFree(p, pins, Loc(l.row, l.col + 1));
    SquareUnderAttackPinFree(p, pins, Loc(l.row, l.col + 2));
    SquareUnderAttackPinFree(p, pins, l);
  }

  /** The queen-side half of `getCastleMoves`, with its three probes resolved. */
  lemma QueenSideCastleExact(p: Position, pins: seq<Ray>, l: Loc)
    requires PawnsOffLastRow(p.board) && CastleReady(p, l) && KingsPlaced(p) && PinsElsewhere(p.Flipped(), pins)
    ensures var r := QueenSideCastle(p, pins, l);
            && r.pins == pins && r.pos == p
            && r.moves == if SideOpen(p, l, -1) && CrossesUnattacked(p, l, -1) then [CastleTo(p, l, -1)] else []
  {
    SquareUnderAttackPinFree(p, pins, Loc(l.row, l.col - 1));
    SquareUnderAttackPinFree(p, pins, Loc(l.row, l.col - 2));
    SquareUnderAttackPinFree(p, pins, l);
  }

  /** `getCastleMoves` castles towards a side exactly when the king is not in
      check, the side is open, and `squareUnderAttack` clears the king's
      square and the two it crosses; the king side comes first. */
  lemma CastleMovesExact(p: Position, inCheck: bool, pins: seq<Ray>, l: Loc)
    requires PawnsOffLastRow(p.board) && CastleReady(p, l) && KingsPlaced(p) && PinsElsewhere(p.Flipped(), pins)
    ensures var r := CastleMoves(p, inCheck, pins, l);
            && r.pins == pins && r.pos == p
            && r.moves == (if !inCheck && SideOpen(p, l, 1) && CrossesUnattacked(p, l, 1) then [CastleTo(p, l, 1)] else [])
                          + (if !inCheck && SideOpen(p, l, -1) && CrossesUnattacked(p, l, -1) then [CastleTo(p, l, -1)] else [])
  {
    if !inCheck {
      KingSideCastleExact(p, pins, l);
      QueenSideCastleExact(p, pins, l);
    }
  }

  /** The pins the scan records all stand on pieces of the side to move. */
  lemma ScanPinsElsewhere(p: Position)
    ensures PinsElsewhere(p.Flipped(), ChecksForPinsAndChecks(p.board, p.OwnKing(), p.Side()).pins)
  {
    var pins := ChecksForPinsAndChecks(p.board, p.OwnKing(), p.Side()).pins;
    PinsExact(p.board, p.OwnKing(), p.Side());
    forall i | 0 <= i < |pins| && OnBoard(pins[i].loc)
      ensures !(At(p.board, pins[i].loc).P? && At(p.board, pins[i].loc).color == Opponent(p.Side()))
    {
      assert IsPin(p.board, p.OwnKing(), p.Side(), pins[i]);
    }
  }

  /** The castles `getValidMoves` starts its list with: towards each open
      side, when the scan finds no check and `squareUnderAttack` clears the
      king's square and the two it crosses. */
  lemma ValidCastles(p: Position)
    requires WF(p)
    ensures var info := ChecksForPinsAndChecks(p.board, p.OwnKing(), p.Side());
            var l := p.OwnKing();
            CastleMoves(p, info.inCheck, info.pins, l).moves
              == (if !info.inCheck && SideOpen(p, l, 1) && CrossesUnattacked(p, l, 1) then [CastleTo(p, l, 1)] else [])
                 + (if !info.inCheck && SideOpen(p, l, -1) && CrossesUnattacked(p, l, -1) then [CastleTo(p, l, -1)] else [])
  {
    var info := ChecksForPinsAndChecks(p.board, p.OwnKing(), p.Side());
    ScanPinsElsewhere(p);
    assert At(p.board, p.OwnKing()) == P(p.Side(), King);
    CastleMovesExact(p, info.inCheck, info.pins, p.OwnKing());
  }

  // ---------------------------------------------------------------- which moves the loop hands out

  /** What the loop takes from square `i` when it starts with an empty pin list. */
  function HereMoves(q: Position, i: nat): seq<Move>
    requires i < 64 && PawnsOffLastRow(q.board)
  {
    var l := Generate.Square(i);
    var s := At(q.board, l);
    if s.P? && s.color == q.Side() then
      assert s.kind == Pawn ==> CanAdvance(q, l) by {
        assert q.board[0][l.col] != P(White, Pawn) && q.board[7][l.col] != P(Black, Pawn);
      }
      PieceMoves(q, [], l).moves
    else []
  }

  /** With an empty pin list the loop is the squares' moves one after the other. */
  lemma AllLoopSplit(q: Position, i: nat)
    requires i < 64 && PawnsOffLastRow(q.board) && KingsPlaced(q)
    ensures AllLoop(q, [], i).moves == HereMoves(q, i) + AllLoop(q, [], i + 1).moves
  {
    var l := Generate.Square(i);
    var s := At(q.board, l);
    if s.P? && s.color == q.Side() {
      if s.kind == Pawn {
        OwnPawnAdvances(q, l);
      }
      AllLoopOwnSquare(q, [], i);
      PieceMovesPinFree(q, [], l);
    }
  }

  /** A piece's generator's moves are among the loop's when the loop starts
      at or before its square. */
  lemma {:induction false} AllLoopComplete(q: Position, i: nat, j: nat, m: Move)
    requires i <= j < 64 && PawnsOffLastRow(q.board) && KingsPlaced(q)
    requires m in HereMoves(q, j)
    ensures m in AllLoop(q, [], i).moves
    decreases j - i
  {
    AllLoopSplit(q, i);
    if i < j {
      AllLoopComplete(q, i + 1, j, m);
    }
  }

  /** Every move of the loop from square `i` comes from the generator of a
      piece of the side to move on a square at or after `i`. */
  lemma {:induction false} AllLoopSound(q: Position, i: nat, m: Move) returns (j: nat)
    requires i < 64 && PawnsOffLastRow(q.board) && KingsPlaced(q)
    requires m in AllLoop(q, [], i).moves
    ensures i <= j < 64 && m in HereMoves(q, j)
    decreases 64 - i
  {
    AllLoopSplit(q, i);
    if m in HereMoves(q, i) {
      j := i;
    } else if i + 1 < 64 {
      j := AllLoopSound(q, i + 1, m);
    } else {
      assert false;
    }
  }

  /** The index of a square in the loop's order. */
  lemma SquareIndex(t: Loc)
    requires OnBoard(t)
    ensures 0 <= t.row * 8 + t.col < 64 && Generate.Square(t.row * 8 + t.col) == t
  {
  }

  /** A move of the other side's loop that ends on `sq` makes `squareUnderAttack(sq)` answer yes. */
  lemma ReportedByMove(p: Position, sq: Loc, m: Move)
    requires PawnsOffLastRow(p.board) && KingsPlaced(p)
    requires m in AllPossibleMoves(p.Flipped(), []).moves && m.end == sq
    ensures UnderAttack(p, sq)
  {
    var opp := AllPossibleMoves(p.Flipped(), []);
    var i :| 0 <= i < |opp.moves| && opp.moves[i] == m;
  }

  /** What the other side's piece on `t` generates is reported: the loop
      reaches its square. */
  lemma ReportedFrom(p: Position, sq: Loc, t: Loc, m: Move)
    requires PawnsOffLastRow(p.board) && KingsPlaced(p) && OnBoard(t)
    requires At(p.board, t).P? && At(p.board, t).color == Opponent(p.Side())
    requires At(p.board, t).kind == Pawn ==> CanAdvance(p.Flipped(), t)
    requires m in PieceMoves(p.Flipped(), [], t).moves && m.end == sq
    ensures UnderAttack(p, sq)
  {
    SquareIndex(t);
    assert m in HereMoves(p.Flipped(), t.row * 8 + t.col);
    AllLoopComplete(p.Flipped(), 0, t.row * 8 + t.col, m);
    ReportedByMove(p, sq, m);
  }

  // ---------------------------------------------------------------- the answer against the attacks on the board

  /** Direction number `i` reversed: from the attacker back towards the square. */
  function Back(i: nat): (int, int)
    requires i < 8
  {
    (-Directions[i].0, -Directions[i].1)
  }

  lemma BackSteps(sq: Loc, i: nat, j: int, k: int)
    requires i < 8
    ensures Along(RayStep(sq, i, j), Back(i), k) == RayStep(sq, i, j - k)
  {
    var d := Directions[i];
    assert d.0 * j + (-d.0) * k == d.0 * (j - k);
    assert d.1 * j + (-d.1) * k == d.1 * (j - k);
  }

  /** The rook direction (for `i < 4`) or bishop direction (for `i >= 4`)
      that runs back along direction `i`. */
  function BackIndex(i: nat): (n: nat)
    requires i < 8
    ensures n < 4
    ensures i < 4 ==> RookDirs[n] == Back(i)
    ensures 4 <= i ==> BishopDirs[n] == Back(i)
  {
    [1, 3, 0, 2, 1, 2, 0, 3][i]
  }

  /** The king step that goes along direction `i`. */
  function KingIndex(i: nat): (n: nat)
    requires i < 8
    ensures n < 8 && KingSteps[n] == Directions[i]
  {
    [1, 3, 6, 4, 0, 2, 5, 7][i]
  }

  /** The knight jump that comes back from jump `n`. */
  function KnightBack(n: nat): (r: nat)
    requires n < 8
    ensures r < 8 && KnightJumps[r] == (-KnightJumps[n].0, -KnightJumps[n].1)
  {
    [3, 2, 1, 0, 7, 6, 5, 4][n]
  }

  /** A slider `j` steps out along direction `i`, with only empty squares
      between, reaches the square: it may slide back `j` steps. */
  lemma SliderReachesBack(b: Board, sq: Loc, own: Color, i: nat, j: int)
    requires OnBoard(sq) && i < 8 && 1 <= j < 8 && OnBoard(RayStep(sq, i, j))
    requires !(At(b, sq).P? && At(b, sq).color == Opponent(own))
    requires forall k | 1 <= k < j :: OnBoard(RayStep(sq, i, k)) && At(b, RayStep(sq, i, k)) == Empty
    ensures Reaches(b, RayStep(sq, i, j), own, Back(i), j) && Along(RayStep(sq, i, j), Back(i), j) == sq
  {
    var t := RayStep(sq, i, j);
    forall k | 1 <= k < j
      ensures OnBoard(Along(t, Back(i), k)) && At(b, Along(t, Back(i), k)) == Empty
    {
      BackSteps(sq, i, j, k);
    }
    BackSteps(sq, i, j, j);
    assert RayStep(sq, i, 0) == sq;
  }

  /** The other side's king next to the square is reported. */
  lemma KingAttackReported(p: Position, sq: Loc, i: nat)
    requires PawnsOffLastRow(p.board) && KingsPlaced(p) && OnBoard(sq) && i < 8
    requires OnBoard(RayStep(sq, i, 1)) && At(p.board, RayStep(sq, i, 1)) == P(Opponent(p.Side()), King)
    ensures UnderAttack(p, sq)
  {
    AllLoopRestores(p.Flipped(), 0);
    assert KingStep(sq, KingIndex(i)) == RayStep(sq, i, 1);
  }

  /** A pawn of the other side that has a piece of the side to move to take
      on the square is reported. */
  lemma PawnAttackReported(p: Position, sq: Loc, i: nat)
    requires PawnsOffLastRow(p.board) && KingsPlaced(p) && OnBoard(sq) && i < 8
    requires At(p.board, sq).P? && At(p.board, sq).color == p.Side()
    requires OnBoard(RayStep(sq, i, 1)) && At(p.board, RayStep(sq, i, 1)) == P(Opponent(p.Side()), Pawn)
    requires Threatens(i, 1, Pawn, Opponent(p.Side()))
    ensures UnderAttack(p, sq)
  {
    var q := p.Flipped();
    var t := RayStep(sq, i, 1);
    var m := Plain(p.board, t, sq);
    PawnMovesComplete(q, AsWritten, [], t, sq.col - t.col);
    assert m in PieceMoves(q, [], t).moves;
    ReportedFrom(p, sq, t, m);
  }

  /** A rook, bishop or queen of the other side that attacks the square with
      only empty squares between is reported. */
  lemma SliderAttackReported(p: Position, sq: Loc, i: nat, j: int)
    requires PawnsOffLastRow(p.board) && KingsPlaced(p) && OnBoard(sq) && i < 8 && 1 <= j < 8
    requires !(At(p.board, sq).P? && At(p.board, sq).color == Opponent(p.Side()))
    requires forall k | 1 <= k < j :: OnBoard(RayStep(sq, i, k)) && At(p.board, RayStep(sq, i, k)) == Empty
    requires OnBoard(RayStep(sq, i, j))
    requires var x := At(p.board, RayStep(sq, i, j));
             x.P? && x.color == Opponent(p.Side()) && x.kind in {Rook, Bishop, Queen} && Threatens(i, j, x.kind, x.color)
    ensures UnderAttack(p, sq)
  {
    var b := p.board;
    var own := p.Side();
    var q := p.Flipped();
    var t := RayStep(sq, i, j);
    var x := At(b, t);
    var m := Plain(b, t, sq);
    SliderReachesBack(b, sq, own, i, j);
    var n := BackIndex(i);
    if i < 4 {
      assert SliderMove(b, t, own, RookDirs, LookUpPin([], t, x.kind == Queen), m);
    } else {
      assert SliderMove(b, t, own, BishopDirs, LookUpPin([], t, x.kind == Queen), m);
    }
    if x.kind == Queen {
      QueenMovesExact(q, [], t, m);
    } else if x.kind == Rook {
      RookMovesExact(q, [], t, m);
    } else {
      BishopMovesExact(q, [], t, m);
    }
    assert m in PieceMoves(q, [], t).moves;
    ReportedFrom(p, sq, t, m);
  }

  /** Every attack along a ray that `squareUnderAttack` can see is reported:
      on a square that is empty or holds a piece of the side to move, by a
      rook, bishop, queen or king with only empty squares between, and by a
      pawn when it has a piece to take there.  A pawn's attack on an empty
      square is the one it misses. */
  lemma RayAttackReported(p: Position, sq: Loc, i: nat, j: int)
    requires PawnsOffLastRow(p.board) && KingsPlaced(p) && OnBoard(sq) && i < 8
    requires !(At(p.board, sq).P? && At(p.board, sq).color == Opponent(p.Side()))
    requires RayCheck(p.board, sq, p.Side(), i, j)
    requires forall k | 1 <= k < j :: OnBoard(RayStep(sq, i, k)) && At(p.board, RayStep(sq, i, k)) == Empty
    requires OnBoard(RayStep(sq, i, j)) && At(p.board, RayStep(sq, i, j)).P? && At(p.board, RayStep(sq, i, j)).kind == Pawn
             ==> At(p.board, sq) != Empty
    ensures UnderAttack(p, sq)
  {
    var x := At(p.board, RayStep(sq, i, j));
    assert ThreatAt(p.board, sq, p.Side(), i, j);
    assert x.color == Opponent(p.Side());
    if x.kind == King {
      KingAttackReported(p, sq, i);
    } else if x.kind == Pawn {
      PawnAttackReported(p, sq, i);
    } else {
      SliderAttackReported(p, sq, i, j);
    }
  }

  /** Every knight attack on a square that is empty or holds a piece of the
      side to move is reported. */
  lemma KnightAttackReported(p: Position, sq: Loc, n: nat)
    requires PawnsOffLastRow(p.board) && KingsPlaced(p) && OnBoard(sq) && n < 8
    requires !(At(p.board, sq).P? && At(p.board, sq).color == Opponent(p.Side()))
    requires KnightCheck(p.board, sq, p.Side(), n)
    ensures UnderAttack(p, sq)
  {
    var b := p.board;
    var q := p.Flipped();
    var t := Jump(sq, n);
    var back := KnightBack(n);
    assert Jump(t, back) == sq;
    var m := Plain(b, t, sq);
    assert KnightLands(b, t, Opponent(q.Side()), back);
    KnightMovesExact(q, [], t, m);
    assert m in PieceMoves(q, [], t).moves;
    ReportedFrom(p, sq, t, m);
  }

  // ---------------------------------------------------------------- the finding: a pawn's attack on an empty square

  /** The corrected test: the pin and check scan run from the square, the
      test `getKingMoves` already applies to the king's own steps. */
  function ScanAttacked(p: Position, sq: Loc): (r: bool)
    ensures r <==> Attacked(p.board, sq, p.Side())
  {
    InCheckIffAttacked(p.board, sq, p.Side());
    ChecksForPinsAndChecks(p.board, sq, p.Side()).inCheck
  }

  /** The scan clears the king's square and the two it crosses towards side `d`. */
  predicate CrossesSafely(p: Position, l: Loc, d: int)
    requires OnBoard(l) && l.col == 4 && (d == 1 || d == -1)
  {
    !ScanAttacked(p, Loc(l.row, 4 + d)) && !ScanAttacked(p, Loc(l.row, 4 + 2 * d)) && !ScanAttacked(p, l)
  }

  /** A castle played while not in check whose king neither starts on,
      crosses nor lands on an attacked square. */
  ghost predicate SafeCastle(p: Position, inCheck: bool, l: Loc, m: Move) {
    var b := p.board;
    var own := p.Side();
    && m.isCastle && m.start == l && !inCheck && l.col == 4 && !Attacked(b, l, own)
    && ((m.end == Loc(l.row, 6) && !Attacked(b, Loc(l.row, 5), own) && !Attacked(b, Loc(l.row, 6), own))
        || (m.end == Loc(l.row, 2) && !Attacked(b, Loc(l.row, 3), own) && !Attacked(b, Loc(l.row, 2), own)))
  }

  /** `getCastleMoves` with the corrected test in place of `squareUnderAttack`. */
  function CorrectedCastleMoves(p: Position, inCheck: bool, l: Loc): seq<Move>
    requires OnBoard(l)
  {
    CorrectedSide(p, inCheck, l, 1) + CorrectedSide(p, inCheck, l, -1)
  }

  /** The castle towards side `d` under the corrected test, if any. */
  function CorrectedSide(p: Position, inCheck: bool, l: Loc, d: int): seq<Move>
    requires OnBoard(l) && (d == 1 || d == -1)
  {
    if !inCheck && SideOpen(p, l, d) && CrossesSafely(p, l, d) then [CastleTo(p, l, d)] else []
  }

  /** The corrected castles never start on, cross or land on an attacked
      square, and are never played in check. */
  lemma CorrectedCastleSafe(p: Position, inCheck: bool, l: Loc, m: Move)
    requires OnBoard(l) && m in CorrectedCastleMoves(p, inCheck, l)
    ensures SafeCastle(p, inCheck, l, m)
  {
    if m in CorrectedSide(p, inCheck, l, 1) {
      SafeSide(p, inCheck, l, 1, m);
    } else {
      SafeSide(p, inCheck, l, -1, m);
    }
  }

  /** One side of `CorrectedCastleSafe`. */
  lemma SafeSide(p: Position, inCheck: bool, l: Loc, d: int, m: Move)
    requires OnBoard(l) && (d == 1 || d == -1) && m in CorrectedSide(p, inCheck, l, d)
    ensures SafeCastle(p, inCheck, l, m)
  {
    CorrectedSideMember(p, inCheck, l, d, m);
    CrossesSafelyMeans(p, l, d);
    SafeFromSquares(p, inCheck, l, d, m);
  }

  lemma CorrectedSideMember(p: Position, inCheck: bool, l: Loc, d: int, m: Move)
    requires OnBoard(l) && (d == 1 || d == -1) && m in CorrectedSide(p, inCheck, l, d)
    ensures !inCheck && l.col == 4 && CrossesSafely(p, l, d) && m == CastleTo(p, l, d)
  {
  }

  lemma SafeFromSquares(p: Position, inCheck: bool, l: Loc, d: int, m: Move)
    requires OnBoard(l) && (d == 1 || d == -1) && !inCheck && l.col == 4 && m == CastleTo(p, l, d)
    requires !Attacked(p.board, l, p.Side())
    requires !Attacked(p.board, Loc(l.row, 4 + d), p.Side())
    requires !Attacked(p.board, Loc(l.row, 4 + 2 * d), p.Side())
    ensures SafeCastle(p, inCheck, l, m)
  {
  }

  /** The corrected test clears exactly the three squares it scans. */
  lemma CrossesSafelyMeans(p: Position, l: Loc, d: int)
    requires OnBoard(l) && l.col == 4 && (d == 1 || d == -1) && CrossesSafely(p, l, d)
    ensures !Attacked(p.board, l, p.Side())
    ensures !Attacked(p.board, Loc(l.row, 4 + d), p.Side())
    ensures !Attacked(p.board, Loc(l.row, 4 + 2 * d), p.Side())
  {
    assert !ScanAttacked(p, Loc(l.row, 4 + d));
    assert !ScanAttacked(p, Loc(l.row, 4 + 2 * d));
    assert !ScanAttacked(p, l);
  }

  /** Every castle the rules allow is generated by the corrected test: a
      side that is open, with none of the king's square and the two it
      crosses attacked, when the king is not in check. */
  lemma CorrectedCastleComplete(p: Position, inCheck: bool, l: Loc, d: int)
    requires OnBoard(l) && !inCheck && SideOpen(p, l, d)
    requires !Attacked(p.board, l, p.Side()) && !Attacked(p.board, Loc(l.row, 4 + d), p.Side())
    requires !Attacked(p.board, Loc(l.row, 4 + 2 * d), p.Side())
    ensures CastleTo(p, l, d) in CorrectedCastleMoves(p, inCheck, l)
  {
  }

  /** White king on (7,4) with the king-side right, white rook on (7,7),
      black pawn on (6,7), black king on (0,4). */
  const PawnGuardBoard: Board :=
    seq(8, r => seq(8, c =>
      if r == 7 && c == 4 then P(White, King)
      else if r == 7 && c == 7 then P(White, Rook)
      else if r == 6 && c == 7 then P(Black, Pawn)
      else if r == 0 && c == 4 then P(Black, King)
      else Empty))

  const PawnGuardPosition: Position :=
    Position(PawnGuardBoard, true, Loc(7, 4), Loc(0, 4), None, CastleRights(true, false, false, false))

  lemma GuardWF()
    ensures WF(PawnGuardPosition)
  {
    var p := PawnGuardPosition;
    forall s | OnBoard(s)
      ensures At(p.board, s) == P(White, King) <==> s == p.whiteKing
      ensures At(p.board, s) == P(Black, King) <==> s == p.blackKing
    {
    }
  }

  /** A king step moves at most one row. */
  lemma KingStepNear(l: Loc, n: nat)
    requires n < 8
    ensures l.row - 1 <= KingStep(l, n).row <= l.row + 1
  {
  }

  /** Black's pieces in that position: the king on (0,4) and the pawn on (6,7). */
  lemma GuardBlackPieces(l: Loc)
    requires OnBoard(l) && At(PawnGuardBoard, l).P? && At(PawnGuardBoard, l).color == Black
    ensures l == Loc(0, 4) || l == Loc(6, 7)
  {
  }

  /** The black pawn is blocked ahead and has nothing to take. */
  lemma GuardPawnStuck()
    ensures PawnMoves(PawnGuardPosition.Flipped(), AsWritten, [], Loc(6, 7)).moves == []
  {
    var q := PawnGuardPosition.Flipped();
    assert At(q.board, Loc(7, 7)) == P(White, Rook) && At(q.board, Loc(7, 6)) == Empty;
  }

  /** What Black's loop takes from square `j`: the king's steps or the pawn's moves. */
  lemma GuardHere(j: nat, m: Move)
    requires j < 64 && m in HereMoves(PawnGuardPosition.Flipped(), j)
    ensures || (Generate.Square(j) == Loc(0, 4) && m in KingMoves(PawnGuardPosition.Flipped(), Loc(0, 4)).moves)
            || (Generate.Square(j) == Loc(6, 7) && m in PawnMoves(PawnGuardPosition.Flipped(), AsWritten, [], Loc(6, 7)).moves)
  {
    GuardBlackPieces(Generate.Square(j));
  }

  /** Black's moves in that position all end on rows 0 and 1: the king's
      steps, and nothing from the pawn. */
  lemma GuardMovesStayAway(m: Move)
    requires m in AllPossibleMoves(PawnGuardPosition.Flipped(), []).moves
    ensures m.end.row <= 1
  {
    var q := PawnGuardPosition.Flipped();
    GuardWF();
    var j := AllLoopSound(q, 0, m);
    GuardHere(j, m);
    if Generate.Square(j) == Loc(0, 4) {
      var n := KingLoopSound(q, Loc(0, 4), 0, m);
      KingStepNear(Loc(0, 4), n);
    } else {
      GuardPawnStuck();
      assert false;
    }
  }

  /** `squareUnderAttack` answers no for the white king's home row from column 4 to 6. */
  lemma GuardNotReported(c: int)
    requires 4 <= c <= 6
    ensures !UnderAttack(PawnGuardPosition, Loc(7, c))
  {
    var p := PawnGuardPosition;
    var q := p.Flipped();
    GuardWF();
    AllLoopRestores(q, 0);
    var opp := AllPossibleMoves(q, []);
    assert opp.pos.Flipped() == p;
    forall i | 0 <= i < |opp.moves|
      ensures opp.moves[i].end != Loc(7, c)
    {
      GuardMovesStayAway(opp.moves[i]);
    }
    assert p.blackKing == Loc(0, 4);
    forall n | 0 <= n < 8
      ensures KingStep(Loc(7, c), n) != Loc(0, 4)
    {
      KingStepNear(Loc(7, c), n);
    }
  }

  /** The engine castles king side onto (7,6) although the black pawn on
      (6,7) attacks that square; the corrected test refuses the castle. */
  lemma CastleIntoPawnAttack()
    ensures var p := PawnGuardPosition;
            var l := Loc(7, 4);
            && WF(p)
            && CastleTo(p, l, 1) in CastleMoves(p, false, [], l).moves
            && Attacked(p.board, Loc(7, 6), White)
            && CastleTo(p, l, 1) !in CorrectedCastleMoves(p, false, l)
  {
    var p := PawnGuardPosition;
    var l := Loc(7, 4);
    GuardWF();
    GuardNotReported(4);
    GuardNotReported(5);
    GuardNotReported(6);
    CastleMovesExact(p, false, [], l);
    assert SideOpen(p, l, 1);
    assert ThreatFrom(p.board, Loc(7, 6), White, 5, 1, 1);
    assert RayCheck(p.board, Loc(7, 6), White, 5, 1);
  }
}
