/** `getPawnMoves`: the push, the double push from the home row, the two
    diagonal captures, and the two en-passant captures, each subject to the
    pin on the pawn's square and, for en passant, to the test that removing
    both pawns from their row does not expose the king along it.
 */
module Pawns {

  import opened Options
  import opened Pieces
  import opened Boards
  import opened Moves
  import opened State
  import opened Pins
  import opened MakeUndo
  import opened Sliders
  import Checks

  /** `moveAmount`: the row step of the side to move. */
  function Forward(whiteToMove: bool): int {
    if whiteToMove then -1 else 1
  }

  /** `startRow`: the row the side to move's pawns start on. */
  function HomeRow(whiteToMove: bool): int {
    if whiteToMove then 6 else 1
  }

  predicate RookOrQueen(s: Square, enemy: Color) {
    s.P? && s.color == enemy && (s.kind == Rook || s.kind == Queen)
  }

  // ---------------------------------------------------------------- the en-passant rank test

  /** The rank test as the engine writes it, for the pawn on (`row`, `col`)
      capturing towards column `cap`.  Only a king on the pawns' row matters.
      The squares between the king and the two pawns are the inside range;
      the squares beyond the two pawns, away from the king, the outside range.
      A piece inside blocks.  Outside, every enemy rook or queen counts as an
      attacker and every other piece as a blocker, wherever it stands; the
      capture is allowed when there is no attacker or there is a blocker. */
  function EnPassantSafeAsWritten(b: Board, row: int, col: int, cap: int, king: Loc, enemy: Color): bool
    requires 0 <= row < 8
  {
    if king.row != row then true
    else
      var lo := if cap < col then cap else col;
      var hi := if cap < col then col else cap;
      var inLo := if king.col < col then king.col + 1 else hi + 1;
      var inHi := if king.col < col then lo else king.col;
      var outLo := if king.col < col then hi + 1 else 0;
      var outHi := if king.col < col then 8 else lo;
      var blockedInside := exists i | inLo <= i < inHi && 0 <= i < 8 :: b[row][i] != Empty;
      var attacking := exists i | outLo <= i < outHi && 0 <= i < 8 :: RookOrQueen(b[row][i], enemy);
      var blockedOutside := exists i | outLo <= i < outHi && 0 <= i < 8 :: b[row][i] != Empty && !RookOrQueen(b[row][i], enemy);
      !attacking || blockedInside || blockedOutside
  }

  /** The first occupied column on `row` from column `c` on, stepping by `step`. */
  function FirstOccupied(b: Board, row: int, c: int, step: int): (r: Option<int>)
    requires 0 <= row < 8 && (step == 1 || step == -1)
    ensures r.Some? ==> 0 <= r.value < 8 && b[row][r.value] != Empty
    decreases if step == 1 then 8 - c else c + 1
  {
    if c < 0 || c >= 8 then None
    else if b[row][c] != Empty then Some(c)
    else FirstOccupied(b, row, c + step, step)
  }

  /** The rank test with the outside range scanned outward from the pawns:
      the capture is refused only when the inside range is empty and the
      first piece beyond the two pawns is an enemy rook or queen. */
  function EnPassantSafe(b: Board, row: int, col: int, cap: int, king: Loc, enemy: Color): bool
    requires 0 <= row < 8
  {
    if king.row != row then true
    else
      var lo := if cap < col then cap else col;
      var hi := if cap < col then col else cap;
      var inLo := if king.col < col then king.col + 1 else hi + 1;
      var inHi := if king.col < col then lo else king.col;
      var blockedInside := exists i | inLo <= i < inHi && 0 <= i < 8 :: b[row][i] != Empty;
      var first := if king.col < col then FirstOccupied(b, row, hi + 1, 1) else FirstOccupied(b, row, lo - 1, -1);
      blockedInside || first.None? || !RookOrQueen(b[row][first.value], enemy)
  }

  /** Column `i` lies strictly between columns `x` and `y`. */
  predicate Between(x: int, y: int, i: int) {
    (x < i < y) || (y < i < x)
  }

  /** Taking both pawns off `row` (columns `lo` and `hi`) opens the row from
      the king to an enemy rook or queen on the far side of the pawns. */
  ghost predicate RankExposed(b: Board, row: int, lo: int, hi: int, king: Loc, enemy: Color)
    requires 0 <= row < 8
  {
    && king.row == row
    && exists a | 0 <= a < 8 ::
         && ((king.col < lo && hi < a) || (a < lo && hi < king.col))
         && RookOrQueen(b[row][a], enemy)
         && forall i | 0 <= i < 8 && Between(king.col, a, i) && (i < lo || hi < i) :: b[row][i] == Empty
  }

  // ---------------------------------------------------------------- the pin test

  /** The pawn's pin test as the engine writes it: only the pin direction
      pointing from the king in the direction of the move is accepted. */
  predicate PawnPinAllowsAsWritten(pl: PinLookup, d: (int, int)) {
    !pl.pinned || (pl.dr, pl.dc) == d
  }

  // ---------------------------------------------------------------- the two rule sets

  /** Which pin and rank tests the generator applies: the engine's own
      (`AsWritten`), or the ones that follow the pin line both ways and let
      only the first piece beyond the pawns decide (`Corrected`). */
  datatype PawnRule = AsWritten | Corrected

  /** The pin test of `rule` for a pawn step in direction `d`. */
  predicate PinAllows(rule: PawnRule, pl: PinLookup, d: (int, int)) {
    match rule
    case AsWritten => PawnPinAllowsAsWritten(pl, d)
    case Corrected => AlongPin(pl, d)
  }

  /** The rank test of `rule` for the en-passant capture from (`row`, `col`)
      towards column `cap`. */
  function RankSafe(rule: PawnRule, b: Board, row: int, col: int, cap: int, king: Loc, enemy: Color): bool
    requires 0 <= row < 8
  {
    match rule
    case AsWritten => EnPassantSafeAsWritten(b, row, col, cap, king, enemy)
    case Corrected => EnPassantSafe(b, row, col, cap, king, enemy)
  }

  // ---------------------------------------------------------------- the generator

  /** The captures towards column `l.col + dc`: the diagonal capture of an
      enemy piece, then the en-passant capture onto the target square. */
  function Diagonal(p: Position, rule: PawnRule, pl: PinLookup, l: Loc, dc: int): seq<Move>
    requires OnBoard(l) && 0 <= l.row + Forward(p.whiteToMove) < 8
  {
    var b := p.board;
    var dir := Forward(p.whiteToMove);
    var enemy := Opponent(p.Side());
    if !(0 <= l.col + dc < 8) || !PinAllows(rule, pl, (dir, dc)) then []
    else
      var t := Loc(l.row + dir, l.col + dc);
      (if At(b, t).P? && At(b, t).color == enemy then [Plain(b, l, t)] else [])
      + (if p.enPassant == Some(t) && RankSafe(rule, b, l.row, l.col, l.col + dc, p.OwnKing(), enemy)
         then [NewMove(l, t, b, true, false)] else [])
  }

  /** The push and the double push. */
  function Pushes(p: Position, rule: PawnRule, pl: PinLookup, l: Loc): seq<Move>
    requires OnBoard(l) && 0 <= l.row + Forward(p.whiteToMove) < 8
  {
    var b := p.board;
    var dir := Forward(p.whiteToMove);
    var one := Loc(l.row + dir, l.col);
    if At(b, one) == Empty && PinAllows(rule, pl, (dir, 0)) then
      [Plain(b, l, one)]
      + (if l.row == HomeRow(p.whiteToMove) && At(b, Loc(l.row + 2 * dir, l.col)) == Empty
         then [Plain(b, l, Loc(l.row + 2 * dir, l.col))] else [])
    else []
  }

  /** `getPawnMoves` for the pawn on `l` under `rule`; the engine's generator
      is `PawnMoves(p, AsWritten, pins, l)`.  The square ahead must exist: a
      white pawn on row 0 would make the engine read row -1 (the far edge of
      the list) and a black pawn on row 7 would index past the board. */
  function PawnMoves(p: Position, rule: PawnRule, pins: seq<Ray>, l: Loc): Gen
    requires OnBoard(l) && 0 <= l.row + Forward(p.whiteToMove) < 8
  {
    var pl := LookUpPin(pins, l, false);
    Gen(Pushes(p, rule, pl, l) + Diagonal(p, rule, pl, l, -1) + Diagonal(p, rule, pl, l, 1), pl.rest)
  }

  // ---------------------------------------------------------------- the rank test, proved

  lemma {:induction false} FirstRight(b: Board, row: int, c: int)
    requires 0 <= row < 8 && 0 <= c
    ensures var r := FirstOccupied(b, row, c, 1);
            && (r.Some? ==> c <= r.value < 8 && b[row][r.value] != Empty
                            && forall i | c <= i < r.value :: b[row][i] == Empty)
            && (r.None? ==> forall i | c <= i < 8 :: b[row][i] == Empty)
    decreases 8 - c
  {
    if c < 8 && b[row][c] == Empty {
      FirstRight(b, row, c + 1);
    }
  }

  lemma {:induction false} FirstLeft(b: Board, row: int, c: int)
    requires 0 <= row < 8 && c < 8
    ensures var r := FirstOccupied(b, row, c, -1);
            && (r.Some? ==> 0 <= r.value <= c && b[row][r.value] != Empty
                            && forall i | r.value < i <= c :: b[row][i] == Empty)
            && (r.None? ==> forall i | 0 <= i <= c :: b[row][i] == Empty)
    decreases c + 1
  {
    if 0 <= c && b[row][c] == Empty {
      FirstLeft(b, row, c - 1);
    }
  }

  /** With the king left of the two pawns, the corrected test refuses the
      capture exactly when it would open the row to an enemy rook or queen. */
  lemma SafeIffNotExposedLeft(b: Board, row: int, lo: int, hi: int, king: Loc, enemy: Color)
    requires 0 <= row < 8 && 0 <= lo < hi < 8 && 0 <= king.col < lo && king.row == row
    ensures var blockedInside := exists i | king.col + 1 <= i < lo && 0 <= i < 8 :: b[row][i] != Empty;
            var first := FirstOccupied(b, row, hi + 1, 1);
            (blockedInside || first.None? || !RookOrQueen(b[row][first.value], enemy))
              <==> !RankExposed(b, row, lo, hi, king, enemy)
  {
    var first := FirstOccupied(b, row, hi + 1, 1);
    FirstRight(b, row, hi + 1);
    if exists i | king.col + 1 <= i < lo && 0 <= i < 8 :: b[row][i] != Empty {
      var i0 :| king.col + 1 <= i0 < lo && 0 <= i0 < 8 && b[row][i0] != Empty;
      forall a | 0 <= a < 8 && hi < a
        ensures Between(king.col, a, i0)
      {
      }
    } else if first.Some? {
      var f := first.value;
      forall a | 0 <= a < 8 && f < a
        ensures Between(king.col, a, f)
      {
      }
    }
  }


  /** The same with the king right of the two pawns. */
  lemma SafeIffNotExposedRight(b: Board, row: int, lo: int, hi: int, king: Loc, enemy: Color)
    requires 0 <= row < 8 && 0 <= lo < hi < 8 && hi < king.col < 8 && king.row == row
    ensures var blockedInside := exists i | hi + 1 <= i < king.col && 0 <= i < 8 :: b[row][i] != Empty;
            var first := FirstOccupied(b, row, lo - 1, -1);
            (blockedInside || first.None? || !RookOrQueen(b[row][first.value], enemy))
              <==> !RankExposed(b, row, lo, hi, king, enemy)
  {
    var first := FirstOccupied(b, row, lo - 1, -1);
    FirstLeft(b, row, lo - 1);
    if exists i | hi + 1 <= i < king.col && 0 <= i < 8 :: b[row][i] != Empty {
      var i0 :| hi + 1 <= i0 < king.col && 0 <= i0 < 8 && b[row][i0] != Empty;
      forall a | 0 <= a < 8 && a < lo
        ensures Between(king.col, a, i0)
      {
      }
    } else if first.Some? {
      var f := first.value;
      forall a | 0 <= a < 8 && a < f
        ensures Between(king.col, a, f)
      {
      }
    }
  }


  /** The corrected rank test allows an en-passant capture exactly when taking
      both pawns off the row does not open it between the king and an enemy
      rook or queen. */
  lemma EnPassantSafeIffNotExposed(b: Board, row: int, col: int, cap: int, king: Loc, enemy: Color)
    requires 0 <= row < 8 && 0 <= col < 8 && 0 <= cap < 8 && (cap == col - 1 || cap == col + 1)
    requires 0 <= king.col < 8 && king.col != col && king.col != cap
    ensures var lo := if cap < col then cap else col;
            var hi := if cap < col then col else cap;
            EnPassantSafe(b, row, col, cap, king, enemy) <==> !RankExposed(b, row, lo, hi, king, enemy)
  {
    var lo := if cap < col then cap else col;
    var hi := if cap < col then col else cap;
    if king.row == row {
      if king.col < col {
        SafeIffNotExposedLeft(b, row, lo, hi, king, enemy);
      } else {
        SafeIffNotExposedRight(b, row, lo, hi, king, enemy);
      }
    }
  }

  /** The row of the counterexample: white king, white pawn, black pawn that
      has just advanced two rows, an empty stretch, a black rook, and a black
      knight behind the rook. */
  const ExposingRow: seq<Square> :=
    [P(White, King), P(White, Pawn), P(Black, Pawn), Empty, Empty, P(Black, Rook), Empty, P(Black, Knight)]

  /** That row on row 3, with the black king on (0,7). */
  const ExposingBoard: Board :=
    seq(8, r => if r == 3 then ExposingRow
                else if r == 0 then seq(8, c => if c == 7 then P(Black, King) else Empty)
                else seq(8, c => Empty))

  /** The engine's test lets the white pawn on column 1 capture en passant
      towards column 2, although that opens row 3 from the king on column 0
      to the rook on column 5: the knight beyond the rook counts as a blocker. */
  lemma EnPassantAsWrittenExposesKing()
    ensures var b := ExposingBoard;
            && EnPassantSafeAsWritten(b, 3, 1, 2, Loc(3, 0), Black)
            && RankExposed(b, 3, 1, 2, Loc(3, 0), Black)
            && !EnPassantSafe(b, 3, 1, 2, Loc(3, 0), Black)
  {
    var b := ExposingBoard;
    assert b[3][5] == P(Black, Rook) && b[3][7] == P(Black, Knight);
    assert forall i | 0 <= i < 8 && Between(0, 5, i) && (i < 1 || 2 < i) :: b[3][i] == Empty;
    assert FirstOccupied(b, 3, 3, 1) == Some(5) by {
      assert b[3][3] == Empty && b[3][4] == Empty;
    }
  }

  // ---------------------------------------------------------------- what the generator produces

  /** What a pawn move is: one row forward (two from the home row, straight
      on over two empty squares), straight onto an empty square or one column
      aside onto an enemy piece or the en-passant target. */
  ghost predicate PawnStep(p: Position, l: Loc, m: Move)
    requires OnBoard(l)
  {
    var dir := Forward(p.whiteToMove);
    && m.start == l && BuiltFrom(p.board, m) && !m.isCastle && OnBoard(m.end)
    && (m.end.col == l.col ==>
          && !m.isEnpassant && 0 <= l.row + dir < 8 && At(p.board, Loc(l.row + dir, l.col)) == Empty && At(p.board, m.end) == Empty
          && (m.end.row == l.row + dir || (m.end.row == l.row + 2 * dir && l.row == HomeRow(p.whiteToMove))))
    && (m.end.col != l.col ==>
          && m.end.row == l.row + dir && (m.end.col == l.col - 1 || m.end.col == l.col + 1)
          && (m.isEnpassant ==> p.enPassant == Some(m.end))
          && (!m.isEnpassant ==> At(p.board, m.end).P? && At(p.board, m.end).color == Opponent(p.Side())))
  }

  /** A pawn move passes the tests of `rule`: the pin test for its direction
      and, for an en-passant capture, the rank test. */
  ghost predicate PassesTests(p: Position, rule: PawnRule, pl: PinLookup, l: Loc, m: Move)
    requires OnBoard(l)
  {
    && PinAllows(rule, pl, (Forward(p.whiteToMove), m.end.col - l.col))
    && (m.isEnpassant ==> RankSafe(rule, p.board, l.row, l.col, m.end.col, p.OwnKing(), Opponent(p.Side())))
  }

  lemma PushShape(p: Position, rule: PawnRule, pl: PinLookup, l: Loc, m: Move)
    requires OnBoard(l) && 0 <= l.row + Forward(p.whiteToMove) < 8
    requires m in Pushes(p, rule, pl, l)
    ensures PawnStep(p, l, m) && m.end.col == l.col && PassesTests(p, rule, pl, l, m)
  {
  }

  lemma DiagonalShape(p: Position, rule: PawnRule, pl: PinLookup, l: Loc, dc: int, m: Move)
    requires OnBoard(l) && 0 <= l.row + Forward(p.whiteToMove) < 8 && (dc == -1 || dc == 1)
    requires m in Diagonal(p, rule, pl, l, dc)
    ensures PawnStep(p, l, m) && m.end.col == l.col + dc && PassesTests(p, rule, pl, l, m)
  {
  }

  /** Every move of the pawn generator is a pawn step that passes the pin
      test of its direction and, when it captures en passant, the rank test. */
  lemma PawnMovesShape(p: Position, rule: PawnRule, pins: seq<Ray>, l: Loc, m: Move)
    requires OnBoard(l) && 0 <= l.row + Forward(p.whiteToMove) < 8
    requires m in PawnMoves(p, rule, pins, l).moves
    ensures PawnStep(p, l, m) && PassesTests(p, rule, LookUpPin(pins, l, false), l, m)
  {
    var pl := LookUpPin(pins, l, false);
    if m in Pushes(p, rule, pl, l) {
      PushShape(p, rule, pl, l, m);
    } else if m in Diagonal(p, rule, pl, l, -1) {
      DiagonalShape(p, rule, pl, l, -1, m);
    } else {
      DiagonalShape(p, rule, pl, l, 1, m);
    }
  }

  /** The engine's pinned pawn moves only along its pin line, and only away
      from its king: one or two squares in the pin direction. */
  lemma PinnedPawnMovesAway(p: Position, pins: seq<Ray>, l: Loc, m: Move) returns (k: int)
    requires OnBoard(l) && 0 <= l.row + Forward(p.whiteToMove) < 8
    requires m in PawnMoves(p, AsWritten, pins, l).moves
    requires LookUpPin(pins, l, false).pinned
    ensures (k == 1 || k == 2) && m.end == Along(l, (LookUpPin(pins, l, false).dr, LookUpPin(pins, l, false).dc), k)
  {
    var pl := LookUpPin(pins, l, false);
    var dir := Forward(p.whiteToMove);
    PawnMovesShape(p, AsWritten, pins, l, m);
    k := if m.end.row - l.row == 2 * dir then 2 else 1;
  }

  /** Under either rule a pinned pawn moves only along its pin line; the
      corrected rule lets it move towards its king as well. */
  lemma PinnedPawnStaysOnLine(p: Position, rule: PawnRule, pins: seq<Ray>, l: Loc, m: Move) returns (k: int)
    requires OnBoard(l) && 0 <= l.row + Forward(p.whiteToMove) < 8
    requires m in PawnMoves(p, rule, pins, l).moves
    requires LookUpPin(pins, l, false).pinned
    ensures k != 0 && m.end == Along(l, (LookUpPin(pins, l, false).dr, LookUpPin(pins, l, false).dc), k)
  {
    var pl := LookUpPin(pins, l, false);
    var d := (pl.dr, pl.dc);
    var dir := Forward(p.whiteToMove);
    var e := (m.end.row - l.row, m.end.col - l.col);
    PawnMovesShape(p, rule, pins, l, m);
    var unit := if e.0 == 2 * dir then (dir, 0) else e;
    var steps := if e.0 == 2 * dir then 2 else 1;
    assert AlongPin(pl, unit);
    if d == unit {
      k := steps;
    } else {
      k := -steps;
      Reverse(l, unit, steps);
    }
  }

  /** Every move the pawn generator produces can be taken back, provided the
      square holds a pawn of the side to move and the en-passant target is sound. */
  lemma PawnMovesReversible(p: Position, rule: PawnRule, pins: seq<Ray>, l: Loc)
    requires OnBoard(l) && 0 <= l.row + Forward(p.whiteToMove) < 8
    requires At(p.board, l) == P(p.Side(), Pawn) && EnPassantSound(p)
    ensures forall m | m in PawnMoves(p, rule, pins, l).moves :: Reversible(p.board, m)
  {
    forall m | m in PawnMoves(p, rule, pins, l).moves
      ensures Reversible(p.board, m)
    {
      PawnMovesShape(p, rule, pins, l, m);
      if !m.isEnpassant {
        PlainReversible(p.board, l, m.end);
      }
    }
  }

  /** The moves the rules give a pawn are all generated: the push onto an
      empty square ahead, the double push from the home row, and the capture
      of an enemy piece one column aside, each when the pin test of `rule`
      allows the direction, and the en-passant capture its rank test allows. */
  lemma PawnMovesComplete(p: Position, rule: PawnRule, pins: seq<Ray>, l: Loc, dc: int)
    requires OnBoard(l) && 0 <= l.row + Forward(p.whiteToMove) < 8
    requires dc == -1 || dc == 1
    ensures var b := p.board;
            var dir := Forward(p.whiteToMove);
            var pl := LookUpPin(pins, l, false);
            var one := Loc(l.row + dir, l.col);
            var two := Loc(l.row + 2 * dir, l.col);
            var t := Loc(l.row + dir, l.col + dc);
            var ms := PawnMoves(p, rule, pins, l).moves;
            && (At(b, one) == Empty && PinAllows(rule, pl, (dir, 0)) ==> Plain(b, l, one) in ms)
            && ((At(b, one) == Empty && PinAllows(rule, pl, (dir, 0)) && l.row == HomeRow(p.whiteToMove) && At(b, two) == Empty)
                  ==> Plain(b, l, two) in ms)
            && ((OnBoard(t) && PinAllows(rule, pl, (dir, dc)) && At(b, t).P? && At(b, t).color == Opponent(p.Side()))
                  ==> Plain(b, l, t) in ms)
            && ((OnBoard(t) && PinAllows(rule, pl, (dir, dc)) && p.enPassant == Some(t)
                 && RankSafe(rule, b, l.row, l.col, l.col + dc, p.OwnKing(), Opponent(p.Side())))
                  ==> NewMove(l, t, b, true, false) in ms)
  {
  }

  /** The corrected generator hands a pinned pawn every push that keeps it on
      its pin line, whichever way the pin points. */
  lemma CorrectedPinnedPushOnLine(p: Position, pins: seq<Ray>, l: Loc)
    requires OnBoard(l) && 0 <= l.row + Forward(p.whiteToMove) < 8
    requires var pl := LookUpPin(pins, l, false);
             pl.pinned && pl.dc == 0 && (pl.dr == 1 || pl.dr == -1)
    requires At(p.board, Loc(l.row + Forward(p.whiteToMove), l.col)) == Empty
    ensures var one := Loc(l.row + Forward(p.whiteToMove), l.col);
            var pl := LookUpPin(pins, l, false);
            && one == Along(l, (pl.dr, pl.dc), if pl.dr == Forward(p.whiteToMove) then 1 else -1)
            && Plain(p.board, l, one) in PawnMoves(p, Corrected, pins, l).moves
  {
    PawnMovesComplete(p, Corrected, pins, l, 1);
  }

  // ---------------------------------------------------------------- the two findings, at the generator

  /** White king on (2,4), white pawn on (4,4), black rook on (6,4): the pawn
      is pinned along column 4 with direction (1,0) from the king. */
  const PinnedPushBoard: Board :=
    seq(8, r => seq(8, c =>
      if r == 2 && c == 4 then P(White, King)
      else if r == 4 && c == 4 then P(White, Pawn)
      else if r == 6 && c == 4 then P(Black, Rook)
      else if r == 0 && c == 0 then P(Black, King)
      else Empty))

  const PinnedPushPosition: Position :=
    Position(PinnedPushBoard, true, Loc(2, 4), Loc(0, 0), None, CastleRights(false, false, false, false))

  /** A direction whose squares are all empty from step `j` on yields
      neither a pin nor a check. */
  lemma {:induction false} EmptyRayFindsNothing(b: Board, k: Loc, i: nat, own: Color, j: nat)
    requires i < 8 && 1 <= j
    requires forall t | j <= t < 8 && OnBoard(Checks.RayStep(k, i, t)) :: At(b, Checks.RayStep(k, i, t)) == Empty
    ensures Checks.ScanRay(b, k, i, own, j, None) == Checks.Found(None, None)
    decreases 8 - j
  {
    if j < 8 && OnBoard(Checks.RayStep(k, i, j)) {
      EmptyRayFindsNothing(b, k, i, own, j + 1);
    }
  }

  /** From the king on (2,4), direction 2 (down the column) meets the pawn
      and then the rook, which pins it; every other direction is empty. */
  lemma PinnedPushDirections(i: nat)
    requires i < 8
    ensures Checks.ScanRay(PinnedPushBoard, Loc(2, 4), i, White, 1, None).pin
              == if i == 2 then Some(Ray(Loc(4, 4), 1, 0)) else None
  {
    var b := PinnedPushBoard;
    var k := Loc(2, 4);
    if i == 2 {
      var pp := Some(Checks.RayAt(k, 2, 2));
      assert Checks.ScanRay(b, k, 2, White, 4, pp) == Checks.Found(pp, None);
      assert Checks.ScanRay(b, k, 2, White, 3, pp) == Checks.Found(pp, None);
      assert Checks.ScanRay(b, k, 2, White, 2, None) == Checks.Found(pp, None);
      assert Checks.ScanRay(b, k, 2, White, 1, None) == Checks.Found(pp, None);
    } else {
      EmptyRayFindsNothing(b, k, i, White, 1);
    }
  }

  /** `checksForPinsAndChecks` for the white king on (2,4) records exactly one
      pin: the pawn on (4,4), in direction (1,0). */
  lemma PinnedPushScan()
    ensures Checks.ChecksForPinsAndChecks(PinnedPushBoard, Loc(2, 4), White).pins == [Ray(Loc(4, 4), 1, 0)]
  {
    var b := PinnedPushBoard;
    var k := Loc(2, 4);
    forall i | 0 <= i < 8
      ensures Checks.ScanRay(b, k, i, White, 1, None).pin == if i == 2 then Some(Ray(Loc(4, 4), 1, 0)) else None
    {
      PinnedPushDirections(i);
    }
    assert Checks.ScanDirections(b, k, White, 3).pins == [];
    assert Checks.ScanDirections(b, k, White, 0).pins == [Ray(Loc(4, 4), 1, 0)];
  }

  /** The engine's generator gives the pinned pawn no move at all, although
      its push to (3,4) stays on the pin line between king and rook; the
      corrected generator hands out that push. */
  lemma PawnPinAsWrittenRefusesLinePush()
    ensures var p := PinnedPushPosition;
            var pins := [Ray(Loc(4, 4), 1, 0)];
            var push := Plain(p.board, Loc(4, 4), Loc(3, 4));
            && WF(p)
            && Checks.ChecksForPinsAndChecks(p.board, p.OwnKing(), p.Side()).pins == pins
            && PawnMoves(p, AsWritten, pins, Loc(4, 4)).moves == []
            && Loc(3, 4) == Along(Loc(4, 4), (1, 0), -1)
            && push in PawnMoves(p, Corrected, pins, Loc(4, 4)).moves
  {
    var p := PinnedPushPosition;
    var pins := [Ray(Loc(4, 4), 1, 0)];
    var pl := LookUpPin(pins, Loc(4, 4), false);
    assert pl.pinned && pl.dr == 1 && pl.dc == 0;
    assert At(p.board, Loc(3, 4)) == Empty;
    CorrectedPinnedPushOnLine(p, pins, Loc(4, 4));
    PinnedPushScan();
    PinnedPushWF();
  }

  lemma PinnedPushWF()
    ensures WF(PinnedPushPosition)
  {
    var p := PinnedPushPosition;
    forall s | OnBoard(s)
      ensures At(p.board, s) == P(White, King) <==> s == p.whiteKing
      ensures At(p.board, s) == P(Black, King) <==> s == p.blackKing
    {
    }
  }

  /** The row-3 position of the rank-test finding, White to move, with the
      black pawn on (3,2) having just advanced two rows. */
  const ExposingPosition: Position :=
    Position(ExposingBoard, true, Loc(3, 0), Loc(0, 7),
             Some(Loc(2, 2)), CastleRights(false, false, false, false))

  /** The engine's generator hands out the en-passant capture that opens
      row 3 from the king to the rook; the corrected generator withholds it. */
  lemma EnPassantAsWrittenGenerated()
    ensures var p := ExposingPosition;
            var capture := NewMove(Loc(3, 1), Loc(2, 2), p.board, true, false);
            && WF(p)
            && capture in PawnMoves(p, AsWritten, [], Loc(3, 1)).moves
            && capture !in PawnMoves(p, Corrected, [], Loc(3, 1)).moves
  {
    var p := ExposingPosition;
    ExposingWF();
    EnPassantAsWrittenExposesKing();
    PawnMovesComplete(p, AsWritten, [], Loc(3, 1), 1);
    var capture := NewMove(Loc(3, 1), Loc(2, 2), p.board, true, false);
    if capture in PawnMoves(p, Corrected, [], Loc(3, 1)).moves {
      PawnMovesShape(p, Corrected, [], Loc(3, 1), capture);
      assert false;
    }
  }

  lemma ExposingWF()
    ensures WF(ExposingPosition)
  {
    var p := ExposingPosition;
    forall s | OnBoard(s)
      ensures At(p.board, s) == P(White, King) <==> s == p.whiteKing
      ensures At(p.board, s) == P(Black, King) <==> s == p.blackKing
    {
    }
  }

  /** From the white king on (3,0) no direction holds a pin: along row 3 the
      own pawn is followed by the black pawn, which cannot attack along a row. */
  lemma ExposingDirections(i: nat)
    requires i < 8
    ensures Checks.ScanRay(ExposingBoard, Loc(3, 0), i, White, 1, None).pin == None
  {
    var b := ExposingBoard;
    var k := Loc(3, 0);
    match i
    case 0 => EmptyRayFindsNothing(b, k, 0, White, 1);
    case 1 => EmptyRayFindsNothing(b, k, 1, White, 1);
    case 2 => EmptyRayFindsNothing(b, k, 2, White, 1);
    case 3 => assert Checks.ScanRay(b, k, 3, White, 2, Some(Checks.RayAt(k, 3, 1))) == Checks.Found(None, None);
    case 4 => EmptyRayFindsNothing(b, k, 4, White, 1);
    case 5 => EmptyRayFindsNothing(b, k, 5, White, 1);
    case 6 => EmptyRayFindsNothing(b, k, 6, White, 1);
    case 7 => EmptyRayFindsNothing(b, k, 7, White, 1);
  }

  /** `checksForPinsAndChecks` records no pin for the white king on (3,0),
      so the empty pin list `EnPassantAsWrittenGenerated` hands the pawn
      generator is the one `getValidMoves` would. */
  lemma ExposingScan()
    ensures Checks.ChecksForPinsAndChecks(ExposingBoard, Loc(3, 0), White).pins == []
  {
    var b := ExposingBoard;
    var k := Loc(3, 0);
    forall i | 0 <= i < 8
      ensures Checks.ScanRay(b, k, i, White, 1, None).pin == None
    {
      ExposingDirections(i);
    }
    assert Checks.ScanDirections(b, k, White, 4).pins == [];
    assert Checks.ScanDirections(b, k, White, 0).pins == [];
  }
}
