/** The long-range pieces and the knight: `getRookMoves`, `getBishopMoves`,
    `getQueenMoves` and `getNightMoves`.

    A slider walks each of its directions from the next square on, adding a
    move onto every empty square and onto the first enemy piece, and stopping
    at the first occupied square or the edge.  A pinned slider keeps only the
    directions along its pin (towards the king or away from it); a pinned
    knight has no moves.  Each generator first looks its square up in the pin
    list and, unless the piece is a queen, removes the entry it found.
 */
module Sliders {

  import opened Options
  import opened Pieces
  import opened Boards
  import opened Moves
  import opened State
  import opened Pins
  import opened Checks
  import opened MakeUndo

  const RookDirs: seq<(int, int)> := [(-1, 0), (1, 0), (0, -1), (0, 1)]
  const BishopDirs: seq<(int, int)> := [(-1, 1), (1, 1), (1, -1), (-1, -1)]

  /** A direction one square long in each coordinate, and not the null direction. */
  predicate Unit(d: (int, int)) {
    -1 <= d.0 <= 1 && -1 <= d.1 <= 1 && d != (0, 0)
  }

  /** The move from `l` to `t` as the constructor builds it without special flags. */
  function Plain(b: Board, l: Loc, t: Loc): Move
    requires OnBoard(l) && OnBoard(t)
  {
    NewMove(l, t, b, false, false)
  }

  /** A plain move between two squares of the board can be taken back. */
  lemma PlainReversible(b: Board, l: Loc, t: Loc)
    requires OnBoard(l) && OnBoard(t)
    ensures Reversible(b, Plain(b, l, t))
  {
  }

  /** The square `k` steps from `l` along `d`. */
  function Along(l: Loc, d: (int, int), k: int): Loc {
    Step(l, d.0, d.1, k)
  }

  // ---------------------------------------------------------------- the generators

  /** One direction of the `for i in range(1, 8)` loop, from step `i` on.  The
      rook's loop leaves at the edge of the board; the bishop's loop has no
      such exit and merely finds nothing on the remaining steps, which
      `stopAtEdge == false` follows literally. */
  function Slide(b: Board, l: Loc, enemy: Color, d: (int, int), i: nat, stopAtEdge: bool): seq<Move>
    requires OnBoard(l)
    decreases 8 - i
  {
    if i >= 8 then []
    else
      var t := Along(l, d, i);
      if !OnBoard(t) then
        (if stopAtEdge then [] else Slide(b, l, enemy, d, i + 1, stopAtEdge))
      else if At(b, t) == Empty then [Plain(b, l, t)] + Slide(b, l, enemy, d, i + 1, stopAtEdge)
      else if At(b, t).color == enemy then [Plain(b, l, t)]
      else []
  }

  /** `not piecePinned or pinDirection == d or pinDirection == (-d[0], -d[1])`. */
  predicate AlongPin(pl: PinLookup, d: (int, int)) {
    !pl.pinned || (pl.dr, pl.dc) == d || (pl.dr, pl.dc) == (-d.0, -d.1)
  }

  /** The outer `for d in directions` loop from direction `n` on. */
  function SlideAll(b: Board, l: Loc, enemy: Color, dirs: seq<(int, int)>, pl: PinLookup, stopAtEdge: bool, n: nat): seq<Move>
    requires OnBoard(l) && n <= |dirs|
    decreases |dirs| - n
  {
    if n == |dirs| then []
    else
      (if AlongPin(pl, dirs[n]) then Slide(b, l, enemy, dirs[n], 1, stopAtEdge) else [])
      + SlideAll(b, l, enemy, dirs, pl, stopAtEdge, n + 1)
  }

  predicate IsQueen(s: Square) {
    s.P? && s.kind == Queen
  }

  /** The pin lookup the rook and bishop generators start with: a queen keeps its entry. */
  function SliderPin(p: Position, pins: seq<Ray>, l: Loc): PinLookup
    requires OnBoard(l)
  {
    LookUpPin(pins, l, IsQueen(At(p.board, l)))
  }

  /** `getRookMoves` for the piece on `l`. */
  function RookMoves(p: Position, pins: seq<Ray>, l: Loc): Gen
    requires OnBoard(l)
  {
    var pl := SliderPin(p, pins, l);
    Gen(SlideAll(p.board, l, Opponent(p.Side()), RookDirs, pl, true, 0), pl.rest)
  }

  /** `getBishopMoves` for the piece on `l`. */
  function BishopMoves(p: Position, pins: seq<Ray>, l: Loc): Gen
    requires OnBoard(l)
  {
    var pl := SliderPin(p, pins, l);
    Gen(SlideAll(p.board, l, Opponent(p.Side()), BishopDirs, pl, false, 0), pl.rest)
  }

  /** `getQueenMoves`: the rook moves, then the bishop moves, with the pin list
      the rook pass left. */
  function QueenMoves(p: Position, pins: seq<Ray>, l: Loc): Gen
    requires OnBoard(l)
  {
    var r := RookMoves(p, pins, l);
    var q := BishopMoves(p, r.pins, l);
    Gen(r.moves + q.moves, q.pins)
  }

  /** The `for i in NightMoves` loop from jump `n` on: a jump onto the board
      that does not land on a piece of colour `own`, unless the knight is pinned. */
  function Hops(b: Board, l: Loc, own: Color, pinned: bool, n: nat): seq<Move>
    requires OnBoard(l) && n <= 8
    decreases 8 - n
  {
    if n == 8 then []
    else
      var t := Jump(l, n);
      (if OnBoard(t) && !pinned && !(At(b, t).P? && At(b, t).color == own) then [Plain(b, l, t)] else [])
      + Hops(b, l, own, pinned, n + 1)
  }

  /** `getNightMoves` for the piece on `l`. */
  function KnightMoves(p: Position, pins: seq<Ray>, l: Loc): Gen
    requires OnBoard(l)
  {
    var pl := LookUpPin(pins, l, false);
    Gen(Hops(p.board, l, p.Side(), pl.pinned, 0), pl.rest)
  }

  // ---------------------------------------------------------------- what a slider reaches

  /** The squares from step `lo` up to (not including) step `hi` along `d` are empty. */
  ghost predicate Open(b: Board, l: Loc, d: (int, int), lo: int, hi: int) {
    forall j | lo <= j < hi :: OnBoard(Along(l, d, j)) && At(b, Along(l, d, j)) == Empty
  }

  /** A square a piece can move onto: on the board, and empty or holding an enemy piece. */
  ghost predicate Lands(b: Board, t: Loc, enemy: Color) {
    OnBoard(t) && (At(b, t) == Empty || (At(b, t).P? && At(b, t).color == enemy))
  }

  /** A slider on `l` can go `k` steps along `d`: within the seven steps of the
      loop, over empty squares, onto an empty square or an enemy piece. */
  ghost predicate Reaches(b: Board, l: Loc, enemy: Color, d: (int, int), k: int) {
    1 <= k < 8 && Open(b, l, d, 1, k) && Lands(b, Along(l, d, k), enemy)
  }

  /** `m` is a move the rules allow a slider on `l` with directions `dirs`
      and pin lookup `pl`. */
  ghost predicate SliderMove(b: Board, l: Loc, enemy: Color, dirs: seq<(int, int)>, pl: PinLookup, m: Move)
    requires OnBoard(l)
  {
    exists n, k | 0 <= n < |dirs| && 1 <= k < 8 ::
      AlongPin(pl, dirs[n]) && Reaches(b, l, enemy, dirs[n], k) && OnBoard(Along(l, dirs[n], k))
      && m == Plain(b, l, Along(l, dirs[n], k))
  }

  // ---------------------------------------------------------------- the edge

  /** Once a ray has left the board it never comes back. */
  lemma OffStaysOff(l: Loc, d: (int, int), i: int, j: int)
    requires OnBoard(l) && Unit(d) && 0 <= i <= j
    requires !OnBoard(Along(l, d, i))
    ensures !OnBoard(Along(l, d, j))
  {
    assert d.0 == -1 || d.0 == 0 || d.0 == 1;
    assert d.1 == -1 || d.1 == 0 || d.1 == 1;
  }

  /** Past the edge the bishop's loop finds nothing more. */
  lemma {:induction false} NothingPastEdge(b: Board, l: Loc, enemy: Color, d: (int, int), i: nat, j: nat)
    requires OnBoard(l) && Unit(d) && i <= j
    requires !OnBoard(Along(l, d, i))
    ensures Slide(b, l, enemy, d, j, false) == []
    decreases 8 - j
  {
    if j < 8 {
      OffStaysOff(l, d, i, j);
      NothingPastEdge(b, l, enemy, d, i, j + 1);
    }
  }

  /** The bishop's loop without the edge exit finds the same moves as the
      rook's loop with it. */
  lemma {:induction false} EdgeExitIrrelevant(b: Board, l: Loc, enemy: Color, d: (int, int), i: nat)
    requires OnBoard(l) && Unit(d)
    ensures Slide(b, l, enemy, d, i, false) == Slide(b, l, enemy, d, i, true)
    decreases 8 - i
  {
    if i < 8 {
      var t := Along(l, d, i);
      if !OnBoard(t) {
        NothingPastEdge(b, l, enemy, d, i, i + 1);
      } else if At(b, t) == Empty {
        EdgeExitIrrelevant(b, l, enemy, d, i + 1);
      }
    }
  }

  // ---------------------------------------------------------------- one direction

  /** Every move of one direction steps over empty squares onto a square it may take. */
  lemma {:induction false} SlideSound(b: Board, l: Loc, enemy: Color, d: (int, int), i: nat, m: Move) returns (k: int)
    requires OnBoard(l) && 1 <= i
    requires m in Slide(b, l, enemy, d, i, true)
    ensures i <= k < 8 && Open(b, l, d, i, k) && Lands(b, Along(l, d, k), enemy)
    ensures m == Plain(b, l, Along(l, d, k))
    decreases 8 - i
  {
    var t := Along(l, d, i);
    if OnBoard(t) && At(b, t) == Empty && m != Plain(b, l, t) {
      k := SlideSound(b, l, enemy, d, i + 1, m);
    } else {
      k := i;
    }
  }

  /** Every square the rules let a slider reach in one direction is generated. */
  lemma {:induction false} SlideComplete(b: Board, l: Loc, enemy: Color, d: (int, int), i: nat, k: int)
    requires OnBoard(l) && 1 <= i <= k < 8
    requires Open(b, l, d, i, k) && Lands(b, Along(l, d, k), enemy)
    ensures Plain(b, l, Along(l, d, k)) in Slide(b, l, enemy, d, i, true)
    decreases k - i
  {
    if i < k {
      assert OnBoard(Along(l, d, i)) && At(b, Along(l, d, i)) == Empty;
      SlideComplete(b, l, enemy, d, i + 1, k);
    }
  }

  // ---------------------------------------------------------------- all directions

  lemma {:induction false} SlideAllSound(b: Board, l: Loc, enemy: Color, dirs: seq<(int, int)>, pl: PinLookup, n: nat, m: Move)
    returns (n': nat, k: int)
    requires OnBoard(l) && n <= |dirs|
    requires m in SlideAll(b, l, enemy, dirs, pl, true, n)
    ensures n <= n' < |dirs| && AlongPin(pl, dirs[n']) && Reaches(b, l, enemy, dirs[n'], k)
    ensures m == Plain(b, l, Along(l, dirs[n'], k))
    decreases |dirs| - n
  {
    var here := if AlongPin(pl, dirs[n]) then Slide(b, l, enemy, dirs[n], 1, true) else [];
    if m in here {
      n' := n;
      k := SlideSound(b, l, enemy, dirs[n], 1, m);
    } else {
      n', k := SlideAllSound(b, l, enemy, dirs, pl, n + 1, m);
    }
  }

  lemma {:induction false} SlideAllComplete(b: Board, l: Loc, enemy: Color, dirs: seq<(int, int)>, pl: PinLookup, n: nat, n': nat, k: int)
    requires OnBoard(l) && n <= n' < |dirs|
    requires AlongPin(pl, dirs[n']) && Reaches(b, l, enemy, dirs[n'], k)
    ensures Plain(b, l, Along(l, dirs[n'], k)) in SlideAll(b, l, enemy, dirs, pl, true, n)
    decreases n' - n
  {
    var here := if AlongPin(pl, dirs[n]) then Slide(b, l, enemy, dirs[n], 1, true) else [];
    var rest := SlideAll(b, l, enemy, dirs, pl, true, n + 1);
    assert SlideAll(b, l, enemy, dirs, pl, true, n) == here + rest;
    if n == n' {
      SlideComplete(b, l, enemy, dirs[n], 1, k);
      assert Plain(b, l, Along(l, dirs[n'], k)) in here;
    } else {
      SlideAllComplete(b, l, enemy, dirs, pl, n + 1, n', k);
      assert Plain(b, l, Along(l, dirs[n'], k)) in rest;
    }
  }

  /** A slider generates exactly the moves the rules allow it along the
      directions its pin leaves open. */
  lemma SlideAllExact(b: Board, l: Loc, enemy: Color, dirs: seq<(int, int)>, pl: PinLookup, m: Move)
    requires OnBoard(l)
    ensures m in SlideAll(b, l, enemy, dirs, pl, true, 0) <==> SliderMove(b, l, enemy, dirs, pl, m)
  {
    if m in SlideAll(b, l, enemy, dirs, pl, true, 0) {
      var n, k := SlideAllSound(b, l, enemy, dirs, pl, 0, m);
      assert AlongPin(pl, dirs[n]) && Reaches(b, l, enemy, dirs[n], k) && OnBoard(Along(l, dirs[n], k))
             && m == Plain(b, l, Along(l, dirs[n], k));
    }
    if SliderMove(b, l, enemy, dirs, pl, m) {
      var n, k :| 0 <= n < |dirs| && 1 <= k < 8 && AlongPin(pl, dirs[n]) && Reaches(b, l, enemy, dirs[n], k)
                  && OnBoard(Along(l, dirs[n], k)) && m == Plain(b, l, Along(l, dirs[n], k));
      SlideAllComplete(b, l, enemy, dirs, pl, 0, n, k);
    }
  }

  /** Two lookups that both found no pin give the same slides. */
  lemma {:induction false} SlideAllUnpinned(b: Board, l: Loc, enemy: Color, dirs: seq<(int, int)>, pl: PinLookup, pl': PinLookup, stop: bool, n: nat)
    requires OnBoard(l) && n <= |dirs| && !pl.pinned && !pl'.pinned
    ensures SlideAll(b, l, enemy, dirs, pl, stop, n) == SlideAll(b, l, enemy, dirs, pl', stop, n)
    decreases |dirs| - n
  {
    if n < |dirs| {
      SlideAllUnpinned(b, l, enemy, dirs, pl, pl', stop, n + 1);
    }
  }

  /** Dropping the edge exit changes nothing for any list of unit directions. */
  lemma {:induction false} SlideAllEdgeIrrelevant(b: Board, l: Loc, enemy: Color, dirs: seq<(int, int)>, pl: PinLookup, n: nat)
    requires OnBoard(l) && n <= |dirs|
    requires forall i | 0 <= i < |dirs| :: Unit(dirs[i])
    ensures SlideAll(b, l, enemy, dirs, pl, false, n) == SlideAll(b, l, enemy, dirs, pl, true, n)
    decreases |dirs| - n
  {
    if n < |dirs| {
      EdgeExitIrrelevant(b, l, enemy, dirs[n], 1);
      SlideAllEdgeIrrelevant(b, l, enemy, dirs, pl, n + 1);
    }
  }

  // ---------------------------------------------------------------- per piece

  /** The rook moves are exactly the orthogonal slides its pin allows; the pin
      entry for its square (if any) is gone from the list afterwards unless
      the piece is a queen. */
  lemma RookMovesExact(p: Position, pins: seq<Ray>, l: Loc, m: Move)
    requires OnBoard(l)
    ensures var pl := SliderPin(p, pins, l);
            (m in RookMoves(p, pins, l).moves) <==> SliderMove(p.board, l, Opponent(p.Side()), RookDirs, pl, m)
    ensures RookMoves(p, pins, l).pins == SliderPin(p, pins, l).rest
  {
    SlideAllExact(p.board, l, Opponent(p.Side()), RookDirs, SliderPin(p, pins, l), m);
  }

  /** The bishop moves are exactly the diagonal slides its pin allows. */
  lemma BishopMovesExact(p: Position, pins: seq<Ray>, l: Loc, m: Move)
    requires OnBoard(l)
    ensures var pl := SliderPin(p, pins, l);
            (m in BishopMoves(p, pins, l).moves) <==> SliderMove(p.board, l, Opponent(p.Side()), BishopDirs, pl, m)
    ensures BishopMoves(p, pins, l).pins == SliderPin(p, pins, l).rest
  {
    var pl := SliderPin(p, pins, l);
    assert forall i | 0 <= i < |BishopDirs| :: Unit(BishopDirs[i]);
    SlideAllEdgeIrrelevant(p.board, l, Opponent(p.Side()), BishopDirs, pl, 0);
    SlideAllExact(p.board, l, Opponent(p.Side()), BishopDirs, pl, m);
  }

  /** A queen moves like a rook or a bishop under the same pin, and its pin
      entry stays in the list. */
  lemma QueenMovesExact(p: Position, pins: seq<Ray>, l: Loc, m: Move)
    requires OnBoard(l) && IsQueen(At(p.board, l))
    ensures var pl := LookUpPin(pins, l, true);
            var enemy := Opponent(p.Side());
            (m in QueenMoves(p, pins, l).moves)
              <==> SliderMove(p.board, l, enemy, RookDirs, pl, m) || SliderMove(p.board, l, enemy, BishopDirs, pl, m)
    ensures QueenMoves(p, pins, l).pins == pins
  {
    RookMovesExact(p, pins, l, m);
    BishopMovesExact(p, pins, l, m);
  }

  /** A pinned slider only moves along its pin line, towards its king or away from it. */
  lemma PinnedSliderStaysOnLine(b: Board, l: Loc, enemy: Color, dirs: seq<(int, int)>, pl: PinLookup, m: Move)
    returns (k: int)
    requires OnBoard(l) && pl.pinned
    requires m in SlideAll(b, l, enemy, dirs, pl, true, 0)
    ensures 1 <= k < 8 || -8 < k <= -1
    ensures m.start == l && m.end == Along(l, (pl.dr, pl.dc), k)
  {
    var n, j := SlideAllSound(b, l, enemy, dirs, pl, 0, m);
    var d := dirs[n];
    assert m.end == Along(l, d, j);
    if (pl.dr, pl.dc) == d {
      k := j;
    } else {
      k := -j;
      assert (pl.dr, pl.dc) == (-d.0, -d.1);
      Reverse(l, d, j);
    }
  }

  /** Going `j` steps along `d` is going `-j` steps along the opposite direction. */
  lemma Reverse(l: Loc, d: (int, int), j: int)
    ensures Along(l, d, j) == Along(l, (-d.0, -d.1), -j)
  {
    assert d.0 * j == (-d.0) * (-j);
    assert d.1 * j == (-d.1) * (-j);
  }

  /** A knight on `l` may jump `j` onto a square it can take. */
  ghost predicate KnightLands(b: Board, l: Loc, enemy: Color, j: nat)
    requires j < 8
  {
    Lands(b, Jump(l, j), enemy)
  }

  /** The knight's moves: none when pinned; otherwise a move onto every jump
      square on the board not holding a piece of its own colour. */
  lemma {:induction false} HopsSound(b: Board, l: Loc, own: Color, pinned: bool, n: nat, m: Move) returns (j: nat)
    requires OnBoard(l) && n <= 8
    requires m in Hops(b, l, own, pinned, n)
    ensures !pinned && n <= j < 8 && KnightLands(b, l, Opponent(own), j) && m == Plain(b, l, Jump(l, j))
    decreases 8 - n
  {
    var t := Jump(l, n);
    var here := if OnBoard(t) && !pinned && !(At(b, t).P? && At(b, t).color == own) then [Plain(b, l, t)] else [];
    assert Hops(b, l, own, pinned, n) == here + Hops(b, l, own, pinned, n + 1);
    if m in here {
      j := n;
    } else {
      j := HopsSound(b, l, own, pinned, n + 1, m);
    }
  }

  lemma {:induction false} HopsComplete(b: Board, l: Loc, own: Color, n: nat, j: nat)
    requires OnBoard(l) && n <= j < 8
    requires KnightLands(b, l, Opponent(own), j)
    ensures Plain(b, l, Jump(l, j)) in Hops(b, l, own, false, n)
    decreases j - n
  {
    var t := Jump(l, n);
    var here := if OnBoard(t) && !(At(b, t).P? && At(b, t).color == own) then [Plain(b, l, t)] else [];
    assert Hops(b, l, own, false, n) == here + Hops(b, l, own, false, n + 1);
    if n < j {
      HopsComplete(b, l, own, n + 1, j);
    }
  }

  /** `getNightMoves`: no moves when its square has a pin entry; otherwise a
      move onto every jump square it can take.  Its pin entry (if any) is removed. */
  lemma KnightMovesExact(p: Position, pins: seq<Ray>, l: Loc, m: Move)
    requires OnBoard(l)
    ensures (m in KnightMoves(p, pins, l).moves)
              <==> (forall i | 0 <= i < |pins| :: pins[i].loc != l)
                   && exists j | 0 <= j < 8 :: KnightLands(p.board, l, Opponent(p.Side()), j) && m == Plain(p.board, l, Jump(l, j))
    ensures KnightMoves(p, pins, l).pins == LookUpPin(pins, l, false).rest
  {
    var pl := LookUpPin(pins, l, false);
    if m in KnightMoves(p, pins, l).moves {
      var j := HopsSound(p.board, l, p.Side(), pl.pinned, 0, m);
    }
    if !pl.pinned && exists j | 0 <= j < 8 :: KnightLands(p.board, l, Opponent(p.Side()), j) && m == Plain(p.board, l, Jump(l, j)) {
      var j :| 0 <= j < 8 && KnightLands(p.board, l, Opponent(p.Side()), j) && m == Plain(p.board, l, Jump(l, j));
      HopsComplete(p.board, l, p.Side(), 0, j);
    }
  }

  // ---------------------------------------------------------------- every move can be taken back

  /** Every move these generators produce comes from the board and can be undone. */
  lemma {:induction false} SlideReversible(b: Board, l: Loc, enemy: Color, d: (int, int), i: nat, stop: bool)
    requires OnBoard(l)
    ensures forall m | m in Slide(b, l, enemy, d, i, stop) :: Reversible(b, m) && m.start == l
    decreases 8 - i
  {
    if i < 8 {
      SlideReversible(b, l, enemy, d, i + 1, stop);
    }
  }
}
