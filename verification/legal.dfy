/** `getValidMoves`: the pin and check scan, castling, the pseudo-legal
    moves, and the check filter, followed by the checkmate and stalemate flags.

    In single check every move that is not a king move must end on a square
    that answers the check: the checking knight's square, or a square of the
    line from the king up to and including the checking piece.  The filter
    walks the list from the back and drops a failing move with `list.remove`,
    which drops the first move equal to it (equal meaning the same start and
    end squares).  In double check only the king generator runs.
 */
module Legal {

  import opened Options
  import opened Pieces
  import opened Boards
  import opened Moves
  import opened State
  import opened MakeUndo
  import opened Checks
  import opened Sliders
  import opened Kings
  import opened Generate

  // ---------------------------------------------------------------- the squares that answer a check

  /** The `for i in range(1, 8)` loop from step `i` on: the squares along the
      check's direction, up to and including the checking piece. */
  function BlockLine(k: Loc, c: Ray, i: nat): seq<Loc>
    requires 1 <= i <= 8
    decreases 8 - i
  {
    if i == 8 then []
    else
      var v := Step(k, c.dr, c.dc, i);
      [v] + (if v == c.loc then [] else BlockLine(k, c, i + 1))
  }

  /** `validSquares` for the check `c` against the king on `k`. */
  function ValidSquares(b: Board, k: Loc, c: Ray): seq<Loc>
    requires OnBoard(c.loc)
  {
    var s := At(b, c.loc);
    if s.P? && s.kind == Knight then [c.loc] else BlockLine(k, c, 1)
  }

  /** The independent description: square `t` answers the check `c` against
      the king of colour `own` on `k` when `c` is a knight check and `t` is
      the knight's square, or when `c` is a check along direction `i` from
      step `j` and `t` is one of the steps 1 to `j`. */
  ghost predicate Answers(b: Board, k: Loc, own: Color, c: Ray, t: Loc) {
    || (t == c.loc && exists n: nat | n < 8 :: KnightCheck(b, k, own, n) && c == KnightRay(k, n))
    || (exists i: nat, j: int, x: int | i < 8 && 1 <= x <= j :: RayCheck(b, k, own, i, j) && c == RayAt(k, i, j) && t == RayStep(k, i, x))
  }

  // ---------------------------------------------------------------- the filter

  /** The filter lets `m` through: a king move, or a move onto a valid square. */
  predicate Passes(m: Move, vs: seq<Loc>) {
    IsKing(m.pieceMoved) || m.end in vs
  }

  /** The first index from `k` up to `bound` holding a move equal to `m`. */
  function FirstSame(ms: seq<Move>, m: Move, k: nat, bound: nat): (j: nat)
    requires k <= bound < |ms| && SameMove(ms[bound], m)
    ensures k <= j <= bound && SameMove(ms[j], m)
    ensures forall x | k <= x < j :: !SameMove(ms[x], m)
    decreases bound - k
  {
    if SameMove(ms[k], m) then k else FirstSame(ms, m, k + 1, bound)
  }

  /** `moves.remove(moves[i])`: the list without its first move equal to `moves[i]`. */
  function RemoveMove(ms: seq<Move>, i: nat): (r: seq<Move>)
    requires i < |ms|
    ensures |r| == |ms| - 1
    ensures forall m | m in r :: m in ms
    ensures exists j | 0 <= j <= i ::
              && SameMove(ms[j], ms[i])
              && (forall x | 0 <= x < j :: !SameMove(ms[x], ms[i]))
              && r == ms[..j] + ms[j + 1..]
  {
    var j := FirstSame(ms, ms[i], 0, i);
    var r := ms[..j] + ms[j + 1..];
    assert forall m | m in r :: m in ms by {
      assert forall x | 0 <= x < |r| :: r[x] == ms[if x < j then x else x + 1];
    }
    r
  }

  /** The `for i in range(len(moves) - 1, -1, -1)` filter loop from index `i` down. */
  function CheckFilter(ms: seq<Move>, i: int, vs: seq<Loc>): seq<Move>
    requires -1 <= i < |ms|
    decreases i + 1
  {
    if i < 0 then ms
    else if Passes(ms[i], vs) then CheckFilter(ms, i - 1, vs)
    else CheckFilter(RemoveMove(ms, i), i - 1, vs)
  }

  /** The reference filter: the moves that pass, in their order. */
  function Keep(s: seq<Move>, vs: seq<Loc>): seq<Move>
    decreases |s|
  {
    if |s| == 0 then []
    else Keep(s[..|s| - 1], vs) + (if Passes(s[|s| - 1], vs) then [s[|s| - 1]] else [])
  }

  /** No two of the moves up to index `i` are equal. */
  predicate DistinctUpTo(ms: seq<Move>, i: int)
    requires i < |ms|
  {
    forall a, b | 0 <= a < b <= i :: !SameMove(ms[a], ms[b])
  }

  // ---------------------------------------------------------------- getValidMoves

  /** The moves `getValidMoves` returns and the game state it leaves. */
  datatype Valid = Valid(moves: seq<Move>, state: GameState)

  /** The checks the scan reports all stand on the board. */
  lemma ChecksOnBoard(b: Board, k: Loc, own: Color)
    ensures forall c | c in ChecksForPinsAndChecks(b, k, own).checks :: OnBoard(c.loc)
  {
    ChecksRecorded(b, k, own);
  }

  /** `getValidMoves`. */
  function ValidMoves(g: GameState): (r: Valid)
    requires WF(g.pos)
  {
    var p := g.pos;
    var info := ChecksForPinsAndChecks(p.board, p.OwnKing(), p.Side());
    var castle := CastleMoves(p, info.inCheck, info.pins, p.OwnKing());
    var q := castle.pos;
    var gen :=
      if info.inCheck then
        if |info.checks| == 1 then
          var all := AllPossibleMoves(q, castle.pins);
          var ms := castle.moves + all.moves;
          ChecksOnBoard(p.board, p.OwnKing(), p.Side());
          var vs := ValidSquares(q.board, q.OwnKing(), info.checks[0]);
          Pseudo(CheckFilter(ms, |ms| - 1, vs), all.pins, all.pos)
        else
          CastleMovesRestore(p, info.inCheck, info.pins, p.OwnKing());
          var king := KingMoves(q, q.OwnKing());
          Pseudo(castle.moves + king.moves, castle.pins, king.pos)
      else
        var all := AllPossibleMoves(q, castle.pins);
        Pseudo(castle.moves + all.moves, all.pins, all.pos);
    var none := |gen.moves| == 0;
    var after := gen.pos.(rights := p.rights, enPassant := p.enPassant);
    Valid(gen.moves,
          g.(pos := after, inCheck := info.inCheck, pins := gen.pins, checks := info.checks,
             checkmate := g.checkmate || (none && info.inCheck),
             stalemate := g.stalemate || (none && !info.inCheck)))
  }

  // ---------------------------------------------------------------- the filter, proved

  /** Every move left by the filter passes it and comes from the list. */
  lemma {:induction false} CheckFilterSound(ms: seq<Move>, i: int, vs: seq<Loc>)
    requires -1 <= i < |ms|
    requires forall x | i < x < |ms| :: Passes(ms[x], vs)
    ensures forall m | m in CheckFilter(ms, i, vs) :: Passes(m, vs) && m in ms
    decreases i + 1
  {
    if i >= 0 {
      if Passes(ms[i], vs) {
        CheckFilterSound(ms, i - 1, vs);
      } else {
        var j := FirstSame(ms, ms[i], 0, i);
        var r := RemoveMove(ms, i);
        assert forall x | 0 <= x < |r| :: r[x] == ms[if x < j then x else x + 1];
        CheckFilterSound(r, i - 1, vs);
      }
    }
  }

  lemma {:induction false} KeepMembers(s: seq<Move>, vs: seq<Loc>, m: Move)
    ensures m in Keep(s, vs) <==> m in s && Passes(m, vs)
    decreases |s|
  {
    if |s| > 0 {
      KeepMembers(s[..|s| - 1], vs, m);
      assert s == s[..|s| - 1] + [s[|s| - 1]];
    }
  }

  /** When no two moves up to index `i` are equal, `list.remove` drops the
      very move the loop is looking at, and the loop computes the reference
      filter on the part it visits. */
  lemma {:induction false} CheckFilterExact(ms: seq<Move>, i: int, vs: seq<Loc>)
    requires -1 <= i < |ms| && DistinctUpTo(ms, i)
    ensures CheckFilter(ms, i, vs) == Keep(ms[..i + 1], vs) + ms[i + 1..]
    decreases i + 1
  {
    if i < 0 {
      assert ms[..0] == [];
    } else {
      assert ms[..i + 1][..i] == ms[..i];
      assert ms[i..] == [ms[i]] + ms[i + 1..];
      if Passes(ms[i], vs) {
        CheckFilterExact(ms, i - 1, vs);
      } else {
        var j := FirstSame(ms, ms[i], 0, i);
        assert j == i;
        var r := RemoveMove(ms, i);
        assert r == ms[..i] + ms[i + 1..];
        assert r[..i] == ms[..i];
        assert r[i..] == ms[i + 1..];
        CheckFilterExact(r, i - 1, vs);
      }
    }
  }

  /** Over a whole list of pairwise different moves, the filter keeps
      exactly the moves that pass. */
  lemma CheckFilterMembers(ms: seq<Move>, vs: seq<Loc>, m: Move)
    requires DistinctUpTo(ms, |ms| - 1)
    ensures m in CheckFilter(ms, |ms| - 1, vs) <==> m in ms && Passes(m, vs)
  {
    CheckFilterExact(ms, |ms| - 1, vs);
    assert ms[..|ms|] == ms;
    assert ms[|ms|..] == [];
    KeepMembers(ms, vs, m);
  }

  // ---------------------------------------------------------------- the valid squares, proved

  /** Along a direction other than standing still, different step counts
      reach different squares. */
  lemma StepInjective(k: Loc, dr: int, dc: int, x: int, y: int)
    requires dr != 0 || dc != 0
    requires Step(k, dr, dc, x) == Step(k, dr, dc, y)
    ensures x == y
  {
    assert dr * x - dr * y == dr * (x - y);
    assert dc * x - dc * y == dc * (x - y);
  }

  lemma {:induction false} BlockLineRay(k: Loc, c: Ray, i: nat, j: int, t: Loc)
    requires c.dr != 0 || c.dc != 0
    requires 1 <= i <= j < 8 && c.loc == Step(k, c.dr, c.dc, j)
    ensures t in BlockLine(k, c, i) <==> exists x | i <= x <= j :: t == Step(k, c.dr, c.dc, x)
    decreases 8 - i
  {
    var v := Step(k, c.dr, c.dc, i);
    if i < j {
      if v == c.loc {
        StepInjective(k, c.dr, c.dc, i, j);
      }
      BlockLineRay(k, c, i + 1, j, t);
      if t == v {
        assert exists x | i <= x <= j :: t == Step(k, c.dr, c.dc, x);
      }
      if exists x | i <= x <= j :: t == Step(k, c.dr, c.dc, x) {
        var x :| i <= x <= j && t == Step(k, c.dr, c.dc, x);
        if x > i {
          assert exists y | i + 1 <= y <= j :: t == Step(k, c.dr, c.dc, y);
        }
      }
    } else {
      if exists x | i <= x <= j :: t == Step(k, c.dr, c.dc, x) {
        var x :| i <= x <= j && t == Step(k, c.dr, c.dc, x);
        assert x == i;
      }
    }
  }

  /** The scan directions are pairwise different and none stands still. */
  lemma DirectionsDistinct()
    ensures forall a, b | 0 <= a < 8 && 0 <= b < 8 && Directions[a] == Directions[b] :: a == b
    ensures forall a | 0 <= a < 8 :: Directions[a].0 != 0 || Directions[a].1 != 0
  {
  }

  /** A piece giving check along a ray is never a knight. */
  lemma RayCheckerNotKnight(b: Board, k: Loc, own: Color, i: nat, j: int)
    requires i < 8 && RayCheck(b, k, own, i, j)
    ensures 1 <= j < 8 && OnBoard(RayStep(k, i, j))
    ensures At(b, RayStep(k, i, j)).P? && At(b, RayStep(k, i, j)).kind != Knight
  {
  }

  /** A knight check is answered only by taking the knight. */
  lemma KnightCheckSquares(b: Board, k: Loc, own: Color, c: Ray, t: Loc)
    requires IsKnightCheck(b, k, own, c)
    ensures OnBoard(c.loc)
    ensures t in ValidSquares(b, k, c) <==> Answers(b, k, own, c, t)
  {
    var n: nat :| n < 8 && KnightCheck(b, k, own, n) && c == KnightRay(k, n);
    assert ValidSquares(b, k, c) == [c.loc];
    forall i: nat, j: int | i < 8 && RayCheck(b, k, own, i, j)
      ensures c != RayAt(k, i, j)
    {
      RayCheckerNotKnight(b, k, own, i, j);
    }
  }

  /** A check along a ray is answered by any square of the line from the
      king up to and including the checking piece. */
  lemma RayCheckSquares(b: Board, k: Loc, own: Color, c: Ray, t: Loc)
    requires IsRayCheck(b, k, own, c)
    ensures OnBoard(c.loc)
    ensures t in ValidSquares(b, k, c) <==> Answers(b, k, own, c, t)
  {
    DirectionsDistinct();
    var i: nat, j: int :| i < 8 && RayCheck(b, k, own, i, j) && c == RayAt(k, i, j);
    RayCheckerNotKnight(b, k, own, i, j);
    assert c.loc == Step(k, c.dr, c.dc, j);
    assert ValidSquares(b, k, c) == BlockLine(k, c, 1);
    BlockLineRay(k, c, 1, j, t);
    forall n: nat | n < 8 && KnightCheck(b, k, own, n)
      ensures c != KnightRay(k, n)
    {
    }
    forall i': nat, j': int | i' < 8 && RayCheck(b, k, own, i', j') && c == RayAt(k, i', j')
      ensures i' == i && j' == j
    {
      assert Directions[i'] == Directions[i];
      StepInjective(k, c.dr, c.dc, j, j');
    }
    if t in ValidSquares(b, k, c) {
      var x :| 1 <= x <= j && t == Step(k, c.dr, c.dc, x);
      assert t == RayStep(k, i, x);
    }
    if Answers(b, k, own, c, t) {
      var i': nat, j': int, x: int :| i' < 8 && 1 <= x <= j' && RayCheck(b, k, own, i', j') && c == RayAt(k, i', j') && t == RayStep(k, i', x);
      assert t == Step(k, c.dr, c.dc, x);
    }
  }

  /** For a recorded check, `validSquares` holds exactly the squares that
      answer it. */
  lemma ValidSquaresExact(b: Board, k: Loc, own: Color, c: Ray, t: Loc)
    requires c in ChecksForPinsAndChecks(b, k, own).checks
    ensures OnBoard(c.loc)
    ensures t in ValidSquares(b, k, c) <==> Answers(b, k, own, c, t)
  {
    ChecksRecorded(b, k, own);
    if IsKnightCheck(b, k, own, c) {
      KnightCheckSquares(b, k, own, c, t);
    } else {
      RayCheckSquares(b, k, own, c, t);
    }
  }

  // ---------------------------------------------------------------- the three cases

  /** Not in check: the castles, then every pseudo-legal move. */
  lemma ValidMovesQuiet(g: GameState)
    requires WF(g.pos)
    requires !ChecksForPinsAndChecks(g.pos.board, g.pos.OwnKing(), g.pos.Side()).inCheck
    ensures var p := g.pos;
            var info := ChecksForPinsAndChecks(p.board, p.OwnKing(), p.Side());
            var castle := CastleMoves(p, false, info.pins, p.OwnKing());
      ValidMoves(g).moves == castle.moves + AllPossibleMoves(p, castle.pins).moves
  {
    var p := g.pos;
    var info := ChecksForPinsAndChecks(p.board, p.OwnKing(), p.Side());
    CastleMovesRestore(p, false, info.pins, p.OwnKing());
  }

  /** In single check: the filtered pseudo-legal moves (castling is off). */
  lemma ValidMovesSingle(g: GameState)
    requires WF(g.pos)
    requires |ChecksForPinsAndChecks(g.pos.board, g.pos.OwnKing(), g.pos.Side()).checks| == 1
    ensures var p := g.pos;
            var info := ChecksForPinsAndChecks(p.board, p.OwnKing(), p.Side());
            var ms := AllPossibleMoves(p, info.pins).moves;
      && info.inCheck && OnBoard(info.checks[0].loc)
      && ValidMoves(g).moves == CheckFilter(ms, |ms| - 1, ValidSquares(p.board, p.OwnKing(), info.checks[0]))
  {
    var p := g.pos;
    var info := ChecksForPinsAndChecks(p.board, p.OwnKing(), p.Side());
    InCheckIffAttacked(p.board, p.OwnKing(), p.Side());
    ChecksOnBoard(p.board, p.OwnKing(), p.Side());
    assert info.checks[0] in info.checks;
    var castle := CastleMoves(p, info.inCheck, info.pins, p.OwnKing());
    assert castle == Pseudo([], info.pins, p);
    var all := AllPossibleMoves(castle.pos, castle.pins);
    var vs := ValidSquares(castle.pos.board, castle.pos.OwnKing(), info.checks[0]);
    assert ValidMoves(g).moves == CheckFilter(castle.moves + all.moves, |castle.moves + all.moves| - 1, vs);
    assert castle.moves + all.moves == AllPossibleMoves(p, info.pins).moves;
  }

  /** In double check: the king's moves alone. */
  lemma ValidMovesDouble(g: GameState)
    requires WF(g.pos)
    requires |ChecksForPinsAndChecks(g.pos.board, g.pos.OwnKing(), g.pos.Side()).checks| >= 2
    ensures ValidMoves(g).moves == KingMoves(g.pos, g.pos.OwnKing()).moves
  {
    var p := g.pos;
    InCheckIffAttacked(p.board, p.OwnKing(), p.Side());
  }

  // ---------------------------------------------------------------- getValidMoves, proved

  /** `getValidMoves` gives back the position it found (the side flips and
      king relocations of its helpers are undone, and the castling rights and
      en-passant target are put back), and leaves the undo logs alone. */
  lemma ValidMovesRestores(g: GameState)
    requires WF(g.pos)
    ensures var s := ValidMoves(g).state;
      && s.pos == g.pos && s.moveLog == g.moveLog && s.epLog == g.epLog && s.rightsLog == g.rightsLog
  {
    var p := g.pos;
    var info := ChecksForPinsAndChecks(p.board, p.OwnKing(), p.Side());
    CastleMovesRestore(p, info.inCheck, info.pins, p.OwnKing());
    AllLoopRestores(p, 0);
  }

  /** The flags: in check exactly when the king of the side to move is
      attacked; checkmate once it is attacked with no moves, stalemate once it
      is not attacked with no moves; a flag that was set stays set. */
  lemma ValidMovesFlags(g: GameState)
    requires WF(g.pos)
    ensures var r := ValidMoves(g);
            var attacked := Attacked(g.pos.board, g.pos.OwnKing(), g.pos.Side());
      && (r.state.inCheck <==> attacked)
      && (r.state.checkmate <==> g.checkmate || (|r.moves| == 0 && attacked))
      && (r.state.stalemate <==> g.stalemate || (|r.moves| == 0 && !attacked))
  {
    InCheckIffAttacked(g.pos.board, g.pos.OwnKing(), g.pos.Side());
  }

  /** In double check the moves are exactly the king's steps onto squares
      holding no own piece that no enemy piece attacks. */
  lemma DoubleCheckKingOnly(g: GameState, m: Move)
    requires WF(g.pos)
    requires |ChecksForPinsAndChecks(g.pos.board, g.pos.OwnKing(), g.pos.Side()).checks| >= 2
    ensures var p := g.pos;
            var l := p.OwnKing();
            (m in ValidMoves(g).moves) <==> exists j | 0 <= j < 8 :: SafeStep(p, l, j) && m == Plain(p.board, l, KingStep(l, j))
    ensures m in ValidMoves(g).moves ==> m.start == g.pos.OwnKing() && m.pieceMoved == P(g.pos.Side(), King)
  {
    var p := g.pos;
    var l := p.OwnKing();
    ValidMovesDouble(g);
    KingMovesExact(p, l, m);
    assert At(p.board, l) == P(p.Side(), King);
  }

  /** In single check every move that is not a king move ends on a square
      answering the check. */
  lemma SingleCheckAnswered(g: GameState)
    requires WF(g.pos)
    requires |ChecksForPinsAndChecks(g.pos.board, g.pos.OwnKing(), g.pos.Side()).checks| == 1
    ensures var p := g.pos;
            var c := ChecksForPinsAndChecks(p.board, p.OwnKing(), p.Side()).checks[0];
      forall m | m in ValidMoves(g).moves :: IsKing(m.pieceMoved) || Answers(p.board, p.OwnKing(), p.Side(), c, m.end)
  {
    var p := g.pos;
    var l := p.OwnKing();
    var info := ChecksForPinsAndChecks(p.board, l, p.Side());
    var c := info.checks[0];
    ValidMovesSingle(g);
    var ms := AllPossibleMoves(p, info.pins).moves;
    var vs := ValidSquares(p.board, l, c);
    CheckFilterSound(ms, |ms| - 1, vs);
    forall m | m in ValidMoves(g).moves
      ensures IsKing(m.pieceMoved) || Answers(p.board, l, p.Side(), c, m.end)
    {
      ValidSquaresExact(p.board, l, p.Side(), c, m.end);
    }
  }

  /** In single check, when the generated moves are pairwise different, the
      moves returned are exactly the generated moves that are king moves or
      answer the check. */
  lemma SingleCheckExact(g: GameState, m: Move)
    requires WF(g.pos)
    requires var info := ChecksForPinsAndChecks(g.pos.board, g.pos.OwnKing(), g.pos.Side());
      && |info.checks| == 1
      && var all := AllPossibleMoves(g.pos, info.pins).moves;
         DistinctUpTo(all, |all| - 1)
    ensures var p := g.pos;
            var info := ChecksForPinsAndChecks(p.board, p.OwnKing(), p.Side());
      (m in ValidMoves(g).moves)
        <==> m in AllPossibleMoves(p, info.pins).moves
             && (IsKing(m.pieceMoved) || Answers(p.board, p.OwnKing(), p.Side(), info.checks[0], m.end))
  {
    var p := g.pos;
    var l := p.OwnKing();
    var info := ChecksForPinsAndChecks(p.board, l, p.Side());
    var c := info.checks[0];
    ValidMovesSingle(g);
    var ms := AllPossibleMoves(p, info.pins).moves;
    CheckFilterMembers(ms, ValidSquares(p.board, l, c), m);
    ValidSquaresExact(p.board, l, p.Side(), c, m.end);
  }

  /** Out of check the castles and the pseudo-legal moves are all generated
      for the side to move. */
  lemma QuietGenerated(p: Position, pins: seq<Ray>)
    requires WF(p)
    ensures var castle := CastleMoves(p, false, pins, p.OwnKing());
      forall m | m in castle.moves + AllPossibleMoves(p, castle.pins).moves :: Generated(p, m)
  {
    var castle := CastleMoves(p, false, pins, p.OwnKing());
    CastleMovesShape(p, false, pins);
    AllPossibleMovesGenerated(p, castle.pins);
  }

  /** The moves the check filter keeps were generated for the side to move. */
  lemma FilteredGenerated(p: Position, pins: seq<Ray>, vs: seq<Loc>)
    requires WF(p)
    ensures var ms := AllPossibleMoves(p, pins).moves;
      forall m | m in CheckFilter(ms, |ms| - 1, vs) :: Generated(p, m)
  {
    var ms := AllPossibleMoves(p, pins).moves;
    AllPossibleMovesGenerated(p, pins);
    CheckFilterSound(ms, |ms| - 1, vs);
  }

  /** The king's moves were generated for the side to move. */
  lemma KingGenerated(p: Position)
    requires WF(p)
    ensures forall m | m in KingMoves(p, p.OwnKing()).moves :: Generated(p, m)
  {
    var l := p.OwnKing();
    forall m | m in KingMoves(p, l).moves
      ensures Generated(p, m)
    {
      KingMovePlain(p, l, m);
      assert At(p.board, l) == P(p.Side(), King);
    }
  }

  /** Every move `getValidMoves` returns starts on a piece of the side to move
      and is taken back exactly by `undoMove`. */
  lemma ValidMovesGenerated(g: GameState)
    requires WF(g.pos)
    ensures forall m | m in ValidMoves(g).moves :: Generated(g.pos, m)
  {
    var p := g.pos;
    var info := ChecksForPinsAndChecks(p.board, p.OwnKing(), p.Side());
    InCheckIffAttacked(p.board, p.OwnKing(), p.Side());
    if !info.inCheck {
      ValidMovesQuiet(g);
      QuietGenerated(p, info.pins);
    } else if |info.checks| == 1 {
      ValidMovesSingle(g);
      FilteredGenerated(p, info.pins, ValidSquares(p.board, p.OwnKing(), info.checks[0]));
    } else {
      ValidMovesDouble(g);
      KingGenerated(p);
    }
  }

  /** What the search does with every valid move: `makeMove` then
      `undoMove` on the state `getValidMoves` leaves gives that state back,
      with only the checkmate and stalemate flags cleared. */
  lemma ValidMoveUndone(g: GameState, m: Move)
    requires WF(g.pos) && HistoryOK(g) && TopsCurrent(g)
    requires m in ValidMoves(g).moves
    ensures var s := ValidMoves(g).state;
      && Fits(m) && HistoryOK(s)
      && UndoMove(MakeMove(s, m)) == s.(checkmate := false, stalemate := false)
  {
    ValidMovesRestores(g);
    ValidMovesGenerated(g);
    MakeUndoRoundTrip(ValidMoves(g).state, m);
  }
}
