/** `getKingMoves`: each of the eight neighbouring squares that does not hold
    an own piece is tried by recording the king there, running the pin and
    check scan, and recording the king back on the square it is generating
    for.  The board is not changed, so the king's own square is still
    occupied during the scan; the scan looks through the own king.
 */
module Kings {

  import opened Pieces
  import opened Boards
  import opened Moves
  import opened State
  import opened Checks
  import opened MakeUndo
  import opened Sliders

  /** `rowMoves` and `columnMoves`, paired. */
  const KingSteps: seq<(int, int)> := [(-1, -1), (-1, 0), (-1, 1), (0, -1), (0, 1), (1, -1), (1, 0), (1, 1)]

  function KingStep(l: Loc, n: nat): Loc
    requires n < 8
  {
    Loc(l.row + KingSteps[n].0, l.col + KingSteps[n].1)
  }

  /** The position with the king of the side to move recorded on `t`. */
  function WithOwnKing(p: Position, t: Loc): (r: Position)
    ensures r.OwnKing() == t && r.board == p.board && r.whiteToMove == p.whiteToMove
    ensures r.enPassant == p.enPassant && r.rights == p.rights
  {
    if p.whiteToMove then p.(whiteKing := t) else p.(blackKing := t)
  }

  /** A king generator's moves and the position it leaves behind. */
  datatype KingGen = KingGen(moves: seq<Move>, pos: Position)

  /** The `for i in range(8)` loop from step `n` on, for the king on `l`. */
  function KingLoop(p: Position, l: Loc, n: nat): KingGen
    requires OnBoard(l) && n <= 8
    decreases 8 - n
  {
    if n == 8 then KingGen([], p)
    else
      var t := KingStep(l, n);
      if OnBoard(t) && !(At(p.board, t).P? && At(p.board, t).color == p.Side()) then
        var trial := WithOwnKing(p, t);
        var info := ChecksForPinsAndChecks(trial.board, trial.OwnKing(), trial.Side());
        var rest := KingLoop(WithOwnKing(trial, l), l, n + 1);
        KingGen((if !info.inCheck then [Plain(p.board, l, t)] else []) + rest.moves, rest.pos)
      else
        KingLoop(p, l, n + 1)
  }

  /** `getKingMoves` for the king on `l`: it leaves the position as it found
      it, except that the king of the side to move ends up recorded on `l`. */
  function KingMoves(p: Position, l: Loc): (r: KingGen)
    requires OnBoard(l)
    ensures r.pos == p || r.pos == WithOwnKing(p, l)
    ensures p.OwnKing() == l ==> r.pos == p
  {
    KingLoopPosition(p, l, 0);
    KingLoop(p, l, 0)
  }

  /** A king can step `n` onto a square not holding an own piece that no enemy
      piece attacks on the current board, looking through the king itself. */
  ghost predicate SafeStep(p: Position, l: Loc, n: nat)
    requires n < 8
  {
    var t := KingStep(l, n);
    OnBoard(t) && !(At(p.board, t).P? && At(p.board, t).color == p.Side()) && !Attacked(p.board, t, p.Side())
  }

  /** The king generator leaves the position as it found it, except that the
      king of the side to move is recorded on `l`; when that is where it was
      recorded, nothing changes at all. */
  lemma {:induction false} KingLoopPosition(p: Position, l: Loc, n: nat)
    requires OnBoard(l) && n <= 8
    ensures var r := KingLoop(p, l, n).pos;
            r == p || r == WithOwnKing(p, l)
    ensures p.OwnKing() == l ==> KingLoop(p, l, n).pos == p
    decreases 8 - n
  {
    if n < 8 {
      var t := KingStep(l, n);
      if OnBoard(t) && !(At(p.board, t).P? && At(p.board, t).color == p.Side()) {
        var back := WithOwnKing(WithOwnKing(p, t), l);
        assert back == WithOwnKing(p, l);
        KingLoopPosition(back, l, n + 1);
        assert WithOwnKing(back, l) == back;
        if p.OwnKing() == l {
          assert back == p;
        }
      } else {
        KingLoopPosition(p, l, n + 1);
      }
    }
  }

  /** Trying step `n` finds the king out of check exactly when the step is safe. */
  lemma KingTrialSafe(p: Position, l: Loc, n: nat)
    requires OnBoard(l) && n < 8
    ensures var t := KingStep(l, n);
      var trial := WithOwnKing(p, t);
      OnBoard(t) && !(At(p.board, t).P? && At(p.board, t).color == p.Side()) ==>
        (!ChecksForPinsAndChecks(trial.board, trial.OwnKing(), trial.Side()).inCheck <==> SafeStep(p, l, n))
  {
    var t := KingStep(l, n);
    if OnBoard(t) {
      InCheckIffAttacked(p.board, t, p.Side());
    }
  }

  /** One step of the king loop, with the trial scan replaced by `SafeStep`. */
  lemma KingLoopUnfold(p: Position, l: Loc, n: nat)
    requires OnBoard(l) && n < 8
    ensures var t := KingStep(l, n);
      KingLoop(p, l, n).moves ==
        if OnBoard(t) && !(At(p.board, t).P? && At(p.board, t).color == p.Side()) then
          (if SafeStep(p, l, n) then [Plain(p.board, l, t)] else []) + KingLoop(WithOwnKing(p, l), l, n + 1).moves
        else KingLoop(p, l, n + 1).moves
  {
    var t := KingStep(l, n);
    KingTrialSafe(p, l, n);
    assert WithOwnKing(WithOwnKing(p, t), l) == WithOwnKing(p, l);
  }

  lemma {:induction false} KingLoopSound(p: Position, l: Loc, n: nat, m: Move) returns (j: nat)
    requires OnBoard(l) && n <= 8
    requires m in KingLoop(p, l, n).moves
    ensures n <= j < 8 && SafeStep(p, l, j) && m == Plain(p.board, l, KingStep(l, j))
    decreases 8 - n
  {
    var t := KingStep(l, n);
    KingLoopUnfold(p, l, n);
    var back := WithOwnKing(p, l);
    if OnBoard(t) && !(At(p.board, t).P? && At(p.board, t).color == p.Side()) && SafeStep(p, l, n) && m == Plain(p.board, l, t) {
      j := n;
    } else if OnBoard(t) && !(At(p.board, t).P? && At(p.board, t).color == p.Side()) {
      assert m in KingLoop(back, l, n + 1).moves;
      assert back.board == p.board && back.Side() == p.Side();
      j := KingLoopSound(back, l, n + 1, m);
      assert SafeStep(back, l, j) == SafeStep(p, l, j);
    } else {
      j := KingLoopSound(p, l, n + 1, m);
    }
  }

  lemma {:induction false} KingLoopComplete(p: Position, l: Loc, n: nat, j: nat)
    requires OnBoard(l) && n <= j < 8
    requires SafeStep(p, l, j)
    ensures Plain(p.board, l, KingStep(l, j)) in KingLoop(p, l, n).moves
    decreases j - n
  {
    var t := KingStep(l, n);
    if OnBoard(t) && !(At(p.board, t).P? && At(p.board, t).color == p.Side()) {
      var trial := WithOwnKing(p, t);
      var info := ChecksForPinsAndChecks(trial.board, trial.OwnKing(), trial.Side());
      var here := if !info.inCheck then [Plain(p.board, l, t)] else [];
      var rest := KingLoop(WithOwnKing(trial, l), l, n + 1);
      assert KingLoop(p, l, n).moves == here + rest.moves;
      if n == j {
        KingTrialSafe(p, l, n);
        assert Plain(p.board, l, t) in here;
      } else {
        KingLoopComplete(WithOwnKing(trial, l), l, n + 1, j);
        assert Plain(p.board, l, KingStep(l, j)) in rest.moves;
      }
    } else {
      KingLoopComplete(p, l, n + 1, j);
    }
  }

  /** `getKingMoves` generates exactly the steps onto neighbouring squares
      that hold no own piece and that no enemy piece attacks. */
  lemma KingMovesExact(p: Position, l: Loc, m: Move)
    requires OnBoard(l)
    ensures (m in KingMoves(p, l).moves)
              <==> exists j | 0 <= j < 8 :: SafeStep(p, l, j) && m == Plain(p.board, l, KingStep(l, j))
  {
    if m in KingMoves(p, l).moves {
      var j := KingLoopSound(p, l, 0, m);
    }
    if exists j | 0 <= j < 8 :: SafeStep(p, l, j) && m == Plain(p.board, l, KingStep(l, j)) {
      var j :| 0 <= j < 8 && SafeStep(p, l, j) && m == Plain(p.board, l, KingStep(l, j));
      KingLoopComplete(p, l, 0, j);
    }
  }
}
