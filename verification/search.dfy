/** The move search of `smartMoveFinder`: plain minimax, negamax, and negamax
    with alpha-beta pruning, over an explicit game tree.

    A `Tree` node stands for a position: `eval` is `scoreBoard` of that
    position (positive favours White) and `children` are the positions reached
    by the moves of `validMoves`, in list order.  A result's `move` is the
    index into that list of the move `nextMove` would hold.
 */
module Search {

  import opened Options

  const CHECKMATE: real := 1000.0
  const STALEMATE: real := 0.0

  datatype Tree = Node(eval: real, children: seq<Tree>)

  /** A node's score and, at the root, the index of the move `nextMove` is set to. */
  datatype Best = Best(score: real, move: Option<nat>)

  /** The running state of an alpha-beta loop: the best score so far, the move
      that reached it, the current alpha, and how many children were searched. */
  datatype Window = Window(score: real, move: Option<nat>, alpha: real, examined: nat)

  /** `turnMultiplier`: 1 when White is to move at the node, -1 when Black is. */
  type Multiplier = x: int | x == 1 || x == -1 witness 1

  /** `turnMultiplier * score`. */
  function Times(tm: Multiplier, x: real): (r: real)
    ensures tm == 1 ==> r == x
    ensures tm == -1 ==> r == -x
  {
    if tm == 1 then x else -x
  }

  /** `-turnMultiplier`: the multiplier of the other side. */
  function Negate(tm: Multiplier): (r: Multiplier)
    ensures r as int == -(tm as int)
  {
    if tm == 1 then -1 else 1
  }

  function Max(a: real, b: real): real {
    if a < b then b else a
  }

  // ---------------------------------------------------------------- negamax

  /** `findMoveNegaMax`.  At depth 0 the signed static score; otherwise the
      best negated child score, starting from -CHECKMATE, so that a node
      without moves scores -CHECKMATE. */
  function NegaMax(t: Tree, depth: nat, tm: Multiplier): Best
    decreases depth, 1, 0
  {
    if depth == 0 then Best(Times(tm, t.eval), None)
    else NegaMaxLoop(t.children, depth, tm, 0, Best(-CHECKMATE, None))
  }

  /** The `for move in validMoves` loop of `findMoveNegaMax` from child `i` on;
      a child replaces the running best only when it scores strictly higher. */
  function NegaMaxLoop(cs: seq<Tree>, depth: nat, tm: Multiplier, i: nat, acc: Best): Best
    requires 0 < depth && i <= |cs|
    decreases depth, 0, |cs| - i
  {
    if i == |cs| then acc
    else
      var s := -NegaMax(cs[i], depth - 1, Negate(tm)).score;
      NegaMaxLoop(cs, depth, tm, i + 1, if s > acc.score then Best(s, Some(i)) else acc)
  }

  /** One iteration of the negamax loop, unfolded. */
  lemma NegaMaxLoopStep(cs: seq<Tree>, depth: nat, tm: Multiplier, i: nat, acc: Best)
    requires 0 < depth && i < |cs|
    ensures var s := -NegaMax(cs[i], depth - 1, Negate(tm)).score;
            NegaMaxLoop(cs, depth, tm, i, acc)
            == NegaMaxLoop(cs, depth, tm, i + 1, if s > acc.score then Best(s, Some(i)) else acc)
  {
  }

  /** The loop never lowers the running best, is at least every remaining
      child's negated value, and either keeps the running best untouched or
      reports a later child that strictly beats it and whose value it returns. */
  lemma {:induction false} NegaMaxLoopSpec(cs: seq<Tree>, depth: nat, tm: Multiplier, i: nat, acc: Best)
    requires 0 < depth && i <= |cs|
    ensures var r := NegaMaxLoop(cs, depth, tm, i, acc);
      && r.score >= acc.score
      && (forall k | i <= k < |cs| :: r.score >= -NegaMax(cs[k], depth - 1, Negate(tm)).score)
      && (r == acc
          || (r.move.Some? && i <= r.move.value < |cs| && r.score > acc.score
              && r.score == -NegaMax(cs[r.move.value], depth - 1, Negate(tm)).score))
    decreases |cs| - i
  {
    if i < |cs| {
      var s := -NegaMax(cs[i], depth - 1, Negate(tm)).score;
      NegaMaxLoopStep(cs, depth, tm, i, acc);
      NegaMaxLoopSpec(cs, depth, tm, i + 1, if s > acc.score then Best(s, Some(i)) else acc);
    }
  }

  /** The loop's score depends on its starting score only through a maximum:
      raising the start from `a` to `b` gives the larger of `b` and the old result. */
  lemma {:induction false} NegaMaxLoopShift(cs: seq<Tree>, depth: nat, tm: Multiplier, i: nat, a: Best, b: Best)
    requires 0 < depth && i <= |cs| && a.score <= b.score
    ensures NegaMaxLoop(cs, depth, tm, i, b).score == Max(b.score, NegaMaxLoop(cs, depth, tm, i, a).score)
    decreases |cs| - i
  {
    if i < |cs| {
      var s := -NegaMax(cs[i], depth - 1, Negate(tm)).score;
      var a' := if s > a.score then Best(s, Some(i)) else a;
      var b' := if s > b.score then Best(s, Some(i)) else b;
      NegaMaxLoopStep(cs, depth, tm, i, a);
      NegaMaxLoopStep(cs, depth, tm, i, b);
      NegaMaxLoopShift(cs, depth, tm, i + 1, a', b');
    }
  }

  /** At depth 0 negamax is the static score signed for the side to move. */
  lemma NegaMaxLeaf(t: Tree, tm: Multiplier)
    ensures NegaMax(t, 0, tm) == Best(Times(tm, t.eval), None)
    ensures tm == 1 ==> NegaMax(t, 0, tm).score == t.eval
    ensures tm == -1 ==> NegaMax(t, 0, tm).score == -t.eval
  {
  }

  /** Negamax is the largest of -CHECKMATE and the negated child values; the
      move it reports reaches that value and beats -CHECKMATE, and no move is
      reported exactly when no child beats -CHECKMATE (in particular when
      there are no children). */
  lemma NegaMaxIsMax(t: Tree, depth: nat, tm: Multiplier)
    requires depth > 0
    ensures var r := NegaMax(t, depth, tm);
      && r.score >= -CHECKMATE
      && (forall k | 0 <= k < |t.children| :: r.score >= -NegaMax(t.children[k], depth - 1, Negate(tm)).score)
      && (r.move.None? ==> r.score == -CHECKMATE)
      && (r.move.Some? ==> r.move.value < |t.children| && r.score > -CHECKMATE
                           && r.score == -NegaMax(t.children[r.move.value], depth - 1, Negate(tm)).score)
  {
    NegaMaxLoopSpec(t.children, depth, tm, 0, Best(-CHECKMATE, None));
  }

  // ---------------------------------------------------------------- minimax

  /** `findMoveMinMax`: White maximises from -CHECKMATE, Black minimises from
      CHECKMATE, and the static score is used unsigned. */
  function MinMax(t: Tree, depth: nat, whiteToMove: bool): Best
    decreases depth, 1, 0
  {
    if depth == 0 then Best(t.eval, None)
    else MinMaxLoop(t.children, depth, whiteToMove, 0,
                    Best(if whiteToMove then -CHECKMATE else CHECKMATE, None))
  }

  function MinMaxLoop(cs: seq<Tree>, depth: nat, whiteToMove: bool, i: nat, acc: Best): Best
    requires 0 < depth && i <= |cs|
    decreases depth, 0, |cs| - i
  {
    if i == |cs| then acc
    else
      var s := MinMax(cs[i], depth - 1, !whiteToMove).score;
      var better := if whiteToMove then s > acc.score else s < acc.score;
      MinMaxLoop(cs, depth, whiteToMove, i + 1, if better then Best(s, Some(i)) else acc)
  }

  /** The multiplier of the side to move. */
  function SideMultiplier(whiteToMove: bool): (tm: Multiplier)
    ensures tm == 1 <==> whiteToMove
  {
    if whiteToMove then 1 else -1
  }

  /** Negamax is minimax seen from the side to move: its score is the minimax
      score times the side's multiplier, and both pick the same move. */
  lemma {:induction false} NegaMaxIsMinMax(t: Tree, depth: nat, whiteToMove: bool)
    ensures var n := NegaMax(t, depth, SideMultiplier(whiteToMove));
            var m := MinMax(t, depth, whiteToMove);
            n.score == Times(SideMultiplier(whiteToMove), m.score) && n.move == m.move
    decreases depth, 1, 0
  {
    if depth > 0 {
      var tm := SideMultiplier(whiteToMove);
      LoopIsMinMaxLoop(t.children, depth, whiteToMove, 0, Best(-CHECKMATE, None),
                       Best(if whiteToMove then -CHECKMATE else CHECKMATE, None));
    }
  }

  lemma {:induction false} LoopIsMinMaxLoop(cs: seq<Tree>, depth: nat, whiteToMove: bool, i: nat, acc: Best, macc: Best)
    requires 0 < depth && i <= |cs|
    requires acc.score == Times(SideMultiplier(whiteToMove), macc.score) && acc.move == macc.move
    ensures var n := NegaMaxLoop(cs, depth, SideMultiplier(whiteToMove), i, acc);
            var m := MinMaxLoop(cs, depth, whiteToMove, i, macc);
            n.score == Times(SideMultiplier(whiteToMove), m.score) && n.move == m.move
    decreases depth, 0, |cs| - i
  {
    if i < |cs| {
      var tm := SideMultiplier(whiteToMove);
      NegaMaxIsMinMax(cs[i], depth - 1, !whiteToMove);
      assert SideMultiplier(!whiteToMove) == Negate(tm);
      var s := -NegaMax(cs[i], depth - 1, Negate(tm)).score;
      var ms := MinMax(cs[i], depth - 1, !whiteToMove).score;
      assert s == Times(tm, ms);
      var better := if whiteToMove then ms > macc.score else ms < macc.score;
      assert (s > acc.score) == better;
      NegaMaxLoopStep(cs, depth, tm, i, acc);
      LoopIsMinMaxLoop(cs, depth, whiteToMove, i + 1,
                       if s > acc.score then Best(s, Some(i)) else acc,
                       if better then Best(ms, Some(i)) else macc);
    }
  }

  // ---------------------------------------------------------------- alpha-beta

  /** `findMoveNegaMaxAlphaBeta` with window (alpha, beta). */
  function AlphaBeta(t: Tree, depth: nat, alpha: real, beta: real, tm: Multiplier): Best
    decreases depth, 1, 0
  {
    if depth == 0 then Best(Times(tm, t.eval), None)
    else
      var w := AlphaBetaLoop(t.children, depth, beta, tm, 0, Window(-CHECKMATE, None, alpha, 0));
      Best(w.score, w.move)
  }

  /** The loop of `findMoveNegaMaxAlphaBeta` from child `i` on.  Each child is
      searched with the negated window (-beta, -alpha); afterwards alpha is
      raised to the running best, and the loop stops once alpha reaches beta. */
  function AlphaBetaLoop(cs: seq<Tree>, depth: nat, beta: real, tm: Multiplier, i: nat, w: Window): Window
    requires 0 < depth && i <= |cs|
    decreases depth, 0, |cs| - i
  {
    if i == |cs| then w
    else
      var w' := Absorb(w, -AlphaBeta(cs[i], depth - 1, -beta, -w.alpha, Negate(tm)).score, i);
      if w'.alpha >= beta then w' else AlphaBetaLoop(cs, depth, beta, tm, i + 1, w')
  }

  /** The body of one alpha-beta loop iteration after the recursive call:
      child `i` scored `s`; keep it if it beats the running best, then raise
      alpha to the running best. */
  function Absorb(w: Window, s: real, i: nat): (r: Window)
    ensures r.score == Max(w.score, s) && r.alpha == Max(w.alpha, r.score)
    ensures r.examined == i + 1
    ensures r.move == (if s > w.score then Some(i) else w.move)
  {
    var w1 := if s > w.score then w.(score := s, move := Some(i)) else w;
    w1.(alpha := if w1.score > w.alpha then w1.score else w.alpha, examined := i + 1)
  }

  /** One iteration of the alpha-beta loop, unfolded. */
  lemma AlphaBetaLoopStep(cs: seq<Tree>, depth: nat, beta: real, tm: Multiplier, i: nat, w: Window)
    requires 0 < depth && i < |cs|
    ensures var w' := Absorb(w, -AlphaBeta(cs[i], depth - 1, -beta, -w.alpha, Negate(tm)).score, i);
            AlphaBetaLoop(cs, depth, beta, tm, i, w)
            == if w'.alpha >= beta then w' else AlphaBetaLoop(cs, depth, beta, tm, i + 1, w')
  {
  }

  /** The windowed scores of the children the alpha-beta loop searches from
      child `i` on, in order: each child is searched with the alpha the loop
      has reached, and the list ends with the child after which alpha meets
      beta, or with the last child. */
  ghost function Examined(cs: seq<Tree>, depth: nat, beta: real, tm: Multiplier, i: nat, w: Window): seq<real>
    requires 0 < depth && i <= |cs|
    decreases |cs| - i
  {
    if i == |cs| then []
    else
      var s := -AlphaBeta(cs[i], depth - 1, -beta, -w.alpha, Negate(tm)).score;
      var w' := Absorb(w, s, i);
      [s] + (if w'.alpha >= beta then [] else Examined(cs, depth, beta, tm, i + 1, w'))
  }

  /** The largest of `a` and the elements of `xs`. */
  function MaxOf(a: real, xs: seq<real>): (r: real)
    ensures r >= a && forall k | 0 <= k < |xs| :: r >= xs[k]
    decreases |xs|
  {
    if |xs| == 0 then a else MaxOf(Max(a, xs[0]), xs[1..])
  }

  lemma MaxOfCons(a: real, x: real, xs: seq<real>)
    ensures MaxOf(a, [x] + xs) == MaxOf(Max(a, x), xs)
  {
    assert ([x] + xs)[1..] == xs;
  }

  /** The alpha the loop holds after searching the first `k + 1` children of
      `e`, having started from window `w`. */
  ghost function AlphaAfter(w: Window, e: seq<real>, k: nat): real
    requires k < |e|
  {
    Max(w.alpha, MaxOf(w.score, e[..k + 1]))
  }

  /** One step of `Examined`, unfolded. */
  lemma ExaminedStep(cs: seq<Tree>, depth: nat, beta: real, tm: Multiplier, i: nat, w: Window)
    requires 0 < depth && i < |cs|
    ensures var w' := Absorb(w, -AlphaBeta(cs[i], depth - 1, -beta, -w.alpha, Negate(tm)).score, i);
            Examined(cs, depth, beta, tm, i, w)
            == [-AlphaBeta(cs[i], depth - 1, -beta, -w.alpha, Negate(tm)).score]
               + (if w'.alpha >= beta then [] else Examined(cs, depth, beta, tm, i + 1, w'))
  {
  }

  /** The bounds the alpha-beta loop keeps: alpha and the best score never
      decrease, alpha is raised to the best score, and the loop stops before
      the last child only when alpha has reached beta. */
  lemma {:induction false} AlphaBetaLoopBounds(cs: seq<Tree>, depth: nat, beta: real, tm: Multiplier, i: nat, w: Window)
    requires 0 < depth && i <= |cs| && w.examined == i
    ensures var r := AlphaBetaLoop(cs, depth, beta, tm, i, w);
      && r.score >= w.score && r.alpha >= w.alpha
      && i <= r.examined <= |cs| && (i < |cs| ==> i < r.examined)
      && (r.examined > i ==> r.alpha == Max(w.alpha, r.score))
      && (r.examined < |cs| ==> r.alpha >= beta)
    decreases |cs| - i
  {
    if i < |cs| {
      AlphaBetaLoopStep(cs, depth, beta, tm, i, w);
      var w' := Absorb(w, -AlphaBeta(cs[i], depth - 1, -beta, -w.alpha, Negate(tm)).score, i);
      if w'.alpha < beta {
        AlphaBetaLoopBounds(cs, depth, beta, tm, i + 1, w');
        var r := AlphaBetaLoop(cs, depth, beta, tm, i + 1, w');
        if i + 1 == |cs| {
          assert r == w';
        } else {
          assert r.alpha == Max(w'.alpha, r.score);
        }
      }
    }
  }

  /** The value the alpha-beta loop computes: the best score is the largest of
      the incoming one and the windowed scores of the children searched, one
      score per child searched. */
  lemma {:induction false} AlphaBetaLoopValue(cs: seq<Tree>, depth: nat, beta: real, tm: Multiplier, i: nat, w: Window)
    requires 0 < depth && i <= |cs| && w.examined == i
    ensures var r := AlphaBetaLoop(cs, depth, beta, tm, i, w);
            var e := Examined(cs, depth, beta, tm, i, w);
      i + |e| == r.examined && r.score == MaxOf(w.score, e)
    decreases |cs| - i
  {
    if i < |cs| {
      AlphaBetaLoopStep(cs, depth, beta, tm, i, w);
      ExaminedStep(cs, depth, beta, tm, i, w);
      var s := -AlphaBeta(cs[i], depth - 1, -beta, -w.alpha, Negate(tm)).score;
      var w' := Absorb(w, s, i);
      if w'.alpha < beta {
        AlphaBetaLoopValue(cs, depth, beta, tm, i + 1, w');
        MaxOfCons(w.score, s, Examined(cs, depth, beta, tm, i + 1, w'));
      } else {
        MaxOfCons(w.score, s, []);
      }
    }
  }

  /** Window `r` reports the move of window `w` with its score, or the child
      `i + k` of a list `e` of searched scores starting at child `i`, where
      that child strictly improved on `w`'s score and `r`'s score is its. */
  ghost predicate ReportsMove(w: Window, r: Window, i: nat, e: seq<real>)
  {
    || (r.move == w.move && r.score == w.score)
    || (r.move.Some? && i <= r.move.value < i + |e| && r.score > w.score && r.score == e[r.move.value - i])
  }

  /** Absorbing child `i` with score `s` and then the later children keeps
      `ReportsMove` relative to the earlier window. */
  lemma ReportsMoveStep(w: Window, s: real, i: nat, r: Window, e: seq<real>)
    requires ReportsMove(Absorb(w, s, i), r, i + 1, e)
    ensures ReportsMove(w, r, i, [s] + e)
  {
    var e0 := [s] + e;
    if !(r.move == Absorb(w, s, i).move && r.score == Absorb(w, s, i).score) {
      assert e0[r.move.value - i] == e[r.move.value - (i + 1)];
    }
  }

  /** The move the alpha-beta loop reports: the incoming one with its score,
      or a searched child that strictly improved the score and whose windowed
      score the result is. */
  lemma {:induction false} AlphaBetaLoopMove(cs: seq<Tree>, depth: nat, beta: real, tm: Multiplier, i: nat, w: Window)
    requires 0 < depth && i <= |cs| && w.examined == i
    ensures ReportsMove(w, AlphaBetaLoop(cs, depth, beta, tm, i, w), i, Examined(cs, depth, beta, tm, i, w))
    decreases |cs| - i
  {
    if i < |cs| {
      AlphaBetaLoopStep(cs, depth, beta, tm, i, w);
      ExaminedStep(cs, depth, beta, tm, i, w);
      var s := -AlphaBeta(cs[i], depth - 1, -beta, -w.alpha, Negate(tm)).score;
      var w' := Absorb(w, s, i);
      if w'.alpha < beta {
        AlphaBetaLoopMove(cs, depth, beta, tm, i + 1, w');
        ReportsMoveStep(w, s, i, AlphaBetaLoop(cs, depth, beta, tm, i + 1, w'), Examined(cs, depth, beta, tm, i + 1, w'));
      } else {
        assert ReportsMove(w', w', i + 1, []);
        ReportsMoveStep(w, s, i, w', []);
      }
    }
  }

  /** No child is searched once alpha has reached beta: after every searched
      child but the last, alpha is still below beta. */
  lemma {:induction false} AlphaBetaLoopPrunes(cs: seq<Tree>, depth: nat, beta: real, tm: Multiplier, i: nat, w: Window)
    requires 0 < depth && i <= |cs| && w.examined == i
    ensures var e := Examined(cs, depth, beta, tm, i, w);
      forall k | 0 <= k < |e| - 1 :: AlphaAfter(w, e, k) < beta
    decreases |cs| - i
  {
    if i < |cs| {
      ExaminedStep(cs, depth, beta, tm, i, w);
      var s := -AlphaBeta(cs[i], depth - 1, -beta, -w.alpha, Negate(tm)).score;
      var w' := Absorb(w, s, i);
      if w'.alpha < beta {
        AlphaBetaLoopPrunes(cs, depth, beta, tm, i + 1, w');
        var e := Examined(cs, depth, beta, tm, i, w);
        var e' := Examined(cs, depth, beta, tm, i + 1, w');
        forall k | 0 <= k < |e| - 1
          ensures AlphaAfter(w, e, k) < beta
        {
          if k == 0 {
            assert e[..1] == [s] + [];
            MaxOfCons(w.score, s, []);
          } else {
            assert e[..k + 1] == [s] + e'[..k];
            MaxOfCons(w.score, s, e'[..k]);
            assert AlphaAfter(w', e', k - 1) < beta;
          }
        }
      }
    }
  }

  /** The loop invariants of `findMoveNegaMaxAlphaBeta`, together: the bounds
      of `AlphaBetaLoopBounds`, the value of `AlphaBetaLoopValue` and the
      pruning of `AlphaBetaLoopPrunes`. */
  lemma AlphaBetaLoopSpec(cs: seq<Tree>, depth: nat, beta: real, tm: Multiplier, i: nat, w: Window)
    requires 0 < depth && i <= |cs| && w.examined == i
    ensures var r := AlphaBetaLoop(cs, depth, beta, tm, i, w);
            var e := Examined(cs, depth, beta, tm, i, w);
      && r.score >= w.score && r.alpha >= w.alpha
      && i <= r.examined <= |cs| && (i < |cs| ==> i < r.examined)
      && i + |e| == r.examined && r.score == MaxOf(w.score, e)
      && (r.examined > i ==> r.alpha == Max(w.alpha, r.score))
      && (forall k | 0 <= k < |e| - 1 :: AlphaAfter(w, e, k) < beta)
      && (r.examined < |cs| ==> r.alpha >= beta)
      && ((r.move == w.move && r.score == w.score)
          || (r.move.Some? && i <= r.move.value < r.examined && r.score > w.score && r.score == e[r.move.value - i]))
  {
    AlphaBetaLoopBounds(cs, depth, beta, tm, i, w);
    AlphaBetaLoopValue(cs, depth, beta, tm, i, w);
    AlphaBetaLoopMove(cs, depth, beta, tm, i, w);
    AlphaBetaLoopPrunes(cs, depth, beta, tm, i, w);
  }

  /** At depth 0 alpha-beta is the signed static score, and a node without
      children (no legal moves) scores -CHECKMATE whatever the window. */
  lemma AlphaBetaLeafAndEmpty(t: Tree, depth: nat, alpha: real, beta: real, tm: Multiplier)
    ensures depth == 0 ==> AlphaBeta(t, depth, alpha, beta, tm) == Best(Times(tm, t.eval), None)
    ensures depth > 0 && |t.children| == 0 ==> AlphaBeta(t, depth, alpha, beta, tm) == Best(-CHECKMATE, None)
  {
  }

  /** The fail-soft contract relating a windowed result `r` to the true value
      `v`: a result at or below alpha is an upper bound, one strictly inside the
      window is exact, one at or above beta is a lower bound. */
  predicate FailSoft(r: real, v: real, alpha: real, beta: real) {
    && (r <= alpha ==> v <= r)
    && (alpha < r < beta ==> v == r)
    && (beta <= r ==> r <= v)
  }

  /** Alpha-beta is fail-soft with respect to negamax for every non-empty window. */
  lemma {:induction false} AlphaBetaFailSoft(t: Tree, depth: nat, alpha: real, beta: real, tm: Multiplier)
    requires alpha < beta
    ensures FailSoft(AlphaBeta(t, depth, alpha, beta, tm).score, NegaMax(t, depth, tm).score, alpha, beta)
    decreases depth, 1, 0, 0
  {
    if depth > 0 {
      AlphaBetaLoopFailSoft(t.children, depth, beta, tm, 0, Window(-CHECKMATE, None, alpha, 0), Best(-CHECKMATE, None));
    }
  }

  lemma {:induction false} AlphaBetaLoopFailSoft(cs: seq<Tree>, depth: nat, beta: real, tm: Multiplier, i: nat, w: Window, acc: Best)
    requires 0 < depth && i <= |cs|
    requires w.alpha < beta && acc.score == w.score
    ensures FailSoft(AlphaBetaLoop(cs, depth, beta, tm, i, w).score, NegaMaxLoop(cs, depth, tm, i, acc).score, w.alpha, beta)
    decreases depth, 0, |cs| - i, 1
  {
    if i < |cs| {
      var a, m := w.alpha, w.score;
      var s := -AlphaBeta(cs[i], depth - 1, -beta, -a, Negate(tm)).score;
      var v := -NegaMax(cs[i], depth - 1, Negate(tm)).score;
      var w2 := Absorb(w, s, i);
      var acc1 := if v > acc.score then Best(v, Some(i)) else acc;
      AlphaBetaLoopStep(cs, depth, beta, tm, i, w);
      NegaMaxLoopStep(cs, depth, tm, i, acc);
      AlphaBetaFailSoft(cs[i], depth - 1, -beta, -a, Negate(tm));
      FailSoftNegate(-s, -v, -beta, -a);
      if w2.alpha >= beta {
        NegaMaxLoopSpec(cs, depth, tm, i + 1, acc1);
        CutoffStep(a, beta, m, s, v, NegaMaxLoop(cs, depth, tm, i + 1, acc1).score);
      } else {
        ContinueCase(cs, depth, beta, tm, i, w, acc);
      }
    }
  }

  /** The continuing branch of `AlphaBetaLoopFailSoft`, split off to keep each
      proof small. */
  lemma {:induction false} ContinueCase(cs: seq<Tree>, depth: nat, beta: real, tm: Multiplier, i: nat, w: Window, acc: Best)
    requires 0 < depth && i < |cs|
    requires w.alpha < beta && acc.score == w.score
    requires FailSoft(-AlphaBeta(cs[i], depth - 1, -beta, -w.alpha, Negate(tm)).score,
                      -NegaMax(cs[i], depth - 1, Negate(tm)).score, w.alpha, beta)
    requires Absorb(w, -AlphaBeta(cs[i], depth - 1, -beta, -w.alpha, Negate(tm)).score, i).alpha < beta
    ensures var s := -AlphaBeta(cs[i], depth - 1, -beta, -w.alpha, Negate(tm)).score;
            var v := -NegaMax(cs[i], depth - 1, Negate(tm)).score;
            FailSoft(AlphaBetaLoop(cs, depth, beta, tm, i + 1, Absorb(w, s, i)).score,
                     NegaMaxLoop(cs, depth, tm, i + 1, if v > acc.score then Best(v, Some(i)) else acc).score,
                     w.alpha, beta)
    decreases depth, 0, |cs| - i, 0
  {
    var a, m := w.alpha, w.score;
    var s := -AlphaBeta(cs[i], depth - 1, -beta, -a, Negate(tm)).score;
    var v := -NegaMax(cs[i], depth - 1, Negate(tm)).score;
    var w2 := Absorb(w, s, i);
    var acc1 := if v > acc.score then Best(v, Some(i)) else acc;
    var acc2 := Best(w2.score, None);
    var lo := Best(if acc1.score < acc2.score then acc1.score else acc2.score, None);
    NegaMaxLoopShift(cs, depth, tm, i + 1, lo, acc1);
    NegaMaxLoopShift(cs, depth, tm, i + 1, lo, acc2);
    AlphaBetaLoopFailSoft(cs, depth, beta, tm, i + 1, w2, acc2);
    ContinueStep(a, beta, m, s, v, NegaMaxLoop(cs, depth, tm, i + 1, lo).score,
                 AlphaBetaLoop(cs, depth, beta, tm, i + 1, w2).score);
  }

  /** One loop step that ends in a cut-off keeps the fail-soft contract. */
  lemma CutoffStep(a: real, beta: real, m: real, s: real, v: real, W: real)
    requires a < beta && FailSoft(s, v, a, beta)
    requires Max(a, Max(m, s)) >= beta && W >= Max(m, v)
    ensures FailSoft(Max(m, s), W, a, beta)
  {
  }

  /** One loop step that continues keeps the fail-soft contract: `L` is what
      the remaining children contribute, `R` what the rest of the loop returns. */
  lemma ContinueStep(a: real, beta: real, m: real, s: real, v: real, L: real, R: real)
    requires a < beta && FailSoft(s, v, a, beta)
    requires Max(a, Max(m, s)) < beta
    requires FailSoft(R, Max(Max(m, s), L), Max(a, Max(m, s)), beta)
    ensures FailSoft(R, Max(Max(m, v), L), a, beta)
  {
  }

  /** Negating a result and its true value turns the window inside out. */
  lemma FailSoftNegate(r: real, v: real, alpha: real, beta: real)
    requires FailSoft(r, v, alpha, beta)
    ensures FailSoft(-r, -v, -beta, -alpha)
  {
  }

  // ---------------------------------------------------------------- the root window

  /** Every static score in the tree lies strictly inside the root window
      (-2 CHECKMATE, 2 CHECKMATE) that `findBestMove` opens. */
  ghost predicate Bounded(t: Tree) {
    && -2.0 * CHECKMATE < t.eval < 2.0 * CHECKMATE
    && forall k | 0 <= k < |t.children| :: Bounded(t.children[k])
  }

  /** Negamax values of a bounded tree stay inside the root window. */
  lemma {:induction false} NegaMaxBounded(t: Tree, depth: nat, tm: Multiplier)
    requires Bounded(t)
    ensures -2.0 * CHECKMATE < NegaMax(t, depth, tm).score < 2.0 * CHECKMATE
  {
    if depth > 0 {
      NegaMaxIsMax(t, depth, tm);
      var r := NegaMax(t, depth, tm);
      if r.move.Some? {
        NegaMaxBounded(t.children[r.move.value], depth - 1, Negate(tm));
      }
    }
  }

  /** Searched from the root window, alpha-beta gives exactly the score and the
      move of plain negamax on a bounded tree: the root window never cuts, and
      a root child that fails low cannot have beaten the running best. */
  lemma AlphaBetaRootAgrees(t: Tree, depth: nat, tm: Multiplier)
    requires Bounded(t)
    ensures AlphaBeta(t, depth, -2.0 * CHECKMATE, 2.0 * CHECKMATE, tm) == NegaMax(t, depth, tm)
  {
    if depth > 0 {
      RootLoopAgrees(t.children, depth, tm, 0, Window(-CHECKMATE, None, -2.0 * CHECKMATE, 0));
    }
  }

  lemma {:induction false} RootLoopAgrees(cs: seq<Tree>, depth: nat, tm: Multiplier, i: nat, w: Window)
    requires 0 < depth && i <= |cs|
    requires forall k | 0 <= k < |cs| :: Bounded(cs[k])
    requires -2.0 * CHECKMATE <= w.alpha <= w.score < 2.0 * CHECKMATE
    ensures var r := AlphaBetaLoop(cs, depth, 2.0 * CHECKMATE, tm, i, w);
            Best(r.score, r.move) == NegaMaxLoop(cs, depth, tm, i, Best(w.score, w.move))
    decreases |cs| - i
  {
    if i < |cs| {
      var beta := 2.0 * CHECKMATE;
      var s := -AlphaBeta(cs[i], depth - 1, -beta, -w.alpha, Negate(tm)).score;
      var v := -NegaMax(cs[i], depth - 1, Negate(tm)).score;
      AlphaBetaFailSoft(cs[i], depth - 1, -beta, -w.alpha, Negate(tm));
      FailSoftNegate(-s, -v, -beta, -w.alpha);
      NegaMaxBounded(cs[i], depth - 1, Negate(tm));
      RootStep(w.alpha, w.score, s, v);
      AlphaBetaLoopStep(cs, depth, beta, tm, i, w);
      NegaMaxLoopStep(cs, depth, tm, i, Best(w.score, w.move));
      var w2 := Absorb(w, s, i);
      RootLoopAgrees(cs, depth, tm, i + 1, w2);
    }
  }

  /** In the root window a child's windowed score beats the running best
      exactly when its true value does, and then the two agree. */
  lemma RootStep(a: real, m: real, s: real, v: real)
    requires -2.0 * CHECKMATE <= a <= m < 2.0 * CHECKMATE
    requires -2.0 * CHECKMATE < v < 2.0 * CHECKMATE
    requires FailSoft(s, v, a, 2.0 * CHECKMATE)
    ensures (s > m <==> v > m) && (s > m ==> s == v)
    ensures Max(a, Max(m, s)) < 2.0 * CHECKMATE
  {
  }

  // ---------------------------------------------------------------- the entry points

  /** `findBestMove`: the moves arrive in an arbitrary order (the shuffle),
      `nextMove` starts as None and is set by the root of an alpha-beta search
      with window (-2 CHECKMATE, 2 CHECKMATE) for the side to move. */
  function FindBestMove<M>(moves: seq<M>, t: Tree, depth: nat, whiteToMove: bool): Option<M>
    requires |t.children| == |moves|
  {
    var r := AlphaBeta(t, depth, -2.0 * CHECKMATE, 2.0 * CHECKMATE, SideMultiplier(whiteToMove));
    if r.move.Some? && r.move.value < |moves| then Some(moves[r.move.value]) else None
  }

  /** On a bounded tree `findBestMove` returns the move negamax and minimax
      choose: a listed move whose child value is the best and beats
      -CHECKMATE, and nothing exactly when the depth is 0 or every move
      scores -CHECKMATE or worse. */
  lemma FindBestMoveSpec<M>(moves: seq<M>, t: Tree, depth: nat, whiteToMove: bool)
    requires |t.children| == |moves| && Bounded(t)
    ensures var r := FindBestMove(moves, t, depth, whiteToMove);
            var tm := SideMultiplier(whiteToMove);
      && (r.Some? ==> depth > 0 && exists k | 0 <= k < |moves| ::
            && moves[k] == r.value
            && NegaMax(t, depth, tm).move == Some(k)
            && MinMax(t, depth, whiteToMove).move == Some(k)
            && -NegaMax(t.children[k], depth - 1, Negate(tm)).score > -CHECKMATE
            && forall j | 0 <= j < |moves| ::
                 -NegaMax(t.children[j], depth - 1, Negate(tm)).score
                 <= -NegaMax(t.children[k], depth - 1, Negate(tm)).score)
      && (r.None? <==> depth == 0 || forall j | 0 <= j < |moves| ::
            -NegaMax(t.children[j], depth - 1, Negate(tm)).score <= -CHECKMATE)
  {
    var tm := SideMultiplier(whiteToMove);
    AlphaBetaRootAgrees(t, depth, tm);
    NegaMaxIsMinMax(t, depth, whiteToMove);
    if depth > 0 {
      NegaMaxIsMax(t, depth, tm);
    }
  }

  /** `findRandomMove`: `random.randint(0, len - 1)` is the index `roll`; the
      source raises on an empty list, so the list must not be empty. */
  function FindRandomMove<M>(moves: seq<M>, roll: nat): (r: M)
    requires 0 < |moves| && roll < |moves|
    ensures r in moves
  {
    moves[roll]
  }

  /** Every listed move is a possible outcome of `findRandomMove`. */
  lemma FindRandomMoveCovers<M>(moves: seq<M>, m: M)
    requires m in moves
    ensures exists roll | 0 <= roll < |moves| :: FindRandomMove(moves, roll) == m
  {
    var k :| 0 <= k < |moves| && moves[k] == m;
    assert FindRandomMove(moves, k) == m;
  }
}
