/** `checksForPinsAndChecks`: the ray scan outward from a king that finds the
    pieces giving check and the own pieces pinned against the king.

    The scan looks along the eight directions in the engine's order, then at
    the eight knight jumps.  Along a direction it passes over empty squares and
    over the own king (which matters when the king has been moved
    provisionally to test a king move), remembers the first own piece as a
    possible pin, and stops at the first enemy piece, which checks (or pins
    the remembered piece) when it can attack along that direction.
 */
module Checks {

  import opened Options
  import opened Pieces
  import opened Boards
  import opened State

  /** The scan directions: four orthogonal ones (indices 0-3), then four diagonal ones. */
  const Directions: seq<(int, int)> := [(-1, 0), (0, -1), (1, 0), (0, 1), (-1, -1), (-1, 1), (1, -1), (1, 1)]

  /** The knight jumps, in the engine's order. */
  const KnightJumps: seq<(int, int)> := [(1, 2), (-1, 2), (1, -2), (-1, -2), (2, 1), (-2, 1), (2, -1), (-2, -1)]

  /** The square `j` steps from `k` along direction number `i`. */
  function RayStep(k: Loc, i: nat, j: int): Loc
    requires i < 8
  {
    Step(k, Directions[i].0, Directions[i].1, j)
  }

  /** The square a knight jump `n` away from `k`. */
  function Jump(k: Loc, n: nat): Loc
    requires n < 8
  {
    Loc(k.row + KnightJumps[n].0, k.col + KnightJumps[n].1)
  }

  /** Whether an enemy piece of kind `kind` and colour `enemy`, met `j` steps
      out along direction `i`, attacks the king: rooks orthogonally, bishops
      diagonally, queens both ways, and pawns and the king only from the
      adjacent square (pawns only from the two squares they capture towards). */
  predicate Threatens(i: int, j: int, kind: Kind, enemy: Color) {
    || (0 <= i <= 3 && kind == Rook)
    || (4 <= i <= 7 && kind == Bishop)
    || (j == 1 && kind == Pawn && ((enemy == White && 6 <= i <= 7) || (enemy == Black && 4 <= i <= 5)))
    || kind == Queen
    || (j == 1 && kind == King)
  }

  /** A square the scan looks through: empty, or holding the own king. */
  predicate Clear(s: Square, own: Color) {
    s == Empty || s == P(own, King)
  }

  /** A square that can be pinned: an own piece other than the king. */
  predicate OwnMan(s: Square, own: Color) {
    s.P? && s.color == own && s.kind != King
  }

  /** An enemy piece that attacks the king from `j` steps along direction `i`. */
  predicate EnemyThreat(s: Square, own: Color, i: int, j: int) {
    s.P? && s.color != own && Threatens(i, j, s.kind, s.color)
  }

  /** The record the engine appends: square, then the direction from the king. */
  function RayAt(k: Loc, i: nat, j: int): Ray
    requires i < 8
  {
    Ray(RayStep(k, i, j), Directions[i].0, Directions[i].1)
  }

  /** The record for a knight check: the knight's square and the jump. */
  function KnightRay(k: Loc, n: nat): Ray
    requires n < 8
  {
    Ray(Jump(k, n), KnightJumps[n].0, KnightJumps[n].1)
  }

  // ---------------------------------------------------------------- the scan

  /** What scanning one direction adds: a pin, a check, or neither. */
  datatype Found = Found(pin: Option<Ray>, check: Option<Ray>)

  /** The inner `for j in range(1, 8)` loop from step `j` on, with the
      possible pin remembered so far. */
  function ScanRay(b: Board, k: Loc, i: nat, own: Color, j: nat, pp: Option<Ray>): Found
    requires i < 8 && 1 <= j
    decreases 8 - j
  {
    if j >= 8 then Found(None, None)
    else
      var l := RayStep(k, i, j);
      if !OnBoard(l) then Found(None, None)
      else
        var s := At(b, l);
        if OwnMan(s, own) then
          (if pp.None? then ScanRay(b, k, i, own, j + 1, Some(RayAt(k, i, j))) else Found(None, None))
        else if s.P? && s.color != own then
          (if Threatens(i, j, s.kind, s.color) then
             (if pp.None? then Found(None, Some(RayAt(k, i, j))) else Found(pp, None))
           else Found(None, None))
        else ScanRay(b, k, i, own, j + 1, pp)
  }

  /** The three results of `checksForPinsAndChecks`. */
  datatype CheckInfo = CheckInfo(inCheck: bool, pins: seq<Ray>, checks: seq<Ray>)

  /** The one-element list holding a reported ray, or the empty list. */
  function Opt(o: Option<Ray>): (r: seq<Ray>)
    ensures |r| <= 1 && (o.Some? <==> |r| == 1) && (o.Some? ==> r[0] == o.value)
  {
    if o.Some? then [o.value] else []
  }

  /** The outer loop over the directions from direction `i` on: each
      direction appends its pin and its check, in direction order. */
  function ScanDirections(b: Board, k: Loc, own: Color, i: nat): CheckInfo
    requires i <= 8
    decreases 8 - i
  {
    if i == 8 then CheckInfo(false, [], [])
    else
      var f := ScanRay(b, k, i, own, 1, None);
      var rest := ScanDirections(b, k, own, i + 1);
      CheckInfo(f.check.Some? || rest.inCheck, Opt(f.pin) + rest.pins, Opt(f.check) + rest.checks)
  }

  /** The knight loop from jump `n` on: an enemy knight a jump away checks. */
  function ScanKnights(b: Board, k: Loc, own: Color, n: nat): seq<Ray>
    requires n <= 8
    decreases 8 - n
  {
    if n == 8 then []
    else
      var l := Jump(k, n);
      (if OnBoard(l) && At(b, l) == P(Opponent(own), Knight) then [KnightRay(k, n)] else [])
      + ScanKnights(b, k, own, n + 1)
  }

  /** `checksForPinsAndChecks` for the king of colour `own` standing (or
      provisionally placed) on `k`: the ray checks and pins, then the knight
      checks; in check when anything was appended to the checks. */
  function ChecksForPinsAndChecks(b: Board, k: Loc, own: Color): CheckInfo {
    var rays := ScanDirections(b, k, own, 0);
    var knights := ScanKnights(b, k, own, 0);
    CheckInfo(rays.inCheck || |knights| > 0, rays.pins, rays.checks + knights)
  }

  // ---------------------------------------------------------------- what a check and a pin are

  /** Steps `lo` up to (not including) `hi` along direction `i` are on the board and clear. */
  ghost predicate ClearBetween(b: Board, k: Loc, own: Color, i: nat, lo: int, hi: int)
    requires i < 8
  {
    forall m | lo <= m < hi :: OnBoard(RayStep(k, i, m)) && Clear(At(b, RayStep(k, i, m)), own)
  }

  /** Step `j` along direction `i` holds an enemy piece attacking from there. */
  ghost predicate ThreatAt(b: Board, k: Loc, own: Color, i: nat, j: int)
    requires i < 8
  {
    OnBoard(RayStep(k, i, j)) && EnemyThreat(At(b, RayStep(k, i, j)), own, i, j)
  }

  /** From step `j` on, after clear squares, step `ja` holds an attacking enemy piece. */
  ghost predicate ThreatFrom(b: Board, k: Loc, own: Color, i: nat, j: int, ja: int)
    requires i < 8
  {
    j <= ja < 8 && ThreatAt(b, k, own, i, ja) && ClearBetween(b, k, own, i, j, ja)
  }

  /** Some attacking enemy piece is reached from step `j` on through clear squares. */
  ghost predicate ThreatAhead(b: Board, k: Loc, own: Color, i: nat, j: int)
    requires i < 8
  {
    exists ja: int :: ThreatFrom(b, k, own, i, j, ja)
  }

  /** From step `j` on, after clear squares, step `jp` holds an own piece
      with an attacking enemy piece behind it. */
  ghost predicate PinFrom(b: Board, k: Loc, own: Color, i: nat, j: int, jp: int)
    requires i < 8
  {
    && j <= jp < 8
    && ClearBetween(b, k, own, i, j, jp)
    && OnBoard(RayStep(k, i, jp)) && OwnMan(At(b, RayStep(k, i, jp)), own)
    && ThreatAhead(b, k, own, i, jp + 1)
  }

  ghost predicate PinAhead(b: Board, k: Loc, own: Color, i: nat, j: int)
    requires i < 8
  {
    exists jp: int :: PinFrom(b, k, own, i, j, jp)
  }

  /** Direction `i` gives check: an attacking enemy piece with nothing but
      empty squares (or the own king) between it and `k`. */
  ghost predicate RayCheck(b: Board, k: Loc, own: Color, i: nat, j: int)
    requires i < 8
  {
    1 <= j && ThreatFrom(b, k, own, i, 1, j)
  }

  /** An enemy knight stands a knight jump `n` away from `k`. */
  ghost predicate KnightCheck(b: Board, k: Loc, own: Color, n: nat)
    requires n < 8
  {
    OnBoard(Jump(k, n)) && At(b, Jump(k, n)) == P(Opponent(own), Knight)
  }

  /** The square `k` is attacked by an enemy piece: along a ray or by a knight. */
  ghost predicate Attacked(b: Board, k: Loc, own: Color) {
    || (exists i: nat, j: int | i < 8 :: RayCheck(b, k, own, i, j))
    || (exists n: nat | n < 8 :: KnightCheck(b, k, own, n))
  }

  // ---------------------------------------------------------------- one direction

  /** `ThreatAhead` unfolded by one step. */
  lemma ThreatAheadStep(b: Board, k: Loc, own: Color, i: nat, j: int)
    requires i < 8 && j < 8
    ensures ThreatAhead(b, k, own, i, j) <==>
              OnBoard(RayStep(k, i, j))
              && (EnemyThreat(At(b, RayStep(k, i, j)), own, i, j)
                  || (Clear(At(b, RayStep(k, i, j)), own) && ThreatAhead(b, k, own, i, j + 1)))
  {
    if ThreatAhead(b, k, own, i, j) {
      ThreatAheadFirst(b, k, own, i, j);
    }
    ThreatAheadExtend(b, k, own, i, j);
  }

  lemma ThreatAheadFirst(b: Board, k: Loc, own: Color, i: nat, j: int)
    requires i < 8 && j < 8
    requires ThreatAhead(b, k, own, i, j)
    ensures OnBoard(RayStep(k, i, j))
    ensures EnemyThreat(At(b, RayStep(k, i, j)), own, i, j)
            || (Clear(At(b, RayStep(k, i, j)), own) && ThreatAhead(b, k, own, i, j + 1))
  {
    var ja :| ThreatFrom(b, k, own, i, j, ja);
    if ja > j {
      assert OnBoard(RayStep(k, i, j));
      assert ThreatFrom(b, k, own, i, j + 1, ja);
    }
  }

  lemma ThreatAheadExtend(b: Board, k: Loc, own: Color, i: nat, j: int)
    requires i < 8 && j < 8
    ensures OnBoard(RayStep(k, i, j))
            && (EnemyThreat(At(b, RayStep(k, i, j)), own, i, j)
                || (Clear(At(b, RayStep(k, i, j)), own) && ThreatAhead(b, k, own, i, j + 1)))
            ==> ThreatAhead(b, k, own, i, j)
  {
    if OnBoard(RayStep(k, i, j)) {
      if EnemyThreat(At(b, RayStep(k, i, j)), own, i, j) {
        assert ThreatFrom(b, k, own, i, j, j);
      } else if Clear(At(b, RayStep(k, i, j)), own) && ThreatAhead(b, k, own, i, j + 1) {
        var ja :| ThreatFrom(b, k, own, i, j + 1, ja);
        ExtendBack(b, k, own, i, j, ja);
      }
    }
  }

  /** `PinAhead` unfolded by one step. */
  lemma PinAheadStep(b: Board, k: Loc, own: Color, i: nat, j: int)
    requires i < 8 && j < 8
    ensures PinAhead(b, k, own, i, j) <==>
              OnBoard(RayStep(k, i, j))
              && ((OwnMan(At(b, RayStep(k, i, j)), own) && ThreatAhead(b, k, own, i, j + 1))
                  || (Clear(At(b, RayStep(k, i, j)), own) && PinAhead(b, k, own, i, j + 1)))
  {
    if PinAhead(b, k, own, i, j) {
      PinAheadFirst(b, k, own, i, j);
    }
    PinAheadExtend(b, k, own, i, j);
  }

  lemma PinAheadFirst(b: Board, k: Loc, own: Color, i: nat, j: int)
    requires i < 8 && j < 8
    requires PinAhead(b, k, own, i, j)
    ensures OnBoard(RayStep(k, i, j))
    ensures (OwnMan(At(b, RayStep(k, i, j)), own) && ThreatAhead(b, k, own, i, j + 1))
            || (Clear(At(b, RayStep(k, i, j)), own) && PinAhead(b, k, own, i, j + 1))
  {
    var jp :| PinFrom(b, k, own, i, j, jp);
    if jp > j {
      assert OnBoard(RayStep(k, i, j));
      assert PinFrom(b, k, own, i, j + 1, jp);
    }
  }

  lemma PinAheadExtend(b: Board, k: Loc, own: Color, i: nat, j: int)
    requires i < 8 && j < 8
    ensures OnBoard(RayStep(k, i, j))
            && ((OwnMan(At(b, RayStep(k, i, j)), own) && ThreatAhead(b, k, own, i, j + 1))
                || (Clear(At(b, RayStep(k, i, j)), own) && PinAhead(b, k, own, i, j + 1)))
            ==> PinAhead(b, k, own, i, j)
  {
    if OnBoard(RayStep(k, i, j)) {
      if OwnMan(At(b, RayStep(k, i, j)), own) && ThreatAhead(b, k, own, i, j + 1) {
        assert PinFrom(b, k, own, i, j, j);
      } else if Clear(At(b, RayStep(k, i, j)), own) && PinAhead(b, k, own, i, j + 1) {
        var jp :| PinFrom(b, k, own, i, j + 1, jp);
        ExtendBack(b, k, own, i, j, jp);
      }
    }
  }

  /** Nothing lies ahead past the seventh step. */
  lemma NothingAheadAtEnd(b: Board, k: Loc, own: Color, i: nat, j: int)
    requires i < 8 && j >= 8
    ensures !ThreatAhead(b, k, own, i, j) && !PinAhead(b, k, own, i, j)
  {
  }

  /** Once a possible pin is remembered the scan reports no check, and it
      reports that pin exactly when an attacking enemy piece follows after
      clear squares. */
  lemma {:induction false} ScanAfterPin(b: Board, k: Loc, own: Color, i: nat, j: nat, pr: Ray)
    requires i < 8 && 1 <= j
    ensures var f := ScanRay(b, k, i, own, j, Some(pr));
      && f.check.None?
      && (f.pin.Some? ==> f.pin == Some(pr))
      && (f.pin.Some? <==> ThreatAhead(b, k, own, i, j))
    decreases 8 - j
  {
    if j >= 8 {
      NothingAheadAtEnd(b, k, own, i, j);
    } else {
      ThreatAheadStep(b, k, own, i, j);
      if OnBoard(RayStep(k, i, j)) {
        var s := At(b, RayStep(k, i, j));
        if !OwnMan(s, own) && !(s.P? && s.color != own) {
          ScanAfterPin(b, k, own, i, j + 1, pr);
        }
      }
    }
  }

  /** A clear square in front of a threat or a pin extends it back by one step. */
  lemma ExtendBack(b: Board, k: Loc, own: Color, i: nat, j: int, x: int)
    requires i < 8 && OnBoard(RayStep(k, i, j)) && Clear(At(b, RayStep(k, i, j)), own)
    ensures ThreatFrom(b, k, own, i, j + 1, x) ==> ThreatFrom(b, k, own, i, j, x)
    ensures PinFrom(b, k, own, i, j + 1, x) ==> PinFrom(b, k, own, i, j, x)
  {
  }

  /** Scanning from the king with no possible pin yet, a check is reported
      exactly when an attacking enemy piece is reached through clear squares,
      and the report names the square it stands on. */
  lemma {:induction false} ScanFromKingCheck(b: Board, k: Loc, own: Color, i: nat, j: nat)
    requires i < 8 && 1 <= j
    ensures var f := ScanRay(b, k, i, own, j, None);
      && (f.check.Some? <==> ThreatAhead(b, k, own, i, j))
      && (f.check.Some? ==> exists ja :: ThreatFrom(b, k, own, i, j, ja) && f.check.value == RayAt(k, i, ja))
    decreases 8 - j
  {
    var f := ScanRay(b, k, i, own, j, None);
    if j >= 8 {
      NothingAheadAtEnd(b, k, own, i, j);
    } else {
      ThreatAheadStep(b, k, own, i, j);
      if OnBoard(RayStep(k, i, j)) {
        var s := At(b, RayStep(k, i, j));
        if OwnMan(s, own) {
          ScanAfterPin(b, k, own, i, j + 1, RayAt(k, i, j));
        } else if s.P? && s.color != own {
          if f.check.Some? {
            assert ThreatFrom(b, k, own, i, j, j);
          }
        } else {
          ScanFromKingCheck(b, k, own, i, j + 1);
          if f.check.Some? {
            var ja :| ThreatFrom(b, k, own, i, j + 1, ja) && f.check.value == RayAt(k, i, ja);
            ExtendBack(b, k, own, i, j, ja);
          }
        }
      }
    }
  }

  /** Scanning from the king with no possible pin yet, a pin is reported
      exactly when an own piece stands, after clear squares, in front of an
      attacking enemy piece, and the report names the own piece's square. */
  lemma {:induction false} ScanFromKingPin(b: Board, k: Loc, own: Color, i: nat, j: nat)
    requires i < 8 && 1 <= j
    ensures var f := ScanRay(b, k, i, own, j, None);
      && (f.pin.Some? <==> PinAhead(b, k, own, i, j))
      && (f.pin.Some? ==> exists jp :: PinFrom(b, k, own, i, j, jp) && f.pin.value == RayAt(k, i, jp))
    decreases 8 - j
  {
    var f := ScanRay(b, k, i, own, j, None);
    if j >= 8 {
      NothingAheadAtEnd(b, k, own, i, j);
    } else {
      PinAheadStep(b, k, own, i, j);
      if OnBoard(RayStep(k, i, j)) {
        var s := At(b, RayStep(k, i, j));
        if OwnMan(s, own) {
          ScanAfterPin(b, k, own, i, j + 1, RayAt(k, i, j));
          if f.pin.Some? {
            assert PinFrom(b, k, own, i, j, j);
          }
        } else if !(s.P? && s.color != own) {
          ScanFromKingPin(b, k, own, i, j + 1);
          if f.pin.Some? {
            var jp :| PinFrom(b, k, own, i, j + 1, jp) && f.pin.value == RayAt(k, i, jp);
            ExtendBack(b, k, own, i, j, jp);
          }
        }
      }
    }
  }

  /** A direction holds at most one check and at most one pin: the first
      non-clear square decides. */
  lemma FirstThreatDecides(b: Board, k: Loc, own: Color, i: nat, x: int, y: int)
    requires i < 8 && ThreatFrom(b, k, own, i, 1, x) && ThreatFrom(b, k, own, i, 1, y)
    ensures x == y
  {
  }

  lemma FirstPinDecides(b: Board, k: Loc, own: Color, i: nat, x: int, y: int)
    requires i < 8 && PinFrom(b, k, own, i, 1, x) && PinFrom(b, k, own, i, 1, y)
    ensures x == y
  {
  }

  /** The check one direction contributes, in terms of the board alone. */
  lemma DirectionCheck(b: Board, k: Loc, own: Color, i: nat)
    requires i < 8
    ensures var f := ScanRay(b, k, i, own, 1, None);
      && (f.check.Some? <==> exists ja :: ThreatFrom(b, k, own, i, 1, ja))
      && (forall ja | ThreatFrom(b, k, own, i, 1, ja) :: f.check == Some(RayAt(k, i, ja)))
  {
    var f := ScanRay(b, k, i, own, 1, None);
    ScanFromKingCheck(b, k, own, i, 1);
    forall ja | ThreatFrom(b, k, own, i, 1, ja)
      ensures f.check == Some(RayAt(k, i, ja))
    {
      var x :| ThreatFrom(b, k, own, i, 1, x) && f.check.value == RayAt(k, i, x);
      FirstThreatDecides(b, k, own, i, x, ja);
    }
  }

  /** The pin one direction contributes, in terms of the board alone. */
  lemma DirectionPin(b: Board, k: Loc, own: Color, i: nat)
    requires i < 8
    ensures var f := ScanRay(b, k, i, own, 1, None);
      && (f.pin.Some? <==> exists jp :: PinFrom(b, k, own, i, 1, jp))
      && (forall jp | PinFrom(b, k, own, i, 1, jp) :: f.pin == Some(RayAt(k, i, jp)))
  {
    var f := ScanRay(b, k, i, own, 1, None);
    ScanFromKingPin(b, k, own, i, 1);
    forall jp | PinFrom(b, k, own, i, 1, jp)
      ensures f.pin == Some(RayAt(k, i, jp))
    {
      var x :| PinFrom(b, k, own, i, 1, x) && f.pin.value == RayAt(k, i, x);
      FirstPinDecides(b, k, own, i, x, jp);
    }
  }

  /** A recorded ray check: direction `i`, attacker at step `j`. */
  ghost predicate IsRayCheck(b: Board, k: Loc, own: Color, c: Ray) {
    exists i: nat, j: int | i < 8 :: RayCheck(b, k, own, i, j) && c == RayAt(k, i, j)
  }

  /** A recorded pin: direction `i`, pinned piece at step `jp`. */
  ghost predicate IsPin(b: Board, k: Loc, own: Color, p: Ray) {
    exists i: nat, jp: int | i < 8 :: PinFrom(b, k, own, i, 1, jp) && p == RayAt(k, i, jp)
  }

  /** Every reported ray check is a ray check on the board. */
  lemma {:induction false} DirChecksSound(b: Board, k: Loc, own: Color, i: nat)
    requires i <= 8
    ensures forall c | c in ScanDirections(b, k, own, i).checks :: IsRayCheck(b, k, own, c)
    decreases 8 - i
  {
    if i < 8 {
      DirectionCheck(b, k, own, i);
      DirChecksSound(b, k, own, i + 1);
      var f := ScanRay(b, k, i, own, 1, None);
      if f.check.Some? {
        var ja :| ThreatFrom(b, k, own, i, 1, ja);
        assert RayCheck(b, k, own, i, ja);
      }
    }
  }

  /** Every ray check on the board from direction `i` on is reported. */
  lemma {:induction false} DirChecksComplete(b: Board, k: Loc, own: Color, i: nat)
    requires i <= 8
    ensures forall d: nat, ja: int | i <= d < 8 && ThreatFrom(b, k, own, d, 1, ja) :: RayAt(k, d, ja) in ScanDirections(b, k, own, i).checks
    decreases 8 - i
  {
    if i < 8 {
      var f := ScanRay(b, k, i, own, 1, None);
      var rest := ScanDirections(b, k, own, i + 1);
      var r := ScanDirections(b, k, own, i);
      assert r.checks == Opt(f.check) + rest.checks;
      DirectionCheck(b, k, own, i);
      DirChecksComplete(b, k, own, i + 1);
      forall d: nat, ja: int | i <= d < 8 && ThreatFrom(b, k, own, d, 1, ja)
        ensures RayAt(k, d, ja) in r.checks
      {
        if d == i {
          assert r.checks[0] == RayAt(k, d, ja);
        } else {
          assert RayAt(k, d, ja) in rest.checks;
        }
      }
    }
  }

  /** The direction loop reports being in check exactly when it records a
      check, and it records one exactly when some direction from `i` on
      holds a ray check. */
  lemma DirChecksNonEmpty(b: Board, k: Loc, own: Color, i: nat)
    requires i <= 8
    ensures ScanDirections(b, k, own, i).inCheck <==> |ScanDirections(b, k, own, i).checks| > 0
    ensures |ScanDirections(b, k, own, i).checks| > 0 <==> exists d: nat | i <= d < 8 :: ThreatAhead(b, k, own, d, 1)
  {
    DirInCheckIffChecks(b, k, own, i);
    DirChecksIffThreat(b, k, own, i);
  }

  lemma {:induction false} DirInCheckIffChecks(b: Board, k: Loc, own: Color, i: nat)
    requires i <= 8
    ensures ScanDirections(b, k, own, i).inCheck <==> |ScanDirections(b, k, own, i).checks| > 0
    decreases 8 - i
  {
    if i < 8 {
      var f := ScanRay(b, k, i, own, 1, None);
      var rest := ScanDirections(b, k, own, i + 1);
      var r := ScanDirections(b, k, own, i);
      assert r.checks == Opt(f.check) + rest.checks && r.inCheck == (f.check.Some? || rest.inCheck);
      DirInCheckIffChecks(b, k, own, i + 1);
    }
  }

  lemma DirChecksIffThreat(b: Board, k: Loc, own: Color, i: nat)
    requires i <= 8
    ensures |ScanDirections(b, k, own, i).checks| > 0 <==> exists d: nat | i <= d < 8 :: ThreatAhead(b, k, own, d, 1)
  {
    if |ScanDirections(b, k, own, i).checks| > 0 {
      var d := SomeDirectionChecks(b, k, own, i);
    }
    if exists d: nat | i <= d < 8 :: ThreatAhead(b, k, own, d, 1) {
      var d: nat :| i <= d < 8 && ThreatAhead(b, k, own, d, 1);
      ChecksFromDirection(b, k, own, i, d);
    }
  }

  lemma {:induction false} SomeDirectionChecks(b: Board, k: Loc, own: Color, i: nat) returns (d: nat)
    requires i <= 8 && |ScanDirections(b, k, own, i).checks| > 0
    ensures i <= d < 8 && ThreatAhead(b, k, own, d, 1)
    decreases 8 - i
  {
    var f := ScanRay(b, k, i, own, 1, None);
    var rest := ScanDirections(b, k, own, i + 1);
    assert ScanDirections(b, k, own, i).checks == Opt(f.check) + rest.checks;
    ScanFromKingCheck(b, k, own, i, 1);
    if f.check.Some? {
      d := i;
    } else {
      d := SomeDirectionChecks(b, k, own, i + 1);
    }
  }

  lemma {:induction false} ChecksFromDirection(b: Board, k: Loc, own: Color, i: nat, d: nat)
    requires i <= d < 8 && ThreatAhead(b, k, own, d, 1)
    ensures |ScanDirections(b, k, own, i).checks| > 0
    decreases d - i
  {
    var f := ScanRay(b, k, i, own, 1, None);
    var rest := ScanDirections(b, k, own, i + 1);
    assert ScanDirections(b, k, own, i).checks == Opt(f.check) + rest.checks;
    if d == i {
      ScanFromKingCheck(b, k, own, i, 1);
    } else {
      ChecksFromDirection(b, k, own, i + 1, d);
    }
  }

  /** Every reported pin is a pin on the board. */
  lemma {:induction false} DirPinsSound(b: Board, k: Loc, own: Color, i: nat)
    requires i <= 8
    ensures forall p | p in ScanDirections(b, k, own, i).pins :: IsPin(b, k, own, p)
    decreases 8 - i
  {
    if i < 8 {
      DirectionPin(b, k, own, i);
      DirPinsSound(b, k, own, i + 1);
      var f := ScanRay(b, k, i, own, 1, None);
      if f.pin.Some? {
        var jp :| PinFrom(b, k, own, i, 1, jp);
      }
    }
  }

  /** Every pin on the board from direction `i` on is reported. */
  lemma {:induction false} DirPinsComplete(b: Board, k: Loc, own: Color, i: nat)
    requires i <= 8
    ensures forall d: nat, jp: int | i <= d < 8 && PinFrom(b, k, own, d, 1, jp) :: RayAt(k, d, jp) in ScanDirections(b, k, own, i).pins
    decreases 8 - i
  {
    if i < 8 {
      var f := ScanRay(b, k, i, own, 1, None);
      var rest := ScanDirections(b, k, own, i + 1);
      var r := ScanDirections(b, k, own, i);
      assert r.pins == Opt(f.pin) + rest.pins;
      DirectionPin(b, k, own, i);
      DirPinsComplete(b, k, own, i + 1);
      forall d: nat, jp: int | i <= d < 8 && PinFrom(b, k, own, d, 1, jp)
        ensures RayAt(k, d, jp) in r.pins
      {
        if d == i {
          assert r.pins[0] == RayAt(k, d, jp);
        } else {
          assert RayAt(k, d, jp) in rest.pins;
        }
      }
    }
  }

  /** A recorded knight check: jump `n`. */
  ghost predicate IsKnightCheck(b: Board, k: Loc, own: Color, c: Ray) {
    exists n: nat | n < 8 :: KnightCheck(b, k, own, n) && c == KnightRay(k, n)
  }

  /** The knight loop reports exactly the enemy knights a jump away. */
  lemma {:induction false} KnightsExact(b: Board, k: Loc, own: Color, n: nat)
    requires n <= 8
    ensures forall c | c in ScanKnights(b, k, own, n) :: IsKnightCheck(b, k, own, c)
    ensures forall x: nat | n <= x < 8 && KnightCheck(b, k, own, x) :: KnightRay(k, x) in ScanKnights(b, k, own, n)
    decreases 8 - n
  {
    if n < 8 {
      KnightsExact(b, k, own, n + 1);
      var rest := ScanKnights(b, k, own, n + 1);
      var r := ScanKnights(b, k, own, n);
      if KnightCheck(b, k, own, n) {
        assert r == [KnightRay(k, n)] + rest;
      } else {
        assert r == rest;
      }
      forall c | c in r
        ensures IsKnightCheck(b, k, own, c)
      {
        if c !in rest {
          assert KnightCheck(b, k, own, n) && c == KnightRay(k, n);
        }
      }
    }
  }

  /** The knight loop records something exactly when an enemy knight stands
      a jump away. */
  lemma {:induction false} KnightsNonEmpty(b: Board, k: Loc, own: Color, n: nat)
    requires n <= 8
    ensures |ScanKnights(b, k, own, n)| > 0 <==> exists x: nat | n <= x < 8 :: KnightCheck(b, k, own, x)
    decreases 8 - n
  {
    if n < 8 {
      KnightsNonEmpty(b, k, own, n + 1);
      var rest := ScanKnights(b, k, own, n + 1);
      var r := ScanKnights(b, k, own, n);
      if KnightCheck(b, k, own, n) {
        assert r == [KnightRay(k, n)] + rest;
      } else {
        assert r == rest;
        if exists x: nat | n <= x < 8 :: KnightCheck(b, k, own, x) {
          var x: nat :| n <= x < 8 && KnightCheck(b, k, own, x);
          assert n + 1 <= x;
        }
      }
    }
  }

  /** Some direction holds a ray check exactly when some direction has an
      attacking piece ahead of the king. */
  lemma RayCheckIffAhead(b: Board, k: Loc, own: Color)
    ensures (exists i: nat, j: int | i < 8 :: RayCheck(b, k, own, i, j))
            <==> exists d: nat | 0 <= d < 8 :: ThreatAhead(b, k, own, d, 1)
  {
    if exists i: nat, j: int | i < 8 :: RayCheck(b, k, own, i, j) {
      var i: nat, j: int :| i < 8 && RayCheck(b, k, own, i, j);
      assert ThreatFrom(b, k, own, i, 1, j);
      assert ThreatAhead(b, k, own, i, 1);
    }
    if exists d: nat | 0 <= d < 8 :: ThreatAhead(b, k, own, d, 1) {
      var d: nat :| 0 <= d < 8 && ThreatAhead(b, k, own, d, 1);
      var ja :| ThreatFrom(b, k, own, d, 1, ja);
      assert RayCheck(b, k, own, d, ja);
    }
  }

  /** `checksForPinsAndChecks` reports being in check exactly when it
      records a check, and exactly when an enemy piece attacks `k`: along a
      ray through empty squares (or the own king), or by a knight jump. */
  lemma InCheckIffAttacked(b: Board, k: Loc, own: Color)
    ensures var r := ChecksForPinsAndChecks(b, k, own);
      && (r.inCheck <==> |r.checks| > 0)
      && (r.inCheck <==> Attacked(b, k, own))
  {
    DirChecksNonEmpty(b, k, own, 0);
    KnightsNonEmpty(b, k, own, 0);
    RayCheckIffAhead(b, k, own);
  }

  /** Every recorded check is a ray attack or a knight attack on `k`, and
      every such attack is recorded. */
  lemma ChecksRecorded(b: Board, k: Loc, own: Color)
    ensures var r := ChecksForPinsAndChecks(b, k, own);
      && (forall c | c in r.checks :: IsRayCheck(b, k, own, c) || IsKnightCheck(b, k, own, c))
      && (forall i: nat, j: int | i < 8 && RayCheck(b, k, own, i, j) :: RayAt(k, i, j) in r.checks)
      && (forall n: nat | n < 8 && KnightCheck(b, k, own, n) :: KnightRay(k, n) in r.checks)
  {
    var r := ChecksForPinsAndChecks(b, k, own);
    var rays := ScanDirections(b, k, own, 0);
    var knights := ScanKnights(b, k, own, 0);
    DirChecksSound(b, k, own, 0);
    DirChecksComplete(b, k, own, 0);
    KnightsExact(b, k, own, 0);
    assert r.checks == rays.checks + knights;
    forall c | c in r.checks
      ensures IsRayCheck(b, k, own, c) || IsKnightCheck(b, k, own, c)
    {
      if c !in rays.checks {
        assert c in knights;
      }
    }
    forall i: nat, j: int | i < 8 && RayCheck(b, k, own, i, j)
      ensures RayAt(k, i, j) in r.checks
    {
      assert RayAt(k, i, j) in rays.checks;
    }
    forall n: nat | n < 8 && KnightCheck(b, k, own, n)
      ensures KnightRay(k, n) in r.checks
    {
      assert KnightRay(k, n) in knights;
    }
  }

  /** The recorded pins are exactly the pins against `k`. */
  lemma PinsExact(b: Board, k: Loc, own: Color)
    ensures var r := ChecksForPinsAndChecks(b, k, own);
      && (forall p | p in r.pins :: IsPin(b, k, own, p))
      && (forall i: nat, jp: int | i < 8 && PinFrom(b, k, own, i, 1, jp) :: RayAt(k, i, jp) in r.pins)
  {
    DirPinsSound(b, k, own, 0);
    DirPinsComplete(b, k, own, 0);
  }
}
