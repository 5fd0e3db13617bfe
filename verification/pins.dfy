/** The pin list as the move generators consume it.

    `getValidMoves` stores the pins it found in the game state; each
    generator looks up the square it is generating for, scanning the list
    from the back, and (except for a queen) removes the entry it found with
    `list.remove`, which drops the first entry equal to it.
 */
module Pins {

  import opened Options
  import opened Boards
  import opened Moves
  import opened State

  /** What a generator produces: its moves and the pin list it leaves behind. */
  datatype Gen = Gen(moves: seq<Move>, pins: seq<Ray>)

  /** `list.remove(p)`: the list without its first entry equal to `p`; the
      source raises when there is none, which a generator never triggers
      because it only removes an entry it has just read from the list. */
  function RemoveFirst(s: seq<Ray>, p: Ray): (r: seq<Ray>)
    requires p in s
    ensures multiset(r) == multiset(s) - multiset{p}
  {
    if s[0] == p then
      assert s == [s[0]] + s[1..];
      s[1..]
    else
      assert s == [s[0]] + s[1..];
      [s[0]] + RemoveFirst(s[1..], p)
  }

  /** The `for i in range(len(self.pins) - 1, -1, -1)` search: the last entry
      for square `l`, if any. */
  function FindPin(pins: seq<Ray>, l: Loc): (r: Option<nat>)
    ensures r.Some? ==> r.value < |pins| && pins[r.value].loc == l
                        && forall j | r.value < j < |pins| :: pins[j].loc != l
    ensures r.None? ==> forall j | 0 <= j < |pins| :: pins[j].loc != l
    decreases |pins|
  {
    if |pins| == 0 then None
    else if pins[|pins| - 1].loc == l then Some(|pins| - 1)
    else FindPin(pins[..|pins| - 1], l)
  }

  /** What a generator learns from the pin list: whether its piece is pinned,
      the pin direction, and the list after the optional removal. */
  datatype PinLookup = PinLookup(pinned: bool, dr: int, dc: int, rest: seq<Ray>)

  /** The pin search at the top of each generator; `keep` is true for a queen,
      whose pin must survive for the bishop half of its moves. */
  function LookUpPin(pins: seq<Ray>, l: Loc, keep: bool): (r: PinLookup)
    ensures r.pinned <==> exists j | 0 <= j < |pins| :: pins[j].loc == l
    ensures r.pinned ==> Ray(l, r.dr, r.dc) in pins
    ensures !r.pinned || keep ==> r.rest == pins
    ensures r.pinned && !keep ==> r.rest == RemoveFirst(pins, Ray(l, r.dr, r.dc))
  {
    var f := FindPin(pins, l);
    if f.None? then PinLookup(false, 0, 0, pins)
    else
      var p := pins[f.value];
      PinLookup(true, p.dr, p.dc, if keep then pins else RemoveFirst(pins, p))
  }

  /** The lookup for square `l` leaves the entries for other squares untouched. */
  lemma LookUpPinKeepsOthers(pins: seq<Ray>, l: Loc, keep: bool, x: Ray)
    requires x.loc != l
    ensures x in LookUpPin(pins, l, keep).rest <==> x in pins
  {
    var r := LookUpPin(pins, l, keep);
    if r.pinned && !keep {
      assert x in r.rest <==> x in multiset(r.rest);
      assert x in pins <==> x in multiset(pins);
    }
  }
}
