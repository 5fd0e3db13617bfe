/** Square contents of the engine's board.

    The engine stores every square as a two-character code: "--" for an empty
    square, otherwise a colour character ('w' or 'b') followed by a piece
    character ('p', 'N', 'B', 'R', 'Q', 'K').  Here the code is a datatype, and
    `Code` / `ParseCode` translate between the two representations.
 */
module Pieces {

  import opened Options

  datatype Color = White | Black

  datatype Kind = Pawn | Knight | Bishop | Rook | Queen | King

  datatype Square = Empty | P(color: Color, kind: Kind)

  function Opponent(c: Color): Color {
    if c == White then Black else White
  }

  /** The colour whose turn it is, from the engine's `whiteToMove` flag. */
  function SideColor(whiteToMove: bool): Color {
    if whiteToMove then White else Black
  }

  /** The piece character of a code: lower-case 'p' for pawns, upper case for the rest. */
  function KindChar(k: Kind): char {
    match k
    case Pawn => 'p'
    case Knight => 'N'
    case Bishop => 'B'
    case Rook => 'R'
    case Queen => 'Q'
    case King => 'K'
  }

  function ColorChar(c: Color): char {
    if c == White then 'w' else 'b'
  }

  /** The two-character code the engine stores for a square. */
  function Code(s: Square): (r: string)
    ensures |r| == 2
    ensures s.Empty? <==> r == "--"
    ensures s.P? ==> r[0] == ColorChar(s.color) && r[1] == KindChar(s.kind)
  {
    match s
    case Empty => "--"
    case P(c, k) => [ColorChar(c), KindChar(k)]
  }

  function KindOfChar(ch: char): Option<Kind> {
    match ch
    case 'p' => Some(Pawn)
    case 'N' => Some(Knight)
    case 'B' => Some(Bishop)
    case 'R' => Some(Rook)
    case 'Q' => Some(Queen)
    case 'K' => Some(King)
    case _ => None
  }

  /** Reads a two-character code back; anything that is not a code of the engine is rejected. */
  function ParseCode(s: string): Option<Square> {
    if s == "--" then Some(Empty)
    else if |s| != 2 then None
    else
      var k := KindOfChar(s[1]);
      if k.None? then None
      else if s[0] == 'w' then Some(P(White, k.value))
      else if s[0] == 'b' then Some(P(Black, k.value))
      else None
  }

  /** Every square has exactly one code: reading a code back gives the square. */
  lemma CodeRoundTrip(s: Square)
    ensures ParseCode(Code(s)) == Some(s)
  {
    match s
    case Empty =>
    case P(c, k) =>
      assert Code(s) != "--";
  }

  /** Distinct squares have distinct codes. */
  lemma CodeInjective(a: Square, b: Square)
    ensures Code(a) == Code(b) <==> a == b
  {
    if Code(a) == Code(b) {
      CodeRoundTrip(a);
      CodeRoundTrip(b);
    }
  }

}
