/** `boardToFEN`: the piece-placement and active-colour fields of
    Forsyth-Edwards Notation (section 16.1.3 of the PGN standard), followed
    by fixed placeholders for the castling, en-passant and move-counter fields.

    Each rank, from rank 8 (row 0) down, is written as piece letters with
    runs of empty squares as a digit; ranks are separated by '/'.  The engine
    writes the piece character of a white piece unchanged and lowers the one
    of a black piece, so a white pawn comes out as 'p', the letter of a black
    pawn.  `Fen(p, false)` is the writer as the engine has it; `Fen(p, true)`
    writes 'P' for a white pawn, as the notation requires, and can be read back.
 */
module Fen {

  import opened Options
  import opened Pieces
  import opened Boards
  import opened State

  function Lower(ch: char): char {
    if 'A' <= ch <= 'Z' then (ch as int + 32) as char else ch
  }

  function Upper(ch: char): char {
    if 'a' <= ch <= 'z' then (ch as int - 32) as char else ch
  }

  /** The letter written for a piece.  As the engine has it (`upperWhite`
      false) a white piece keeps its code character, which is lower case for
      a pawn; a black piece's character is lowered. */
  function Letter(s: Square, upperWhite: bool): char
    requires s.P?
  {
    if s.color == White then (if upperWhite then Upper(KindChar(s.kind)) else KindChar(s.kind))
    else Lower(KindChar(s.kind))
  }

  predicate IsDigit(ch: char) {
    '1' <= ch <= '8'
  }

  /** `str(emptyCount)` for a run of one to eight empty squares. */
  function Digit(n: int): (ch: char)
    requires 1 <= n <= 8
    ensures IsDigit(ch) && ch as int - '0' as int == n
  {
    ('0' as int + n) as char
  }

  /** `if emptyCount > 0: fen += str(emptyCount)`. */
  function Flush(run: int): (r: string)
    requires 0 <= run <= 8
  {
    if run > 0 then [Digit(run)] else []
  }

  /** The inner loop over one row from column `c`, with `run` empty squares
      counted and not yet written. */
  function RankText(row: seq<Square>, c: nat, run: nat, upperWhite: bool): (r: string)
    requires |row| == 8 && c <= 8 && run <= c
    ensures forall i | 0 <= i < |r| :: r[i] != '/' && r[i] != ' '
    decreases 8 - c
  {
    if c == 8 then Flush(run)
    else if row[c] == Empty then RankText(row, c + 1, run + 1, upperWhite)
    else Flush(run) + ([Letter(row[c], upperWhite)] + RankText(row, c + 1, 0, upperWhite))
  }

  /** The outer loop from row `r` on: every rank followed by '/'. */
  function RowsText(b: Board, r: nat, upperWhite: bool): (s: string)
    requires r <= 8
    ensures r < 8 ==> |s| > 0 && s[|s| - 1] == '/'
    decreases 8 - r
  {
    if r == 8 then ""
    else RankText(b[r], 0, 0, upperWhite) + "/" + RowsText(b, r + 1, upperWhite)
  }

  /** The placement field: the rows with the trailing '/' cut off (`fen[:-1]`). */
  function Placement(b: Board, upperWhite: bool): string {
    DropLast(RowsText(b, 0, upperWhite))
  }

  function DropLast(s: string): (r: string)
    requires |s| > 0
    ensures r == s[..|s| - 1]
  {
    s[..|s| - 1]
  }

  /** The fields after the placement: the side to move, then the placeholders. */
  function Tail(whiteToMove: bool): (r: string)
    ensures r == if whiteToMove then " w - - 0 1" else " b - - 0 1"
  {
    (if !whiteToMove then " b " else " w ") + "-" + " - 0 1"
  }

  function Fen(p: Position, upperWhite: bool): string {
    Placement(p.board, upperWhite) + Tail(p.whiteToMove)
  }

  /** `boardToFEN` as the engine has it. */
  function BoardToFENAsWritten(p: Position): string {
    Fen(p, false)
  }

  /** `boardToFEN` with a white pawn written 'P'. */
  function BoardToFENCorrected(p: Position): string {
    Fen(p, true)
  }

  // ---------------------------------------------------------------- reading it back

  /** The square a placement letter stands for: upper case white, lower case black. */
  function LetterSquare(ch: char): Option<Square> {
    match ch
    case 'P' => Some(P(White, Pawn))
    case 'N' => Some(P(White, Knight))
    case 'B' => Some(P(White, Bishop))
    case 'R' => Some(P(White, Rook))
    case 'Q' => Some(P(White, Queen))
    case 'K' => Some(P(White, King))
    case 'p' => Some(P(Black, Pawn))
    case 'n' => Some(P(Black, Knight))
    case 'b' => Some(P(Black, Bishop))
    case 'r' => Some(P(Black, Rook))
    case 'q' => Some(P(Black, Queen))
    case 'k' => Some(P(Black, King))
    case _ => None
  }

  /** One rank's squares: a digit stands for that many empty squares. */
  function DecodeRank(t: string): Option<seq<Square>> {
    if |t| == 0 then Some([])
    else
      var rest := DecodeRank(t[1..]);
      if rest.None? then None
      else if IsDigit(t[0]) then Some(seq(t[0] as int - '0' as int, _ => Empty) + rest.value)
      else
        var s := LetterSquare(t[0]);
        if s.None? then None else Some([s.value] + rest.value)
  }

  /** The pieces of `s` between the '/' separators. */
  function Split(s: string): (r: seq<string>)
    ensures |r| >= 1
  {
    if |s| == 0 then [""]
    else
      var rest := Split(s[1..]);
      if s[0] == '/' then [""] + rest else [[s[0]] + rest[0]] + rest[1..]
  }

  /** The rows named by a list of rank strings, each of eight squares. */
  function DecodeRanks(ranks: seq<string>): Option<seq<seq<Square>>>
    decreases |ranks|
  {
    if |ranks| == 0 then Some([])
    else
      var row := DecodeRank(ranks[0]);
      var rest := DecodeRanks(ranks[1..]);
      if row.None? || |row.value| != 8 || rest.None? then None else Some([row.value] + rest.value)
  }

  function ToBoard(rows: seq<seq<Square>>): Option<Board> {
    if |rows| == 8 && forall r | 0 <= r < 8 :: |rows[r]| == 8 then var b: Board := rows; Some(b) else None
  }

  /** Reads a string of the shape `boardToFEN` writes: the board and whether
      White is to move. */
  function ParseFen(s: string): Option<(Board, bool)> {
    if |s| < 10 then None
    else
      var tail := s[|s| - 10..];
      var rows := DecodeRanks(Split(s[..|s| - 10]));
      if tail != Tail(true) && tail != Tail(false) then None
      else if rows.None? then None
      else
        var b := ToBoard(rows.value);
        if b.None? then None else Some((b.value, tail == Tail(true)))
  }

  // ---------------------------------------------------------------- the shape

  /** How many squares a rank string covers. */
  function Width(t: string): int {
    if |t| == 0 then 0 else (if IsDigit(t[0]) then t[0] as int - '0' as int else 1) + Width(t[1..])
  }

  predicate NoAdjacentDigits(t: string) {
    forall i | 0 <= i < |t| - 1 :: !(IsDigit(t[i]) && IsDigit(t[i + 1]))
  }

  lemma {:induction false} WidthAppend(a: string, b: string)
    ensures Width(a + b) == Width(a) + Width(b)
    decreases |a|
  {
    if |a| > 0 {
      assert (a + b)[0] == a[0] && (a + b)[1..] == a[1..] + b;
      WidthAppend(a[1..], b);
    } else {
      assert a + b == b;
    }
  }

  /** A rank covers its eight squares, and never writes two digits in a row. */
  lemma {:induction false} RankTextShape(row: seq<Square>, c: nat, run: nat, upperWhite: bool)
    requires |row| == 8 && c <= 8 && run <= c
    ensures var t := RankText(row, c, run, upperWhite);
      Width(t) == run + 8 - c && NoAdjacentDigits(t)
    decreases 8 - c
  {
    if c == 8 {
    } else if row[c] == Empty {
      RankTextShape(row, c + 1, run + 1, upperWhite);
    } else {
      var rest := RankText(row, c + 1, 0, upperWhite);
      RankTextShape(row, c + 1, 0, upperWhite);
      var l := Letter(row[c], upperWhite);
      assert !IsDigit(l);
      var tail := [l] + rest;
      assert Width(tail) == 1 + Width(rest) by {
        assert tail[1..] == rest;
      }
      WidthAppend(Flush(run), tail);
      var t := Flush(run) + tail;
      forall i | 0 <= i < |t| - 1
        ensures !(IsDigit(t[i]) && IsDigit(t[i + 1]))
      {
        if i >= |Flush(run)| + 1 {
          assert t[i] == rest[i - |Flush(run)| - 1] && t[i + 1] == rest[i - |Flush(run)|];
        }
      }
    }
  }

  lemma {:induction false} SplitNoSlash(t: string)
    requires forall i | 0 <= i < |t| :: t[i] != '/'
    ensures Split(t) == [t]
    decreases |t|
  {
    if |t| > 0 {
      SplitNoSlash(t[1..]);
      assert [t[0]] + t[1..] == t;
    }
  }

  lemma {:induction false} SplitAfter(t: string, u: string)
    requires forall i | 0 <= i < |t| :: t[i] != '/'
    ensures Split(t + "/" + u) == [t] + Split(u)
    decreases |t|
  {
    var s := t + "/" + u;
    if |t| == 0 {
      assert s[0] == '/' && s[1..] == u;
    } else {
      assert s[0] == t[0] && s[1..] == t[1..] + "/" + u;
      SplitAfter(t[1..], u);
      assert [t[0]] + t[1..] == t;
    }
  }

  /** The rank strings of the placement from row `r` on. */
  function RankTexts(b: Board, r: nat, upperWhite: bool): seq<string>
    requires r <= 8
  {
    seq(8 - r, i requires 0 <= i < 8 - r => RankText(b[r + i], 0, 0, upperWhite))
  }

  /** Cutting the trailing '/' off `t + "/" + u` and splitting gives `t`
      followed by the pieces of `u` without its last character. */
  lemma SplitStripped(t: string, u: string)
    requires forall i | 0 <= i < |t| :: t[i] != '/'
    requires |u| > 0
    ensures var s := t + "/" + u; Split(s[..|s| - 1]) == [t] + Split(u[..|u| - 1])
  {
    var s := t + "/" + u;
    var v := u[..|u| - 1];
    assert s[..|s| - 1] == t + "/" + v;
    SplitAfter(t, v);
  }

  /** Rank strings each followed by '/'. */
  function Terminated(ranks: seq<string>): (s: string)
    ensures |ranks| > 0 ==> |s| > 0
    decreases |ranks|
  {
    if |ranks| == 0 then "" else ranks[0] + "/" + Terminated(ranks[1..])
  }

  lemma {:induction false} SplitTerminated(ranks: seq<string>)
    requires |ranks| > 0
    requires forall k, i | 0 <= k < |ranks| && 0 <= i < |ranks[k]| :: ranks[k][i] != '/'
    ensures Split(DropLast(Terminated(ranks))) == ranks
    decreases |ranks|
  {
    var t := ranks[0];
    var s := Terminated(ranks);
    if |ranks| == 1 {
      assert ranks[1..] == [];
      assert Terminated(ranks[1..]) == "";
      assert s == t + "/" + "";
      assert s[..|s| - 1] == t;
      SplitNoSlash(t);
    } else {
      var u := Terminated(ranks[1..]);
      SplitStripped(t, u);
      SplitTerminated(ranks[1..]);
      assert [t] + ranks[1..] == ranks;
    }
  }

  lemma {:induction false} RowsTerminated(b: Board, r: nat, upperWhite: bool)
    requires r <= 8
    ensures RowsText(b, r, upperWhite) == Terminated(RankTexts(b, r, upperWhite))
    decreases 8 - r
  {
    if r < 8 {
      var ranks := RankTexts(b, r, upperWhite);
      assert ranks[0] == RankText(b[r], 0, 0, upperWhite);
      assert ranks[1..] == RankTexts(b, r + 1, upperWhite);
      RowsTerminated(b, r + 1, upperWhite);
    }
  }

  /** The placement splits into the eight rank strings. */
  lemma PlacementRanks(b: Board, upperWhite: bool)
    ensures Split(Placement(b, upperWhite)) == RankTexts(b, 0, upperWhite)
  {
    RowsTerminated(b, 0, upperWhite);
    RanksNoSlash(b, upperWhite);
    SplitTerminated(RankTexts(b, 0, upperWhite));
  }

  lemma RanksNoSlash(b: Board, upperWhite: bool)
    ensures var ranks := RankTexts(b, 0, upperWhite);
      forall k, i | 0 <= k < |ranks| && 0 <= i < |ranks[k]| :: ranks[k][i] != '/'
  {
    var ranks := RankTexts(b, 0, upperWhite);
    forall k | 0 <= k < 8
      ensures forall i | 0 <= i < |ranks[k]| :: ranks[k][i] != '/'
    {
      assert ranks[k] == RankText(b[k], 0, 0, upperWhite);
    }
  }

  lemma TailSplit(p: Position, upperWhite: bool)
    ensures var f := Fen(p, upperWhite);
      && |f| >= 10
      && f[|f| - 10..] == Tail(p.whiteToMove)
      && f[..|f| - 10] == Placement(p.board, upperWhite)
  {
    var f := Fen(p, upperWhite);
    assert |Tail(p.whiteToMove)| == 10;
    assert f[|f| - 10..] == Tail(p.whiteToMove);
    assert f[..|f| - 10] == Placement(p.board, upperWhite);
  }

  /** Both writers produce eight ranks separated by seven '/', each rank
      covering eight squares with no two digits in a row, then " w " or " b "
      as White or Black is to move, then the fixed "- - 0 1". */
  lemma FenShape(p: Position, upperWhite: bool)
    ensures var f := Fen(p, upperWhite);
      && |f| >= 10
      && f[|f| - 10..] == Tail(p.whiteToMove)
      && var ranks := Split(f[..|f| - 10]);
         && |ranks| == 8
         && forall i | 0 <= i < 8 :: Width(ranks[i]) == 8 && NoAdjacentDigits(ranks[i])
  {
    TailSplit(p, upperWhite);
    PlacementRanks(p.board, upperWhite);
    RankTextsShape(p.board, upperWhite);
  }

  lemma RankTextsShape(b: Board, upperWhite: bool)
    ensures var ranks := RankTexts(b, 0, upperWhite);
      forall i | 0 <= i < 8 :: Width(ranks[i]) == 8 && NoAdjacentDigits(ranks[i])
  {
    var ranks := RankTexts(b, 0, upperWhite);
    forall i | 0 <= i < 8
      ensures Width(ranks[i]) == 8 && NoAdjacentDigits(ranks[i])
    {
      RankTextShape(b[i], 0, 0, upperWhite);
    }
  }

  // ---------------------------------------------------------------- the round trip

  lemma LetterDecodes(s: Square)
    requires s.P?
    ensures LetterSquare(Letter(s, true)) == Some(s)
    ensures !IsDigit(Letter(s, true))
  {
  }

  /** `n` empty squares. */
  function Empties(n: nat): (r: seq<Square>)
    ensures |r| == n && forall i | 0 <= i < n :: r[i] == Empty
  {
    seq(n, _ => Empty)
  }

  lemma {:induction false} RankRoundTrip(row: seq<Square>, c: nat, run: nat)
    requires |row| == 8 && c <= 8 && run <= c
    ensures DecodeRank(RankText(row, c, run, true)) == Some(Empties(run) + row[c..])
    decreases 8 - c
  {
    if c == 8 {
      if run > 0 {
        var t := Flush(run);
        assert t[1..] == [];
        assert Empties(run) + row[c..] == Empties(run);
      } else {
        assert Empties(run) + row[c..] == [];
      }
    } else if row[c] == Empty {
      RankRoundTrip(row, c + 1, run + 1);
      assert Empties(run + 1) + row[c + 1..] == Empties(run) + row[c..];
    } else {
      var rest := RankText(row, c + 1, 0, true);
      RankRoundTrip(row, c + 1, 0);
      assert Empties(0) + row[c + 1..] == row[c + 1..];
      var l := Letter(row[c], true);
      LetterDecodes(row[c]);
      var tail := [l] + rest;
      assert tail[1..] == rest;
      assert DecodeRank(tail) == Some([row[c]] + row[c + 1..]);
      assert [row[c]] + row[c + 1..] == row[c..];
      if run > 0 {
        var t := Flush(run) + tail;
        assert t[1..] == tail;
        assert DecodeRank(t) == Some(Empties(run) + row[c..]);
      } else {
        assert Flush(run) + tail == tail;
        assert Empties(run) + row[c..] == row[c..];
      }
    }
  }

  lemma {:induction false} RanksRoundTrip(b: Board, r: nat)
    requires r <= 8
    ensures DecodeRanks(RankTexts(b, r, true)) == Some(b[r..])
    decreases 8 - r
  {
    if r < 8 {
      var ranks := RankTexts(b, r, true);
      RankRoundTrip(b[r], 0, 0);
      assert Empties(0) + b[r][0..] == b[r];
      assert ranks[0] == RankText(b[r], 0, 0, true);
      assert DecodeRank(ranks[0]) == Some(b[r]);
      assert ranks[1..] == RankTexts(b, r + 1, true);
      RanksRoundTrip(b, r + 1);
      assert [b[r]] + b[r + 1..] == b[r..];
    } else {
      assert RankTexts(b, r, true) == [] && b[r..] == [];
    }
  }

  /** With a white pawn written 'P', the placement and active-colour fields
      give back the board and the side to move. */
  lemma FenRoundTrip(p: Position)
    ensures ParseFen(BoardToFENCorrected(p)) == Some((p.board, p.whiteToMove))
  {
    var f := BoardToFENCorrected(p);
    TailSplit(p, true);
    PlacementDecodes(p.board);
    ParseFenOf(f, p.board, p.whiteToMove);
  }

  lemma ParseFenOf(s: string, b: Board, whiteToMove: bool)
    requires |s| >= 10 && s[|s| - 10..] == Tail(whiteToMove)
    requires DecodeRanks(Split(s[..|s| - 10])).Some?
    requires DecodeRanks(Split(s[..|s| - 10])).value == b
    ensures ParseFen(s) == Some((b, whiteToMove))
  {
    TailsDiffer();
    assert ToBoard(b) == Some(b);
  }

  lemma TailsDiffer()
    ensures Tail(true) != Tail(false)
  {
    assert Tail(true)[1] != Tail(false)[1];
  }

  lemma PlacementDecodes(b: Board)
    ensures DecodeRanks(Split(Placement(b, true))).Some? && DecodeRanks(Split(Placement(b, true))).value == b
    ensures ToBoard(b) == Some(b)
  {
    PlacementRanks(b, true);
    RanksRoundTrip(b, 0);
    assert b[0..] == b;
  }

  // ---------------------------------------------------------------- the white pawn

  /** Two rows whose squares are empty at the same places and carry the same
      letters produce the same rank text. */
  lemma {:induction false} RankTextSameLetters(x: seq<Square>, y: seq<Square>, c: nat, run: nat, upperWhite: bool)
    requires |x| == 8 && |y| == 8 && c <= 8 && run <= c
    requires forall i | c <= i < 8 :: (x[i] == Empty <==> y[i] == Empty)
    requires forall i | c <= i < 8 && x[i].P? && y[i].P? :: Letter(x[i], upperWhite) == Letter(y[i], upperWhite)
    ensures RankText(x, c, run, upperWhite) == RankText(y, c, run, upperWhite)
    decreases 8 - c
  {
    if c < 8 {
      if x[c] == Empty {
        RankTextSameLetters(x, y, c + 1, run + 1, upperWhite);
      } else {
        RankTextSameLetters(x, y, c + 1, 0, upperWhite);
      }
    }
  }

  lemma {:induction false} RowsTextSameRanks(a: Board, b: Board, r: nat, upperWhite: bool)
    requires r <= 8
    requires forall i | r <= i < 8 :: RankText(a[i], 0, 0, upperWhite) == RankText(b[i], 0, 0, upperWhite)
    ensures RowsText(a, r, upperWhite) == RowsText(b, r, upperWhite)
    decreases 8 - r
  {
    if r < 8 {
      RowsTextSameRanks(a, b, r + 1, upperWhite);
    }
  }

  /** The engine's writer loses the colour of a pawn: turning a white pawn
      into a black one changes the position but not its FEN. */
  lemma AsWrittenLosesPawnColour(p: Position, l: Loc)
    requires OnBoard(l) && At(p.board, l) == P(White, Pawn)
    ensures var q := p.(board := Set(p.board, l, P(Black, Pawn)));
      q != p && BoardToFENAsWritten(q) == BoardToFENAsWritten(p)
  {
    var q := p.(board := Set(p.board, l, P(Black, Pawn)));
    assert At(q.board, l) != At(p.board, l);
    forall i | 0 <= i < 8
      ensures RankText(q.board[i], 0, 0, false) == RankText(p.board[i], 0, 0, false)
    {
      forall c | 0 <= c < 8
        ensures q.board[i][c] == Empty <==> p.board[i][c] == Empty
        ensures q.board[i][c].P? && p.board[i][c].P? ==> Letter(q.board[i][c], false) == Letter(p.board[i][c], false)
      {
        assert q.board[i][c] == At(q.board, Loc(i, c)) && p.board[i][c] == At(p.board, Loc(i, c));
      }
      RankTextSameLetters(q.board[i], p.board[i], 0, 0, false);
    }
    RowsTextSameRanks(q.board, p.board, 0, false);
  }

  /** The corrected writer tells the two colours of pawn apart. */
  lemma PawnColourKept(p: Position, l: Loc)
    requires OnBoard(l) && At(p.board, l) == P(White, Pawn)
    ensures var q := p.(board := Set(p.board, l, P(Black, Pawn)));
      BoardToFENCorrected(q) != BoardToFENCorrected(p)
  {
    var q := p.(board := Set(p.board, l, P(Black, Pawn)));
    FenRoundTrip(p);
    FenRoundTrip(q);
    assert At(q.board, l) != At(p.board, l);
  }
}
