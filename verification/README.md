# A verified model of a small Python chess engine

This project models, in Dafny, the rules engine and the move search of a
small chess program written in Python.

The rules engine is the `GameState` class of `Chess/chessEngine.py`. It holds
an 8×8 board of two-character codes (`"wK"`, `"bp"`, `"--"`), the side to
move, where each king stands, the castling rights and the en-passant target.
It also keeps undo logs for the moves, the en-passant targets and the castling
rights. Its main operations are:

- `makeMove` and `undoMove`, together with `updateCastleRights`;
- `checksForPinsAndChecks`, which scans outward from the king for pins and
  checks;
- the pseudo-legal generators (`getPawnMoves`, `getRookMoves`,
  `getNightMoves`, `getBishopMoves`, `getQueenMoves`, `getKingMoves`,
  `getCastleMoves`) and `getAllPossibleMoves`;
- `squareUnderAttack`;
- `getValidMoves`, which filters the generated moves against the checks and
  sets the checkmate and stalemate flags;
- `boardToFEN`.

The `Move` class gives a move its flags, its `moveID`, its equality and its
printed forms.

The search is `Chess/smartMoveFinder.py`. It provides the static evaluation
`scoreBoard` with its piece values and positional tables, plain minimax,
negamax, negamax with alpha-beta pruning, the entry point `findBestMove` and
the fallback `findRandomMove`.

The model is functional. Where the engine mutates state, a model function
returns the new state. This applies to the board, the king records that
`getKingMoves` rewrites, the side flip inside `squareUnderAttack`, and the pin
list that the generators consume. The modules follow the program:

| module | file | what it holds |
|---|---|---|
| `Options` | option.dfy | the `Option` type |
| `Pieces` | pieces.dfy | colours, kinds, squares and their two-character codes |
| `Boards` | boards.dfy | the 8×8 board, reads and writes |
| `Moves` | moves.dfy | `Move`, its constructor, `moveID`, equality and notation |
| `State` | state.dfy | `Position`, `GameState`, the initial state, well-formedness |
| `MakeUndo` | makeundo.dfy | `makeMove`, `undoMove`, `updateCastleRights` |
| `Checks` | checks.dfy | `checksForPinsAndChecks` and what a check and a pin are |
| `Pins` | pins.dfy | the pin look-up at the top of each generator |
| `Sliders` | sliders.dfy | rook, bishop, queen and knight moves |
| `Pawns` | pawns.dfy | pawn moves under the engine's pin and rank tests, and under corrected ones |
| `Kings` | kings.dfy | king moves |
| `Generate` | generate.dfy | `getAllPossibleMoves`, `squareUnderAttack`, `getCastleMoves` |
| `Legal` | legal.dfy | `getValidMoves` |
| `Search` | search.dfy | minimax, negamax, alpha-beta, `findBestMove`, `findRandomMove` |
| `Fen` | fen.dfy | `boardToFEN` and a FEN reader used to state round trips |
| `Evaluate` | evaluate.dfy | `scoreBoard` and its tables |
| `Attacks` | attacks.dfy | what `squareUnderAttack` reports, the castles it lets through, and a corrected castle test |

Several places follow the code where a prose description of the program says
otherwise:

- Move equality compares `moveID` only, so it compares the start and end
  squares only. The flags play no part.
- At a search depth above zero, a node with no legal moves scores
  -CHECKMATE for the side to move. This happens even when the position is
  stalemate, because the search never reads the stalemate flag there.
- `squareUnderAttack` counts a pawn's forward push onto the square as an
  attack, just like any other generated move. It misses a pawn's diagonal
  attack on an empty square, because a pawn generates a diagonal move only
  onto a piece it can take.

The engine's generators are modelled as written, including their faults.
`getPawnMoves` is `Pawns.PawnMoves` with the rule `AsWritten`, and
`getAllPossibleMoves`, `getValidMoves` and the search all use that rule.
Where the code departs from what it evidently intends (see "## Findings"), a
corrected definition stands beside the engine's: the rule `Corrected` of the
pawn generator, `Attacks.CorrectedCastleMoves` and `Fen.BoardToFENCorrected`.
The intended property is proved of the corrected definition, and the fault
is exhibited on a concrete position for the engine's.

## Model

| member | source | states |
|---|---|---|
| Pieces.Code | Chess/chessEngine.py:8-17 | a square's code is two characters, colour letter then kind letter, and is `--` exactly for an empty square |
| Pieces.CodeRoundTrip | Chess/chessEngine.py:8-17 | reading a square's code back gives the same square, so the string board loses nothing |
| Pieces.CodeInjective | Chess/chessEngine.py:8-17 | two squares have the same code exactly when they are the same square |
| Boards.BoardExt | Chess/chessEngine.py:8-17 | two boards that agree on all 64 squares are the same board |
| State.InitialWF | Chess/chessEngine.py:6-44 | the starting position has one king of each colour on the recorded squares, no pawn on a promotion row, and undo logs whose tops are the current target and rights |
| Moves.NewMove | Chess/chessEngine.py:510-531 | a new move records the piece on its start square; it is a promotion exactly when a pawn reaches its last row; an en-passant move captures the opposing pawn; all check and draw flags start false |
| Moves.MoveIDDecodes | Chess/chessEngine.py:530 | `moveID` of an on-board move is non-negative and decodes back to its start and end squares |
| Moves.SameMoveIffSameSquares | Chess/chessEngine.py:534-538 | two moves are equal exactly when their start and end squares are equal, whatever their flags |
| Moves.RankFile | Chess/chessEngine.py:544-545 | a square's name is a file letter a-h followed by a rank digit 1-8 |
| Moves.RankFileRoundTrip | Chess/chessEngine.py:504-508 | a square's name reads back as that square; row 0 is rank 8 and column 0 is file a |
| Moves.ChessNotationRoundTrip | Chess/chessEngine.py:540-545 | the first two characters name the start square and the last two the end square |
| Moves.MoveText | Chess/chessEngine.py:548-573 | a castle prints as `O-O` or `O-O-O`; a draw prints as `1/2 1/2`; otherwise an `x` appears exactly for captures; a move with no castle, promotion, en-passant, check or draw flag ends with the name of its target square |
| Moves.MoveTextOpens | Chess/chessEngine.py:552-566 | the printed form reads back to what it was written from: a piece move opens with the letter of the moved kind, a pawn capture with the file the pawn left and an `x`, a quiet pawn move with its target square |
| MakeUndo.UpdateCastleRights | Chess/chessEngine.py:132-162 | each right survives exactly when the move neither moves that side's king, nor moves the rook off that corner, nor captures a rook on that corner |
| MakeUndo.CastleRightsMonotone | Chess/chessEngine.py:132-162 | rights never come back, and a move that involves no king or rook leaves them all unchanged |
| MakeUndo.EnPassantAfter | Chess/chessEngine.py:85-88 | a target exists exactly after a pawn's two-row advance, and it is the square the pawn passed over |
| MakeUndo.MakeMove | Chess/chessEngine.py:74-100 | making a move flips the side, moves the king record with the king, sets the en-passant target, only removes castling rights, and pushes one entry onto each undo log |
| MakeUndo.MakeMoveEffects | Chess/chessEngine.py:75-97 | the start square is emptied; the end square gets the moved piece or a queen on promotion; the passed pawn goes on en passant; the rook jumps over on castling; every other square is unchanged |
| MakeUndo.UndoMove | Chess/chessEngine.py:103-130 | with an empty log only the flags are cleared; otherwise one entry is popped from each log, the side flips back, and the target and rights are read from the new tops |
| MakeUndo.RevertApply | Chess/chessEngine.py:104-128 | undoing a move on the board it produced gives back the original board |
| MakeUndo.MakeUndoRoundTrip | Chess/chessEngine.py:74-130 | `makeMove` then `undoMove` restores the position and all logs exactly; only the checkmate and stalemate flags are cleared |
| Checks.InCheckIffAttacked | Chess/chessEngine.py:235-287 | the scan reports check exactly when it records a check, and exactly when an enemy piece attacks the king along a clear line (a pawn or king only from the next square) or by a knight jump |
| Checks.ChecksRecorded | Chess/chessEngine.py:235-287 | every recorded check is a real ray or knight attack on the king, and every such attack is recorded |
| Checks.PinsExact | Chess/chessEngine.py:235-287 | every recorded pin is the only own non-king piece between the king and an enemy piece that attacks along that line, and every such pin is recorded |
| Checks.KnightsExact | Chess/chessEngine.py:277-285 | the knight loop records exactly the enemy knights one jump away |
| Checks.RayCheckIffAhead | Chess/chessEngine.py:249-276 | some direction holds a ray check exactly when some direction has an attacker that is the first piece ahead of the king |
| Pins.RemoveFirst | Chess/chessEngine.py:307 | removing a pin entry takes away exactly one copy of it |
| Pins.FindPin | Chess/chessEngine.py:303-308 | the backwards search finds the last entry for the square, or reports that none exists |
| Pins.LookUpPin | Chess/chessEngine.py:301-308 | a piece is pinned exactly when the list has an entry for its square; the entry is removed, except for a queen |
| Pins.LookUpPinKeepsOthers | Chess/chessEngine.py:303-308 | the look-up never adds or drops the entries of other squares |
| Sliders.RookMovesExact | Chess/chessEngine.py:374-402 | the rook moves are exactly the straight slides over empty squares, each ending on an empty square or the first enemy piece, along a direction its pin allows |
| Sliders.BishopMovesExact | Chess/chessEngine.py:425-451 | the bishop moves are exactly the diagonal slides that its pin allows |
| Sliders.QueenMovesExact | Chess/chessEngine.py:491-493 | the queen moves are the rook slides plus the bishop slides under one pin, and its pin entry stays in the list |
| Sliders.KnightMovesExact | Chess/chessEngine.py:404-423 | a pinned knight has no moves; any other knight jumps to every on-board square without an own piece; its pin entry is removed |
| Sliders.PinnedSliderStaysOnLine | Chess/chessEngine.py:374-451 | a pinned slider moves only along its pin line, towards its king or away from it |
| Sliders.PlainReversible | Chess/chessEngine.py:103-130 | an ordinary move between two squares of the board can be taken back exactly |
| Sliders.SlideReversible | Chess/chessEngine.py:383-400 | every move a slide produces starts on the slider's square and can be taken back exactly |
| Pawns.PawnMovesShape | Chess/chessEngine.py:300-371 | under either rule, every pawn move is a one-row push onto an empty square, a two-row push from the home row over two empty squares, or a one-column diagonal step onto an enemy piece or the en-passant target; the rule's pin test allows its direction, and an en-passant capture passes the rule's rank test |
| Pawns.PawnMovesComplete | Chess/chessEngine.py:319-371 | conversely, every such push and capture that the rule's pin test allows is generated, and so is every en-passant capture that its rank test also allows |
| Pawns.PinnedPawnMovesAway | Chess/chessEngine.py:301-351 | in the engine's generator a pinned pawn moves only one or two squares in its pin direction, that is, away from its king |
| Pawns.PinnedPawnStaysOnLine | Chess/chessEngine.py:301-351 | under either rule a pinned pawn ends its move on its pin line |
| Pawns.PawnMovesReversible | Chess/chessEngine.py:300-371 | every generated pawn move can be taken back exactly |
| Pawns.EnPassantSafeIffNotExposed | Chess/chessEngine.py:328-371 | the corrected rank test allows an en-passant capture exactly when removing both pawns does not open the king's rank to an enemy rook or queen |
| Pawns.EnPassantAsWrittenExposesKing | Chess/chessEngine.py:352-371 | there is a rank on which the engine's rank test allows an en-passant capture that opens the king's rank to an enemy rook |
| Pawns.EnPassantAsWrittenGenerated | Chess/chessEngine.py:352-371 | in that position, made well-formed with a black king on (0,7), the engine's generator hands out the exposing capture and the corrected generator withholds it |
| Pawns.ExposingScan | Chess/chessEngine.py:235-287 | in that position the scan records no pin, so the empty pin list the pawn generator is given is the engine's own |
| Pawns.PawnPinAsWrittenRefusesLinePush | Chess/chessEngine.py:319-323 | in a well-formed position where the scan of `checksForPinsAndChecks` records the pawn's pin, the engine's generator gives the pawn no move, although its push stays on the pin line; the corrected generator gives the push |
| Pawns.CorrectedPinnedPushOnLine | Chess/chessEngine.py:319-321 | the corrected generator gives a pawn pinned along its column the push onto an empty square whichever way the pin points, and that push lies on the pin line |
| Kings.KingMoves | Chess/chessEngine.py:453-474 | the king generator leaves the position unchanged, except that the king is recorded back on its square |
| Kings.KingMovesExact | Chess/chessEngine.py:453-474 | the king moves are exactly the steps onto neighbouring squares that hold no own piece and that no enemy piece attacks, looking through the king itself |
| Generate.PieceMoves | Chess/chessEngine.py:289-298 | dispatching to a piece's generator changes nothing in the position but the king records, and changes nothing when the king already stands where it is recorded |
| Generate.AllLoopRestores | Chess/chessEngine.py:289-298 | with the kings placed, the generator loop gives back the position it was handed |
| Generate.AllPossibleMovesGenerated | Chess/chessEngine.py:289-298 | every pseudo-legal move starts on a piece of the side to move and is taken back exactly by `undoMove` |
| Generate.SquareUnderAttackRestores | Chess/chessEngine.py:219-233 | the side flip and the generator run leave the position exactly as it was |
| Generate.CastleMovesRestore | Chess/chessEngine.py:476-489 | the castling probes leave the position exactly as it was |
| Generate.CastleMovesShape | Chess/chessEngine.py:476-489 | no castle is given while in check; each castle moves the king two columns along its home row towards a corner whose right is held, over empty squares |
| Attacks.SquareUnderAttackPinFree | Chess/chessEngine.py:219-233 | with no pin entry on the other side's pieces, `squareUnderAttack` hands the pin list back unchanged, restores the position, and answers as it does for an empty list |
| Attacks.AllLoopComplete | Chess/chessEngine.py:289-297 | every move a piece of the side to move generates is in the loop's list |
| Attacks.AllLoopSound | Chess/chessEngine.py:289-297 | every move in the loop's list comes from the generator of a piece of the side to move |
| Attacks.KingAttackReported | Chess/chessEngine.py:226-231 | a square next to the other side's king is reported as attacked |
| Attacks.PawnAttackReported | Chess/chessEngine.py:219-225 | a square holding a piece of the side to move is reported when an enemy pawn can take it |
| Attacks.RayAttackReported | Chess/chessEngine.py:219-233 | every ray attack on a square that is empty or holds a piece of the side to move is reported, except a pawn's attack on an empty square |
| Attacks.KnightAttackReported | Chess/chessEngine.py:219-225 | every knight attack on a square that is empty or holds a piece of the side to move is reported |
| Attacks.CastleMovesExact | Chess/chessEngine.py:476-489 | a castle towards a side is given exactly when the king is not in check, the right is held, the squares between king and rook are empty, and `squareUnderAttack` clears the king's square and the two it crosses; the king side comes first |
| Attacks.ValidCastles | Chess/chessEngine.py:165-175 | the castles `getValidMoves` starts its list with are exactly those, with the pins of the scan in place |
| Attacks.CastleIntoPawnAttack | Chess/chessEngine.py:479-483 | in a well-formed position the engine castles king side onto a square that an enemy pawn attacks, and the corrected test refuses that castle |
| Attacks.CorrectedCastleSafe | Chess/chessEngine.py:476-489 | under the corrected test a castle is never given in check, and the king never starts on, crosses or lands on an attacked square |
| Attacks.CorrectedCastleComplete | Chess/chessEngine.py:476-489 | under the corrected test every open side whose three squares are unattacked is castled to when not in check |
| Legal.RemoveMove | Chess/chessEngine.py:197 | `moves.remove(moves[i])` deletes the first move equal to `moves[i]` (same start and end squares), at or before `i`, and keeps every other move in its order |
| Legal.CheckFilterSound | Chess/chessEngine.py:194-197 | every move that survives the filter is a king move or ends on a square that answers the check |
| Legal.CheckFilterExact | Chess/chessEngine.py:194-197 | on a list of distinct moves, the backwards filter keeps exactly the passing moves, in order |
| Legal.ValidSquaresExact | Chess/chessEngine.py:185-193 | the answer squares are exactly the checking piece's square and, for a slider, the squares between it and the king |
| Legal.ValidMovesRestores | Chess/chessEngine.py:165-210 | `getValidMoves` gives back the position, including castling rights and en-passant target, and leaves the undo logs alone |
| Legal.ValidMovesFlags | Chess/chessEngine.py:204-209 | the in-check flag says whether the king is attacked; checkmate is set when there are no moves and the king is attacked, stalemate when there are no moves and it is not; a flag already set stays set |
| Legal.DoubleCheckKingOnly | Chess/chessEngine.py:198-199 | in double check the moves are exactly the safe king steps |
| Legal.SingleCheckAnswered | Chess/chessEngine.py:178-197 | in single check every move is a king move or ends on a square that answers the check |
| Legal.SingleCheckExact | Chess/chessEngine.py:178-197 | in single check, given a duplicate-free generator list, the moves are exactly the generated king moves and check answers |
| Legal.ValidMovesGenerated | Chess/chessEngine.py:165-210 | every legal move starts on a piece of the side to move and is taken back exactly by `undoMove` |
| Legal.ValidMoveUndone | Chess/chessEngine.py:74-130 | making any legal move and undoing it gives back the state `getValidMoves` left, with only the end flags cleared |
| Search.NegaMaxLeaf | Chess/smartMoveFinder.py:159-160 | at depth 0 negamax reports no move and scores the static evaluation times the side's multiplier: the evaluation itself for white, its negation for black |
| Search.NegaMaxIsMax | Chess/smartMoveFinder.py:156-173 | negamax scores at least -CHECKMATE and at least every negated child; a reported move reaches that score and beats -CHECKMATE; no move is reported exactly when the score is -CHECKMATE |
| Search.NegaMaxIsMinMax | Chess/smartMoveFinder.py:124-173 | negamax equals minimax times the side's multiplier, and both choose the same move |
| Search.AlphaBetaLoopSpec | Chess/smartMoveFinder.py:183-196 | the best score is the largest of the incoming score and the scores of the children searched, each child searched with the alpha the loop has reached (`Examined`); one score per child searched; alpha is raised to the best score; after every searched child but the last alpha is still below beta, so no child is searched once alpha reaches beta, and the loop stops before the last child only when it has; the reported move is the incoming one with its score, or a searched child that strictly improved the score and whose score the result is |
| Search.AlphaBetaFailSoft | Chess/smartMoveFinder.py:176-197 | alpha-beta is fail-soft against negamax: a result at or below alpha bounds the value from above, one inside the window is exact, one at or above beta bounds it from below |
| Search.AlphaBetaRootAgrees | Chess/smartMoveFinder.py:176-197 | from the root window (-2 CHECKMATE, 2 CHECKMATE), alpha-beta returns exactly the score and move of negamax whenever the leaf scores lie inside the window |
| Search.FindBestMoveSpec | Chess/smartMoveFinder.py:115-121 | `findBestMove` returns a move with the best child value, the same move as negamax and minimax, and returns nothing exactly at depth 0 or when no move beats -CHECKMATE |
| Search.AlphaBetaLeafAndEmpty | Chess/smartMoveFinder.py:179-181 | at depth 0 alpha-beta reports no move and scores the signed static evaluation; above depth 0 a node without moves reports no move and scores -CHECKMATE, the starting best score |
| Search.FindRandomMove | Chess/smartMoveFinder.py:76-77 | the random pick is one of the listed moves |
| Search.FindRandomMoveCovers | Chess/smartMoveFinder.py:76-77 | every listed move can be the random pick |
| Evaluate.TablesMirror | Chess/smartMoveFinder.py:13-70 | the knight and bishop tables read the same upside down, the black pawn table is the white one upside down, and so are the queen table off rows 1 and 6 and the rook table off rows 2 and 5 |
| Evaluate.SquareValueBound | Chess/smartMoveFinder.py:213-224 | one square contributes at most 8.8 either way, and never counts against the colour of its piece |
| Evaluate.BoardScoreBelowMate | Chess/smartMoveFinder.py:210-225 | the material-and-position sum always lies strictly between -CHECKMATE and CHECKMATE |
| Evaluate.ScoreBoardSpec | Chess/smartMoveFinder.py:201-225 | the score is -CHECKMATE exactly for a checkmated White, CHECKMATE exactly for a checkmated Black, 0 for stalemate, and otherwise the board sum |
| Evaluate.MirrorNegates | Chess/smartMoveFinder.py:210-225 | swapping colours and flipping the board negates the score, provided no queen or rook stands where its table is uneven |
| Evaluate.InitialLevel | Chess/smartMoveFinder.py:201-225 | the starting position scores exactly 0 |
| Evaluate.QueenTableUneven | Chess/smartMoveFinder.py:33-40 | a white queen and a black queen on mirrored squares do not cancel out |
| Evaluate.SetSquareScore | Chess/smartMoveFinder.py:210-225 | changing one square changes the score by exactly the difference of that square's contributions |
| Fen.RankTextShape | Chess/chessEngine.py:52-64 | each rank's text covers exactly eight squares and never has two digits in a row |
| Fen.RankRoundTrip | Chess/chessEngine.py:52-64 | the corrected text of a rank reads back as that rank |
| Fen.FenShape | Chess/chessEngine.py:50-71 | the FEN is eight slash-separated ranks of width eight, then the side letter and fixed placeholders for the other fields |
| Fen.FenRoundTrip | Chess/chessEngine.py:50-71 | reading back the corrected FEN gives the board and the side to move |
| Fen.AsWrittenLosesPawnColour | Chess/chessEngine.py:61 | as written, a board with a white pawn and the same board with a black pawn there have the same FEN |
| Fen.PawnColourKept | Chess/chessEngine.py:61 | the corrected writer tells those two boards apart |

## Left out

- The pygame front end, the main loop and the importing of `chessMain` are not part of this model. They are I/O and drawing.
- `findMove` in `Chess/smartMoveFinder.py` is never called. It is not modelled.
- `GameState.inCheck()` (Chess/chessEngine.py:212-217) cannot be called, because the `inCheck` attribute shadows it. It is not modelled.
- The global `counter` and the `print` calls inside the search are not modelled. They only produce debug output.
- Randomness is a parameter. `findRandomMove` takes the random index. `findBestMove` takes the moves in whatever order the shuffle produced.
- Scores are exact reals. The `0.2` weight and the sums have no floating-point rounding.
- Search.FindRandomMove: requires a non-empty list. On an empty list `random.randint(0, -1)` raises `ValueError` (Chess/smartMoveFinder.py:77); the model does not represent that error. The random number is a parameter `roll` below the list length.
- Search.FindBestMoveSpec: the search runs on an explicit `Tree` whose children stand for the positions after each legal move. The calls to `makeMove`, `getValidMoves` and `undoMove` inside the recursion are not re-run on a `GameState`. `Legal.ValidMoveUndone` states separately that each such make/undo pair restores the state.
- Search.AlphaBetaRootAgrees: requires every static score in the tree to lie inside (-2 CHECKMATE, 2 CHECKMATE). `Evaluate.ScoreBoardSpec` shows that every `scoreBoard` value does.
- The generators require a well-formed position. Each king must stand where it is recorded. No white pawn may be on row 0 and no black pawn on row 7, because the engine would index past the board there. A castling right must mean the king is on column 4, or the engine would read column 8. An en-passant target must have the opposing pawn beside it. The engine never checks these, and the model assumes them rather than proving that play keeps them. Play need not keep them: after the capture of `Pawns.EnPassantAsWrittenGenerated` the rook can take the white king, and after the castle of `Attacks.CastleIntoPawnAttack` the pawn can take it; either leaves a position with no white king.
- Legal.SingleCheckExact: assumes the generated list has no two moves with the same start and end squares. `moves.remove` deletes the first equal move, so this assumption is what makes the filter exact. It is not proved for the generator. `Legal.SingleCheckAnswered` holds without it.
- Generate.SquareUnderAttackRestores: `squareUnderAttack` is modelled as written: some move of the other side's generator ends on the square, or the other side's king is next to it. `Attacks.RayAttackReported` and `Attacks.KnightAttackReported` relate its answer to `Checks.Attacked` in one direction only. That it reports nothing but attacks is not proved, and it is false: a pawn's push onto the square is reported.
- The corrected pawn rule and the corrected castle test are not threaded through `getAllPossibleMoves`, `getValidMoves` or the search, which use the engine's tests as written.
- Python's out-of-range indexing, for example a negative index wrapping around, is outside the model. Every modelled call stays on the board.
- `boardToFEN` writes placeholders for castling, en passant and the move clocks. The model writes the same placeholders. The FEN reader exists only to state the round trip.

## Findings

| source | as written | input that shows it | evidently intended | confidence | as-written member | corrected member |
|---|---|---|---|---|---|---|
| Chess/chessEngine.py:61 | a white piece is written as `square[1]`, so a white pawn comes out as `p`, the letter for a black pawn | a white pawn on any square: the FEN matches that of the board with a black pawn there | white pieces in upper case: `P` for a white pawn | not executed | Fen.AsWrittenLosesPawnColour | Fen.FenRoundTrip |
| Chess/chessEngine.py:352-371 | any piece that is not an enemy rook or queen, anywhere beyond the two pawns, counts as a blocker, even when it is behind the attacker | row 3: white king on column 0, white pawn on 1, black pawn on 2 (target (2,2)), black rook on 5, black knight on 7, black king on (0,7); the capture exposes the king to the rook | only the first piece beyond the two pawns decides whether the king is exposed | not executed | Pawns.EnPassantAsWrittenGenerated | Pawns.EnPassantSafeIffNotExposed |
| Chess/chessEngine.py:320 | a pinned pawn may push only when the pin direction (from the king) equals the push direction | white king on (2,4), white pawn on (4,4), black rook on (6,4): the pawn is pinned with direction (1,0), and its push to (3,4) stays on the line but is refused | a pinned piece may move along the pin line in either direction, as the rook and bishop tests at lines 391 and 442 allow | not executed | Pawns.PawnPinAsWrittenRefusesLinePush | Pawns.CorrectedPinnedPushOnLine |
| Chess/chessEngine.py:219-225 | a square counts as attacked when some generated move of the other side ends on it; a pawn generates a diagonal move only onto a piece it can take, so its attack on an empty square is never seen, and `getCastleMoves` (lines 481 and 486) lets the king cross or land there | white king on (7,4) with the king-side right, white rook on (7,7), black pawn on (6,7), black king on (0,4): O-O onto (7,6) is generated, and the pawn attacks (7,6) | a square is attacked when an enemy piece could capture there, the test the scan of `checksForPinsAndChecks` applies to the king's own steps | not executed | Attacks.CastleIntoPawnAttack | Attacks.CorrectedCastleSafe |
