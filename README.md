# silly-chess rules engine in Dafny

This project models the rules engine of silly-chess, a two-player JavaFX chess game.
The game has a basic mode and a "silly" mode. In silly mode, capturing anything but a
pawn slides the whole board one square in a random direction, wrapping at the edge. It
then demotes a random piece on the wrapped-around line to a lower-ranked piece of the
other colour.

The model has two layers.

- **The value layer.** The board as an 8×8 `View` of cells, and each piece as a
  `PieceInfo` value.
  - `Core`: positions, distances, paths and the random-draw fraction `Unit`.
  - `BishopRules`, `KnightRules`, `RookRules`, `QueenRules`, `KingRules` and
    `PawnRules`: one move rule per piece kind.
  - `Moves`: the dispatch and the 64-square move list.
  - `Checks`: the check scan, kingMoveValid's scan, the escape, capture and block
    tests, checkmate, whenInCheck and notMovingAProtector's scan.
  - `Layout`: the opening position.
  - `Silly`: the shift and the demotion.
  - `Walks`: the two path walks as written, on unbounded and on 32-bit integers.
- **The heap layer.** The classes the Java code mutates, with methods proved against
  the value layer.
  - `Pieces.Square` (MySquare.java) and `Pieces.Piece` (Piece.java and its subclasses).
  - `Boards.Board` (Board.java).
  - `Games.Game` (Game.java).
  - `Setups`, `Commits`, `Shifts` and `Transforms`: the Game and Board operations that
    work square by square on the grid.

Every heap method that reads the board states its result, or its effect on the
board, through `ViewOf(grid)` and a value-layer function. The lemmas then state what
the game promises about those functions.
The value-layer functions that only compute a board or a verdict have no row of their
own. Their meaning is stated by the lemmas about them:

- `Commits.Castled`, `Commits.EnPassantSpec` and `Commits.CommitSpec`;
- `Checks.KingMoveSpec` and `Checks.Escape`;
- `Silly.Shifted`, `Silly.Transformed` and `Layout.Opening`.

What the model captures:

- **Move rules.** A move is refused when it is blocked or lands on a friendly piece.
  A destination off the board is accepted by the bishop and the knight, as in the
  source.
- **Castling.** The king's move rule accepts a click on its own rook when the row
  between them is clear. The commit still never castles, as described below.
- **Pawns.** Single and double steps, diagonal captures, and the en-passant square
  the double step records.
- **Setup.** The opening setup and its list order: each king is the fifteenth piece
  of its list.
- **Check bookkeeping.** Which side is in check, how many attackers there are, and
  which attacker came last.
- **Mate search.** Escape, capture and block, tried in Board.isCheckmate's order.
- **Legal-move tests.** A king may not step onto an attacked square, and a protector
  of the king may not leave its line.
- **The click handler.** The four gates of handleSquareClick in the source's order,
  the commit (castling, capture or en passant, then the relocation), the check and
  mate updates, and the turn switch.
- **The silly shift.** Exactly a cyclic rotation of every line, undone by the
  opposite shift, followed by the demotion of one eligible piece. Through both, a
  board on which every occupant records the square it stands on (`Pieces.Seated`)
  keeps that property.

Behaviour modelled as written:

- **Castling can never fire.** castling tests the clicked piece against `KING` where
  a rook is meant (Game.java:311). King.canCastle accepts the click and moveValidity
  lets it through. The commit would only fire for a king clicking onto a king of its
  own colour, and the move rule refuses that click (`Games.CastlingNeverAccepted`).
  A click onto the king's own rook that gets past the gates therefore ends as an
  ordinary capture: the king takes its own rook (`Commits.CommitMoves`).
- **The two demotions differ.** Both list the new piece only when it is white.
  Only transformRandomPieceInWrappedCol takes the replaced piece out of its list;
  transformRandomPieceInWrappedRow leaves it listed. Both are modelled as written.
- **restart keeps the selections.** selectedPiece and prevSelectedPiece are left as
  they were. A Java piece judges its moves on the board it was built with, so a kept
  selection is judged on the old board. The model judges it on the game's board; see
  "## Findings".
- **Pawns keep their first colour.** Pawn keeps its own copy of the colour, set once
  in its constructor. setColor does not change it; this is `pawnWhite`.

Where a Java call would dereference a missing king, the model finds nothing (no
square, no check). Where the Java code throws, the click ends there, and the model
says so as an outcome, `Aborted` or `Threw`:

- castling sets a piece on a row off the board;
- enPassant clears column −1.

## Model

| member | source | states |
|---|---|---|
| BishopRules.BishopRefusesOffDiagonal | Bishop.java:38-40 | a bishop move on the board whose row and column distances differ is refused |
| BishopRules.BishopBlocked | Bishop.java:41-76 | any occupied square strictly between origin and destination of a diagonal refuses the move |
| BishopRules.BishopRefusesFriendly | Bishop.java:77-79 | a destination holding a piece of the mover's colour is refused |
| BishopRules.BishopAcceptsClearDiagonal | Bishop.java:35-82 | a diagonal with every square between empty, onto an empty or enemy square, is accepted: with the three refusals this is an if-and-only-if |
| BishopRules.BishopOffBoard | Bishop.java:35-82 | every destination off the board is accepted, because the loops never run and the capture test is skipped |
| KnightRules.KnightRefusesFriendly | Knight.java:33-44 | a knight never lands on its own square or on a piece of its colour |
| KnightRules.KnightReadsOnlyDestination | Knight.java:33-44 | the knight's verdict depends on the destination cell only, never on the squares it jumps over |
| KnightRules.KnightAcceptsJump | Knight.java:33-44 | every L-shaped jump onto an empty or enemy square is accepted |
| KnightRules.KnightOffBoard | Knight.java:33-44 | every destination off the board is accepted |
| RookRules.RookRefusesNonStraight | Rook.java:39-41 | a rook move that changes both coordinates, or neither, is refused |
| RookRules.RookBlocked | Rook.java:43-75 | an occupied square strictly between origin and destination on the rook's line refuses the move |
| RookRules.RookRefusesFriendly | Rook.java:35-80 | a destination holding a piece of the mover's colour is refused |
| QueenRules.QueenIsRookOrBishop | Queen.java:36-114 | on the board the queen accepts exactly what the rook or the bishop from the same square accepts |
| QueenRules.QueenShape | Queen.java:36-114 | an accepted queen move is straight or diagonal |
| QueenRules.QueenBlocked | Queen.java:36-114 | an occupied square strictly between origin and destination refuses the queen's move |
| QueenRules.QueenRefusesFriendly | Queen.java:36-114 | a destination holding a piece of the queen's colour is refused |
| KingRules.KingStepIsDistanceOne | King.java:37-50 | the king's step shape is exactly Chebyshev distance one |
| KingRules.KingMoveWithoutCastle | King.java:37-50 | when castling does not apply, the king moves exactly one square, onto an empty or enemy square |
| KingRules.CastleAcceptedAnywhere | King.java:40-42 | whenever canCastle holds, moveValidity accepts, however far the clicked square is |
| KingRules.CastleFacts | King.java:61-93 | canCastle needs a first-move rook of the king's colour on the clicked square, a first-move king out of check, and every square between them on the king's column empty |
| KingRules.NoCastleOntoEmpty | King.java:61-64 | an empty clicked square never allows castling |
| KingRules.CastleIgnoresOtherFlag | King.java:61-93 | the king's verdict reads only its own colour's check flag |
| PawnRules.SingleStepIff | Pawn.java:52-54 | a one-square step forward is accepted exactly when the square ahead is empty |
| PawnRules.DoubleStepIff | Pawn.java:55-60 | a two-square step is accepted exactly on the first move with both squares ahead empty |
| PawnRules.CaptureIff | Pawn.java:61-68 | a diagonal step is accepted exactly onto an enemy piece or onto the previous piece's en-passant square |
| PawnRules.PawnOtherShapesRefused | Pawn.java:43-72 | every other shape, and every destination off the board, is refused |
| PawnRules.EpTargetOnBoard | Pawn.java:59 | the square a double step records as its en-passant square lies on the board |
| Moves.OwnSquareRefused | Piece.java:94-107 | no piece but a King accepts a square of its own colour, except a pawn onto the en-passant square |
| Moves.RuleIgnoresOtherFlag | Piece.java:70-72 | the move rule of a piece reads only its own colour's check flag and the en-passant square |
| Moves.ScanNext | Piece.java:78-88 | Scan's definition unfolded one step: the scan over the first n+1 squares is the first n squares' list, plus the next square when the rule accepts it |
| Moves.ScanSpec | Piece.java:78-88 | the scan lists exactly the accepted squares below the bound, in row-major order |
| Moves.ValidListSpec | Piece.java:78-88 | setValidSquares' list holds exactly the squares on the board the move rule accepts, each once, in row-major order |
| Core.ClearBeforeNext | Rook.java:43-75 | the path is clear up to step t+1 exactly when it is clear up to step t and step t is empty |
| Core.OnPathIsStep | Board.java:285-298 | a square is strictly between attacker and king exactly when some step of the walk towards the king reaches it |
| Core.Scale | Game.java:670-682 | `(int) (Math.random() * n)` lies below n for n > 0 |
| Core.ScaleBound | Game.java:685-698 | the scaled draw stays below its bound, so the switch always picks a listed case |
| Pieces.PixelRoundTrip | Piece.java:232-243 | setX/setY undo the pixel scaling of movePiece: the index comes back unchanged |
| Pieces.Square.constructor | MySquare.java:27-36 | a new square has its coordinates and flag, with no occupant |
| Pieces.Square.SetOccupying | MySquare.java:43-51 | with a clicked square, the occupant is set, the flag raised and the piece moved there; with null, nothing changes |
| Pieces.Square.SetEmpty | MySquare.java:56-59 | the square has neither flag nor occupant |
| Pieces.Square.RemoveOccupying | MySquare.java:64-70 | the square has neither flag nor occupant |
| Pieces.Square.SetIsOccupied | MySquare.java:89-91 | the flag is raised |
| Pieces.Square.GetOccupying | MySquare.java:96-101 | the occupant, or null while the flag is down |
| Pieces.Piece.constructor | Piece.java:36-45 | a new piece stands on its square, unmoved, with an empty move list; its pawn colour copy is its colour |
| Pieces.Piece.SetColor | Piece.java:260-262 | the colour changes; the pawn's own colour copy does not |
| Pieces.Piece.SetFirstMove | Piece.java:167-169 | the first-move flag takes the given value |
| Pieces.Piece.GetEPSquare | Pawn.java:79-84 | a pawn reports its en-passant square; any other piece reports none |
| Pieces.Piece.SetX | Piece.java:232-235 | the row becomes the pixel coordinate divided by the square width |
| Pieces.Piece.SetY | Piece.java:240-243 | the column becomes the pixel coordinate divided by the square width |
| Pieces.Piece.MovePiece | Piece.java:62-65 | the piece takes the square's coordinates |
| Pieces.Piece.BishopValidity | Bishop.java:35-82 | the loop-based check on the grid equals the bishop rule on the board's view |
| Pieces.Piece.RookValidity | Rook.java:35-80 | the loop-based check on the grid equals the rook rule on the board's view |
| Pieces.Piece.QueenValidity | Queen.java:36-114 | the eight loops on the grid equal the queen rule on the board's view |
| Pieces.Piece.CanCastle | King.java:61-93 | the grid walk equals the castling rule on the board's view |
| Pieces.Piece.KingValidity | King.java:37-50 | the king's check equals the king rule on the board's view |
| Pieces.Piece.PawnValidity | Pawn.java:43-72 | the pawn's check equals the pawn rule, and a double step records the square it passes over as the en-passant square |
| Pieces.Piece.PawnAccepts | Pawn.java:46-68 | the pawn's shape and occupancy tests equal the pawn rule, leaving the board alone |
| Pieces.Piece.MoveValidity | Piece.java:70-72 | the dispatch on the kind equals the move rule on the board's view |
| Pieces.Piece.SetValidSquares | Piece.java:78-88 | the stored list is the squares of the move list, in order; the view is unchanged and only a pawn's en-passant square is written |
| Pieces.Piece.ScanBoard | Piece.java:80-87 | the nested loop over all 64 squares collects exactly the move list |
| Pieces.Piece.ScanRow | Piece.java:81-86 | one row of the nested loop extends the list by that row's accepted squares |
| Pieces.Piece.ScanSquare | Piece.java:82-85 | one square of the nested loop appends it exactly when the rule accepts it |
| Pieces.Vacate | MySquare.java:64-70 | removeOccupying on one square of the grid shows that square empty and changes no other |
| Pieces.Clear | MySquare.java:56-59 | setEmpty on one square of the grid shows that square empty and changes no other |
| Pieces.Occupy | MySquare.java:43-51 | setOccupying shows the piece on that square alone and moves the piece there |
| Pieces.Place | Piece.java:62-65 | setOccupying then movePiece: the piece shows on that square and stands there |
| Pieces.Reflag | MySquare.java:89-91 | raising the flag on an occupied square changes nothing the board shows |
| Pieces.ColorNameInjective | Piece.java:248-255 | getColor names the two colours differently, and names white "white" |
| Pieces.OccupiedIff | MySquare.java:82-84 | a square's flag is up exactly when the view shows a piece there |
| Pieces.CaptureIff | Piece.java:94-107 | captureValidity holds exactly when the destination is empty or holds an enemy piece |
| Pieces.ScanPath | Rook.java:43-75 | walking the flags from origin to destination reports exactly whether the path is clear |
| Pieces.CastlePathClear | King.java:76-89 | walking the king's column towards the clicked row reports exactly whether every square between is empty |
| Pieces.FlagsClearIff | Bishop.java:41-76 | the grid's flags along a path agree with the view's occupancy |
| Checks.CountPositive | Board.java:112-125 | a square is counted at least once exactly when the move list contains it |
| Checks.CountOrdered | Board.java:112-125 | in an ordered move list each square occurs at most once, so a piece counts one hit on the king at most |
| Checks.HitsIff | Board.java:112-125 | the inner loop counts one hit exactly when the piece's list reaches the king |
| Checks.LastAttacker | Board.java:108-126 | the recorded checking piece is an attacker of the king |
| Checks.CheckScanFlags | Board.java:95-128 | isInCheck(player) raises only the other side's flag, exactly when it counts an attacker, and records an attacker exactly then |
| Checks.CheckScanCounts | Board.java:95-128 | the count is the number of the player's pieces attacking the king, and the checking piece is the last of them |
| Checks.KingLoopNext | Game.java:368-384 | each opponent piece puts the king back (pawns excepted) and, when its list contains the destination, the verdict becomes "it stands there" |
| Checks.KingLoopRestores | Game.java:368-384 | with the king on its square, the scan leaves the board as it found it |
| Checks.KingLoopUnattacked | Game.java:368-384 | when no opponent piece lists the destination, the king may go there |
| Checks.KingLoopLastLister | Game.java:368-384 | the verdict is decided by the last piece that lists the destination: the move is valid exactly when that piece stands there |
| Checks.KingMoveRestores | Game.java:357-388 | kingMoveValid leaves the board as it found it when the king stands on its square |
| Checks.EscapeFromStanding | Board.java:193-197 | the escape loop leaves the board unchanged and succeeds exactly when some square of the king's list passes kingMoveValid |
| Checks.EscapeStanding | Board.java:183-199 | kingCanEscape holds exactly when the king has a move that kingMoveValid accepts |
| Checks.CanCaptureIff | Board.java:207-228 | canCaptureAttacker holds exactly when some piece of the list may move onto the attacker |
| Checks.BlockFromSound | Board.java:258-271 | a block is found only for an attacker on the king's row or column, and only when some piece's list meets the path |
| Checks.NoDiagonalBlock | Board.java:266-268 | a diagonal attacker can never be blocked, because the block test only looks along rows and columns |
| Checks.Mate | Board.java:139-162 | a checkmate verdict needs a check flag up |
| Checks.GameOverSpec | Game.java:792 | gameOver's condition: a mate is found only while a check flag is up, and with no check the board is untouched and no mate found |
| Checks.MateSingleEscape | Board.java:157-158 | with a single non-king attacker, an escape for the king means no mate, on the board the escape search leaves |
| Checks.MateSingleUnfold | Board.java:146-159 | with a single attacker and no escape: mate exactly when the attacker cannot be captured, and also, for a slider, cannot be blocked |
| Checks.MateDiagonalSlider | Board.java:152-154 | a diagonal attack by a bishop or queen is mate exactly when the king cannot escape and the attacker cannot be captured |
| Checks.WhenInCheckSpec | Piece.java:119-155 | with no check or no attacker the move passes and the board is untouched; a move that captures the attacker always passes |
| Checks.NoKingNoBlock | Piece.java:124-127 | without the current king no move blocks: under a check, a move with neither a capture of the attacker nor an escape is refused |
| Checks.ProtectorLoop | Game.java:404-417 | notMovingAProtector's scan only names an attacker that was scanned, and only when there is a king |
| Checks.ProtectorLoopSpec | Game.java:404-417 | the scan names no attacker exactly when no opponent piece reaches the king with the protector lifted; otherwise it names the last that does |
| Checks.ProtectorLoopRestores | Game.java:404-417 | with the protector on its origin and a piece to scan, notMovingAProtector puts the board back as it found it |
| Boards.RemoveFirstAbsent | Board.java:53-75 | removing a piece that is not listed leaves the list alone |
| Boards.RemoveFirstMultiset | Board.java:53-75 | removePieceLogically takes out exactly one occurrence of the piece |
| Boards.RemoveFirstAt | Board.java:53-75 | the occurrence taken out is the first one |
| Boards.RemoveFirstSubset | Board.java:53-75 | removing a piece never adds one to the list |
| Boards.FirstKing | Game.java:826-845 | the king getters return a king of the list, or null |
| Boards.FirstKingSpec | Game.java:826-845 | null exactly when the list has no king, and otherwise its first king |
| Boards.FindKing | Game.java:826-833 | the loop of the king getters returns the first king of the list |
| Boards.FirstKingAgree | Game.java:826-845 | the first king's square read from the pieces equals the one read from their snapshots |
| Boards.CoveredIff | Board.java:285-298 | a piece's stored squares meet the path exactly when its move list does |
| Boards.Board.constructor | Board.java:31-45 | a new board holds the opening position, with both lists in setup order and no check |
| Boards.Board.RemovePieceLogically | Board.java:53-75 | the captured piece leaves its colour's list, first occurrence only; the other list and a null capture change nothing |
| Boards.Board.AddPieceLogically | Board.java:80-87 | the piece is appended to its colour's list and to no other |
| Boards.Board.IsInCheck | Board.java:95-128 | the flags, count and checking piece are what the check scan of the player's pieces against the opposing king reports; the board is unchanged |
| Boards.Board.Publish | Board.java:95-128 | the four check fields take the given values |
| Boards.Board.KingCanEscape | Board.java:183-199 | equals kingCanEscape as a value: the verdict and the board it leaves |
| Boards.Board.TryKingSquares | Board.java:183-199 | the king's move list is set and then tried square by square |
| Boards.Board.EscapeLoop | Board.java:193-197 | the loop over the king's squares stops at the first that kingMoveValid accepts |
| Boards.Board.EscapeStep | Board.java:194-196 | one square of the escape loop is one kingMoveValid call |
| Boards.Board.CanCaptureAttacker | Board.java:207-228 | equals the capture test for the checking piece's square against the player's pieces |
| Boards.Board.CanBlockAttacker | Board.java:236-273 | equals the block test for the checking piece and the player's king |
| Boards.Board.IsCheckmate | Board.java:139-162 | equals the checkmate value: double check is mate when the king cannot escape; a single check is tried as escape, capture, block |
| Boards.Board.SingleMate | Board.java:146-159 | the single-check branch equals its part of the checkmate value |
| Boards.Board.NoEscape | Board.java:148-155 | without an escape, the capture and block tests decide, by the attacker's kind |
| Boards.Board.WhenInCheck | Piece.java:119-155 | equals whenInCheck as a value: capture, a block on a square strictly between attacker and king, or escape lets the move through |
| Boards.Board.WhenAttacked | Piece.java:132-151 | with an attacker: the capture and escape tests, then the block walk, or-ed; the source runs the walk first, and the order does not change the verdict |
| Boards.Board.Block | Piece.java:133-145 | the block walk reports exactly the block test and changes no square |
| Boards.Board.CaptureAndEscape | Piece.java:146-151 | the capture test is the mover's rule onto the attacker; the escape test is kingCanEscape for the opponent |
| Boards.Board.MoveOnto | Piece.java:146-148 | the capture test equals the mover's rule onto the attacker's square |
| Boards.Board.KingMoveValid | Game.java:357-388 | equals kingMoveValid as a value: the verdict for the destination and the board it leaves |
| Boards.Board.KingScan | Game.java:368-384 | the loop over the opponent's pieces equals the scan's value |
| Boards.Board.KingStep | Game.java:369-383 | one opponent piece: a non-pawn is scanned with the king lifted, which is put back after; a pawn is scanned on the board as it stands; a piece listing the destination sets the verdict |
| Boards.Board.VacatedPass | Game.java:370-380 | a non-pawn piece scans the board with the king lifted and then puts it back |
| Boards.Board.PawnPass | Game.java:372-379 | a pawn is scanned on the board as it stands, with the king in place, and the board is left as it was |
| Boards.CaptureLoop | Board.java:215-227 | the loop over the pieces finds a capture exactly when the capture test holds |
| Boards.CaptureOrBlock | Board.java:148-154 | a pawn or knight attacker needs a capture; any other needs a capture or a block |
| Boards.Cornered | Board.java:146-159 | with no escape, the mate verdict follows the attacker's kind |
| Boards.BlockAttacker | Board.java:236-273 | equals the block test, read from the board's fields |
| Boards.BlockWalk | Piece.java:133-145 | the walk from the attacker towards the king reports a block exactly when the destination lies strictly between attacker and king (`Checks.Interposes`) |
| Boards.BlockLoop | Board.java:258-271 | the loop over the pieces finds a block exactly when the block test holds |
| Boards.BlockPiece | Board.java:259-270 | one piece of the block loop: its list is set and it blocks when canIntersectPath holds on a row or column attack |
| Boards.CanIntersectPath | Board.java:285-298 | a piece's stored squares meet the path strictly between attacker and king exactly when its move list does |
| Boards.IntersectWalk | Board.java:285-298 | the walk towards the king reports exactly whether the stored squares cover a square of the path |
| Boards.ScanFinds | Board.java:216-226 | a piece's list, freshly set, contains the square exactly when the rule accepts it |
| Boards.Refresh | Board.java:259 | setValidSquares inside a scan: the stored list is the move list of the piece, and the board and the other pieces stay as they were |
| Boards.ScanVacated | Game.java:370-379 | the same, on the board with the king's origin shown empty |
| Boards.TakeKing | Game.java:370-372 | the king's square shows empty and nothing else changes |
| Boards.PutKing | Game.java:381-382 | the king's origin shows the king again and the king keeps its coordinates; no other square changes |
| Boards.ScanPieces | Board.java:108-126 | the outer loop of isInCheck leaves the flags, count and attacker the check scan reports |
| Boards.CheckPiece | Board.java:109-125 | one piece of isInCheck scores one hit exactly when its list reaches the king |
| Boards.CountHits | Board.java:112-125 | the inner loop counts how often the king's square appears in the list |
| Boards.Visits | Board.java:216-226 | contains on a square list holds exactly when some square has those coordinates |
| Boards.RemoveIdentical | Board.java:53-75 | the loop of removePieceLogically removes the first identical element and keeps the rest in order |
| Layout.Blank | Board.java:304-321 | setupBoardLayout's board is empty on every square |
| Layout.ArrangeSnoc | Board.java:328-447 | placing one more piece changes only its square |
| Layout.SetupOrder | Board.java:328-385 | each colour's list is eight pawns in file order, then knight, knight, rook, rook, bishop, bishop, king, queen |
| Layout.SetupNext | Board.java:328-447 | each setup step lands on a square still empty |
| Layout.ArrangeAppend | Board.java:328-447 | placing two lists one after the other is placing their concatenation |
| Layout.WhiteLeavesBlackHome | Board.java:392-447 | the white setup leaves black's home columns empty |
| Layout.SetupKing | Board.java:328-447 | each colour has exactly one king, the fifteenth piece of its list, on (3,7) for white and (4,0) for black |
| Layout.SetupPlaced | Board.java:328-447 | each setup piece is on the board, on its own square, of its colour and unmoved |
| Layout.SetupApart | Board.java:328-447 | no two pieces of the two setups share a square |
| Layout.ArrangeCell | Board.java:328-447 | a square shows the setup piece placed on it, or its old cell when none is |
| Layout.OpeningLayout | Board.java:31-45 | the board the constructor builds is exactly the opening position |
| Layout.OpeningSymmetric | Board.java:328-447 | the opening is point-symmetric with colours swapped |
| Setups.SetupBoardLayout | Board.java:304-321 | a fresh grid of 64 fresh empty squares |
| Setups.SetupBoard | Board.java:31-45 | the grid shows the opening, and the lists hold the setup pieces in setup order |
| Setups.SetupPieces | Board.java:328-447 | one colour's pieces are created in setup order and placed on the grid |
| Setups.SetupPawns | Board.java:329-335 | the eight pawns are placed |
| Setups.SetupBackRank | Board.java:336-384 | the eight home-column pieces are placed |
| Setups.SetupStep | Board.java:328-447 | one more setup piece is created and placed |
| Setups.AddPiece | Board.java:328-447 | the new piece shows on its empty square and nothing else changes |
| Commits.CastleOutcome | Game.java:307-349 | castling fires exactly on an occupied square that passes the test, and throws exactly when the king starts on rows 6-7 moving up or row 1 moving down |
| Commits.CastleCrossed | Game.java:321-344 | a completed castling puts the king two rows from its origin towards the click and the rook on the row between, emptying the rest |
| Commits.CastledListKeeps | Game.java:321-344 | a completed castling keeps the same pieces in the list |
| Commits.CastleClear | Game.java:321-327 | both squares are emptied and the two pieces delisted |
| Commits.CastleSet | Game.java:328-342 | rook and king are set onto their rows |
| Commits.CastleEnlist | Game.java:343-344 | the king, then the rook, are appended to their list |
| Commits.CastleFire | Game.java:321-344 | equals the value of a castling that fires, and the list is the castled list |
| Commits.CastleLand | Game.java:328-344 | setting the pieces, throwing at the first row off the board |
| Commits.Castle | Game.java:307-349 | castling on the grid equals the castling value |
| Commits.DropOnce | Board.java:53-75 | once the piece is out of a list with one copy, removing it again changes nothing |
| Commits.EnPassantTakesDoubleStepper | Game.java:283-295 | en passant onto a double-stepping pawn's recorded square removes that pawn's square |
| Commits.EpRowStep | Game.java:288-295 | each row of the loop either takes the pawn or leaves everything |
| Commits.EpRowsDone | Game.java:288-295 | after both rows, the view and list are those of the spec |
| Commits.EnPassant | Game.java:278-299 | enPassant on the grid equals its spec: the view, the throw, and the previous piece taken out of its list once per row |
| Commits.EnPassantRows | Game.java:284-297 | the loop over the two rows meets the spec |
| Commits.EnPassantRow | Game.java:285-296 | one row of the loop meets the spec |
| Commits.EpTake | Game.java:288-295 | the take empties the square beside and delists the previous piece, or throws at column −1 |
| Commits.CommitMoves | Game.java:233-251 | without castling, the mover stands on the destination, captures exactly an occupant other than itself, and changes only origin, destination and the en-passant square |
| Commits.Relocate | Game.java:244-248 | the mover shows on the destination and stands there |
| Commits.Capture | Game.java:236-239 | the destination's occupant is removed from the square and from its list |
| Commits.Take | Game.java:236-243 | capture when the destination holds a piece and no castling, otherwise enPassant between two pawns |
| Commits.Finishing | Game.java:236-248 | the take and the relocation together meet the commit value |
| Commits.Land | Game.java:235-248 | the origin emptied, then the take and the relocation |
| Commits.Unseat | Game.java:323-324 | removeOccupying on one square: that square shows empty and no other changes |
| Commits.Seat | Game.java:329-330 | setOccupying: the square shows the piece alone, holds it, and the piece records the square |
| Commits.Repiece | Game.java:331-332 | movePiece: the piece records the square and the board shows the same |
| Commits.Raise | Game.java:333-334 | setIsOccupied on a held square: the board shows the same |
| Commits.Delist | Game.java:325-326 | removePieceLogically: the first occurrence leaves its colour's list, the other list is kept and the board shows the same |
| Commits.Enlist | Game.java:343-344 | addPieceLogically: the piece is appended to its colour's list alone and the board shows the same |
| Commits.CommitMove | Game.java:233-251 | the commit on the grid equals the commit value; the castle flag is set when castling fires and cleared when the clicked square is occupied and the test fails (Game.java:344-346); without castling or a throw the mover stands on the clicked square |
| Silly.DirectionOf | Game.java:444-460 | the draw picks Up, Down, Left or Right exactly for the scaled values 0, 1, 2, 3 |
| Silly.ShiftRotates | Game.java:469-609 | each shift rotates every row or column cyclically by one |
| Silly.RotationsKeepContents | Game.java:469-609 | a rotation keeps the multiset of cells, so a shift loses and duplicates nothing |
| Silly.SuccPred | Game.java:469-609 | stepping forward and back along a wrapped line cancels |
| Silly.ShiftUndone | Game.java:469-609 | the opposite shift undoes a shift |
| Silly.WrapLineFromOppositeEdge | Game.java:486-494 | the wrapped line holds the previous opposite edge's cells, in place; shiftDown, shiftLeft and shiftRight wrap the same way at Game.java:523-531, 560-568 and 598-606 |
| Silly.DemotedIsLower | Game.java:667-700 | demotion always yields a lower rank, never above a rook, and a pawn stays a pawn |
| Silly.DemotedReachesEveryLower | Game.java:685-698 | every lower rank is reachable by some draw |
| Silly.Candidates | Game.java:709-716 | the candidate indices lie on the line |
| Silly.CandidatesSpec | Game.java:709-716 | the candidates are exactly the non-king occupied squares of the line, in order |
| Shifts.ShiftLinesCells | Game.java:469-497 | after n lines, those lines hold their far neighbours' cells and the rest are unchanged |
| Shifts.ShiftLinesWhole | Game.java:469-497 | shifting all eight lines is the board shift |
| Shifts.LiftStored | Game.java:474-478 | lifting the edge piece is the store loop's start |
| Shifts.EmptyEdgeStored | Game.java:474-478 | an empty edge changes nothing when lifted |
| Shifts.StoredNext | Game.java:479-482 | each store pass empties one more square |
| Shifts.StoredMoved | Game.java:479-485 | the finished store loop is the start of the move loop |
| Shifts.MovedNext | Game.java:483-485 | each move pass sets one square from the stored piece beside it |
| Shifts.MovedLast | Game.java:486-494 | setting the wrapped piece completes the line's shift |
| Shifts.StoreWrapped | Game.java:640-661 | storeWrapped holds the square's piece in the buffer and empties the square |
| Shifts.SetOnto | Game.java:624-632 | a piece is set onto one square and stands there |
| Shifts.Reseat | Game.java:624-632 | the same for a held piece |
| Shifts.Stand | Game.java:624-632 | the piece's coordinates move without changing the board |
| Shifts.HoldingAt | Game.java:616-633 | the buffer holds exactly the pieces the line showed |
| Shifts.ShiftMid | Game.java:616-633 | one step of shiftMid sets the next square from the buffer |
| Shifts.HoldingNext | Game.java:640-661 | the buffer after one more store pass |
| Shifts.StoreLine | Game.java:479-482 | the store loop empties the line into the buffer |
| Shifts.StoreStep | Game.java:479-482 | one store pass |
| Shifts.ShiftMids | Game.java:483-485 | the shiftMid loop sets the line from the buffer |
| Shifts.PutLast | Game.java:486-494 | the wrapped piece is set on the far edge |
| Shifts.Lift | Game.java:474-478 | the edge piece is lifted off |
| Shifts.ShiftLine | Game.java:472-495 | one line of a shift on the grid equals its value, and keeps every occupant recording its own square |
| Shifts.ShiftRest | Game.java:479-494 | the rest of one line after the lift |
| Shifts.ShiftAll | Game.java:469-497 | a whole shift on the grid equals the board shift value, and a board whose occupants record their own squares keeps that property |
| Shifts.VacateSeated | Game.java:474-478 | emptying a square of a board whose occupants record their own squares keeps that, and its occupant then stands nowhere |
| Shifts.StoreApart | Game.java:479-482 | a store pass moves the square's occupant into the buffer, where no piece appears twice or on the board |
| Shifts.MidApart | Game.java:483-485 | a shiftMid pass sets a buffered piece on its new square, which it records, or empties the square |
| Pieces.SeatedAt | Game.java:624-632 | a board is seated exactly when every occupant records the square it stands on |
| Pieces.LayConsistent | MySquare.java:43-51 | a piece standing on two squares records the same position on both |
| Transforms.GenerateLowerHierarchyPiece | Game.java:667-700 | a fresh unmoved piece of the opposite colour and of the demoted kind |
| Transforms.CollectCandidates | Game.java:709-716 | the collected indices equal the candidates of the line |
| Transforms.AppendWhite | Game.java:726-728 | a white new piece is appended to the white list, as Game.java:760-762 also does for a row; the board shows the same |
| Transforms.Unmake | Game.java:722-723 | the old piece leaves its square (and, for a column, its list) |
| Transforms.Draw | Game.java:724-725 | the drawn replacement is fresh, unmoved, of the other colour and demoted kind |
| Transforms.ReplaceAt | Game.java:720-734 | the square shows the replacement and nothing else changes; the new piece stands on that square and records it |
| Transforms.ReseatAt | Game.java:720-734 | the replacement seen from the rest of the board: every occupant still records its own square |
| Transforms.CandidatesSeated | Game.java:709-716 | collecting the candidates leaves every occupant recording its own square |
| Transforms.Remake | Game.java:726-732 | the replacement is set onto the square, listed as the source lists it |
| Transforms.TransformLine | Game.java:708-769 | the grid equals the transformed value; no candidate leaves the lists unchanged; every occupant still records its own square |
| Transforms.SillyShift | Game.java:434-438 | a pawn capture changes nothing; otherwise the board becomes the transformed shift; either way every occupant still records its own square |
| Transforms.ShiftBoard | Game.java:444-460 | the board becomes the shift in the drawn direction followed by the demotion on the wrapped line, and every occupant still records its own square |
| Walks.OutwardStep | Board.java:285-298 | the as-written walk's position after t steps moves away from the king |
| Walks.OutwardNeverBetween | Board.java:285-298 | no square of the as-written walk is strictly between attacker and king, nor the king |
| Walks.OutwardHitsOffPath | Board.java:285-298 | whatever the as-written walk finds lies off the path |
| Walks.OffBoardFromEdge | Board.java:285-298 | from an attacker on the top edge the as-written walk never re-enters the board |
| Walks.FalseBlock | Piece.java:133-145 | the as-written block walk from (0,3) with the king on (7,3) reports a block for a move to (7,7), which blocks nothing |
| Walks.MissedIntersection | Board.java:285-298 | the as-written walk misses a piece that does cover a square of the path |
| Walks.MissedBlock | Piece.java:133-145 | the as-written block walk reports no block for a move onto the only square between |
| Walks.VacuousBlock | Piece.java:133-145 | the block loop turned towards the king, left as a test that every square between is the destination, passes every move under a check from the next square or from a knight, where no move interposes |
| Walks.BlockStaysFalse | Piece.java:133-145 | once the as-written walk meets an on-board square other than the destination, it reports no block |
| Walks.Int32 | Board.java:285-298 | Java's int addition: the value lies in the 32-bit range and differs from the exact sum by a multiple of 2^32 |
| Walks.WrappedMeets | Board.java:285-298 | a wrapped coordinate of the as-written walk meets the king's only after t + |a - k| is a multiple of 2^32 |
| Walks.WrappedWalkEndless | Board.java:285-298 | from an attacker whose row and column offsets differ and are non-zero, the as-written walk never reaches the king, even with 32-bit wrap-around |
| Walks.KnightCheckEndless | Piece.java:133-145 | the walk for a knight on (5,4) checking a king on (7,3) never ends |
| Walks.FalseBlock32 | Piece.java:133-145 | with 32-bit wrap-around the walk from (0,3) towards a king on (7,3) visits only squares off the board and then stops on the king, so the false block is reported |
| Games.OtherAlternates | Game.java:812-821 | two turn switches give the turn back |
| Games.OtherIsOpposing | Game.java:884-889 | the opponent's list is the list of the other colour |
| Games.CastlingNeverAccepted | Game.java:307-349 | castling fires only on a king of the mover's colour, which moveValidity would refuse: with the rook test as written, castling never fires |
| Games.ProtectorStep | Game.java:405-416 | one opponent piece of the protector scan: its list is set and it is an attacker when it reaches the king |
| Games.ProtectorAttackers | Game.java:404-417 | the scan with the protector lifted names the last attacker, and the protector is put back |
| Games.ProtectorScan | Game.java:403-427 | the move is safe exactly when there is no attacker or the protector's squares meet the attacker's path |
| Games.MoveGate | Game.java:228 | the moveValidity gate equals the move rule on the board's view |
| Games.StaleSelectionTakesOwn | Game.java:144-150 | a knight selected before restart accepts, on its own old board, the square that holds a white pawn on the new board, and the commit there takes that pawn |
| Games.FreshBoardRefuses | Game.java:228 | on the board restart builds, the same knight is refused that square |
| Games.LastGates | Game.java:228-231 | moveValidity and, while a check stands, whenInCheck, each equal to its value |
| Games.ScanChecks | Game.java:775-785 | black's scan, and white's only when black gives no check, report the check scans |
| Games.ScanSide | Game.java:776-784 | one side's scan reports its check scan |
| Games.MateSearch | Game.java:791-806 | the verdict and the board are gameOver's condition: white's search, then black's on the board white's leaves when white's finds no mate; a mate needs a check |
| Games.WhiteSearch | Game.java:792 | isCheckmate(white) equals the checkmate value, and it leaves the kings, lists and check fields black's search reads as they were |
| Games.BlackSearch | Game.java:792 | isCheckmate(black) on the board the first search left equals the checkmate value |
| Games.MateSide | Game.java:792 | one side's search equals the checkmate value |
| Games.CommitClick | Game.java:233-251 | the commit, then setFirstMove(false) unless a throw ended the click |
| Games.Retire | Game.java:249 | the moved piece is marked as moved |
| Games.NewBoard | Game.java:43-58 | a new board in the opening position with no check |
| Games.Game.constructor | Game.java:43-58 | white to move, nothing selected, basic mode, a new board in the opening position |
| Games.Game.Restart | Game.java:144-150 | a new opening board, white to move, the game running again |
| Games.Game.Adopt | Game.java:144-150 | the new board takes the old one's place |
| Games.Game.SillyMode | Game.java:169-172 | silly mode on and a restart |
| Games.Game.BasicMode | Game.java:191-194 | silly mode off and a restart |
| Games.Game.HandlePieceClick | Game.java:202-207 | with nothing selected, a piece of the player to move becomes the selection; otherwise the selection stays; the castle flag is cleared; it also holds after a mate, when an unlisted demoted piece still takes clicks |
| Games.Game.KingGate | Game.java:357-388 | the kingMoveValid gate equals its value |
| Games.Game.ProtectorGate | Game.java:399-429 | a king passes; another piece passes exactly when no attacker is uncovered or it stays on the attacker's path |
| Games.Game.Gates | Game.java:225-231 | a move the gates pass obeys the move rule on the board moveValidity reads; with the selection on its square that is the board before the click, and without a check the board comes back |
| Games.Game.EndGates | Game.java:228-231 | moveValidity equals the move rule on the board the first two gates left; without a check whenInCheck passes and the board stays |
| Games.Game.FirstGates | Game.java:225-227 | kingMoveValid's verdict and board, then notMovingAProtector's verdict and board on what the first left; the board comes back when the selection stands on its square |
| Games.Game.Move | Game.java:233-251 | unless it threw, the selection becomes the previous piece and is marked as moved, standing on the clicked square unless castling fired |
| Games.Game.SillyStep | Game.java:253-257 | a pawn capture changes nothing; otherwise the board becomes the transformed shift; every occupant still records its own square |
| Games.Game.UpdateCheck | Game.java:775-785 | the check state is recomputed and the board stays as it was |
| Games.Game.GameOver | Game.java:791-806 | the game ends exactly when gameOver's condition finds a mate, on the board its searches leave; a mate needs a check |
| Games.Game.Searches | Game.java:791-806 | the two searches on the game's board equal gameOver's condition |
| Games.Game.MateCheck | Game.java:259-262 | gameOver while a check stands: the game ends only in check |
| Games.Game.HandleSquareClick | Game.java:216-272 | no selection changes nothing; a refused move clears the selection and the castle flag and keeps the lists, and refused without a check it keeps the board; a made move passes the turn, and the game ends only in check |
| Games.Game.Attempt | Game.java:222-270 | the gates, then the move or the refusal: a refusal clears the selection and the castle flag and keeps the lists, and without a check it keeps the board; a made move passes the turn |
| Games.Game.Screen | Game.java:225-233 | a refused move clears the selection and the castle flag, a passed one keeps them; refused without a check, the board comes back when the selection stands on its square |
| Games.Game.Refuse | Game.java:266-269 | the selection and the castle flag are cleared and the board shows the same |
| Games.Game.Proceed | Game.java:233-264 | a move the gates passed either threw or was made and passed the turn |
| Games.Game.AfterMove | Game.java:253-264 | after a made move the turn passes, and the game ends only in check |
| Games.Game.Recheck | Game.java:253-258 | the silly shift after a capture, then the check recomputed |
| Games.Game.SwitchPlayer | Game.java:812-821 | the turn passes to the other colour |
| Games.Game.GetWhiteKing | Game.java:826-833 | the first king of the white list |
| Games.Game.GetBlackKing | Game.java:838-845 | the first king of the black list |
| Games.Game.GetCurrKing | Game.java:852-869 | the first king of the list of the player to move |

## Left out

- Rendering is not modelled: images, labels, panes, mouse handlers, the "Check!" and "Game Over" labels. App.java, PaneOrganizer.java and Constants.java are not part of this model, apart from the constants the rules read: board width, square width and the colour names.
- Math.random() becomes a `Unit` draw parameter `num/den` with `num < den`; the random number generator itself is left out.
- Exceptions are outcomes (`Aborted`, `Threw`). The model does not say what JavaFX does with the exception after the click ends.
- Java's 32-bit int wrap-around is modelled only for the as-written walks of canIntersectPath and whenInCheck (Board.java:285-298, Piece.java:133-145), in `Walks.Outward32`. Every other integer is unbounded; the other values the rules compute (coordinates, counts, list indices) stay far inside the 32-bit range. In Java, a walk from an attacker on a line through the king comes back round to the king after about 2^32 iterations. From a knight it never does (`Walks.WrappedWalkEndless`), so those loops never end. The model's walks step towards the king instead, and they return for every attacker: `Boards.Board.WhenInCheck`, `Boards.Board.Block`, `Boards.BlockWalk`, `Boards.CanIntersectPath`, `Boards.IntersectWalk`, `Games.ProtectorScan` and `Games.Game.ProtectorGate`. The block walk reports a block exactly when the destination lies strictly between attacker and king.
- A missing king: where the Java code would throw a NullPointerException, the king's square is `None` and nothing matches it. In particular whenInCheck finds no block without the current king (Piece.java:126 throws there), so only a capture or an escape lets a move through (`Checks.NoKingNoBlock`).
- getPrevSelectedPiece (Game.java:874-879) is a field read and has no member; getOppPlayer (Game.java:884-889) is `Games.Game.GetOppPlayer`, a function with no contract.
- Pieces.Piece.SetX: requires 0 ≤ x < 8·SQUARE_WIDTH, because the row is kept as a board coordinate; the source accepts any int.
- Pieces.Piece.SetY: requires 0 ≤ y < 8·SQUARE_WIDTH, for the same reason.
- Games.Game.Attempt: states the board after a refused move only when no check stands and the selection stands on its own square. With a check, the board is the one whenInCheck's escape search leaves, stated by `Boards.Board.WhenInCheck`. kingMoveValid and notMovingAProtector do not put back a selection that is off its own square, nor a protector scanned against an empty opponent list; that board is stated by `Games.Game.FirstGates`.
- Games.Game.Screen: states the board after a refusal under the same two conditions as `Games.Game.Attempt`, for the same reason.
- Games.Game.HandleSquareClick: states the selection, the turn, the end of the game and the lists on a refusal, and the board on a refusal under the same two conditions as `Games.Game.Attempt`. The board after a made move is stated by `Commits.CommitMove` and `Transforms.SillyShift`, not restated here.
- Games.Game.Gates: states that a passing move obeys the move rule. The verdicts of the other gates are stated by `Games.Game.KingGate`, `Games.Game.ProtectorGate` and `Games.LastGates`, not restated as one conjunction.
- Games.Game.Move: states the selection and where the mover ends up. The board is stated by `Commits.CommitMove`.
- Games.Game.UpdateCheck: states that the board is kept. The flags are stated by `Games.ScanChecks`.
- Games.Game.Restart: states the new board and the turn. The kept selections are not restated.
- Games.Game.KingGate: a selection kept across restart is judged on the game's new board. In Java the kept king's canCastle reads the board the king was built with (Piece.java:19, 40; King.java:61-93). See "## Findings".
- Games.Game.FirstGates: a kept selection's kingMoveValid runs as `Games.Game.KingGate` does, on the new board, not on the king's own one.
- Games.Game.EndGates: a kept selection's moveValidity and whenInCheck read the game's new board. In Java they read the piece's own old board (Piece.java:97-102).
- Games.MoveGate: for a kept selection, judges on the new board where Java reads the piece's old one; `Games.StaleSelectionTakesOwn` shows what Java does instead.
- Games.LastGates: the same gap as `Games.MoveGate`, for moveValidity and whenInCheck.
- Games.Game.Gates: for a kept selection, the gates judge on the new board, not on the piece's own one.
- Games.Game.Attempt: for a kept selection, the gates judge on the new board. Java can pass a move the model refuses there, such as a capture of a piece of the mover's own colour.
- Games.Game.Screen: the verdict for a kept selection uses the new board, as in `Games.Game.Attempt`.
- Games.Game.HandleSquareClick: a kept selection is judged on the new board, as in `Games.Game.Attempt`.
- Commits.CommitMove: states the board and flags. The two piece lists after a capture or castling are stated by `Commits.Capture` and `Commits.CastleFire`.
- Commits.Castle: states the board. The list bookkeeping is stated by `Commits.CastleFire`.
- Transforms.TransformLine: states the board. It states the lists only when there is no candidate.
- Transforms.ReplaceAt: states the board. It does not restate the lists.
- whenInCheck runs the block walk first, then capture, then escape (Piece.java:137-151). `Boards.Board.WhenAttacked` runs capture and escape first and the block walk last. The walk only reads coordinates taken beforehand, and the three flags are or-ed, so the verdict and the board are the same.
- Concurrency and the JavaFX event thread are left out.

## Findings

| source | as written | input that shows it | evidently intended | confidence | as-written member | corrected member |
|---|---|---|---|---|---|---|
| Board.java:285-298 | canIntersectPath steps by Integer.compare(attacker, king), away from the king, so it never visits a square between attacker and king | attacker (0,3), king (5,3), a piece whose list holds (2,3): the walk visits (-1,3), (-2,3), … and never (2,3); in Java it wraps round through (7,3) and (6,3) and stops on the king | visit the squares strictly between attacker and king | not executed | Walks.MissedIntersection | Boards.IntersectWalk |
| Piece.java:133-145 | whenInCheck's block walk also steps away from the king | attacker (2,3), king (4,3), a move to (3,3), the only square between: the walk's first square (1,3) is on the board and not the destination, so no block is reported | a block holds when the destination lies strictly between attacker and king (`Checks.Interposes`) | not executed | Walks.MissedBlock | Boards.BlockWalk |
| Piece.java:133-145 | whenInCheck's block walk from an attacker on the edge only visits squares off the board, so block stays true | attacker (0,3), king (7,3), a move to (7,7): after 2^32 - 8 squares off the board the wrapped walk stops on the king, and a block is reported although the move blocks nothing | the same as the row above | not executed | Walks.FalseBlock32 | Boards.BlockWalk |
| Piece.java:133-145 | for a knight's check the walks of whenInCheck and canIntersectPath (Board.java:285-298) never reach the king's square, since the row and the column would have to wrap round at the same step | knight on (5,4), king on (7,3): every click with a selection while that check stands hangs, in whenInCheck (Game.java:229-230) if not already in notMovingAProtector's canIntersectPath | the walks return: off a line through the king no square lies between, so canIntersectPath reports no intersection (`Boards.IntersectWalk`) and no move blocks. Turning the walk round alone would pass every move under a knight's or an adjacent check (`Walks.VacuousBlock`) | not executed | Walks.KnightCheckEndless | Boards.BlockWalk |
| Game.java:144-150 | restart keeps selectedPiece, and the kept piece still judges its moves on the board it was built with (Piece.java:19, 40) | white moves its pawn from (3,6) to (3,4), black replies, white selects the knight on (1,7), restarts and clicks (3,6): on the knight's old board (3,6) is empty, so the move passes, and the commit takes white's own new pawn off (3,6) | a move is judged on the board the game is played on, so the knight is refused its own pawn's square | not executed | Games.StaleSelectionTakesOwn | Games.FreshBoardRefuses |
