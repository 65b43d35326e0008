# Chess-Game rules in Dafny

The repository holds two independent chess rule engines, and this project models both.

**The object engine** (`chess/piece.py`, `chess/board.py`, `chess/game.py`, `chess/ai.py`):
- pieces with their own pseudo-legal move generators;
- a `Board` with an 8x8 grid, move application, capture bookkeeping, copy and check test;
- a `ChessGame` turn state machine, which filters moves by playing them on a copy, promotes pawns to queens and detects checkmate and stalemate;
- a `ChessAI` that collects every legal move and evaluates material.

**The tuple engine** (`chess.py`):
- a board of `(sign, value, colour)` triples with `(0, 0, 3)` as the empty square;
- per-piece movement tests, path tests along lines and diagonals, and hand-written check detection;
- `is_move_valid`, which plays the move on a copy;
- the brute-force `action_space`, checkmate and draw tests, the status-code entry point `move_api`, the moves of the random and search players, `get_score`, and the bounded random search `MCTS`.

Each engine is modelled in its own form:
- Everything the source updates in place is a class: `Board`, `ChessGame` and `ChessAI` (modules `Boards`, `Games`, `Ai`), and `TupleGame` (module `TupleGames`, holding `BoardHumanVHuman` together with the methods of `RandomVRandom` and `AIVMCTS`).
- Each method keeps the source's loops and is proved equal to a pure specification function (modules `Pieces`, `Boards`, `Games`, `Ai`, `TupleRules`, `Rollouts`).
- Lemmas state what those functions mean.

Randomness is a parameter:
- `ChessAI.get_move` receives the index it picks.
- The tuple engine's players receive `draw: nat -> nat`. The k-th call of `random_action` picks index `draw(k) % n` of the action space.

Copies (`Board.copy`, `copy.deepcopy`) are values.

## Model

| member | source | states |
|---|---|---|
| Pieces.At | chess/board.py:47-52 | get_piece answers None for every square off the board |
| Pieces.PawnPossibleMoves | chess/piece.py:26-50 | builds exactly the pawn's list: forward step(s), then the captures towards column -1 and +1 |
| Pieces.PawnMovesSpec | chess/piece.py:29-48 | a pawn destination is the empty on-board square one row forward, the square two rows forward when the pawn has not moved and both squares are empty, or a diagonal forward square holding a piece of the other colour, and nothing else |
| Pieces.KeepReachable | chess/piece.py:68-74 | the candidate loop keeps, in order, the candidates that are on the board and not friendly |
| Pieces.ReachableMembers | chess/piece.py:68-72 | a candidate is kept exactly when it is on the board and holds no friendly piece |
| Pieces.KnightPossibleMoves | chess/piece.py:56-74 | the knight's list is the candidate filter over its eight jumps in the source's order |
| Pieces.KnightMovesSpec | chess/piece.py:61-72 | knight destinations are exactly the on-board (±1,±2)/(±2,±1) jumps that are empty or hold an enemy piece |
| Pieces.KingPossibleMoves | chess/piece.py:164-181 | the king's list is the candidate filter over the eight neighbours in the source's direction order |
| Pieces.KingMovesSpec | chess/piece.py:169-179 | king destinations are exactly the on-board squares at Chebyshev distance one that are not friendly |
| Pieces.SlidingMoves | chess/piece.py:80-101 | the direction loop with its inner ray loop and breaks (shared by bishop, rook and queen) builds the concatenation of the rays |
| Pieces.RayMembers | chess/piece.py:87-99 | a ray holds a square exactly when every earlier step is empty and on the board and the square is not friendly |
| Pieces.SlideMembers | chess/piece.py:114-126 | from a square on the board, a ray reaches t exactly when t is k steps away, every square strictly between is empty and t is not friendly: the ray stops before a friendly piece and includes the first enemy |
| Pieces.QueenIsRookPlusBishop | chess/piece.py:139-156 | the queen's list is the rook's list followed by the bishop's, so as a set it is their union |
| Pieces.GetPossibleMoves | chess/piece.py:11-13 | the dispatch on the piece's class returns that class's generator |
| Pieces.IsValidMove | chess/piece.py:15-17 | is_valid_move holds exactly when the target is among the possible moves |
| Pieces.PossibleMovesOnBoard | chess/piece.py:36-40 | every generated destination is on the board, given that unmoved pawns stand on their home row (the double step itself is not bounds-checked) |
| Pieces.PossibleMovesCongruent | chess/piece.py:26-50 | the generators read other squares only through their colour: boards with the same colours give the same moves |
| Boards.Board.constructor | chess/board.py:8-12 | a new board holds the initial position, with empty capture lists and no last move |
| Boards.Board.Blank | chess/board.py:149-155 | the board copy starts from an empty grid |
| Boards.Board.PlaceBackRank | chess/board.py:17-24 | writes rook, knight, bishop, queen, king, bishop, knight, rook on one row; other rows unchanged |
| Boards.Board.PlacePawns | chess/board.py:26-27 | writes eight unmoved pawns on one row; other rows unchanged |
| Boards.Board.SetupInitialPosition | chess/board.py:14-40 | rows 0, 1, 6 and 7 are set and rows 2-5 keep what they held |
| Boards.InitialLayout | chess/board.py:14-40 | black on rows 0-1, white on rows 6-7, pawns on rows 1 and 6, kings on column 4, queens on column 3, rows 2-5 empty, nothing moved |
| Boards.Board.MovePiece | chess/board.py:54-109 | an empty origin answers False and changes nothing; otherwise the tag effect, the capture record, the move with has_moved set, and last_move, with the board invariant kept |
| Boards.MovedKeepsPawnsHome | chess/board.py:95-100 | moving a piece keeps every unmoved pawn on its home row |
| Boards.MovedGridSpec | chess/board.py:95-100 | after a plain move the destination holds the piece marked moved, the origin is empty and every other square is unchanged |
| Boards.EnPassantSpec | chess/board.py:64-71 | the en_passant tag empties the square on the origin's row and the destination's column and touches nothing else |
| Boards.CastleSpec | chess/board.py:73-88 | the castle tags move the rook from column 7 to 5 or from 0 to 3 on the origin's row, marked moved |
| Boards.CapturedSpec | chess/board.py:90-93 | a piece on the destination is appended to the captured list of its own colour and the other list is unchanged; an empty destination records nothing |
| Boards.Board.GetAllPieces | chess/board.py:111-119 | the scan returns the squares of the pieces of that colour in row-major order |
| Boards.PiecesOfMembers | chess/board.py:111-119 | a square is listed exactly when it holds a piece of that colour |
| Boards.Board.FindKing | chess/board.py:121-128 | the scan returns the first king of that colour in row-major order |
| Boards.KingSquareSpec | chess/board.py:121-128 | None exactly when there is no king of that colour, otherwise a king with no king of that colour before it |
| Boards.Board.IsSquareAttacked | chess/board.py:130-137 | the loop answers whether some piece of the attacking colour has the square among its possible moves |
| Boards.AttackedSpec | chess/board.py:130-137 | attacked exactly when some square holds an attacker's piece whose possible moves include the square |
| Boards.AttackedAsWritten | chess/board.py:130-137 | the call as written raises exactly when the attacking colour has a piece, and otherwise agrees with the corrected test |
| Boards.InitialCheckRaises | chess/board.py:139-145 | in the initial position the white king is found on (7, 4) and the attack test as written raises |
| Boards.Board.IsInCheck | chess/board.py:139-145 | False without a king of that colour, else whether its square is attacked by the other colour |
| Boards.InCheckCongruent | chess/board.py:139-145 | whether a colour is in check depends only on the colours of the squares, the colour's kings and the other colour's pieces |
| Boards.Board.Copy | chess/board.py:147-166 | a fresh board with the same kind, colour and has_moved on every square, the same capture lists and last move |
| Games.ChessGame.constructor | chess/game.py:8-15 | initial position, white to move, game not over, no winner, no selection, empty history |
| Games.ChessGame.SelectPiece | chess/game.py:17-28 | succeeds exactly on a piece of the player to move and then stores its legal moves; otherwise clears the selection |
| Games.ChessGame.GetLegalMoves | chess/game.py:30-39 | the possible moves that pass is_move_legal, in their order |
| Games.LegalMovesSpec | chess/game.py:30-39 | a square is a legal move exactly when it is a possible move on the board that does not leave the player in check |
| Games.ChessGame.IsMoveLegal | chess/game.py:41-48 | plays the plain move on a copy and answers whether the player is then not in check; the game's board is not written |
| Games.ChessGame.MakeMove | chess/game.py:50-79 | rejected with all state unchanged unless the origin holds the mover's piece and the move does not leave the mover in check; on acceptance the board, captures, last move, history, player, selection and game-over state are as the source sets them |
| Games.ChessGame.PlayMove | chess/game.py:60-68 | the move is played and recorded, a pawn on its last row is promoted, and the mover is not in check afterwards |
| Games.Promoted | chess/game.py:81-89 | whatever stands on the square becomes a queen of its colour marked moved; an empty square is left alone |
| Games.ChessGame.PromotePawn | chess/game.py:81-89 | the board invariant is kept and the grid is the promoted grid |
| Games.PromotedKeepsPawnsHome | chess/game.py:81-89 | promotion keeps every unmoved pawn on its home row |
| Games.PromotionKeepsCheck | chess/game.py:64-68 | promoting one's own pawn does not change whether one is in check |
| Games.ChessGame.SearchLegalMove | chess/game.py:94-100 | the loop answers whether some piece of the player to move has a legal move |
| Games.HasLegalMoveSpec | chess/game.py:94-102 | the player has a legal move exactly when some own piece has a possible on-board move that does not leave them in check |
| Games.ChessGame.CheckGameOver | chess/game.py:91-109 | with no legal move the game is over, won by the other colour when in check and drawn otherwise; with one nothing changes |
| Games.ChessGame.IsCheck | chess/game.py:111-113 | whether the player to move is in check |
| Ai.ChessAI.constructor | chess/ai.py:12-13 | the AI plays the given colour |
| Ai.ChessAI.GetMove | chess/ai.py:15-39 | None exactly when the collected list is empty, else the entry at the injected index |
| Ai.AllMovesSpec | chess/ai.py:29-32 | a pair is collected exactly when its origin holds a piece of the AI's colour and its destination is among that piece's legal moves |
| Ai.NoMoveSpec | chess/ai.py:34-35 | get_move returns None exactly when no piece of the AI's colour has a legal move |
| Ai.NoMoveIsGameOver | chess/ai.py:25-35 | when the AI is to move, it finds no move exactly when check_game_over finds none |
| Ai.ChessAI.EvaluatePosition | chess/ai.py:41-73 | the grid loop computes the evaluation |
| Ai.EvaluationIsBalance | chess/ai.py:53-71 | the evaluation is the AI's material minus the other colour's, with pawn 1, knight 3, bishop 3, rook 5, queen 9, king 0 |
| Ai.EvaluationAntisymmetric | chess/ai.py:68-71 | evaluating for the other colour negates the evaluation |
| Ai.EvaluationUpdate | chess/ai.py:62-71 | changing one square changes the evaluation by the difference of that square's contributions |
| Ai.KingsCountNothing | chess/ai.py:59 | removing a king leaves the evaluation unchanged |
| TupleRules.Code | chess.py:17-18 | white's colour code is 0 and black's is 1 |
| TupleRules.BlankBoard | chess.py:150-151 | every cell is the empty triple |
| TupleRules.ListedPath | chess.py:354-357 | a list of exactly the squares between two aligned squares is all free precisely when the path between them is clear |
| TupleRules.PathSymmetric | chess.py:322-366 | the squares between two aligned squares are clear seen from either end |
| TupleRules.KingMoveLegal | chess.py:462-484 | the king test never answers True: it answers False or falls off the end with None, and None exactly for a step of at most one row and one column onto a square the mover does not hold, not next to the other king |
| TupleRules.LastKingSpec | chess.py:88-91 | the scan's king is the last one of that colour in row-major order, and there is one exactly when that colour has a king on the board |
| TupleRules.CellsOfMembers | chess.py:88-99 | the scan lists exactly the squares holding that triple |
| TupleRules.HitCells | chess.py:102-116 | a loop over the scanned squares of a piece finds an attacker exactly when some square holding that piece passes the test |
| TupleRules.AttackGivesCheck | chess.py:102-148 | a non-king piece whose movement test reaches the other king's square makes the check test of that side answer True |
| TupleRules.KingKept | chess.py:559-574 | relocating one of the mover's pieces onto a square the mover does not hold leaves the mover a king |
| TupleRules.MoveValidSafe | chess.py:487-576 | a valid move starts on the mover's piece, does not land on one, never stays put, and does not leave the mover in check |
| TupleRules.ActionSpaceMembers | chess.py:578-595 | the action space holds exactly the valid moves between two different squares |
| TupleRules.Sampled | chess.py:609-616 | the draw picks an element of the list; None (the source raises) exactly when the list is empty |
| TupleRules.CheckmateSpec | chess.py:597-601 | checkmate exactly when the mover is in check and no move between two squares is valid |
| TupleRules.CheckmateIsDrawn | chess.py:621-628 | every checkmate is also reported as a draw |
| TupleRules.Promoted | chess.py:702-708 | the cell changes only for a white pawn reaching row 7 or a black pawn reaching row 0, and then becomes a queen of its colour |
| TupleRules.PlayOrder | chess.py:792-808 | manual_move and move_api produce the same board for a real move: origin emptied, destination holds the (promoted) piece, nothing else changes; on a null move manual_move deletes the piece and move_api keeps it |
| TupleRules.ScoreUpdate | chess.py:817-824 | changing one square changes the score by the black value it adds minus the black value it removes |
| TupleRules.InitialLayout | chess.py:59-80 | white on rows 0-1, black on rows 6-7, rows 2-5 empty, kings on column 4, queens on column 3, pawns on rows 1 and 6 |
| TupleRules.InitialKings | chess.py:59-80 | the initial position has its kings on (0, 4) and (7, 4) |
| TupleRules.InboundsAdmitsOffBoard | chess.py:392-398 | the bounds test as written accepts the destination (8, 0) |
| TupleRules.InboundsDifference | chess.py:392-398 | the test as written and the corrected one differ exactly on destinations beyond row 7 |
| TupleRules.ApiPlaysActions | chess.py:685-716 | move_api answers 0 exactly for the moves of the action space |
| Rollouts.SearchChosenMember | chess.py:860-919 | every move the search returns is in the action space of the position it started from |
| Rollouts.SearchChosenValid | chess.py:860-919 | the move MCTS returns is a valid move between two squares on the board |
| Rollouts.NoActionRaises | chess.py:871 | with no valid move the search raises |
| Rollouts.RoundHandsOver | chess.py:891-908 | a depth round that continues leaves both kings on the board and consumes draws; the searcher is to move again, unless the other side has no move, and then the next round raises |
| Rollouts.DeepSettles | chess.py:891-908 | a depth loop that ends without checkmate or exception leaves both kings on the board, with the searcher to move or no move left |
| Rollouts.BlackTrialScoresZero | chess.py:911-914 | for the black searcher a scored trial scores 0, unless it ended with white to move and no white move |
| TupleGames.TupleGame.constructor | chess.py:7-57 | the initial board, white to move, turn 0 of at most 300, and the search's depth and width |
| TupleGames.TupleGame.Copy | chess.py:868 | the copy has the same board, turn, counters and search parameters |
| TupleGames.TupleGame.MakeBoard | chess.py:59-80 | the board is the initial position |
| TupleGames.TupleGame.PlaceColumn | chess.py:62-78 | fills one column with its initial cells and leaves the others unchanged |
| TupleGames.TupleGame.IsFree | chess.py:221-225 | true exactly when the square holds the empty triple |
| TupleGames.TupleGame.IsOnLineAndFree | chess.py:322-366 | true exactly when both squares share a row or a column, the squares between are free and the destination is not the mover's |
| TupleGames.TupleGame.LineSquares | chess.py:331-351 | lists, in order, exactly the squares strictly between the two squares |
| TupleGames.TupleGame.AllFree | chess.py:354-357 | true exactly when every listed square is free |
| TupleGames.TupleGame.NotOwnedByMover | chess.py:359-364 | true exactly when the destination does not carry the mover's colour code |
| TupleGames.TupleGame.IsOnDiagonalAndFree | chess.py:253-319 | true exactly when the squares share a diagonal, the squares before the destination are free and the destination is not the mover's |
| TupleGames.TupleGame.DiagonalSquares | chess.py:265-284 | the seven squares along the diagonal chosen by the direction branches |
| TupleGames.DiagonalListed | chess.py:286-288 | the destination is on the listed diagonal exactly when it differs from the origin, and then the list runs towards it |
| TupleGames.TupleGame.OnBoardUpTo | chess.py:290-299 | keeps the listed squares up to and including the destination |
| TupleGames.TupleGame.FreeThenTarget | chess.py:300-316 | true exactly when all but the last kept square are free and the destination is not the mover's |
| TupleGames.TupleGame.IsKingsInProximity | chess.py:227-251 | with the mover's king placed on the destination, it would neighbour the other king |
| TupleGames.TupleGame.ScanForCheck | chess.py:84-99 | the scan yields the last king of the side and the squares of the other side's rooks, queens, bishops and knights |
| TupleGames.TupleGame.ScanRow | chess.py:89-99 | one row of the elif chain extends each list by that row's squares |
| TupleGames.TupleGame.FirstHit | chess.py:102-116 | the loop over attacker squares answers the line or diagonal test |
| TupleGames.TupleGame.PawnCheck | chess.py:119-125 | an enemy pawn stands on one of the two squares diagonally in front of the king |
| TupleGames.TupleGame.KnightCheck | chess.py:127-147 | some enemy knight stands on the king's knight ring |
| TupleGames.TupleGame.IsInCheck | chess.py:82-148 | the check test of the given side, as is_white_check and is_black_check compute it |
| TupleGames.TupleGame.IsPawnMoveLegal | chess.py:410-440 | the pawn test: double step from the start row over two free squares, single step onto a free square, diagonal onto the other colour |
| TupleGames.TupleGame.IsKnightMoveLegal | chess.py:442-460 | the knight test: two rows and one column onto anything, one row and two columns onto a square the mover does not hold |
| TupleGames.TupleGame.IsKingMoveLegal | chess.py:462-484 | the king test, with its None result |
| TupleGames.TupleGame.PieceRuleTest | chess.py:524-557 | the movement test of the sign on the origin; queens fail only when both path tests fail, and kings only on an explicit False |
| TupleGames.TupleGame.CheckAfterMove | chess.py:559-574 | whether the mover is in check on a copy with the piece relocated |
| TupleGames.TupleGame.IsMoveValid | chess.py:487-576 | the move is valid as defined, including the early test when the mover is already in check |
| TupleGames.TupleGame.ActionSpace | chess.py:578-595 | the four nested loops produce the action space in the source's order |
| TupleGames.TupleGame.TargetsFrom | chess.py:582-593 | the valid moves from one origin, skipping the origin itself |
| TupleGames.TupleGame.IsCheckmate | chess.py:597-601 | checkmate of the side to move |
| TupleGames.TupleGame.ChangeTurn | chess.py:603-607 | the side to move flips |
| TupleGames.TupleGame.IsGameDrawn | chess.py:621-628 | drawn exactly when the turn counter reached the limit or no move is valid |
| TupleGames.TupleGame.SetBoard | chess.py:630-633 | the board becomes the given one |
| TupleGames.TupleGame.MoveApi | chess.py:685-716 | code 1 for a coordinate outside 0..7 or a null move, 2 for an invalid move, both with no state change; 0 with the move played, promotion, turn flipped and counter incremented |
| TupleGames.TupleGame.PlayFromOrigin | chess.py:700-710 | the origin is emptied, then the (promoted) piece is written on the destination |
| TupleGames.TupleGame.ManualMove | chess.py:843-858 | the (promoted) piece is written on the destination, then the origin is emptied; turn flips and the counter increments |
| TupleGames.TupleGame.RandomAction | chess.py:609-616 | the drawn element of the action space, None when it is empty |
| TupleGames.TupleGame.RandomMove | chess.py:826-841 | plays the drawn action as move_api would, or leaves the game unchanged when there is none |
| TupleGames.TupleGame.GetScore | chess.py:817-824 | the total value of the black cells when white is to move, else 0 |
| TupleGames.TupleGame.FindKings | chess.py:229-234 | the last white and last black king in row-major order |
| TupleGames.TupleGame.KingsPresent | chess.py:88-91 | whether both kings are on the board |
| TupleGames.TupleGame.PlayRound | chess.py:891-908 | one round of the depth loop, with the game left in the position the round hands on |
| TupleGames.TupleGame.PlayDepth | chess.py:891-908 | the whole depth loop; when it settles, the game holds the position to score |
| TupleGames.TupleGame.PlayTrial | chess.py:868-914 | one trial from the base action on the copy |
| TupleGames.TupleGame.Mcts | chess.py:860-919 | the width loop over fresh copies, keeping the best score and move, with the random fallback |

## Left out

- The GUI and drivers are not part of this model: `chess/gui.py`, `pygame_viz.py`, `main.py`, `humanVrandom.py`, the `move()` methods that read the console, `print_board`, `is_input_int` and `make_board_from_json`. They are I/O.
- `model.py` and `montecarlo.py` are not part of this model. The first is a neural network stub; the second cannot run.
- `ChessGame.get_game_status` only formats strings.
- Randomness: `random.choice` and `random.randint` become an injected index and the `draw` sequence.
- Object identity: piece objects are values, and a piece's `position` is the square that holds it.
  - Aliasing between a board and its copy is not modelled.
  - Neither is the sharing of piece objects with `captured_pieces` and `last_move`.
  - `get_all_pieces` returns squares rather than piece objects.
- `copy.deepcopy` of the tuple game is a value copy (`TupleGame.Copy`).
- Boards.Attacked: the keyword mismatch of `is_square_attacked` is read as "in the piece's possible moves"; `AttackedAsWritten` keeps the raising call (see Findings).
- `future_board` is never read by the rules and is not modelled.
- TupleGames.TupleGame.IsGameDrawn: the no-op lines 626-627 compute nothing and are omitted.
- Missing kings in the tuple engine. Each check test reads only the king of the side it tests, and raises `UnboundLocalError` when that king is missing (chess.py:88-91 for black, chess.py:159-163 for white). `is_kings_in_proximity` reads the other side's king (chess.py:227-238). It is called only for a king move that passes the step and own-square tests (chess.py:465-471, 476-482). So in `is_move_valid`:
  - the own-origin and own-destination rejections read no king;
  - every move past them reaches the mover's check test (chess.py:505-521), so it needs the mover's king;
  - the other side's king is needed only for a king move.
  The members below require both kings on the board (`KingsOnBoard`), which is more than the source needs. With the other side's king missing, the source still judges every non-king move. With no king at all, it still rejects a move from a square the mover does not hold, or onto one it does. The members are:
  - TupleGames.TupleGame.IsMoveValid
  - TupleGames.TupleGame.ActionSpace
  - TupleGames.TupleGame.IsCheckmate
  - TupleGames.TupleGame.MoveApi
  - TupleGames.TupleGame.RandomAction
  - TupleGames.TupleGame.RandomMove
  - TupleGames.TupleGame.Mcts
- TupleGames.TupleGame.MoveApi: needs both kings even for coordinates it rejects with code 1 before any check test.
- Rollouts.Search: a position reached inside a trial with a king missing is reported as `Raised`. The search tests for kings with `KingsPresent`, a test the source does not make; there, the next check test raises.
- Boards.Board.MovePiece: requires the destination to be on the board, which `move_piece` never checks (chess/board.py:91-99). A row or column of 8 or more raises `IndexError` at chess/board.py:96. A row or column of -1 wraps around to 7 and overwrites that square without recording a capture (`get_piece` answers None off the board); the piece's `position` is then left off the board. Neither behaviour is modelled. Every caller in the repository passes a square the piece generated, and `PossibleMovesOnBoard` shows such squares are on the board.
- Games.ChessGame.IsMoveLegal: requires the destination to be on the board, which `is_move_legal` passes unchecked to `move_piece` (chess/game.py:45); the off-board behaviour above is not modelled.
- Games.ChessGame.MakeMove: requires the destination to be on the board, which `make_move` passes unchecked to `is_move_legal` and `move_piece` (chess/game.py:57, 61); the off-board behaviour above is not modelled.
- Games.ChessGame.PlayMove: requires the destination to be on the board, for the same reason as MakeMove, whose accepting branch it is.
- TupleGames.TupleGame.SetBoard: takes a board of triples, not the dictionary of lists that `set_board` converts.
- TupleGames.TupleGame.IsInCheck: `is_white_check` and `is_black_check` are one method with the side as a parameter. They differ only in the colours and the pawn direction.
- TupleGames.TupleGame: `RandomVRandom.manual_move` and `AIVMCTS.manual_move` are the same code, modelled once by `ManualMove`.
- TupleGames.TupleGame.RandomMove models both `RandomVRandom.move` and `AIVMCTS.random_move`, which are the same code.
- Rollouts.Round: the action-space test that ends the depth loop's body (chess.py:906-908) is omitted. Its `continue` is the last statement, so the test changes nothing; a missing king, which would make it raise, is already reported by the test before it.
- Integer widths do not arise: Python integers are unbounded, and so are Dafny's.

## Findings

| source | as written | input that shows it | evidently intended | confidence | as-written member | corrected member |
|---|---|---|---|---|---|---|
| chess.py:396 | `next_row >= 0 and next_column < 8` never tests `next_row < 8` | move (0, 0) to (8, 0) passes the bounds test and then indexes row 8 | `next_row < 8`, as `move_api` tests | high, not executed | TupleRules.InboundsAdmitsOffBoard | TupleRules.InboundsDifference |
| chess/board.py:135 | `get_possible_moves(self, for_attack_check=True)` while every `get_possible_moves` takes only `board` | `is_in_check('white')` on the initial board raises `TypeError` | the square is among the attacking piece's possible moves | high, not executed | Boards.AttackedAsWritten | Boards.AttackedSpec |
