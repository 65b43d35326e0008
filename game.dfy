/**
 * The turn state machine of the object engine (chess/game.py): selection,
 * legal-move filtering by simulation on a board copy, move application with
 * promotion to queen, and checkmate / stalemate detection.
 */
module Games {
  import opened Wrappers
  import opened Pieces
  import opened Boards

  /** One move_history entry: origin, destination and the kind of the piece that moved. */
  datatype HistoryEntry = HistoryEntry(from: Square, to: Square, kind: Kind)

  /**
   * The grid is_move_legal inspects: the plain move played on a copy, or no
   * change for an empty origin.  Destinations off the board are never asked
   * (every possible move is on the board); for them the grid is left as it is.
   */
  function TestGrid(g: Grid, from: Square, to: Square): Grid
  {
    if At(g, from).Some? && OnBoard(to) then MovedGrid(g, from, to, NoSpecial) else g
  }

  /** is_move_legal: after the move, player's king is not in check (MoveLegalDef states the definition). */
  predicate MoveLegal(g: Grid, player: Color, from: Square, to: Square)
  {
    MoveLegalAfter(g, player, from, to, 1)
  }

  /** MoveLegal behind k trivial recursion steps, expanded only where MoveLegalDef is called (as LegalMovesAfter). */
  predicate MoveLegalAfter(g: Grid, player: Color, from: Square, to: Square, k: nat)
  {
    if k == 0 then !InCheck(TestGrid(g, from, to), player) else MoveLegalAfter(g, player, from, to, k - 1)
  }

  lemma MoveLegalDef(g: Grid, player: Color, from: Square, to: Square)
    ensures MoveLegal(g, player, from, to) == !InCheck(TestGrid(g, from, to), player)
  {
    assert MoveLegalAfter(g, player, from, to, 1) == MoveLegalAfter(g, player, from, to, 0);
  }

  /** The moves of the list that pass is_move_legal, in their order. */
  function LegalFilter(g: Grid, player: Color, from: Square, moves: seq<Square>): seq<Square>
  {
    if moves == [] then []
    else
      var t := moves[|moves| - 1];
      LegalFilter(g, player, from, moves[..|moves| - 1]) + (if MoveLegal(g, player, from, t) then [t] else [])
  }

  /** Every possible move of a piece on a board whose unmoved pawns stand on their home rows is on the board. */
  lemma MovesOnBoard(g: Grid, q: Square)
    requires PawnsHome(g)
    ensures forall t :: t in MovesFrom(g, q) ==> OnBoard(t)
  {
    if At(g, q).Some? {
      forall t | t in MovesFrom(g, q)
        ensures OnBoard(t)
      {
        PossibleMovesOnBoard(g, At(g, q).value, q, t);
      }
    }
  }

  /** get_legal_moves of the piece on q, played by player; LegalMovesDef states its definition. */
  function LegalMoves(g: Grid, player: Color, q: Square): seq<Square>
  {
    LegalMovesAfter(g, player, q, 1)
  }

  /**
   * LegalMoves behind k trivial recursion steps.  The verifier expands a
   * recursive definition one step at a time, so the filter is expanded only
   * where LegalMovesDef is called; this keeps the proofs about the callers small.
   */
  function LegalMovesAfter(g: Grid, player: Color, q: Square, k: nat): seq<Square>
  {
    if k == 0 then LegalFilter(g, player, q, MovesFrom(g, q)) else LegalMovesAfter(g, player, q, k - 1)
  }

  lemma LegalMovesDef(g: Grid, player: Color, q: Square)
    ensures LegalMoves(g, player, q) == LegalFilter(g, player, q, MovesFrom(g, q))
  {
    assert LegalMovesAfter(g, player, q, 1) == LegalMovesAfter(g, player, q, 0);
  }

  /** Whether the piece on one of the squares qs has a legal move (the loop of check_game_over). */
  predicate AnyLegal(g: Grid, player: Color, qs: seq<Square>, i: nat)
    decreases |qs| - i
  {
    i < |qs| && (LegalMoves(g, player, qs[i]) != [] || AnyLegal(g, player, qs, i + 1))
  }

  /** Whether one of player's pieces has a legal move. */
  predicate HasLegalMove(g: Grid, player: Color)
  {
    AnyLegal(g, player, PiecesOf(g, player), 0)
  }

  /** The row where a pawn of colour c is promoted. */
  function LastRow(c: Color): int
  {
    if c == White then 0 else 7
  }

  /** promote_pawn: whatever stands on pos becomes a queen of its colour that has moved. */
  function Promoted(g: Grid, pos: Square): (r: Grid)
    ensures At(g, pos).Some? ==> At(r, pos) == Some(Piece(Queen, At(g, pos).value.color, true))
    ensures At(g, pos).None? ==> r == g
  {
    if At(g, pos).Some? then SetAt(g, pos, Some(Piece(Queen, At(g, pos).value.color, true))) else g
  }

  /** The grid after an accepted make_move(from, to): the plain move, then the promotion of a pawn reaching its last row. */
  function PlayedGrid(g: Grid, from: Square, to: Square): Grid
    requires OnBoard(to) && At(g, from).Some?
  {
    var p := At(g, from).value;
    var g1 := MovedGrid(g, from, to, NoSpecial);
    if p.kind == Pawn && to.row == LastRow(p.color) then Promoted(g1, to) else g1
  }

  class ChessGame {
    var board: Board
    var currentPlayer: Color
    var gameOver: bool
    var winner: Option<Color>
    var selectedPiece: Option<Square>
    var validMoves: seq<Square>
    var moveHistory: seq<HistoryEntry>

    ghost predicate Valid()
      reads this, board
    {
      board.Valid()
    }

    /** A new game: the initial position, white to move, nothing selected, no history. */
    constructor ()
      ensures Valid() && fresh(board)
      ensures board.grid == InitialGrid() && currentPlayer == White
      ensures !gameOver && winner == None && selectedPiece == None && validMoves == [] && moveHistory == []
    {
      board := new Board();
      currentPlayer := White;
      gameOver := false;
      winner := None;
      selectedPiece := None;
      validMoves := [];
      moveHistory := [];
    }

    /** select_piece: succeeds exactly on a piece of the player to move, and then lists its legal moves. */
    method SelectPiece(pos: Square) returns (ok: bool)
      requires Valid()
      modifies this`selectedPiece, this`validMoves
      ensures ok == Friendly(board.grid, pos, currentPlayer)
      ensures !ok ==> selectedPiece == None && validMoves == []
      ensures ok ==> selectedPiece == Some(pos) && validMoves == LegalMoves(board.grid, currentPlayer, pos)
    {
      var piece := At(board.grid, pos);
      if piece.None? || piece.value.color != currentPlayer {
        selectedPiece := None;
        validMoves := [];
        return false;
      }
      selectedPiece := Some(pos);
      validMoves := GetLegalMoves(pos);
      return true;
    }

    /** get_legal_moves: the possible moves of the piece on pos that pass is_move_legal, in their order. */
    method GetLegalMoves(pos: Square) returns (legal: seq<Square>)
      requires Valid()
      ensures legal == LegalMoves(board.grid, currentPlayer, pos)
    {
      var g := board.grid;
      LegalMovesDef(g, currentPlayer, pos);
      MovesOnBoard(g, pos);
      var possible: seq<Square>;
      if At(g, pos).Some? {
        possible := GetPossibleMoves(g, At(g, pos).value, pos);
      } else {
        possible := [];
      }
      legal := [];
      for i := 0 to |possible|
        invariant legal == LegalFilter(g, currentPlayer, pos, possible[..i])
      {
        var ok := IsMoveLegal(pos, possible[i]);
        assert possible[..i + 1][..i] == possible[..i];
        if ok {
          legal := legal + [possible[i]];
        }
      }
      assert possible[..|possible|] == possible;
    }

    /** is_move_legal: plays the plain move on a copy of the board; the game's own board is not touched. */
    method IsMoveLegal(from: Square, to: Square) returns (legal: bool)
      requires Valid() && OnBoard(to)
      ensures legal == MoveLegal(board.grid, currentPlayer, from, to)
    {
      var testBoard := board.Copy();
      var _ := testBoard.MovePiece(from, to, NoSpecial);
      var check := testBoard.IsInCheck(currentPlayer);
      legal := !check;
      MoveLegalDef(board.grid, currentPlayer, from, to);
    }

    /**
     * make_move: rejected, with nothing changed, unless the origin holds a
     * piece of the player to move and the move does not leave that player
     * in check; whether the destination is among the piece's possible
     * moves is never asked.
     */
    method MakeMove(from: Square, to: Square) returns (ok: bool)
      requires Valid() && OnBoard(to)
      modifies this, board
      ensures Valid() && board == old(board)
      ensures ok == (Friendly(old(board.grid), from, old(currentPlayer)) &&
                     MoveLegal(old(board.grid), old(currentPlayer), from, to))
      ensures !ok ==> unchanged(this) && unchanged(board)
      ensures ok ==> board.grid == PlayedGrid(old(board.grid), from, to)
      ensures ok ==> board.captured == CapturedAfter(old(board.grid), old(board.captured), from, to, NoSpecial)
      ensures ok ==> board.lastMove == Some(LastMove(At(old(board.grid), from).value.(hasMoved := true), from, to))
      ensures ok ==> moveHistory == old(moveHistory) + [HistoryEntry(from, to, At(old(board.grid), from).value.kind)]
      ensures ok ==> currentPlayer == Opponent(old(currentPlayer))
      ensures ok ==> !InCheck(board.grid, old(currentPlayer))
      ensures ok ==> selectedPiece == None && validMoves == []
      ensures ok && !HasLegalMove(board.grid, currentPlayer) ==>
        gameOver && winner == (if InCheck(board.grid, currentPlayer) then Some(Opponent(currentPlayer)) else None)
      ensures ok && HasLegalMove(board.grid, currentPlayer) ==> gameOver == old(gameOver) && winner == old(winner)
    {
      var piece := At(board.grid, from);
      if piece.None? || piece.value.color != currentPlayer {
        return false;
      }
      var legal := IsMoveLegal(from, to);
      if !legal {
        return false;
      }
      PlayMove(from, to);
      currentPlayer := if currentPlayer == White then Black else White;
      CheckGameOver();
      selectedPiece := None;
      validMoves := [];
      return true;
    }

    /**
     * The accepting half of make_move: the move is played on the board and
     * recorded in the history, and a pawn reaching its last row is promoted;
     * the mover is then not in check.
     */
    method PlayMove(from: Square, to: Square)
      requires Valid() && OnBoard(to) && Friendly(board.grid, from, currentPlayer)
      requires MoveLegal(board.grid, currentPlayer, from, to)
      modifies board, this`moveHistory
      ensures Valid()
      ensures board.grid == PlayedGrid(old(board.grid), from, to)
      ensures board.captured == CapturedAfter(old(board.grid), old(board.captured), from, to, NoSpecial)
      ensures board.lastMove == Some(LastMove(At(old(board.grid), from).value.(hasMoved := true), from, to))
      ensures moveHistory == old(moveHistory) + [HistoryEntry(from, to, At(old(board.grid), from).value.kind)]
      ensures !InCheck(board.grid, currentPlayer)
    {
      var piece := At(board.grid, from).value;
      ghost var g0 := board.grid;
      MoveLegalDef(g0, currentPlayer, from, to);
      var _ := board.MovePiece(from, to, NoSpecial);
      moveHistory := moveHistory + [HistoryEntry(from, to, piece.kind)];
      if piece.kind == Pawn && ((piece.color == White && to.row == 0) || (piece.color == Black && to.row == 7)) {
        PromotePawn(to);
        PromotionKeepsCheck(MovedGrid(g0, from, to, NoSpecial), to, currentPlayer);
      }
    }

    /** promote_pawn: the piece on pos, if any, is replaced by a queen of its colour with has_moved set. */
    method PromotePawn(pos: Square)
      requires Valid()
      modifies board`grid
      ensures Valid()
      ensures board.grid == Promoted(old(board.grid), pos)
    {
      var piece := At(board.grid, pos);
      if piece.Some? {
        var queen := Piece(Queen, piece.value.color, true);
        board.grid := SetAt(board.grid, pos, Some(queen));
        PromotedKeepsPawnsHome(old(board.grid), pos);
      }
    }

    /** The loop of check_game_over: whether some piece of the player to move has a legal move. */
    method SearchLegalMove() returns (hasLegalMoves: bool)
      requires Valid()
      ensures hasLegalMoves == HasLegalMove(board.grid, currentPlayer)
    {
      ghost var g, player := board.grid, currentPlayer;
      var allPieces := board.GetAllPieces(currentPlayer);
      hasLegalMoves := false;
      for i := 0 to |allPieces|
        invariant board.grid == g && currentPlayer == player && !hasLegalMoves
        invariant AnyLegal(g, player, allPieces, 0) == AnyLegal(g, player, allPieces, i)
      {
        var moves := GetLegalMoves(allPieces[i]);
        if moves != [] {
          hasLegalMoves := true;
          break;
        }
      }
    }

    /**
     * check_game_over: when the player to move has no legal move the game is
     * over, won by the other colour if that player is in check and drawn
     * otherwise; when a legal move exists nothing changes.
     */
    method CheckGameOver()
      requires Valid()
      modifies this`gameOver, this`winner
      ensures !HasLegalMove(board.grid, currentPlayer) ==>
        gameOver && winner == (if InCheck(board.grid, currentPlayer) then Some(Opponent(currentPlayer)) else None)
      ensures HasLegalMove(board.grid, currentPlayer) ==> gameOver == old(gameOver) && winner == old(winner)
    {
      var hasLegalMoves := SearchLegalMove();
      if !hasLegalMoves {
        gameOver := true;
        var check := board.IsInCheck(currentPlayer);
        if check {
          winner := Some(if currentPlayer == White then Black else White);
        } else {
          winner := None;
        }
      }
    }

    /** is_check: whether the player to move is in check. */
    method IsCheck() returns (check: bool)
      requires Valid()
      ensures check == InCheck(board.grid, currentPlayer)
    {
      check := board.IsInCheck(currentPlayer);
    }
  }

  // ================================================================ lemmas

  lemma PromotedKeepsPawnsHome(g: Grid, pos: Square)
    requires PawnsHome(g)
    ensures PawnsHome(Promoted(g, pos))
  {
    var r := Promoted(g, pos);
    forall i, j | 0 <= i < 8 && 0 <= j < 8 && r[i][j].Some? && r[i][j].value.kind == Pawn && !r[i][j].value.hasMoved
      ensures i == HomeRow(r[i][j].value.color)
    {
      assert At(r, Sq(i, j)) == At(g, Sq(i, j));
    }
  }

  /**
   * Promoting one's own pawn does not change whether one is in check: the
   * square keeps its colour, no king appears or disappears, and the other
   * colour's pieces are untouched.
   */
  lemma PromotionKeepsCheck(g: Grid, pos: Square, c: Color)
    requires At(g, pos).Some? ==> At(g, pos).value.kind == Pawn && At(g, pos).value.color == c
    ensures InCheck(Promoted(g, pos), c) == InCheck(g, c)
  {
    var r := Promoted(g, pos);
    assert SameColours(g, r) by {
      forall s ensures ColourAt(g, s) == ColourAt(r, s) {
        if s != pos {
          assert At(r, s) == At(g, s);
        }
      }
    }
    forall s
      ensures IsKingOf(g, s, c) == IsKingOf(r, s, c)
    {
      if s != pos {
        assert At(r, s) == At(g, s);
      }
    }
    forall s | Friendly(g, s, Opponent(c))
      ensures At(g, s) == At(r, s)
    {
      if s != pos {
        assert At(r, s) == At(g, s);
      }
    }
    InCheckCongruent(g, r, c);
  }

  lemma {:induction false} LegalFilterMembers(g: Grid, player: Color, from: Square, moves: seq<Square>, t: Square)
    ensures t in LegalFilter(g, player, from, moves) <==> t in moves && MoveLegal(g, player, from, t)
  {
    if moves != [] {
      var init, last := moves[..|moves| - 1], moves[|moves| - 1];
      LegalFilterMembers(g, player, from, init, t);
      assert LegalFilter(g, player, from, moves) ==
        LegalFilter(g, player, from, init) + (if MoveLegal(g, player, from, last) then [last] else []);
      assert moves == init + [last];
    }
  }

  /** get_legal_moves lists exactly the possible moves that do not leave the player in check. */
  lemma LegalMovesSpec(g: Grid, player: Color, q: Square, t: Square)
    requires PawnsHome(g)
    ensures t in LegalMoves(g, player, q) <==> t in MovesFrom(g, q) && OnBoard(t) && MoveLegal(g, player, q, t)
  {
    LegalMovesDef(g, player, q);
    MovesOnBoard(g, q);
    LegalFilterMembers(g, player, q, MovesFrom(g, q), t);
  }

  /**
   * check_game_over's test: the player has a legal move exactly when some
   * square holds a piece of theirs with a possible move that does not
   * leave them in check.
   */
  lemma HasLegalMoveSpec(g: Grid, player: Color)
    requires PawnsHome(g)
    ensures HasLegalMove(g, player) <==>
      exists q, t :: Friendly(g, q, player) && t in MovesFrom(g, q) && OnBoard(t) && MoveLegal(g, player, q, t)
  {
    var ps := PiecesOf(g, player);
    AnyLegalMembers(g, player, ps, 0);
    if HasLegalMove(g, player) {
      var j :| 0 <= j < |ps| && LegalMoves(g, player, ps[j]) != [];
      var q := ps[j];
      var t := LegalMoves(g, player, q)[0];
      LegalMovesSpec(g, player, q, t);
      PiecesOfMembers(g, player, q);
    }
    if exists q, t :: Friendly(g, q, player) && t in MovesFrom(g, q) && OnBoard(t) && MoveLegal(g, player, q, t) {
      var q, t :| Friendly(g, q, player) && t in MovesFrom(g, q) && OnBoard(t) && MoveLegal(g, player, q, t);
      PiecesOfMembers(g, player, q);
      LegalMovesSpec(g, player, q, t);
    }
  }

  lemma {:induction false} AnyLegalMembers(g: Grid, player: Color, qs: seq<Square>, i: nat)
    requires i <= |qs|
    ensures AnyLegal(g, player, qs, i) <==> exists j :: i <= j < |qs| && LegalMoves(g, player, qs[j]) != []
    decreases |qs| - i
  {
    if i < |qs| {
      AnyLegalMembers(g, player, qs, i + 1);
      if LegalMoves(g, player, qs[i]) != [] {
        assert i <= i < |qs| && LegalMoves(g, player, qs[i]) != [];
      } else {
        assert AnyLegal(g, player, qs, i) == AnyLegal(g, player, qs, i + 1);
        if exists j :: i <= j < |qs| && LegalMoves(g, player, qs[j]) != [] {
          var j :| i <= j < |qs| && LegalMoves(g, player, qs[j]) != [];
          assert i + 1 <= j;
        }
      }
    }
  }
}
