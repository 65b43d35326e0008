/**
 * The game object of chess.py: BoardHumanVHuman with the moves of
 * RandomVRandom and AIVMCTS folded into one class (the subclasses only add
 * methods, and depth and width for the search). Each method computes with
 * the source's loops and is proved equal to the pure definition in
 * TupleRules or Rollouts.
 */
module TupleGames {
  import opened Wrappers
  import opened Pieces
  import opened TupleRules
  import opened Rollouts

  class TupleGame {
    var gameBoard: GameBoard
    var turn: Color
    var currentTurn: int
    const maxTurn: int
    const depth: nat
    const width: nat

    /** A new game in the initial position, white to move, turn counter 0 of at most 300. */
    constructor (depth: nat, width: nat)
      ensures gameBoard == InitialBoard() && turn == White && currentTurn == 0 && maxTurn == 300
      ensures this.depth == depth && this.width == width
    {
      this.depth := depth;
      this.width := width;
      maxTurn := 300;
      turn := White;
      currentTurn := 0;
      gameBoard := BlankBoard();
      new;
      MakeBoard();
    }

    /** copy.deepcopy: a new game with the same board, turn, counters and search parameters. */
    constructor Copy(other: TupleGame)
      ensures gameBoard == other.gameBoard && turn == other.turn && currentTurn == other.currentTurn
      ensures maxTurn == other.maxTurn && depth == other.depth && width == other.width
    {
      gameBoard := other.gameBoard;
      turn := other.turn;
      currentTurn := other.currentTurn;
      maxTurn := other.maxTurn;
      depth := other.depth;
      width := other.width;
    }

    /** make_board: a blank board, then the pawn rows and the back ranks filled column by column. */
    method MakeBoard()
      modifies this`gameBoard
      ensures gameBoard == InitialBoard()
    {
      gameBoard := BlankBoard();
      for i := 0 to 8
        invariant forall r, c :: 0 <= r < 8 && 0 <= c < 8 ==>
          gameBoard[r][c] == if c < i then InitialCell(r, c) else NonePiece
      {
        PlaceColumn(i);
      }
      SameLayout(gameBoard, InitialBoard());
    }

    /** One pass of make_board's loop: column i of the pawn rows and the back ranks. */
    method PlaceColumn(i: int)
      requires 0 <= i < 8 && forall r :: 0 <= r < 8 ==> gameBoard[r][i] == NonePiece
      modifies this`gameBoard
      ensures forall r, c :: 0 <= r < 8 && 0 <= c < 8 ==>
        gameBoard[r][c] == if c == i then InitialCell(r, c) else old(gameBoard)[r][c]
    {
      gameBoard := gameBoard[1 := gameBoard[1][i := PieceCell(Pawn, White)]];
      gameBoard := gameBoard[6 := gameBoard[6][i := PieceCell(Pawn, Black)]];
      if i == 0 || i == 7 {
        gameBoard := gameBoard[0 := gameBoard[0][i := PieceCell(Rook, White)]];
        gameBoard := gameBoard[7 := gameBoard[7][i := PieceCell(Rook, Black)]];
      }
      if i == 1 || i == 6 {
        gameBoard := gameBoard[0 := gameBoard[0][i := PieceCell(Knight, White)]];
        gameBoard := gameBoard[7 := gameBoard[7][i := PieceCell(Knight, Black)]];
      }
      if i == 2 || i == 5 {
        gameBoard := gameBoard[0 := gameBoard[0][i := PieceCell(Bishop, White)]];
        gameBoard := gameBoard[7 := gameBoard[7][i := PieceCell(Bishop, Black)]];
      }
      if i == 3 {
        gameBoard := gameBoard[0 := gameBoard[0][i := PieceCell(Queen, White)]];
        gameBoard := gameBoard[7 := gameBoard[7][i := PieceCell(Queen, Black)]];
      }
      if i == 4 {
        gameBoard := gameBoard[0 := gameBoard[0][i := PieceCell(King, White)]];
        gameBoard := gameBoard[7 := gameBoard[7][i := PieceCell(King, Black)]];
      }
    }

    /** is_free */
    method IsFree(s: Square) returns (free: bool)
      requires OnBoard(s)
      ensures free == Free(gameBoard, s)
    {
      free := gameBoard[s.row][s.col] == NonePiece;
    }

    /**
     * is_on_line_and_free: lists the squares strictly between cur and nxt
     * in the direction of travel, tests each for emptiness, then tests the
     * destination against the side to move.
     */
    method IsOnLineAndFree(cur: Square, nxt: Square) returns (ok: bool)
      requires OnBoard(cur) && OnBoard(nxt)
      ensures ok == OnLineAndFree(gameBoard, turn, cur, nxt)
    {
      if cur.col != nxt.col && cur.row != nxt.row {
        return false;
      }
      var setOfMoves := LineSquares(cur, nxt);
      if cur != nxt {
        ListedPath(gameBoard, setOfMoves, cur, nxt);
      }
      ok := AllFree(setOfMoves, cur, nxt);
      if !ok {
        return false;
      }
      ok := NotOwnedByMover(nxt);
    }

    /** The four listing loops of is_on_line_and_free: the squares strictly between cur and nxt, nearest first. */
    static method LineSquares(cur: Square, nxt: Square) returns (setOfMoves: seq<Square>)
      requires cur.row == nxt.row || cur.col == nxt.col
      ensures ListsToward(setOfMoves, cur, nxt)
      ensures if cur == nxt then setOfMoves == [] else |setOfMoves| + 1 == Dist(cur, nxt)
    {
      setOfMoves := [];
      if cur.row == nxt.row && cur.col > nxt.col {
        var i := cur.col - 1;
        while i > nxt.col
          invariant nxt.col <= i <= cur.col - 1
          invariant |setOfMoves| == cur.col - 1 - i
          invariant ListsToward(setOfMoves, cur, nxt)
        {
          setOfMoves := setOfMoves + [Sq(cur.row, i)];
          i := i - 1;
        }
        assert |setOfMoves| + 1 == Dist(cur, nxt);
      } else if cur.row == nxt.row && cur.col < nxt.col {
        for i := cur.col + 1 to nxt.col
          invariant |setOfMoves| == i - cur.col - 1
          invariant ListsToward(setOfMoves, cur, nxt)
        {
          setOfMoves := setOfMoves + [Sq(cur.row, i)];
        }
        assert |setOfMoves| + 1 == Dist(cur, nxt);
      } else if cur.col == nxt.col && nxt.row > cur.row {
        for i := cur.row + 1 to nxt.row
          invariant |setOfMoves| == i - cur.row - 1
          invariant ListsToward(setOfMoves, cur, nxt)
        {
          setOfMoves := setOfMoves + [Sq(i, cur.col)];
        }
        assert |setOfMoves| + 1 == Dist(cur, nxt);
      } else {
        var i := cur.row - 1;
        while i > nxt.row
          invariant (if nxt.row < cur.row then nxt.row else cur.row - 1) <= i <= cur.row - 1
          invariant |setOfMoves| == cur.row - 1 - i
          invariant ListsToward(setOfMoves, cur, nxt)
        {
          setOfMoves := setOfMoves + [Sq(i, cur.col)];
          i := i - 1;
        }
        assert nxt.row < cur.row ==> |setOfMoves| + 1 == Dist(cur, nxt);
      }
    }

    /** The emptiness loop shared by both path tests: is_free on every listed square, stopping at the first occupied one. */
    method AllFree(ps: seq<Square>, cur: Square, nxt: Square) returns (ok: bool)
      requires OnBoard(cur) && OnBoard(nxt) && ListsToward(ps, cur, nxt) && |ps| <= Dist(cur, nxt)
      requires cur.row == nxt.row || cur.col == nxt.col || Abs(nxt.row - cur.row) == Abs(nxt.col - cur.col)
      ensures ok <==> forall m :: 0 <= m < |ps| ==> Free(gameBoard, ps[m])
    {
      for j := 0 to |ps|
        invariant forall m :: 0 <= m < j ==> Free(gameBoard, ps[m])
      {
        BetweenOnBoard(cur, nxt, j + 1);
        var free := IsFree(ps[j]);
        if !free {
          return false;
        }
      }
      return true;
    }

    /** The destination test of both path checks: nxt does not carry the colour code of the side to move. */
    method NotOwnedByMover(nxt: Square) returns (ok: bool)
      requires OnBoard(nxt)
      ensures ok == !Owned(gameBoard, nxt, turn)
    {
      if turn == White {
        if gameBoard[nxt.row][nxt.col].color == 0 {
          return false;
        }
      } else {
        if gameBoard[nxt.row][nxt.col].color == 1 {
          return false;
        }
      }
      return true;
    }

    /**
     * is_on_diagonal_and_free: lists seven squares along the diagonal
     * heading towards nxt, rejects when nxt is not among them, keeps the
     * squares on the board up to nxt, tests all but the last for emptiness
     * and then walks them all again, testing the last against the side to move.
     */
    method IsOnDiagonalAndFree(cur: Square, nxt: Square) returns (ok: bool)
      requires OnBoard(cur) && OnBoard(nxt)
      ensures ok == OnDiagonalAndFree(gameBoard, turn, cur, nxt)
    {
      if Abs(nxt.row - cur.row) != Abs(nxt.col - cur.col) {
        return false;
      }
      var setOfMoves := DiagonalSquares(cur, nxt);
      DiagonalListed(cur, nxt, setOfMoves);
      if nxt !in setOfMoves {
        return false;
      }
      var validMoves := OnBoardUpTo(setOfMoves, cur, nxt);
      var front := validMoves[..|validMoves| - 1];
      ListedPath(gameBoard, front, cur, nxt);
      ok := AllFree(front, cur, nxt);
      if !ok {
        return false;
      }
      ok := FreeThenTarget(validMoves, cur, nxt);
    }

    /**
     * The enumerate loop of is_on_diagonal_and_free: the last listed square
     * is tested against the side to move, every other one for emptiness.
     */
    method FreeThenTarget(validMoves: seq<Square>, cur: Square, nxt: Square) returns (ok: bool)
      requires OnBoard(cur) && OnBoard(nxt) && Abs(nxt.row - cur.row) == Abs(nxt.col - cur.col)
      requires 1 <= |validMoves| == Dist(cur, nxt) && ListsToward(validMoves, cur, nxt)
      ensures ok <==> (forall m :: 0 <= m < |validMoves| - 1 ==> Free(gameBoard, validMoves[m])) && !Owned(gameBoard, nxt, turn)
    {
      assert validMoves[|validMoves| - 1] == nxt;
      for j := 0 to |validMoves|
        invariant forall m :: 0 <= m < j && m < |validMoves| - 1 ==> Free(gameBoard, validMoves[m])
        invariant j == |validMoves| ==> !Owned(gameBoard, nxt, turn)
      {
        var move := validMoves[j];
        BetweenOnBoard(cur, nxt, j + 1);
        if j == |validMoves| - 1 {
          ok := NotOwnedByMover(move);
          if !ok {
            return false;
          }
        } else {
          var free := IsFree(move);
          if !free {
            return false;
          }
        }
      }
      return true;
    }

    /** The four listing loops of is_on_diagonal_and_free: seven squares from cur in the direction of nxt. */
    static method DiagonalSquares(cur: Square, nxt: Square) returns (setOfMoves: seq<Square>)
      ensures |setOfMoves| == 7
      ensures forall j :: 0 <= j < 7 ==> setOfMoves[j] == Diagonal(cur, DiagStep(cur, nxt), j + 1)
    {
      setOfMoves := [];
      if nxt.row > cur.row && cur.col > nxt.col {
        for i := 1 to 8
          invariant |setOfMoves| == i - 1
          invariant forall j :: 0 <= j < |setOfMoves| ==> setOfMoves[j] == Sq(cur.row + j + 1, cur.col - j - 1)
        {
          setOfMoves := setOfMoves + [Sq(cur.row + i, cur.col - i)];
        }
      } else if nxt.row < cur.row && cur.col > nxt.col {
        for i := 1 to 8
          invariant |setOfMoves| == i - 1
          invariant forall j :: 0 <= j < |setOfMoves| ==> setOfMoves[j] == Sq(cur.row - j - 1, cur.col - j - 1)
        {
          setOfMoves := setOfMoves + [Sq(cur.row - i, cur.col - i)];
        }
      } else if nxt.row > cur.row && cur.col < nxt.col {
        for i := 1 to 8
          invariant |setOfMoves| == i - 1
          invariant forall j :: 0 <= j < |setOfMoves| ==> setOfMoves[j] == Sq(cur.row + j + 1, cur.col + j + 1)
        {
          setOfMoves := setOfMoves + [Sq(cur.row + i, cur.col + i)];
        }
      } else {
        for i := 1 to 8
          invariant |setOfMoves| == i - 1
          invariant forall j :: 0 <= j < |setOfMoves| ==> setOfMoves[j] == Sq(cur.row - j - 1, cur.col + j + 1)
        {
          setOfMoves := setOfMoves + [Sq(cur.row - i, cur.col + i)];
        }
      }
    }

    /**
     * The filtering loop of is_on_diagonal_and_free: the listed squares that
     * are on the board, stopping after nxt.
     */
    static method OnBoardUpTo(setOfMoves: seq<Square>, cur: Square, nxt: Square) returns (validMoves: seq<Square>)
      requires OnBoard(cur) && OnBoard(nxt) && nxt != cur && Abs(nxt.row - cur.row) == Abs(nxt.col - cur.col)
      requires |setOfMoves| == 7 && Dist(cur, nxt) <= 7 && ListsToward(setOfMoves, cur, nxt)
      ensures validMoves == setOfMoves[..Dist(cur, nxt)]
    {
      validMoves := [];
      ghost var d := Dist(cur, nxt);
      for i := 0 to |setOfMoves|
        invariant i <= d - 1
        invariant validMoves == setOfMoves[..i]
      {
        BetweenOnBoard(cur, nxt, i + 1);
        if (setOfMoves[i].row >= 0 && setOfMoves[i].row < 8) && (setOfMoves[i].col >= 0 && setOfMoves[i].col < 8) {
          validMoves := validMoves + [setOfMoves[i]];
          if setOfMoves[i].row == nxt.row && setOfMoves[i].col == nxt.col {
            assert i == d - 1;
            break;
          }
        }
      }
    }

    /**
     * is_kings_in_proximity: finds the last white and the last black king,
     * puts the mover's king on nxt and tests whether the two neighbour.
     */
    method IsKingsInProximity(nxt: Square) returns (near: bool)
      requires LastKing(gameBoard, Opponent(turn)).Some?
      ensures near == KingsInProximity(gameBoard, turn, nxt)
    {
      var whitePos, blackPos := FindKings();
      if turn == White {
        whitePos := Some(nxt);
      } else {
        blackPos := Some(nxt);
      }
      var w, k := whitePos.value, blackPos.value;
      if Abs(w.row - k.row) == 1 && Abs(w.col - k.col) == 1 {
        return true;
      }
      if Abs(w.row - k.row) == 0 && Abs(w.col - k.col) == 1 {
        return true;
      }
      if Abs(w.row - k.row) == 1 && Abs(w.col - k.col) == 0 {
        return true;
      }
      return false;
    }

    /**
     * The scan of is_white_check / is_black_check: side's king (the last
     * one found) and the squares of the other side's rooks, queens, bishops
     * and knights, in row-major order.
     */
    method ScanForCheck(side: Color) returns (king: Option<Square>, rooks: seq<Square>, queens: seq<Square>, bishops: seq<Square>, knights: seq<Square>)
      ensures king == LastKing(gameBoard, side)
      ensures rooks == CellsOf(gameBoard, PieceCell(Rook, Opponent(side)))
      ensures queens == CellsOf(gameBoard, PieceCell(Queen, Opponent(side)))
      ensures bishops == CellsOf(gameBoard, PieceCell(Bishop, Opponent(side)))
      ensures knights == CellsOf(gameBoard, PieceCell(Knight, Opponent(side)))
    {
      var b := gameBoard;
      var o := Opponent(side);
      king, rooks, queens, bishops, knights := None, [], [], [], [];
      for row := 0 to 8
        invariant king == LastUpTo(b, PieceCell(King, side), row)
        invariant rooks == CellsUpTo(b, PieceCell(Rook, o), row) && queens == CellsUpTo(b, PieceCell(Queen, o), row)
        invariant bishops == CellsUpTo(b, PieceCell(Bishop, o), row) && knights == CellsUpTo(b, PieceCell(Knight, o), row)
      {
        king, rooks, queens, bishops, knights := ScanRow(b, side, row, king, rooks, queens, bishops, knights);
      }
    }

    /** One row of the check tests' scan, the cells compared in the source's elif order. */
    static method ScanRow(b: GameBoard, side: Color, row: int, king0: Option<Square>, rooks0: seq<Square>, queens0: seq<Square>, bishops0: seq<Square>, knights0: seq<Square>)
      returns (king: Option<Square>, rooks: seq<Square>, queens: seq<Square>, bishops: seq<Square>, knights: seq<Square>)
      requires 0 <= row < 8
      ensures king == if RowLast(b, PieceCell(King, side), row, 8).Some? then RowLast(b, PieceCell(King, side), row, 8) else king0
      ensures rooks == rooks0 + RowCells(b, PieceCell(Rook, Opponent(side)), row, 8)
      ensures queens == queens0 + RowCells(b, PieceCell(Queen, Opponent(side)), row, 8)
      ensures bishops == bishops0 + RowCells(b, PieceCell(Bishop, Opponent(side)), row, 8)
      ensures knights == knights0 + RowCells(b, PieceCell(Knight, Opponent(side)), row, 8)
    {
      var o := Opponent(side);
      var kingCell, rook, queen, bishop, knight := PieceCell(King, side), PieceCell(Rook, o), PieceCell(Queen, o), PieceCell(Bishop, o), PieceCell(Knight, o);
      king, rooks, queens, bishops, knights := king0, rooks0, queens0, bishops0, knights0;
      for column := 0 to 8
        invariant king == if RowLast(b, kingCell, row, column).Some? then RowLast(b, kingCell, row, column) else king0
        invariant rooks == rooks0 + RowCells(b, rook, row, column)
        invariant queens == queens0 + RowCells(b, queen, row, column)
        invariant bishops == bishops0 + RowCells(b, bishop, row, column)
        invariant knights == knights0 + RowCells(b, knight, row, column)
      {
        var v := b[row][column];
        if v == kingCell {
          king := Some(Sq(row, column));
        } else if v == rook {
          rooks := rooks + [Sq(row, column)];
        } else if v == queen {
          queens := queens + [Sq(row, column)];
        } else if v == bishop {
          bishops := bishops + [Sq(row, column)];
        } else if v == knight {
          knights := knights + [Sq(row, column)];
        }
      }
    }

    /**
     * The attacker loops of the check tests: whether some square of ps,
     * taken in order, passes the line test, the diagonal test, or (for a
     * queen) the line test and then the diagonal test, from the king's square k.
     */
    method FirstHit(k: Square, ps: seq<Square>, how: Reach) returns (hit: bool)
      requires OnBoard(k) && how != ByJump && forall s :: s in ps ==> OnBoard(s)
      ensures hit == Hit(gameBoard, turn, k, ps, 0, how)
    {
      for i := 0 to |ps|
        invariant Hit(gameBoard, turn, k, ps, 0, how) == Hit(gameBoard, turn, k, ps, i, how)
      {
        var reached: bool;
        if how == ByLine {
          reached := IsOnLineAndFree(k, ps[i]);
        } else if how == ByDiagonal {
          reached := IsOnDiagonalAndFree(k, ps[i]);
        } else {
          reached := IsOnLineAndFree(k, ps[i]);
          if !reached {
            reached := IsOnDiagonalAndFree(k, ps[i]);
          }
        }
        if reached {
          return true;
        }
      }
      return false;
    }

    /** The pawn part of the check tests: an enemy pawn on one of the two attack offsets from the king's square k. */
    method PawnCheck(k: Square, side: Color) returns (hit: bool)
      ensures hit == PawnHit(gameBoard, k, side)
    {
      var pawnAttackOffsets := [(Advance(side), -1), (Advance(side), 1)];
      for j := 0 to 2
        invariant j >= 1 ==> !(OnBoard(Sq(k.row + Advance(side), k.col - 1)) && CellAt(gameBoard, Sq(k.row + Advance(side), k.col - 1)) == PieceCell(Pawn, Opponent(side)))
        invariant j >= 2 ==> !(OnBoard(Sq(k.row + Advance(side), k.col + 1)) && CellAt(gameBoard, Sq(k.row + Advance(side), k.col + 1)) == PieceCell(Pawn, Opponent(side)))
      {
        var r, c := k.row + pawnAttackOffsets[j].0, k.col + pawnAttackOffsets[j].1;
        if 0 <= r < 8 && 0 <= c < 8 {
          if gameBoard[r][c] == PieceCell(Pawn, Opponent(side)) {
            return true;
          }
        }
      }
      return false;
    }

    /** The knight part of the check tests: some enemy knight stands on one of the eight squares around k a jump away. */
    method KnightCheck(k: Square, knights: seq<Square>) returns (hit: bool)
      ensures hit == Hit(gameBoard, turn, k, knights, 0, ByJump)
    {
      var knightsCheckPos: seq<Square> := [];
      knightsCheckPos := knightsCheckPos + [Sq(k.row - 2, k.col - 1)];
      knightsCheckPos := knightsCheckPos + [Sq(k.row - 2, k.col + 1)];
      knightsCheckPos := knightsCheckPos + [Sq(k.row - 1, k.col - 2)];
      knightsCheckPos := knightsCheckPos + [Sq(k.row + 1, k.col - 2)];
      knightsCheckPos := knightsCheckPos + [Sq(k.row + 2, k.col - 1)];
      knightsCheckPos := knightsCheckPos + [Sq(k.row + 2, k.col + 1)];
      knightsCheckPos := knightsCheckPos + [Sq(k.row + 1, k.col + 2)];
      knightsCheckPos := knightsCheckPos + [Sq(k.row - 1, k.col + 2)];
      assert knightsCheckPos == KnightRing(k);
      for i := 0 to |knights|
        invariant Hit(gameBoard, turn, k, knights, 0, ByJump) == Hit(gameBoard, turn, k, knights, i, ByJump)
      {
        if knights[i] in knightsCheckPos {
          return true;
        }
      }
      return false;
    }

    /**
     * is_white_check (side White) and is_black_check (side Black): the scan,
     * then rooks, bishops, queens, pawns and knights in the source's order.
     */
    method IsInCheck(side: Color) returns (check: bool)
      requires LastKing(gameBoard, side).Some?
      ensures check == Checked(gameBoard, turn, side)
    {
      CheckedDef(gameBoard, turn, side);
      var king, rooks, queens, bishops, knights := ScanForCheck(side);
      var k := king.value;
      check := FirstHit(k, rooks, ByLine);
      if check {
        return;
      }
      check := FirstHit(k, bishops, ByDiagonal);
      if check {
        return;
      }
      check := FirstHit(k, queens, ByLineOrDiagonal);
      if check {
        return;
      }
      check := PawnCheck(k, side);
      if check {
        return;
      }
      check := KnightCheck(k, knights);
    }

    /** is_pawn_move_legal, with the source's short-circuit order of the emptiness tests. */
    method IsPawnMoveLegal(cur: Square, nxt: Square) returns (legal: bool)
      requires OnBoard(cur) && OnBoard(nxt)
      ensures legal == PawnMoveLegal(gameBoard, turn, cur, nxt)
    {
      if turn == White {
        var double := cur.row == 1 && nxt.row == 3 && cur.col == nxt.col;
        if double {
          double := IsFree(nxt);
          if double {
            double := IsFree(Sq(nxt.row - 1, nxt.col));
          }
        }
        if double {
          return true;
        }
        var single := cur.row - nxt.row == -1 && cur.col == nxt.col;
        if single {
          single := IsFree(nxt);
        }
        if single {
          return true;
        }
        if cur.row - nxt.row == -1 && Abs(cur.col - nxt.col) == 1 && gameBoard[nxt.row][nxt.col].color == 1 {
          return true;
        }
      } else {
        var double := cur.row == 6 && nxt.row == 4 && cur.col == nxt.col;
        if double {
          double := IsFree(nxt);
          if double {
            double := IsFree(Sq(nxt.row + 1, nxt.col));
          }
        }
        if double {
          return true;
        }
        var single := cur.row - nxt.row == 1 && cur.col == nxt.col;
        if single {
          single := IsFree(nxt);
        }
        if single {
          return true;
        }
        if cur.row - nxt.row == 1 && Abs(cur.col - nxt.col) == 1 && gameBoard[nxt.row][nxt.col].color == 0 {
          return true;
        }
      }
      return false;
    }

    /** is_knight_move_legal */
    method IsKnightMoveLegal(cur: Square, nxt: Square) returns (legal: bool)
      requires OnBoard(nxt)
      ensures legal == KnightMoveLegal(gameBoard, turn, cur, nxt)
    {
      if turn == White {
        if Abs(cur.row - nxt.row) == 2 && Abs(cur.col - nxt.col) == 1 {
          return true;
        }
        if Abs(cur.row - nxt.row) == 1 && Abs(cur.col - nxt.col) == 2 && gameBoard[nxt.row][nxt.col].color != 0 {
          return true;
        }
      } else {
        if Abs(cur.row - nxt.row) == 2 && Abs(cur.col - nxt.col) == 1 {
          return true;
        }
        if Abs(cur.row - nxt.row) == 1 && Abs(cur.col - nxt.col) == 2 && gameBoard[nxt.row][nxt.col].color != 1 {
          return true;
        }
      }
      return false;
    }

    /** is_king_move_legal: Some(false) on a rejection, None where the source falls off its end. */
    method IsKingMoveLegal(cur: Square, nxt: Square) returns (legal: Option<bool>)
      requires OnBoard(nxt) && LastKing(gameBoard, Opponent(turn)).Some?
      ensures legal == KingMoveLegal(gameBoard, turn, cur, nxt)
    {
      if !(Abs(cur.row - nxt.row) in [0, 1] && Abs(cur.col - nxt.col) in [0, 1]) {
        return Some(false);
      }
      if turn == White {
        if gameBoard[nxt.row][nxt.col].color == 0 {
          return Some(false);
        }
      } else {
        if gameBoard[nxt.row][nxt.col].color == 1 {
          return Some(false);
        }
      }
      var near := IsKingsInProximity(nxt);
      if near {
        return Some(false);
      }
      return None;
    }

    /** The movement dispatch of is_move_valid on the sign at cur. */
    method PieceRuleTest(cur: Square, nxt: Square) returns (ok: bool)
      requires OnBoard(cur) && OnBoard(nxt) && LastKing(gameBoard, Opponent(turn)).Some?
      ensures ok == PieceRule(gameBoard, turn, cur, nxt)
    {
      var sign := gameBoard[cur.row][cur.col].sign;
      if sign == SignOf(Pawn) {
        ok := IsPawnMoveLegal(cur, nxt);
      } else if sign == SignOf(Knight) {
        ok := IsKnightMoveLegal(cur, nxt);
      } else if sign == SignOf(Bishop) {
        ok := IsOnDiagonalAndFree(cur, nxt);
      } else if sign == SignOf(Rook) {
        ok := IsOnLineAndFree(cur, nxt);
      } else if sign == SignOf(Queen) {
        ok := IsOnDiagonalAndFree(cur, nxt);
        if !ok {
          ok := IsOnLineAndFree(cur, nxt);
        }
      } else if sign == SignOf(King) {
        var legal := IsKingMoveLegal(cur, nxt);
        ok := legal != Some(false);
      } else {
        ok := true;
      }
    }

    /** The deep copy of is_move_valid: the piece written on nxt, cur emptied, and the mover's check test on the copy. */
    method CheckAfterMove(cur: Square, nxt: Square) returns (checked: bool)
      requires OnBoard(cur) && OnBoard(nxt) && LastKing(Relocated(gameBoard, cur, nxt), turn).Some?
      ensures checked == Checked(Relocated(gameBoard, cur, nxt), turn, turn)
    {
      var newGame := new TupleGame.Copy(this);
      var currentPiece := newGame.gameBoard[cur.row][cur.col];
      newGame.gameBoard := Put(newGame.gameBoard, nxt, currentPiece);
      newGame.gameBoard := Put(newGame.gameBoard, cur, NonePiece);
      checked := newGame.IsInCheck(turn);
    }

    /**
     * is_move_valid: own piece on cur, not on nxt; when the mover is in
     * check, a copy with the move played must not be; the movement test of
     * the piece; and finally the copy test once more.
     */
    method IsMoveValid(cur: Square, nxt: Square) returns (valid: bool)
      requires OnBoard(cur) && OnBoard(nxt) && KingsOnBoard(gameBoard)
      ensures valid == MoveValid(gameBoard, turn, cur, nxt)
    {
      MoveValidDef(gameBoard, turn, cur, nxt);
      if turn == White {
        if gameBoard[cur.row][cur.col].color != 0 {
          return false;
        }
      } else {
        if gameBoard[cur.row][cur.col].color != 1 {
          return false;
        }
      }
      if turn == White {
        if gameBoard[nxt.row][nxt.col].color == 0 {
          return false;
        }
      } else {
        if gameBoard[nxt.row][nxt.col].color == 1 {
          return false;
        }
      }
      KingKept(gameBoard, turn, cur, nxt);
      var inCheck := IsInCheck(turn);
      if inCheck {
        var stillChecked := CheckAfterMove(cur, nxt);
        if stillChecked {
          return false;
        }
      }
      var rule := PieceRuleTest(cur, nxt);
      if !rule {
        return false;
      }
      var checked := CheckAfterMove(cur, nxt);
      if checked {
        return false;
      }
      return true;
    }

    /** action_space: every valid move, origins and destinations in row-major order, skipping null moves. */
    method ActionSpace() returns (allMoves: seq<Action>)
      requires KingsOnBoard(gameBoard)
      ensures allMoves == ActionSpaceOf(gameBoard, turn)
    {
      allMoves := [];
      for row := 0 to 8
        invariant allMoves == ActionsUpTo(gameBoard, turn, 8 * row)
      {
        for col := 0 to 8
          invariant allMoves == ActionsUpTo(gameBoard, turn, 8 * row + col)
        {
          var targets := TargetsFrom(Sq(row, col));
          IdxRank(Sq(row, col));
          allMoves := allMoves + targets;
        }
      }
    }

    /** The two inner loops of action_space: the valid moves from cur, destinations in row-major order. */
    method TargetsFrom(cur: Square) returns (moves: seq<Action>)
      requires OnBoard(cur) && KingsOnBoard(gameBoard)
      ensures moves == TargetsUpTo(gameBoard, turn, cur, 64)
    {
      moves := [];
      for nextRow := 0 to 8
        invariant moves == TargetsUpTo(gameBoard, turn, cur, 8 * nextRow)
      {
        for nextCol := 0 to 8
          invariant moves == TargetsUpTo(gameBoard, turn, cur, 8 * nextRow + nextCol)
        {
          IdxRank(Sq(nextRow, nextCol));
          if (cur.row, cur.col) == (nextRow, nextCol) {
            continue;
          }
          var valid := IsMoveValid(cur, Sq(nextRow, nextCol));
          if valid {
            moves := moves + [Action(cur, Sq(nextRow, nextCol))];
          }
        }
      }
    }

    /** is_checkmate: the action space is empty and the side to move is in check. */
    method IsCheckmate() returns (mate: bool)
      requires KingsOnBoard(gameBoard)
      ensures mate == Checkmate(gameBoard, turn)
    {
      var moves := ActionSpace();
      if |moves| != 0 {
        return false;
      }
      mate := IsInCheck(turn);
    }

    /** change_turn */
    method ChangeTurn()
      modifies this`turn
      ensures turn == Opponent(old(turn))
    {
      if turn == White {
        turn := Black;
      } else {
        turn := White;
      }
    }

    /** is_game_drawn: the turn limit is reached, or the side to move has no valid move. */
    method IsGameDrawn() returns (drawn: bool)
      requires currentTurn < maxTurn ==> KingsOnBoard(gameBoard)
      ensures drawn == Drawn(gameBoard, turn, currentTurn, maxTurn)
    {
      if currentTurn >= maxTurn {
        return true;
      }
      var moves := ActionSpace();
      if |moves| == 0 {
        return true;
      }
      return false;
    }

    /** set_board: every cell copied from the given board, row by row. */
    method SetBoard(d: GameBoard)
      modifies this`gameBoard
      ensures gameBoard == d
    {
      for row := 0 to 8
        invariant forall r, c :: 0 <= r < 8 && 0 <= c < 8 ==> gameBoard[r][c] == if r < row then d[r][c] else old(gameBoard)[r][c]
      {
        for column := 0 to 8
          invariant forall r, c :: 0 <= r < 8 && 0 <= c < 8 ==>
            gameBoard[r][c] == if r < row || (r == row && c < column) then d[r][c] else old(gameBoard)[r][c]
        {
          gameBoard := gameBoard[row := gameBoard[row][column := d[row][column]]];
        }
      }
      SameLayout(gameBoard, d);
    }

    /**
     * move_api: 1 for coordinates off the board or a null move, 2 for an
     * invalid move, otherwise the move is played (origin emptied, then the
     * promoted piece written on nxt), the turn passes and the counter grows; 0.
     */
    method MoveApi(cur: Square, nxt: Square) returns (code: int)
      requires KingsOnBoard(gameBoard)
      modifies this`gameBoard, this`turn, this`currentTurn
      ensures code == ApiCode(old(gameBoard), old(turn), cur, nxt)
      ensures code != 0 ==> gameBoard == old(gameBoard) && turn == old(turn) && currentTurn == old(currentTurn)
      ensures code == 0 ==> gameBoard == ApiPlayed(old(gameBoard), cur, nxt) && turn == Opponent(old(turn)) && currentTurn == old(currentTurn) + 1
    {
      if cur.row !in [0, 1, 2, 3, 4, 5, 6, 7] {
        return 1;
      }
      if cur.col !in [0, 1, 2, 3, 4, 5, 6, 7] {
        return 1;
      }
      if nxt.row !in [0, 1, 2, 3, 4, 5, 6, 7] {
        return 1;
      }
      if nxt.col !in [0, 1, 2, 3, 4, 5, 6, 7] {
        return 1;
      }
      if (cur.row, cur.col) == (nxt.row, nxt.col) {
        return 1;
      }
      var valid := IsMoveValid(cur, nxt);
      if !valid {
        return 2;
      }
      PlayFromOrigin(cur, nxt);
      ChangeTurn();
      currentTurn := currentTurn + 1;
      return 0;
    }

    /** The board update of move_api and random_move: cur emptied, then the (promoted) piece written on nxt. */
    method PlayFromOrigin(cur: Square, nxt: Square)
      requires OnBoard(cur) && OnBoard(nxt)
      modifies this`gameBoard
      ensures gameBoard == ApiPlayed(old(gameBoard), cur, nxt)
    {
      var currentPiece := gameBoard[cur.row][cur.col];
      if currentPiece == PieceCell(Pawn, White) && nxt.row == 7 {
        currentPiece := PieceCell(Queen, White);
      } else if currentPiece == PieceCell(Pawn, Black) && nxt.row == 0 {
        currentPiece := PieceCell(Queen, Black);
      }
      gameBoard := Put(gameBoard, cur, NonePiece);
      gameBoard := Put(gameBoard, nxt, currentPiece);
    }

    /**
     * manual_move: the (promoted) piece written on nxt, then cur emptied,
     * with no validity test; the turn passes and the counter grows.
     */
    method ManualMove(cur: Square, nxt: Square)
      requires OnBoard(cur) && OnBoard(nxt)
      modifies this`gameBoard, this`turn, this`currentTurn
      ensures gameBoard == ManualPlayed(old(gameBoard), cur, nxt)
      ensures turn == Opponent(old(turn)) && currentTurn == old(currentTurn) + 1
    {
      var currentPiece := gameBoard[cur.row][cur.col];
      if currentPiece == PieceCell(Pawn, White) && nxt.row == 7 {
        currentPiece := PieceCell(Queen, White);
      } else if currentPiece == PieceCell(Pawn, Black) && nxt.row == 0 {
        currentPiece := PieceCell(Queen, Black);
      }
      gameBoard := Put(gameBoard, nxt, currentPiece);
      gameBoard := Put(gameBoard, cur, NonePiece);
      ChangeTurn();
      currentTurn := currentTurn + 1;
    }

    /**
     * random_action with the random index supplied as pick: the action at
     * pick modulo the size of the action space; None where the source raises
     * on an empty action space.
     */
    method RandomAction(pick: nat) returns (action: Option<Action>)
      requires KingsOnBoard(gameBoard)
      ensures action == Sampled(ActionSpaceOf(gameBoard, turn), pick)
    {
      var currentActionSpace := ActionSpace();
      if |currentActionSpace| == 0 {
        return None;
      }
      return Some(currentActionSpace[pick % |currentActionSpace|]);
    }

    /**
     * random_move (and RandomVRandom.move, which also returns the action):
     * a random action played as move_api plays it; nothing changes when
     * there is none to draw.
     */
    method RandomMove(pick: nat) returns (action: Option<Action>)
      requires KingsOnBoard(gameBoard)
      modifies this`gameBoard, this`turn, this`currentTurn
      ensures action == Sampled(ActionSpaceOf(old(gameBoard), old(turn)), pick)
      ensures action.None? ==> gameBoard == old(gameBoard) && turn == old(turn) && currentTurn == old(currentTurn)
      ensures action.Some? ==>
        OnBoard(action.value.cur) && OnBoard(action.value.nxt) &&
        gameBoard == ApiPlayed(old(gameBoard), action.value.cur, action.value.nxt) &&
        turn == Opponent(old(turn)) && currentTurn == old(currentTurn) + 1
    {
      action := RandomAction(pick);
      if action.None? {
        return;
      }
      ActionSpaceMembers(gameBoard, turn, action.value);
      PlayFromOrigin(action.value.cur, action.value.nxt);
      ChangeTurn();
      currentTurn := currentTurn + 1;
    }

    /** get_score: with white to move, the summed values of the cells carrying the black code; otherwise 0. */
    method GetScore() returns (score: int)
      ensures score == Score(gameBoard, turn)
    {
      score := 0;
      if turn == White {
        for row := 0 to 8
          invariant score == BlackValueUpTo(gameBoard, 8 * row)
        {
          for column := 0 to 8
            invariant score == BlackValueUpTo(gameBoard, 8 * row + column)
          {
            IdxRank(Sq(row, column));
            if gameBoard[row][column].color == 1 {
              score := score + gameBoard[row][column].value;
            }
          }
        }
      }
    }

    /** The king-locating loop of is_kings_in_proximity: the last white and the last black king in row-major order. */
    method FindKings() returns (whitePos: Option<Square>, blackPos: Option<Square>)
      ensures whitePos == LastKing(gameBoard, White) && blackPos == LastKing(gameBoard, Black)
    {
      var b := gameBoard;
      var whiteKing, blackKing := PieceCell(King, White), PieceCell(King, Black);
      whitePos, blackPos := None, None;
      for row := 0 to 8
        invariant whitePos == LastUpTo(b, whiteKing, row)
        invariant blackPos == LastUpTo(b, blackKing, row)
      {
        for column := 0 to 8
          invariant whitePos == if RowLast(b, whiteKing, row, column).Some? then RowLast(b, whiteKing, row, column) else LastUpTo(b, whiteKing, row)
          invariant blackPos == if RowLast(b, blackKing, row, column).Some? then RowLast(b, blackKing, row, column) else LastUpTo(b, blackKing, row)
        {
          if b[row][column] == whiteKing {
            whitePos := Some(Sq(row, column));
          }
          if b[row][column] == blackKing {
            blackPos := Some(Sq(row, column));
          }
        }
      }
    }

    /**
     * Both kings are on the board. The source has no such test: its check
     * scans raise (an unbound king position) when a king is missing, and the
     * search stops with Raised where they would.
     */
    method KingsPresent() returns (present: bool)
      ensures present == KingsOnBoard(gameBoard)
    {
      var whitePos, blackPos := FindKings();
      present := whitePos.Some? && blackPos.Some?;
    }

    /**
     * The depth loop of MCTS on this (copied) game, the next random draw
     * being draw(k0). A round that stops ends the loop as the source's break does.
     */
    method PlayDepth(draw: nat -> nat, k0: nat) returns (end: DepthEnd)
      modifies this`gameBoard, this`turn, this`currentTurn
      ensures end == Deep(old(gameBoard), old(turn), draw, k0, depth)
      ensures end.Settled? ==> gameBoard == end.board && turn == end.turn
    {
      var k := k0;
      for d := 0 to depth
        invariant Deep(old(gameBoard), old(turn), draw, k0, depth) == Deep(gameBoard, turn, draw, k, depth - d)
      {
        var round := PlayRound(draw, k);
        match round
        case RoundWon =>
          return Won;
        case RoundFailed =>
          return Failed;
        case Stop(_, _, next) =>
          return Settled(gameBoard, turn, next);
        case Next(_, _, next) =>
          k := next;
      }
      return Settled(gameBoard, turn, k);
    }

    /**
     * One pass of the depth loop: a random move, the checkmate and
     * empty-action-space tests, the reply and its checkmate test.
     */
    method PlayRound(draw: nat -> nat, k: nat) returns (end: RoundEnd)
      modifies this`gameBoard, this`turn, this`currentTurn
      ensures end == Round(old(gameBoard), old(turn), draw, k)
      ensures end.Stop? || end.Next? ==> gameBoard == end.board && turn == end.turn
    {
      RoundDef(gameBoard, turn, draw, k);
      var present := KingsPresent();
      if !present {
        return RoundFailed;
      }
      var action := RandomMove(draw(k));
      if action.None? {
        return RoundFailed;
      }
      present := KingsPresent();
      if !present {
        return RoundFailed;
      }
      var mate := IsCheckmate();
      if mate {
        return RoundWon;
      }
      var moves := ActionSpace();
      if |moves| == 0 {
        return Next(gameBoard, turn, k + 1);
      }
      action := RandomMove(draw(k + 1));
      present := KingsPresent();
      if !present {
        return RoundFailed;
      }
      mate := IsCheckmate();
      if mate {
        return Stop(gameBoard, turn, k + 2);
      }
      return Next(gameBoard, turn, k + 2);
    }

    /**
     * One pass of MCTS's width loop after the base move is drawn: the base
     * move played by manual_move, the checkmate and empty tests, a random
     * reply and its tests, the depth loop, and get_score.
     */
    method PlayTrial(base: Action, draw: nat -> nat, k: nat) returns (end: TrialEnd)
      requires OnBoard(base.cur) && OnBoard(base.nxt)
      modifies this`gameBoard, this`turn, this`currentTurn
      ensures end == Rollout(old(gameBoard), old(turn), draw, depth, k, base)
    {
      RolloutDef(gameBoard, turn, draw, depth, k, base);
      ManualMove(base.cur, base.nxt);
      var present := KingsPresent();
      if !present {
        return Crash;
      }
      var mate := IsCheckmate();
      if mate {
        return Mate;
      }
      var moves := ActionSpace();
      if |moves| == 0 {
        return Skip(k);
      }
      var action := RandomMove(draw(k));
      present := KingsPresent();
      if !present {
        return Crash;
      }
      mate := IsCheckmate();
      if mate {
        return Skip(k + 1);
      }
      moves := ActionSpace();
      if |moves| == 0 {
        return Skip(k + 1);
      }
      var deep := PlayDepth(draw, k + 1);
      match deep
      case Won =>
        return Mate;
      case Failed =>
        return Crash;
      case Settled(_, _, next) =>
        var score := GetScore();
        return Scored(score, gameBoard, turn, next);
    }

    /**
     * MCTS with the random draws supplied as draw: width trials, each on a
     * deep copy of the game; a trial that mates returns its base move; the
     * base move of the first strictly best score wins; with no score above
     * the sentinel, a random action.
     */
    method Mcts(draw: nat -> nat) returns (outcome: Outcome)
      requires KingsOnBoard(gameBoard)
      ensures outcome == Search(gameBoard, turn, draw, depth, width, 0, Sentinel, None)
    {
      var bestScoreInit := Sentinel;
      var bestMove: Option<Action> := None;
      var bestScore := bestScoreInit;
      var k: nat := 0;
      for w := 0 to width
        invariant bestScore >= Sentinel && (bestMove.None? <==> bestScore == Sentinel)
        invariant Search(gameBoard, turn, draw, depth, width, 0, Sentinel, None) ==
          Search(gameBoard, turn, draw, depth, width - w, k, bestScore, bestMove)
      {
        var mctsGame := new TupleGame.Copy(this);
        var baseAction := mctsGame.RandomAction(draw(k));
        if baseAction.None? {
          return Raised;
        }
        var base := baseAction.value;
        ActionSpaceMembers(gameBoard, turn, base);
        var trial := mctsGame.PlayTrial(base, draw, k + 1);
        match trial
        case Mate =>
          return Chosen(base);
        case Crash =>
          return Raised;
        case Skip(next) =>
          k := next;
        case Scored(score, _, _, next) =>
          k := next;
          if score > bestScore {
            bestScore := score;
            bestMove := Some(base);
          }
      }
      if bestScore == bestScoreInit {
        var action := RandomAction(draw(k));
        if action.None? {
          return Raised;
        }
        return Chosen(action.value);
      }
      return Chosen(bestMove.value);
    }
  }

  /** Two boards with the same cell on every square are the same board. */
  lemma SameLayout(b1: GameBoard, b2: GameBoard)
    requires forall r, c :: 0 <= r < 8 && 0 <= c < 8 ==> b1[r][c] == b2[r][c]
    ensures b1 == b2
  {
    assert forall r :: 0 <= r < 8 ==> b1[r] == b2[r];
  }

  /** The squares from cur to nxt along a line or a diagonal are on the board. */
  lemma BetweenOnBoard(cur: Square, nxt: Square, k: int)
    requires OnBoard(cur) && OnBoard(nxt) && 0 <= k <= Dist(cur, nxt)
    requires cur.row == nxt.row || cur.col == nxt.col || Abs(nxt.row - cur.row) == Abs(nxt.col - cur.col)
    ensures OnBoard(Toward(cur, nxt, k))
  {
  }

  /** The direction is_on_diagonal_and_free's branches list squares in, from cur towards nxt. */
  function DiagStep(cur: Square, nxt: Square): (int, int)
  {
    if nxt.row > cur.row && cur.col > nxt.col then (1, -1)
    else if nxt.row < cur.row && cur.col > nxt.col then (-1, -1)
    else if nxt.row > cur.row && cur.col < nxt.col then (1, 1)
    else (-1, 1)
  }

  /** The k-th square from cur along direction d. */
  function Diagonal(cur: Square, d: (int, int), k: int): Square
  {
    Sq(cur.row + Stride(d.0, k), cur.col + Stride(d.1, k))
  }

  /**
   * On a diagonal through cur, the seven listed squares contain nxt exactly
   * when nxt differs from cur, and then they run towards nxt.
   */
  lemma DiagonalListed(cur: Square, nxt: Square, ps: seq<Square>)
    requires OnBoard(cur) && OnBoard(nxt) && Abs(nxt.row - cur.row) == Abs(nxt.col - cur.col)
    requires |ps| == 7 && forall j :: 0 <= j < 7 ==> ps[j] == Diagonal(cur, DiagStep(cur, nxt), j + 1)
    ensures nxt in ps <==> nxt != cur
    ensures nxt != cur ==> 1 <= Dist(cur, nxt) <= 7 && ListsToward(ps, cur, nxt)
  {
    if nxt != cur {
      assert ps[Dist(cur, nxt) - 1] == nxt;
    }
  }
}
