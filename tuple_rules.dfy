/**
 * The second, self-contained rules engine of the repository (chess.py).
 * A board is an 8x8 table of value triples (sign, value, colour code);
 * white starts on rows 0-1 and moves towards row 7. Everything here is a
 * pure function of a board, the side to move and squares; the class in
 * tuple_game.dfy computes the same things with the source's loops.
 */
module TupleRules {
  import opened Wrappers
  import opened Pieces

  // ------------------------------------------------ cells and boards

  /** The first component of a cell: 0 on an empty square, else the sign 'p', 'kn', 'b', 'r', 'q' or 'ki'. */
  datatype Sign = NoSign | SignOf(kind: Kind)

  /** One square's content, the triple (sign, value, colour code). */
  datatype Cell = Cell(sign: Sign, value: int, color: int)

  /** Colour codes: white is 0, black is 1 (an empty cell carries 3). */
  function Code(c: Color): (r: int)
    ensures r == 0 <==> c == White
    ensures r == 1 <==> c == Black
  {
    match c
    case White => 0
    case Black => 1
  }

  const NonePiece := Cell(NoSign, 0, 3)

  /** The engine's own value table: pawn 1, knight 2, bishop 2, rook 5, queen 1, king 1. */
  function TableValue(k: Kind): int
  {
    match k
    case Pawn => 1
    case Knight => 2
    case Bishop => 2
    case Rook => 5
    case Queen => 1
    case King => 1
  }

  /** The cell of a piece of kind k and colour c, e.g. ('r', 5, 0) for the white rook. */
  function PieceCell(k: Kind, c: Color): Cell
  {
    Cell(SignOf(k), TableValue(k), Code(c))
  }

  predicate IsLayout(b: seq<seq<Cell>>)
  {
    |b| == 8 && forall r :: 0 <= r < 8 ==> |b[r]| == 8
  }

  /** The game board as the list of eight rows of eight cells (row index first). */
  type GameBoard = b: seq<seq<Cell>> | IsLayout(b) witness BlankBoard()

  /** blank_board: every cell is none_piece. */
  function BlankBoard(): (b: seq<seq<Cell>>)
    ensures IsLayout(b)
    ensures forall r, c :: 0 <= r < 8 && 0 <= c < 8 ==> b[r][c] == NonePiece
  {
    seq(8, _ => seq(8, _ => NonePiece))
  }

  function CellAt(b: GameBoard, s: Square): Cell
    requires OnBoard(s)
  {
    b[s.row][s.col]
  }

  /** The board with the cell at s replaced by v; every other square keeps its cell. */
  function Put(b: GameBoard, s: Square, v: Cell): (r: GameBoard)
    requires OnBoard(s)
    ensures CellAt(r, s) == v
    ensures forall t :: OnBoard(t) && t != s ==> CellAt(r, t) == CellAt(b, t)
  {
    b[s.row := b[s.row][s.col := v]]
  }

  /** is_free: the square holds none_piece. */
  predicate Free(b: GameBoard, s: Square)
  {
    OnBoard(s) && CellAt(b, s) == NonePiece
  }

  /** The cell at s carries colour c's code. */
  predicate Owned(b: GameBoard, s: Square, c: Color)
  {
    OnBoard(s) && CellAt(b, s).color == Code(c)
  }

  function Abs(x: int): nat
  {
    if x < 0 then -x else x
  }

  // ------------------------------------------------ lines and diagonals

  /** k steps in the direction of the sign of x. */
  function Stride(x: int, k: int): int
  {
    if x > 0 then k else if x < 0 then -k else 0
  }

  /** The k-th square from cur heading towards nxt (one step per row and/or column). */
  function Toward(cur: Square, nxt: Square, k: int): Square
  {
    Sq(cur.row + Stride(nxt.row - cur.row, k), cur.col + Stride(nxt.col - cur.col, k))
  }

  /** The number of steps from cur to nxt along a line or a diagonal. */
  function Dist(cur: Square, nxt: Square): nat
  {
    var dr := Abs(nxt.row - cur.row);
    var dc := Abs(nxt.col - cur.col);
    if dr < dc then dc else dr
  }

  /** Every square strictly between cur and nxt is empty. */
  predicate PathClear(b: GameBoard, cur: Square, nxt: Square)
  {
    forall k :: 1 <= k < Dist(cur, nxt) ==> Free(b, Toward(cur, nxt, k))
  }

  /** The listed squares are, in order, the 1st, 2nd, ... squares from cur towards nxt. */
  predicate ListsToward(ps: seq<Square>, cur: Square, nxt: Square)
  {
    forall j :: 0 <= j < |ps| ==> ps[j] == Toward(cur, nxt, j + 1)
  }

  /** A list of exactly the squares between cur and nxt is all empty precisely when the path is clear. */
  lemma ListedPath(b: GameBoard, ps: seq<Square>, cur: Square, nxt: Square)
    requires ListsToward(ps, cur, nxt) && |ps| + 1 == Dist(cur, nxt)
    ensures (forall m :: 0 <= m < |ps| ==> Free(b, ps[m])) <==> PathClear(b, cur, nxt)
  {
    if forall m :: 0 <= m < |ps| ==> Free(b, ps[m]) {
      forall k | 1 <= k < Dist(cur, nxt)
        ensures Free(b, Toward(cur, nxt, k))
      {
        assert ps[k - 1] == Toward(cur, nxt, k);
      }
    }
  }

  /**
   * is_on_line_and_free: the two squares share a row or a column, the
   * squares between them are empty and the destination does not hold a
   * piece of the side to move (it may be empty or hold an enemy piece).
   */
  predicate OnLineAndFree(b: GameBoard, turn: Color, cur: Square, nxt: Square)
  {
    (cur.row == nxt.row || cur.col == nxt.col) && PathClear(b, cur, nxt) && !Owned(b, nxt, turn)
  }

  /**
   * is_on_diagonal_and_free: the destination is a different square on one
   * of cur's diagonals, the squares before it are empty and it does not
   * hold a piece of the side to move.
   */
  predicate OnDiagonalAndFree(b: GameBoard, turn: Color, cur: Square, nxt: Square)
  {
    Abs(nxt.row - cur.row) == Abs(nxt.col - cur.col) && nxt != cur &&
    PathClear(b, cur, nxt) && !Owned(b, nxt, turn)
  }

  // ------------------------------------------------ pawn, knight, king

  /** The row direction a pawn advances in: white up the rows, black down. */
  function Advance(c: Color): int
  {
    if c == White then 1 else -1
  }

  /** The row a pawn may make its double step from. */
  function StartRow(c: Color): int
  {
    if c == White then 1 else 6
  }

  /**
   * is_pawn_move_legal: a double step from the start row onto two empty
   * squares, a single step onto an empty square, or a diagonal step onto a
   * piece of the other colour.
   */
  predicate PawnMoveLegal(b: GameBoard, turn: Color, cur: Square, nxt: Square)
  {
    var f := Advance(turn);
    (cur.row == StartRow(turn) && nxt.row == cur.row + 2 * f && cur.col == nxt.col &&
     Free(b, nxt) && Free(b, Sq(cur.row + f, nxt.col))) ||
    (nxt.row == cur.row + f && cur.col == nxt.col && Free(b, nxt)) ||
    (nxt.row == cur.row + f && Abs(cur.col - nxt.col) == 1 && Owned(b, nxt, Opponent(turn)))
  }

  /**
   * is_knight_move_legal: a jump of two rows and one column is accepted
   * whatever the destination holds; a jump of one row and two columns
   * only when the destination is not the mover's.
   */
  predicate KnightMoveLegal(b: GameBoard, turn: Color, cur: Square, nxt: Square)
  {
    (Abs(cur.row - nxt.row) == 2 && Abs(cur.col - nxt.col) == 1) ||
    (Abs(cur.row - nxt.row) == 1 && Abs(cur.col - nxt.col) == 2 && !Owned(b, nxt, turn))
  }

  /** The two kings are on neighbouring squares (a row, a column or both apart by one). */
  predicate Neighbours(w: Square, k: Square)
  {
    (Abs(w.row - k.row) == 1 && Abs(w.col - k.col) == 1) ||
    (Abs(w.row - k.row) == 0 && Abs(w.col - k.col) == 1) ||
    (Abs(w.row - k.row) == 1 && Abs(w.col - k.col) == 0)
  }

  /**
   * is_kings_in_proximity: with the mover's king placed on nxt, it would
   * neighbour the other side's king (the last one found in row-major order).
   */
  predicate KingsInProximity(b: GameBoard, turn: Color, nxt: Square)
    requires LastKing(b, Opponent(turn)).Some?
  {
    Neighbours(nxt, LastKing(b, Opponent(turn)).value)
  }

  /**
   * is_king_move_legal: Some(false) for a step further than one square, onto
   * the mover's own piece or next to the other king; None otherwise (the
   * source falls off the end of the function and returns None).
   */
  function KingMoveLegal(b: GameBoard, turn: Color, cur: Square, nxt: Square): (r: Option<bool>)
    requires Abs(cur.row - nxt.row) <= 1 && Abs(cur.col - nxt.col) <= 1 && !Owned(b, nxt, turn) ==>
      LastKing(b, Opponent(turn)).Some?
    ensures r != Some(true)
    ensures r == None <==>
      Abs(cur.row - nxt.row) <= 1 && Abs(cur.col - nxt.col) <= 1 && !Owned(b, nxt, turn) &&
      !Neighbours(nxt, LastKing(b, Opponent(turn)).value)
  {
    if !(Abs(cur.row - nxt.row) <= 1 && Abs(cur.col - nxt.col) <= 1) then Some(false)
    else if Owned(b, nxt, turn) then Some(false)
    else if KingsInProximity(b, turn, nxt) then Some(false)
    else None
  }

  // ------------------------------------------------ scanning the board

  /** The last square of row r, among its first n columns, holding cell v. */
  function RowLast(b: GameBoard, v: Cell, r: int, n: nat): (l: Option<Square>)
    requires 0 <= r < 8 && n <= 8
    ensures l.Some? ==> l.value.row == r && 0 <= l.value.col < n && b[r][l.value.col] == v
  {
    if n == 0 then None
    else if b[r][n - 1] == v then Some(Sq(r, n - 1))
    else RowLast(b, v, r, n - 1)
  }

  /** The last square, in row-major order over the first `rows` rows, holding cell v. */
  function LastUpTo(b: GameBoard, v: Cell, rows: nat): (l: Option<Square>)
    requires rows <= 8
    ensures l.Some? ==> OnBoard(l.value) && l.value.row < rows && CellAt(b, l.value) == v
  {
    if rows == 0 then None
    else if RowLast(b, v, rows - 1, 8).Some? then RowLast(b, v, rows - 1, 8)
    else LastUpTo(b, v, rows - 1)
  }

  /** The king a scan of the board settles on: the last one found in row-major order. */
  function LastKing(b: GameBoard, side: Color): (k: Option<Square>)
    ensures k.Some? ==> OnBoard(k.value) && CellAt(b, k.value) == PieceCell(King, side)
  {
    LastUpTo(b, PieceCell(King, side), 8)
  }

  /** Both kings are on the board, as every check test of the source needs. */
  predicate KingsOnBoard(b: GameBoard)
  {
    LastKing(b, White).Some? && LastKing(b, Black).Some?
  }

  /** The squares of row r, among its first n columns, holding cell v, in column order. */
  function RowCells(b: GameBoard, v: Cell, r: int, n: nat): (ps: seq<Square>)
    requires 0 <= r < 8 && n <= 8
    ensures forall s :: s in ps ==> s.row == r && 0 <= s.col < n && b[r][s.col] == v
  {
    if n == 0 then []
    else RowCells(b, v, r, n - 1) + (if b[r][n - 1] == v then [Sq(r, n - 1)] else [])
  }

  /** The squares of the first `rows` rows holding cell v, in row-major order. */
  function CellsUpTo(b: GameBoard, v: Cell, rows: nat): (ps: seq<Square>)
    requires rows <= 8
    ensures forall s :: s in ps ==> OnBoard(s) && s.row < rows && CellAt(b, s) == v
  {
    if rows == 0 then [] else CellsUpTo(b, v, rows - 1) + RowCells(b, v, rows - 1, 8)
  }

  function CellsOf(b: GameBoard, v: Cell): (ps: seq<Square>)
    ensures forall s :: s in ps ==> OnBoard(s) && CellAt(b, s) == v
  {
    CellsUpTo(b, v, 8)
  }

  // ------------------------------------------------ check detection

  /** How an attacker of a given kind is tested against the king's square. */
  datatype Reach = ByLine | ByDiagonal | ByLineOrDiagonal | ByJump

  /** The eight squares a knight could give check from, in the source's order. */
  function KnightRing(k: Square): seq<Square>
  {
    [Sq(k.row - 2, k.col - 1), Sq(k.row - 2, k.col + 1),
     Sq(k.row - 1, k.col - 2), Sq(k.row + 1, k.col - 2),
     Sq(k.row + 2, k.col - 1), Sq(k.row + 2, k.col + 1),
     Sq(k.row + 1, k.col + 2), Sq(k.row - 1, k.col + 2)]
  }

  /** The check test for one attacker square s against the king's square k. */
  predicate Reaches(b: GameBoard, turn: Color, k: Square, s: Square, how: Reach)
  {
    match how
    case ByLine => OnLineAndFree(b, turn, k, s)
    case ByDiagonal => OnDiagonalAndFree(b, turn, k, s)
    case ByLineOrDiagonal => OnLineAndFree(b, turn, k, s) || OnDiagonalAndFree(b, turn, k, s)
    case ByJump => s in KnightRing(k)
  }

  /** Some square of ps from index i on passes the check test `how` against k. */
  predicate Hit(b: GameBoard, turn: Color, k: Square, ps: seq<Square>, i: nat, how: Reach)
    decreases |ps| - i
  {
    i < |ps| && (Reaches(b, turn, k, ps[i], how) || Hit(b, turn, k, ps, i + 1, how))
  }

  /** An enemy pawn stands on one of the two squares diagonally in front of the king at k. */
  predicate PawnHit(b: GameBoard, k: Square, side: Color)
  {
    var r := k.row + Advance(side);
    var p := PieceCell(Pawn, Opponent(side));
    (OnBoard(Sq(r, k.col - 1)) && CellAt(b, Sq(r, k.col - 1)) == p) ||
    (OnBoard(Sq(r, k.col + 1)) && CellAt(b, Sq(r, k.col + 1)) == p)
  }

  /**
   * is_black_check / is_white_check: side's king (the last one found) is
   * reached by an enemy rook along a free line, by an enemy bishop along a
   * free diagonal, by an enemy queen along either, by an enemy pawn or by an
   * enemy knight. The line and diagonal tests look at the destination's
   * colour against the side to move, turn, as the source does.
   */
  predicate Checked(b: GameBoard, turn: Color, side: Color)
    requires LastKing(b, side).Some?
  {
    CheckedAfter(b, turn, side, 1)
  }

  /**
   * Checked with the definition behind a counter, so that the verifier
   * expands it (one recursive step at a time) only where CheckedDef is used.
   */
  predicate CheckedAfter(b: GameBoard, turn: Color, side: Color, n: nat)
    requires LastKing(b, side).Some?
  {
    if n == 0 then
      var k := LastKing(b, side).value;
      var o := Opponent(side);
      Hit(b, turn, k, CellsOf(b, PieceCell(Rook, o)), 0, ByLine) ||
      Hit(b, turn, k, CellsOf(b, PieceCell(Bishop, o)), 0, ByDiagonal) ||
      Hit(b, turn, k, CellsOf(b, PieceCell(Queen, o)), 0, ByLineOrDiagonal) ||
      PawnHit(b, k, side) ||
      Hit(b, turn, k, CellsOf(b, PieceCell(Knight, o)), 0, ByJump)
    else CheckedAfter(b, turn, side, n - 1)
  }

  lemma CheckedDef(b: GameBoard, turn: Color, side: Color)
    requires LastKing(b, side).Some?
    ensures Checked(b, turn, side) ==
      var k := LastKing(b, side).value;
      var o := Opponent(side);
      Hit(b, turn, k, CellsOf(b, PieceCell(Rook, o)), 0, ByLine) ||
      Hit(b, turn, k, CellsOf(b, PieceCell(Bishop, o)), 0, ByDiagonal) ||
      Hit(b, turn, k, CellsOf(b, PieceCell(Queen, o)), 0, ByLineOrDiagonal) ||
      PawnHit(b, k, side) ||
      Hit(b, turn, k, CellsOf(b, PieceCell(Knight, o)), 0, ByJump)
  {
    assert CheckedAfter(b, turn, side, 1) == CheckedAfter(b, turn, side, 0);
  }

  // ------------------------------------------------ what the scans find

  /** The row-major position of a square, 0 .. 63 on the board. */
  function Rank(s: Square): int
  {
    8 * s.row + s.col
  }

  /** The square at row-major position i. */
  function Idx(i: int): Square
  {
    Sq(i / 8, i % 8)
  }

  lemma IdxRank(s: Square)
    requires OnBoard(s)
    ensures Idx(Rank(s)) == s
  {
  }

  lemma {:induction false} RowLastSpec(b: GameBoard, v: Cell, r: int, n: nat)
    requires 0 <= r < 8 && n <= 8
    ensures RowLast(b, v, r, n).Some? <==> exists c :: 0 <= c < n && b[r][c] == v
    ensures RowLast(b, v, r, n).Some? ==>
      var s := RowLast(b, v, r, n).value;
      s.row == r && 0 <= s.col < n && b[r][s.col] == v &&
      forall c :: s.col < c < n ==> b[r][c] != v
  {
    if n > 0 {
      RowLastSpec(b, v, r, n - 1);
      if b[r][n - 1] != v && RowLast(b, v, r, n).None? {
        forall c | 0 <= c < n
          ensures b[r][c] != v
        {
          if c < n - 1 {
            assert !(exists c' :: 0 <= c' < n - 1 && b[r][c'] == v);
          }
        }
      }
    }
  }

  lemma {:induction false} LastUpToSpec(b: GameBoard, v: Cell, rows: nat)
    requires rows <= 8
    ensures LastUpTo(b, v, rows).Some? <==> exists s :: OnBoard(s) && s.row < rows && CellAt(b, s) == v
    ensures LastUpTo(b, v, rows).Some? ==>
      var s := LastUpTo(b, v, rows).value;
      OnBoard(s) && s.row < rows && CellAt(b, s) == v &&
      forall t :: OnBoard(t) && t.row < rows && CellAt(b, t) == v ==> Rank(t) <= Rank(s)
  {
    if rows > 0 {
      LastUpToSpec(b, v, rows - 1);
      RowLastSpec(b, v, rows - 1, 8);
      if RowLast(b, v, rows - 1, 8).Some? {
        var s := RowLast(b, v, rows - 1, 8).value;
        assert OnBoard(s) && s.row < rows && CellAt(b, s) == v;
      }
    }
  }

  /**
   * The king the scan settles on holds side's king and comes last in
   * row-major order among all squares that do; there is one exactly when
   * side has a king on the board.
   */
  lemma LastKingSpec(b: GameBoard, side: Color)
    ensures LastKing(b, side).Some? <==> exists s :: OnBoard(s) && CellAt(b, s) == PieceCell(King, side)
    ensures LastKing(b, side).Some? ==>
      var k := LastKing(b, side).value;
      OnBoard(k) && CellAt(b, k) == PieceCell(King, side) &&
      forall t :: OnBoard(t) && CellAt(b, t) == PieceCell(King, side) ==> Rank(t) <= Rank(k)
  {
    LastUpToSpec(b, PieceCell(King, side), 8);
  }

  lemma {:induction false} RowCellsMembers(b: GameBoard, v: Cell, r: int, n: nat, s: Square)
    requires 0 <= r < 8 && n <= 8
    ensures s in RowCells(b, v, r, n) <==> s.row == r && 0 <= s.col < n && b[r][s.col] == v
  {
    if n > 0 {
      RowCellsMembers(b, v, r, n - 1, s);
    }
  }

  lemma {:induction false} CellsUpToMembers(b: GameBoard, v: Cell, rows: nat, s: Square)
    requires rows <= 8
    ensures s in CellsUpTo(b, v, rows) <==> OnBoard(s) && s.row < rows && CellAt(b, s) == v
  {
    if rows > 0 {
      CellsUpToMembers(b, v, rows - 1, s);
      RowCellsMembers(b, v, rows - 1, 8, s);
    }
  }

  /** The scan for the squares holding v lists exactly those squares. */
  lemma CellsOfMembers(b: GameBoard, v: Cell, s: Square)
    ensures s in CellsOf(b, v) <==> OnBoard(s) && CellAt(b, s) == v
  {
    CellsUpToMembers(b, v, 8, s);
  }

  lemma {:induction false} HitMembers(b: GameBoard, turn: Color, k: Square, ps: seq<Square>, i: nat, how: Reach)
    requires i <= |ps|
    decreases |ps| - i
    ensures Hit(b, turn, k, ps, i, how) <==> exists j :: i <= j < |ps| && Reaches(b, turn, k, ps[j], how)
  {
    if i < |ps| {
      HitMembers(b, turn, k, ps, i + 1, how);
      if Hit(b, turn, k, ps, i + 1, how) {
        var j :| i + 1 <= j < |ps| && Reaches(b, turn, k, ps[j], how);
        assert i <= j;
      }
      if exists j :: i <= j < |ps| && Reaches(b, turn, k, ps[j], how) {
        var j :| i <= j < |ps| && Reaches(b, turn, k, ps[j], how);
        if j > i {
          assert i + 1 <= j;
        }
      }
    }
  }

  /** Hit over the scanned squares of v is a test over all squares holding v. */
  lemma HitCells(b: GameBoard, turn: Color, k: Square, v: Cell, how: Reach)
    ensures Hit(b, turn, k, CellsOf(b, v), 0, how) <==>
      exists s :: OnBoard(s) && CellAt(b, s) == v && Reaches(b, turn, k, s, how)
  {
    var ps := CellsOf(b, v);
    HitMembers(b, turn, k, ps, 0, how);
    if Hit(b, turn, k, ps, 0, how) {
      var j :| 0 <= j < |ps| && Reaches(b, turn, k, ps[j], how);
      CellsOfMembers(b, v, ps[j]);
    }
    if exists s :: OnBoard(s) && CellAt(b, s) == v && Reaches(b, turn, k, s, how) {
      var s :| OnBoard(s) && CellAt(b, s) == v && Reaches(b, turn, k, s, how);
      CellsOfMembers(b, v, s);
      var j :| 0 <= j < |ps| && ps[j] == s;
    }
  }

  // ------------------------------------------------ move validity

  /** The board of is_move_valid's copy: the moving cell written on nxt, then cur emptied. */
  function Relocated(b: GameBoard, cur: Square, nxt: Square): GameBoard
    requires OnBoard(cur) && OnBoard(nxt)
  {
    Put(Put(b, nxt, CellAt(b, cur)), cur, NonePiece)
  }

  /**
   * Relocating one of the mover's pieces onto a square the mover does not
   * hold leaves the mover a king on the board.
   */
  lemma KingKept(b: GameBoard, turn: Color, cur: Square, nxt: Square)
    requires OnBoard(cur) && OnBoard(nxt) && LastKing(b, turn).Some?
    requires Owned(b, cur, turn) && !Owned(b, nxt, turn)
    ensures LastKing(Relocated(b, cur, nxt), turn).Some?
  {
    LastKingSpec(b, turn);
    var k := LastKing(b, turn).value;
    var r := Relocated(b, cur, nxt);
    if k == cur {
      assert CellAt(r, nxt) == PieceCell(King, turn);
      LastKingSpec(r, turn);
    } else {
      assert CellAt(r, k) == PieceCell(King, turn);
      LastKingSpec(r, turn);
    }
  }

  /**
   * The movement test is_move_valid applies for the sign on cur: pawn,
   * knight, line for a rook, diagonal for a bishop, either for a queen (it
   * rejects only when both fail); a king is rejected only on an explicit
   * False, so its None passes; an unknown sign has no movement test.
   */
  predicate PieceRule(b: GameBoard, turn: Color, cur: Square, nxt: Square)
    requires OnBoard(cur) && OnBoard(nxt) && LastKing(b, Opponent(turn)).Some?
  {
    match CellAt(b, cur).sign
    case SignOf(Pawn) => PawnMoveLegal(b, turn, cur, nxt)
    case SignOf(Knight) => KnightMoveLegal(b, turn, cur, nxt)
    case SignOf(Bishop) => OnDiagonalAndFree(b, turn, cur, nxt)
    case SignOf(Rook) => OnLineAndFree(b, turn, cur, nxt)
    case SignOf(Queen) => OnDiagonalAndFree(b, turn, cur, nxt) || OnLineAndFree(b, turn, cur, nxt)
    case SignOf(King) => KingMoveLegal(b, turn, cur, nxt) != Some(false)
    case NoSign => true
  }

  /**
   * is_move_valid: the origin holds the mover's colour, the destination
   * does not, the piece's movement test passes and, on a copy with the piece
   * relocated, the mover is not in check. (The source also runs the last
   * test first when the mover is already in check; both reject the same moves.)
   */
  predicate MoveValid(b: GameBoard, turn: Color, cur: Square, nxt: Square)
    requires OnBoard(cur) && OnBoard(nxt) && KingsOnBoard(b)
  {
    MoveValidAfter(b, turn, cur, nxt, 1)
  }

  /** MoveValid behind a counter; MoveValidDef exposes the definition. */
  predicate MoveValidAfter(b: GameBoard, turn: Color, cur: Square, nxt: Square, n: nat)
    requires OnBoard(cur) && OnBoard(nxt) && KingsOnBoard(b)
  {
    if n == 0 then
      Owned(b, cur, turn) && !Owned(b, nxt, turn) && PieceRule(b, turn, cur, nxt) &&
      (KingKept(b, turn, cur, nxt); !Checked(Relocated(b, cur, nxt), turn, turn))
    else MoveValidAfter(b, turn, cur, nxt, n - 1)
  }

  lemma MoveValidDef(b: GameBoard, turn: Color, cur: Square, nxt: Square)
    requires OnBoard(cur) && OnBoard(nxt) && KingsOnBoard(b)
    ensures MoveValid(b, turn, cur, nxt) ==
      (Owned(b, cur, turn) && !Owned(b, nxt, turn) && PieceRule(b, turn, cur, nxt) &&
       (KingKept(b, turn, cur, nxt); !Checked(Relocated(b, cur, nxt), turn, turn)))
  {
    assert MoveValidAfter(b, turn, cur, nxt, 1) == MoveValidAfter(b, turn, cur, nxt, 0);
  }

  /**
   * A valid move starts on the mover's own piece, does not land on one,
   * never stays on its square, keeps the mover's king on the board and does
   * not leave the mover in check.
   */
  lemma MoveValidSafe(b: GameBoard, turn: Color, cur: Square, nxt: Square)
    requires OnBoard(cur) && OnBoard(nxt) && KingsOnBoard(b) && MoveValid(b, turn, cur, nxt)
    ensures Owned(b, cur, turn) && !Owned(b, nxt, turn) && cur != nxt
    ensures LastKing(Relocated(b, cur, nxt), turn).Some? && !Checked(Relocated(b, cur, nxt), turn, turn)
  {
    MoveValidDef(b, turn, cur, nxt);
    KingKept(b, turn, cur, nxt);
  }

  /** On a line or a diagonal, the k-th square from one end is the (d - k)-th from the other. */
  lemma TowardFlip(cur: Square, nxt: Square, k: int)
    requires cur.row == nxt.row || cur.col == nxt.col || Abs(nxt.row - cur.row) == Abs(nxt.col - cur.col)
    ensures Dist(nxt, cur) == Dist(cur, nxt)
    ensures Toward(nxt, cur, k) == Toward(cur, nxt, Dist(cur, nxt) - k)
  {
  }

  /** The squares between two aligned squares are empty seen from either end. */
  lemma PathSymmetric(b: GameBoard, cur: Square, nxt: Square)
    requires cur.row == nxt.row || cur.col == nxt.col || Abs(nxt.row - cur.row) == Abs(nxt.col - cur.col)
    ensures PathClear(b, cur, nxt) <==> PathClear(b, nxt, cur)
  {
    var d := Dist(cur, nxt);
    TowardFlip(cur, nxt, 0);
    if PathClear(b, cur, nxt) {
      forall k | 1 <= k < d
        ensures Free(b, Toward(nxt, cur, k))
      {
        TowardFlip(cur, nxt, k);
        assert Free(b, Toward(cur, nxt, d - k));
      }
    }
    if PathClear(b, nxt, cur) {
      forall k | 1 <= k < d
        ensures Free(b, Toward(cur, nxt, k))
      {
        TowardFlip(nxt, cur, k);
        assert Free(b, Toward(nxt, cur, d - k));
      }
    }
  }

  /** A pawn that may step onto an occupied square k stands diagonally in front of it. */
  lemma PawnAttack(b: GameBoard, turn: Color, cur: Square, k: Square)
    requires OnBoard(cur) && OnBoard(k) && !Free(b, k)
    requires CellAt(b, cur) == PieceCell(Pawn, turn) && PawnMoveLegal(b, turn, cur, k)
    ensures PawnHit(b, k, Opponent(turn))
  {
    assert k.row + Advance(Opponent(turn)) == cur.row;
  }

  /** A knight that may jump onto k stands on k's knight ring. */
  lemma KnightAttack(b: GameBoard, turn: Color, cur: Square, k: Square)
    requires KnightMoveLegal(b, turn, cur, k)
    ensures cur in KnightRing(k)
  {
  }

  /** A line or diagonal move onto k is, seen from k, a line or diagonal onto an enemy square. */
  lemma SliderAttack(b: GameBoard, turn: Color, cur: Square, k: Square)
    requires OnBoard(cur) && Owned(b, cur, turn)
    ensures OnLineAndFree(b, turn, cur, k) ==> OnLineAndFree(b, Opponent(turn), k, cur)
    ensures OnDiagonalAndFree(b, turn, cur, k) ==> OnDiagonalAndFree(b, Opponent(turn), k, cur)
  {
    if OnLineAndFree(b, turn, cur, k) || OnDiagonalAndFree(b, turn, cur, k) {
      PathSymmetric(b, cur, k);
    }
  }

  /**
   * Check detection covers every movement rule but the king's: when a
   * standard pawn, knight, bishop, rook or queen of the mover may move onto
   * the square of the other side's king, that side is found in check.
   * So after a valid move, no such piece of the opponent can take the
   * mover's king.
   */
  lemma AttackGivesCheck(b: GameBoard, turn: Color, cur: Square, kind: Kind)
    requires KingsOnBoard(b) && OnBoard(cur)
    requires kind != King && CellAt(b, cur) == PieceCell(kind, turn)
    requires PieceRule(b, turn, cur, LastKing(b, Opponent(turn)).value)
    ensures Checked(b, Opponent(turn), Opponent(turn))
  {
    var o := Opponent(turn);
    var k := LastKing(b, o).value;
    CheckedDef(b, o, o);
    assert Opponent(o) == turn;
    var v := PieceCell(kind, turn);
    if kind == Pawn {
      PawnAttack(b, turn, cur, k);
    } else if kind == Knight {
      KnightAttack(b, turn, cur, k);
      assert Reaches(b, o, k, cur, ByJump);
      HitCells(b, o, k, v, ByJump);
    } else {
      SliderAttack(b, turn, cur, k);
      var how := if kind == Bishop then ByDiagonal else if kind == Rook then ByLine else ByLineOrDiagonal;
      assert Reaches(b, o, k, cur, how);
      HitCells(b, o, k, v, how);
    }
  }

  // ------------------------------------------------ the action space

  /** A move (row, col, next_row, next_col). */
  datatype Action = Action(cur: Square, nxt: Square)

  /** The valid moves from cur to the first n squares (row-major), skipping cur itself. */
  function TargetsUpTo(b: GameBoard, turn: Color, cur: Square, n: nat): seq<Action>
    requires n <= 64 && OnBoard(cur) && KingsOnBoard(b)
  {
    if n == 0 then []
    else
      var t := Idx(n - 1);
      TargetsUpTo(b, turn, cur, n - 1) + (if t != cur && MoveValid(b, turn, cur, t) then [Action(cur, t)] else [])
  }

  /** The valid moves from the first n squares (row-major), in the source's loop order. */
  function ActionsUpTo(b: GameBoard, turn: Color, n: nat): seq<Action>
    requires n <= 64 && KingsOnBoard(b)
  {
    if n == 0 then [] else ActionsUpTo(b, turn, n - 1) + TargetsUpTo(b, turn, Idx(n - 1), 64)
  }

  /** action_space: every valid move of the side to move. */
  function ActionSpaceOf(b: GameBoard, turn: Color): seq<Action>
    requires KingsOnBoard(b)
  {
    ActionsUpTo(b, turn, 64)
  }

  lemma {:induction false} TargetsMembers(b: GameBoard, turn: Color, cur: Square, n: nat, a: Action)
    requires n <= 64 && OnBoard(cur) && KingsOnBoard(b)
    ensures a in TargetsUpTo(b, turn, cur, n) <==>
      a.cur == cur && OnBoard(a.nxt) && Rank(a.nxt) < n && a.nxt != cur && MoveValid(b, turn, cur, a.nxt)
  {
    if n > 0 {
      TargetsMembers(b, turn, cur, n - 1, a);
      if OnBoard(a.nxt) {
        IdxRank(a.nxt);
      }
    }
  }

  lemma {:induction false} ActionsMembers(b: GameBoard, turn: Color, n: nat, a: Action)
    requires n <= 64 && KingsOnBoard(b)
    ensures a in ActionsUpTo(b, turn, n) <==>
      OnBoard(a.cur) && Rank(a.cur) < n && OnBoard(a.nxt) && a.nxt != a.cur && MoveValid(b, turn, a.cur, a.nxt)
  {
    if n > 0 {
      ActionsMembers(b, turn, n - 1, a);
      TargetsMembers(b, turn, Idx(n - 1), 64, a);
      if OnBoard(a.cur) {
        IdxRank(a.cur);
      }
    }
  }

  /** The action space holds exactly the valid moves between two different squares. */
  lemma ActionSpaceMembers(b: GameBoard, turn: Color, a: Action)
    requires KingsOnBoard(b)
    ensures a in ActionSpaceOf(b, turn) <==>
      OnBoard(a.cur) && OnBoard(a.nxt) && a.cur != a.nxt && MoveValid(b, turn, a.cur, a.nxt)
  {
    ActionsMembers(b, turn, 64, a);
  }

  /**
   * The move a random draw picks from xs (randint over its indices); None
   * when xs is empty, where the source raises.
   */
  function Sampled(xs: seq<Action>, pick: nat): (r: Option<Action>)
    ensures r.None? <==> xs == []
    ensures r.Some? ==> r.value in xs
  {
    if xs == [] then None else Some(xs[pick % |xs|])
  }

  /** is_checkmate: no valid move and the side to move is in check. */
  predicate Checkmate(b: GameBoard, turn: Color)
    requires KingsOnBoard(b)
  {
    ActionSpaceOf(b, turn) == [] && Checked(b, turn, turn)
  }

  /** is_game_drawn: the turn counter reached the limit or there is no valid move. */
  predicate Drawn(b: GameBoard, turn: Color, currentTurn: int, maxTurn: int)
    requires currentTurn < maxTurn ==> KingsOnBoard(b)
  {
    currentTurn >= maxTurn || ActionSpaceOf(b, turn) == []
  }

  /** Checkmate holds exactly when the mover is in check and no move between two squares is valid. */
  lemma CheckmateSpec(b: GameBoard, turn: Color)
    requires KingsOnBoard(b)
    ensures Checkmate(b, turn) <==>
      Checked(b, turn, turn) &&
      forall cur, nxt :: OnBoard(cur) && OnBoard(nxt) && cur != nxt ==> !MoveValid(b, turn, cur, nxt)
  {
    if ActionSpaceOf(b, turn) != [] {
      var a := ActionSpaceOf(b, turn)[0];
      ActionSpaceMembers(b, turn, a);
    }
    forall cur, nxt | OnBoard(cur) && OnBoard(nxt) && cur != nxt && MoveValid(b, turn, cur, nxt)
      ensures ActionSpaceOf(b, turn) != []
    {
      ActionSpaceMembers(b, turn, Action(cur, nxt));
    }
  }

  /** A checkmate is also reported as a draw, since its action space is empty. */
  lemma CheckmateIsDrawn(b: GameBoard, turn: Color, currentTurn: int, maxTurn: int)
    requires KingsOnBoard(b) && Checkmate(b, turn)
    ensures Drawn(b, turn, currentTurn, maxTurn)
  {
  }

  // ------------------------------------------------ playing a move

  /** A white pawn reaching row 7 or a black pawn reaching row 0 becomes a queen of its colour. */
  function Promoted(v: Cell, nxt: Square): (r: Cell)
    ensures r != v ==>
      (v == PieceCell(Pawn, White) && nxt.row == 7 && r == PieceCell(Queen, White)) ||
      (v == PieceCell(Pawn, Black) && nxt.row == 0 && r == PieceCell(Queen, Black))
  {
    if v == PieceCell(Pawn, White) && nxt.row == 7 then PieceCell(Queen, White)
    else if v == PieceCell(Pawn, Black) && nxt.row == 0 then PieceCell(Queen, Black)
    else v
  }

  /** move_api and random_move: the origin is emptied, then the (promoted) piece written on nxt. */
  function ApiPlayed(b: GameBoard, cur: Square, nxt: Square): GameBoard
    requires OnBoard(cur) && OnBoard(nxt)
  {
    Put(Put(b, cur, NonePiece), nxt, Promoted(CellAt(b, cur), nxt))
  }

  /** manual_move: the (promoted) piece is written on nxt, then the origin emptied. */
  function ManualPlayed(b: GameBoard, cur: Square, nxt: Square): GameBoard
    requires OnBoard(cur) && OnBoard(nxt)
  {
    Put(Put(b, nxt, Promoted(CellAt(b, cur), nxt)), cur, NonePiece)
  }

  /**
   * The two orders of writing agree on every move between two different
   * squares: the origin is empty, the destination holds the promoted piece,
   * and nothing else changes. On a null move they differ: manual_move
   * deletes the piece, move_api keeps it.
   */
  lemma PlayOrder(b: GameBoard, cur: Square, nxt: Square)
    requires OnBoard(cur) && OnBoard(nxt)
    ensures cur != nxt ==> ApiPlayed(b, cur, nxt) == ManualPlayed(b, cur, nxt)
    ensures cur != nxt ==>
      var r := ApiPlayed(b, cur, nxt);
      CellAt(r, cur) == NonePiece && CellAt(r, nxt) == Promoted(CellAt(b, cur), nxt) &&
      forall t :: OnBoard(t) && t != cur && t != nxt ==> CellAt(r, t) == CellAt(b, t)
    ensures cur == nxt ==>
      CellAt(ManualPlayed(b, cur, nxt), cur) == NonePiece &&
      CellAt(ApiPlayed(b, cur, nxt), cur) == Promoted(CellAt(b, cur), nxt)
    ensures Promoted(CellAt(b, cur), nxt) == CellAt(b, cur) ==> ManualPlayed(b, cur, nxt) == Relocated(b, cur, nxt)
  {
    if cur != nxt {
      var r1 := ApiPlayed(b, cur, nxt);
      var r2 := ManualPlayed(b, cur, nxt);
      forall t | OnBoard(t)
        ensures CellAt(r1, t) == CellAt(r2, t)
      {
      }
      assert forall i :: 0 <= i < 8 ==> r1[i] == r2[i] by {
        forall i | 0 <= i < 8
          ensures r1[i] == r2[i]
        {
          assert forall j :: 0 <= j < 8 ==> CellAt(r1, Sq(i, j)) == CellAt(r2, Sq(i, j));
        }
      }
    }
  }

  // ------------------------------------------------ the score

  /** A cell's contribution to get_score: its value when it carries the black code. */
  function BlackValue(v: Cell): int
  {
    if v.color == 1 then v.value else 0
  }

  /** The values of the black cells among the first n squares (row-major). */
  function BlackValueUpTo(b: GameBoard, n: nat): int
    requires n <= 64
  {
    if n == 0 then 0 else BlackValueUpTo(b, n - 1) + BlackValue(CellAt(b, Idx(n - 1)))
  }

  /** get_score: the total value of the black cells when white is to move, else 0. */
  function Score(b: GameBoard, turn: Color): int
  {
    if turn == White then BlackValueUpTo(b, 64) else 0
  }

  lemma {:induction false} BlackValueUpdate(b: GameBoard, s: Square, v: Cell, n: nat)
    requires OnBoard(s) && n <= 64
    ensures BlackValueUpTo(Put(b, s, v), n) ==
      BlackValueUpTo(b, n) + (if Rank(s) < n then BlackValue(v) - BlackValue(CellAt(b, s)) else 0)
  {
    if n > 0 {
      BlackValueUpdate(b, s, v, n - 1);
      IdxRank(s);
    }
  }

  /**
   * Writing one cell changes the white-to-move score by the black value it
   * adds minus the black value it removes: capturing a black piece lowers
   * it by that piece's value.
   */
  lemma ScoreUpdate(b: GameBoard, s: Square, v: Cell)
    requires OnBoard(s)
    ensures Score(Put(b, s, v), White) == Score(b, White) + BlackValue(v) - BlackValue(CellAt(b, s))
  {
    BlackValueUpdate(b, s, v, 64);
  }

  // ------------------------------------------------ the initial board

  /** The piece on column c of a back rank: rooks, knights, bishops, then queen on 3 and king on 4. */
  function BackRank(c: int): Kind
  {
    if c == 0 || c == 7 then Rook
    else if c == 1 || c == 6 then Knight
    else if c == 2 || c == 5 then Bishop
    else if c == 3 then Queen
    else King
  }

  function InitialCell(r: int, c: int): Cell
  {
    if r == 0 then PieceCell(BackRank(c), White)
    else if r == 1 then PieceCell(Pawn, White)
    else if r == 6 then PieceCell(Pawn, Black)
    else if r == 7 then PieceCell(BackRank(c), Black)
    else NonePiece
  }

  /** make_board's position. */
  function InitialBoard(): GameBoard
  {
    seq(8, r => seq(8, c => InitialCell(r, c)))
  }

  /**
   * In the initial position white holds rows 0-1 and black rows 6-7, rows
   * 2-5 are empty, the kings stand on column 4 and the queens on column 3.
   */
  lemma InitialLayout(s: Square)
    requires OnBoard(s)
    ensures Owned(InitialBoard(), s, White) <==> s.row <= 1
    ensures Owned(InitialBoard(), s, Black) <==> s.row >= 6
    ensures 2 <= s.row <= 5 <==> Free(InitialBoard(), s)
    ensures CellAt(InitialBoard(), s).sign == SignOf(King) <==> (s.row == 0 || s.row == 7) && s.col == 4
    ensures CellAt(InitialBoard(), s).sign == SignOf(Queen) <==> (s.row == 0 || s.row == 7) && s.col == 3
    ensures CellAt(InitialBoard(), s).sign == SignOf(Pawn) <==> s.row == 1 || s.row == 6
  {
  }

  /** The initial position has both kings, on (0, 4) and (7, 4). */
  lemma InitialKings()
    ensures LastKing(InitialBoard(), White) == Some(Sq(0, 4))
    ensures LastKing(InitialBoard(), Black) == Some(Sq(7, 4))
    ensures KingsOnBoard(InitialBoard())
  {
    var b := InitialBoard();
    forall side: Color
      ensures LastKing(b, side) == Some(Sq(if side == White then 0 else 7, 4))
    {
      LastKingSpec(b, side);
      var k := Sq(if side == White then 0 else 7, 4);
      assert CellAt(b, k) == PieceCell(King, side);
      var l := LastKing(b, side).value;
      InitialLayout(l);
    }
  }

  // ------------------------------------------------ input bounds and move_api

  /** is_input_inbounds as written: the test of the destination row against 8 is missing. */
  predicate InputInboundsAsWritten(cur: Square, nxt: Square)
  {
    (cur.col >= 0 && cur.col < 8) && (cur.row >= 0 && cur.row < 8) &&
    (nxt.col >= 0 && nxt.col < 8) && (nxt.row >= 0 && nxt.col < 8) &&
    (cur.col, cur.row) != (nxt.col, nxt.row)
  }

  /** The intended test, the one move_api makes: both squares on the board and different. */
  predicate InputInbounds(cur: Square, nxt: Square)
  {
    OnBoard(cur) && OnBoard(nxt) && cur != nxt
  }

  /** The test as written accepts a destination beyond row 7, e.g. (0, 0) to (8, 0). */
  lemma InboundsAdmitsOffBoard()
    ensures exists cur, nxt :: InputInboundsAsWritten(cur, nxt) && !OnBoard(nxt)
  {
    assert InputInboundsAsWritten(Sq(0, 0), Sq(8, 0)) && !OnBoard(Sq(8, 0));
  }

  /** The two tests differ exactly on destinations beyond row 7. */
  lemma InboundsDifference(cur: Square, nxt: Square)
    ensures InputInboundsAsWritten(cur, nxt) <==> InputInbounds(cur, nxt) || (OnBoard(cur) && nxt.row >= 8 && 0 <= nxt.col < 8)
  {
  }

  /** move_api's return code: 1 for bad coordinates, 2 for an invalid move, 0 for a played move. */
  function ApiCode(b: GameBoard, turn: Color, cur: Square, nxt: Square): int
    requires KingsOnBoard(b)
  {
    if !InputInbounds(cur, nxt) then 1
    else if !MoveValid(b, turn, cur, nxt) then 2
    else 0
  }

  /** move_api plays exactly the moves of the action space. */
  lemma ApiPlaysActions(b: GameBoard, turn: Color, cur: Square, nxt: Square)
    requires KingsOnBoard(b)
    ensures ApiCode(b, turn, cur, nxt) == 0 <==> Action(cur, nxt) in ActionSpaceOf(b, turn)
  {
    ActionSpaceMembers(b, turn, Action(cur, nxt));
  }
}
