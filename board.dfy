/**
 * The board of the object engine (chess/board.py): the 8x8 grid, move
 * application with capture bookkeeping and the special-move tags, the
 * scans over the grid, the check test and the copy.
 */
module Boards {
  import opened Wrappers
  import opened Pieces

  /** The special_move tags move_piece understands; None and any other tag are NoSpecial. */
  datatype Special = NoSpecial | EnPassant | CastleKingside | CastleQueenside

  /** Board.last_move: the piece that moved (as it is after the move), its origin and its destination. */
  datatype LastMove = LastMove(piece: Piece, from: Square, to: Square)

  /** The grid with square s holding v. */
  function SetAt(g: Grid, s: Square, v: Option<Piece>): (r: Grid)
    requires OnBoard(s)
    ensures At(r, s) == v
  {
    g[s.row := g[s.row][s.col := v]]
  }

  // ------------------------------------------------------ initial position

  function BackRank(c: Color): seq<Option<Piece>>
  {
    [Some(Piece(Rook, c, false)), Some(Piece(Knight, c, false)), Some(Piece(Bishop, c, false)),
     Some(Piece(Queen, c, false)), Some(Piece(King, c, false)), Some(Piece(Bishop, c, false)),
     Some(Piece(Knight, c, false)), Some(Piece(Rook, c, false))]
  }

  function PawnRank(c: Color): seq<Option<Piece>>
  {
    seq(8, _ => Some(Piece(Pawn, c, false)))
  }

  function EmptyRank(): seq<Option<Piece>>
  {
    seq(8, _ => None)
  }

  /** The grid that setup_initial_position writes into, with the untouched rows 2-5 empty. */
  function InitialGrid(): Grid
  {
    [BackRank(Black), PawnRank(Black), EmptyRank(), EmptyRank(),
     EmptyRank(), EmptyRank(), PawnRank(White), BackRank(White)]
  }

  /** Every pawn that has not moved stands on its colour's home row. */
  ghost predicate PawnsHome(g: Grid)
  {
    forall r, c :: 0 <= r < 8 && 0 <= c < 8 && g[r][c].Some? && g[r][c].value.kind == Pawn && !g[r][c].value.hasMoved ==>
      r == HomeRow(g[r][c].value.color)
  }

  // ------------------------------------------------------------ move_piece

  /** A piece after it has been moved: its has_moved flag is set. */
  function Touched(o: Option<Piece>): Option<Piece>
  {
    if o.Some? then Some(o.value.(hasMoved := true)) else None
  }

  /** The grid after the side effect of the tag, before the piece itself moves. */
  function TagEffect(g: Grid, from: Square, to: Square, special: Special): Grid
    requires OnBoard(from) && OnBoard(to)
  {
    match special
    case NoSpecial => g
    case EnPassant => SetAt(g, Sq(from.row, to.col), None)
    case CastleKingside => SetAt(SetAt(g, Sq(from.row, 5), Touched(g[from.row][7])), Sq(from.row, 7), None)
    case CastleQueenside => SetAt(SetAt(g, Sq(from.row, 3), Touched(g[from.row][0])), Sq(from.row, 0), None)
  }

  /** The grid after move_piece(from, to, special) when a piece stands on from. */
  function MovedGrid(g: Grid, from: Square, to: Square, special: Special): Grid
    requires OnBoard(to) && At(g, from).Some?
  {
    var g1 := TagEffect(g, from, to, special);
    SetAt(SetAt(g1, to, Touched(At(g, from))), from, None)
  }

  predicate CapturedShape(cap: map<Color, seq<Piece>>)
  {
    White in cap && Black in cap
  }

  /** captured_pieces[p.color].append(p) */
  function Record(cap: map<Color, seq<Piece>>, p: Piece): (r: map<Color, seq<Piece>>)
    requires CapturedShape(cap)
    ensures CapturedShape(r)
  {
    match p.color
    case White => cap[White := cap[White] + [p]]
    case Black => cap[Black := cap[Black] + [p]]
  }

  /** captured_pieces after move_piece(from, to, special) when a piece stands on from. */
  function CapturedAfter(g: Grid, cap: map<Color, seq<Piece>>, from: Square, to: Square, special: Special): (r: map<Color, seq<Piece>>)
    requires CapturedShape(cap) && OnBoard(to) && At(g, from).Some?
    ensures CapturedShape(r)
  {
    var passed := g[from.row][to.col];
    var cap1 := if special == EnPassant && passed.Some? then Record(cap, passed.value) else cap;
    var target := At(TagEffect(g, from, to, special), to);
    if target.Some? then Record(cap1, target.value) else cap1
  }

  // ------------------------------------------------------- scans of the grid

  /** The squares (r, 0) .. (r, n - 1) that hold a piece of colour c, left to right. */
  function RowPieces(g: Grid, c: Color, r: int, n: int): seq<Square>
    requires 0 <= r < 8 && 0 <= n <= 8
  {
    if n == 0 then []
    else RowPieces(g, c, r, n - 1) + (if Friendly(g, Sq(r, n - 1), c) then [Sq(r, n - 1)] else [])
  }

  /** The squares of rows 0 .. rows - 1 that hold a piece of colour c, in row-major order. */
  function PiecesUpTo(g: Grid, c: Color, rows: int): seq<Square>
    requires 0 <= rows <= 8
  {
    if rows == 0 then [] else PiecesUpTo(g, c, rows - 1) + RowPieces(g, c, rows - 1, 8)
  }

  /** get_all_pieces: the squares of the pieces of colour c in row-major order. */
  function PiecesOf(g: Grid, c: Color): seq<Square>
  {
    PiecesUpTo(g, c, 8)
  }

  predicate IsKingOf(g: Grid, s: Square, c: Color)
  {
    At(g, s).Some? && At(g, s).value.kind == King && At(g, s).value.color == c
  }

  /** The first king of colour c at or after (row, col) in row-major order. */
  function KingFrom(g: Grid, c: Color, row: int, col: int): Option<Square>
    requires 0 <= row && 0 <= col <= 8
    decreases 8 - row, 8 - col
  {
    if row >= 8 then None
    else if col == 8 then KingFrom(g, c, row + 1, 0)
    else if IsKingOf(g, Sq(row, col), c) then Some(Sq(row, col))
    else KingFrom(g, c, row, col + 1)
  }

  /** find_king: the first king of colour c in row-major order. */
  function KingSquare(g: Grid, c: Color): Option<Square>
  {
    KingFrom(g, c, 0, 0)
  }

  /**
   * The source asks get_possible_moves(self, for_attack_check=True) here,
   * but no get_possible_moves takes that argument; the model reads the
   * question as membership in get_possible_moves of the attacking piece.
   */
  predicate Attacked(g: Grid, s: Square, attacker: Color)
  {
    AttackedFrom(g, s, PiecesOf(g, attacker), 0)
  }

  /** Whether s is among the possible moves of the piece on one of the squares qs[i..] (the loop of is_square_attacked). */
  predicate AttackedFrom(g: Grid, s: Square, qs: seq<Square>, i: nat)
    decreases |qs| - i
  {
    i < |qs| && (s in MovesFrom(g, qs[i]) || AttackedFrom(g, s, qs, i + 1))
  }

  /** is_in_check: no king means no check; otherwise the king's square is attacked by the other colour. */
  predicate InCheck(g: Grid, c: Color)
  {
    match KingSquare(g, c)
    case None => false
    case Some(k) => Attacked(g, k, Opponent(c))
  }

  // ================================================================ Board

  class Board {
    var grid: Grid
    var captured: map<Color, seq<Piece>>
    var lastMove: Option<LastMove>

    ghost predicate Valid()
      reads this
    {
      CapturedShape(captured) && PawnsHome(grid)
    }

    /** Board(): an empty grid filled by setup_initial_position. */
    constructor ()
      ensures Valid()
      ensures grid == InitialGrid() && captured == map[White := [], Black := []] && lastMove == None
    {
      grid := EmptyGrid();
      captured := map[White := [], Black := []];
      lastMove := None;
      new;
      SetupInitialPosition();
      InitialPawnsHome();
    }

    /** Board.__new__ as copy uses it: nothing on the board yet. */
    constructor Blank()
      ensures Valid()
      ensures grid == EmptyGrid() && captured == map[White := [], Black := []] && lastMove == None
    {
      grid := EmptyGrid();
      captured := map[White := [], Black := []];
      lastMove := None;
    }

    /** Writes the eight pieces of a back rank, left to right. */
    method PlaceBackRank(row: int, c: Color)
      requires 0 <= row < 8
      modifies this`grid
      ensures grid == old(grid)[row := BackRank(c)]
    {
      var cells := grid[row];
      cells := cells[0 := Some(Piece(Rook, c, false))];
      cells := cells[1 := Some(Piece(Knight, c, false))];
      cells := cells[2 := Some(Piece(Bishop, c, false))];
      cells := cells[3 := Some(Piece(Queen, c, false))];
      cells := cells[4 := Some(Piece(King, c, false))];
      cells := cells[5 := Some(Piece(Bishop, c, false))];
      cells := cells[6 := Some(Piece(Knight, c, false))];
      cells := cells[7 := Some(Piece(Rook, c, false))];
      assert cells == BackRank(c);
      grid := grid[row := cells];
    }

    /** Writes a row of pawns. */
    method PlacePawns(row: int, c: Color)
      requires 0 <= row < 8
      modifies this`grid
      ensures grid == old(grid)[row := PawnRank(c)]
    {
      for col := 0 to 8
        invariant forall r :: 0 <= r < 8 && r != row ==> grid[r] == old(grid)[r]
        invariant forall k :: 0 <= k < col ==> grid[row][k] == Some(Piece(Pawn, c, false))
        invariant forall k :: col <= k < 8 ==> grid[row][k] == old(grid)[row][k]
      {
        grid := SetAt(grid, Sq(row, col), Some(Piece(Pawn, c, false)));
      }
      assert grid[row] == PawnRank(c);
    }

    /** setup_initial_position: black on rows 0-1, white on rows 6-7; other rows are not touched. */
    method SetupInitialPosition()
      modifies this`grid
      ensures grid == old(grid)[0 := BackRank(Black)][1 := PawnRank(Black)][6 := PawnRank(White)][7 := BackRank(White)]
    {
      PlaceBackRank(0, Black);
      PlacePawns(1, Black);
      PlacePawns(6, White);
      PlaceBackRank(7, White);
    }

    /** move_piece: False and no change for an empty origin; otherwise the piece moves and the bookkeeping is updated. */
    method MovePiece(from: Square, to: Square, special: Special) returns (ok: bool)
      requires Valid()
      requires At(grid, from).Some? ==> OnBoard(to)
      modifies this
      ensures Valid()
      ensures ok == At(old(grid), from).Some?
      ensures !ok ==> grid == old(grid) && captured == old(captured) && lastMove == old(lastMove)
      ensures ok ==> grid == MovedGrid(old(grid), from, to, special)
      ensures ok ==> captured == CapturedAfter(old(grid), old(captured), from, to, special)
      ensures ok ==> lastMove == Some(LastMove(At(old(grid), from).value.(hasMoved := true), from, to))
    {
      var piece := At(grid, from);
      if piece.None? {
        return false;
      }
      var g0, g, cap := grid, grid, captured;
      if special == EnPassant {
        var capturedPiece := g[from.row][to.col];
        if capturedPiece.Some? {
          cap := Record(cap, capturedPiece.value);
          g := SetAt(g, Sq(from.row, to.col), None);
        } else {
          assert g[from.row][to.col := None] == g[from.row];
        }
      } else if special == CastleKingside {
        var rook := g[from.row][7];
        g := SetAt(g, Sq(from.row, 5), Touched(rook));
        g := SetAt(g, Sq(from.row, 7), None);
      } else if special == CastleQueenside {
        var rook := g[from.row][0];
        g := SetAt(g, Sq(from.row, 3), Touched(rook));
        g := SetAt(g, Sq(from.row, 0), None);
      }
      assert g == TagEffect(g0, from, to, special);
      var target := At(g, to);
      if target.Some? {
        cap := Record(cap, target.value);
      }
      g := SetAt(g, to, Touched(piece));
      g := SetAt(g, from, None);
      MovedKeepsPawnsHome(g0, from, to, special);
      grid, captured := g, cap;
      lastMove := Some(LastMove(piece.value.(hasMoved := true), from, to));
      return true;
    }

    /** get_all_pieces: the pieces of colour c, given by their squares, in row-major order. */
    method GetAllPieces(c: Color) returns (pieces: seq<Square>)
      ensures pieces == PiecesOf(grid, c)
    {
      pieces := [];
      for row := 0 to 8
        invariant pieces == PiecesUpTo(grid, c, row)
      {
        for col := 0 to 8
          invariant pieces == PiecesUpTo(grid, c, row) + RowPieces(grid, c, row, col)
        {
          var piece := grid[row][col];
          if piece.Some? && piece.value.color == c {
            pieces := pieces + [Sq(row, col)];
          }
        }
      }
    }

    /** find_king: the square of the first king of colour c in row-major order, None when there is none. */
    method FindKing(c: Color) returns (king: Option<Square>)
      ensures king == KingSquare(grid, c)
    {
      var g := grid;
      for row := 0 to 8
        invariant KingFrom(g, c, row, 0) == KingSquare(g, c)
      {
        for col := 0 to 8
          invariant KingFrom(g, c, row, col) == KingSquare(g, c)
        {
          var piece := g[row][col];
          if piece.Some? && piece.value.kind == King && piece.value.color == c {
            return Some(Sq(row, col));
          }
        }
        assert KingFrom(g, c, row, 8) == KingFrom(g, c, row + 1, 0);
      }
      return None;
    }

    /** is_square_attacked: some piece of colour attacker has s among its possible moves. */
    method IsSquareAttacked(s: Square, attacker: Color) returns (attacked: bool)
      ensures attacked == Attacked(grid, s, attacker)
    {
      var g := grid;
      var pieces := GetAllPieces(attacker);
      for i := 0 to |pieces|
        invariant Attacked(g, s, attacker) == AttackedFrom(g, s, pieces, i)
      {
        var q := pieces[i];
        PiecesOfMembers(g, attacker, q);
        var moves := GetPossibleMoves(g, At(g, q).value, q);
        if s in moves {
          return true;
        }
      }
      return false;
    }

    /** is_in_check: False without a king of colour c, else whether its square is attacked by the other colour. */
    method IsInCheck(c: Color) returns (check: bool)
      ensures check == InCheck(grid, c)
    {
      var king := FindKing(c);
      if king.None? {
        return false;
      }
      check := IsSquareAttacked(king.value, Opponent(c));
    }

    /** copy: a new board whose grid holds the same kind, colour and has_moved on every square. */
    method Copy() returns (b: Board)
      requires Valid()
      ensures fresh(b) && b.Valid()
      ensures b.grid == grid && b.captured == captured && b.lastMove == lastMove
    {
      b := new Board.Blank();
      var newGrid: Grid := EmptyGrid();
      for row := 0 to 8
        invariant forall r :: 0 <= r < row ==> newGrid[r] == grid[r]
        invariant forall r :: row <= r < 8 ==> newGrid[r] == EmptyRank()
      {
        for col := 0 to 8
          invariant forall r :: 0 <= r < row ==> newGrid[r] == grid[r]
          invariant forall r :: row < r < 8 ==> newGrid[r] == EmptyRank()
          invariant forall k :: 0 <= k < col ==> newGrid[row][k] == grid[row][k]
          invariant forall k :: col <= k < 8 ==> newGrid[row][k] == None
        {
          var piece := grid[row][col];
          if piece.Some? {
            newGrid := SetAt(newGrid, Sq(row, col), Some(Piece(piece.value.kind, piece.value.color, piece.value.hasMoved)));
          }
        }
        assert newGrid[row] == grid[row];
      }
      assert newGrid == grid;
      b.grid := newGrid;
      // both captured lists are sequences, so assigning them copies them
      b.captured := captured;
      b.lastMove := lastMove;
    }
  }

  // ================================================================ lemmas

  lemma InitialPawnsHome()
    ensures PawnsHome(InitialGrid())
  {
  }

  /**
   * The initial position: black on rows 0-1, white on rows 6-7, pawns on
   * rows 1 and 6, kings on column 4, queens on column 3, rows 2-5 empty,
   * and nothing has moved.
   */
  lemma InitialLayout(r: int, c: int)
    requires 0 <= r < 8 && 0 <= c < 8
    ensures 2 <= r <= 5 <==> InitialGrid()[r][c].None?
    ensures r <= 1 ==> InitialGrid()[r][c].Some? && InitialGrid()[r][c].value.color == Black
    ensures r >= 6 ==> InitialGrid()[r][c].Some? && InitialGrid()[r][c].value.color == White
    ensures (r == 1 || r == 6) <==> InitialGrid()[r][c].Some? && InitialGrid()[r][c].value.kind == Pawn
    ensures InitialGrid()[r][c].Some? && InitialGrid()[r][c].value.kind == King <==> (r == 0 || r == 7) && c == 4
    ensures InitialGrid()[r][c].Some? && InitialGrid()[r][c].value.kind == Queen <==> (r == 0 || r == 7) && c == 3
    ensures InitialGrid()[r][c].Some? ==> !InitialGrid()[r][c].value.hasMoved
  {
  }

  lemma MovedKeepsPawnsHome(g: Grid, from: Square, to: Square, special: Special)
    requires PawnsHome(g) && OnBoard(to) && At(g, from).Some?
    ensures PawnsHome(MovedGrid(g, from, to, special))
  {
    var g1 := TagEffect(g, from, to, special);
    assert PawnsHome(g1) by {
      forall r, c | 0 <= r < 8 && 0 <= c < 8
        ensures g1[r][c] == At(g1, Sq(r, c))
      {
      }
      forall r, c | 0 <= r < 8 && 0 <= c < 8 && g1[r][c].Some? && g1[r][c].value.kind == Pawn && !g1[r][c].value.hasMoved
        ensures r == HomeRow(g1[r][c].value.color)
      {
        assert At(g1, Sq(r, c)) == At(g, Sq(r, c));
      }
    }
    var g2 := MovedGrid(g, from, to, special);
    forall r, c | 0 <= r < 8 && 0 <= c < 8 && g2[r][c].Some? && g2[r][c].value.kind == Pawn && !g2[r][c].value.hasMoved
      ensures r == HomeRow(g2[r][c].value.color)
    {
      assert At(g2, Sq(r, c)) == At(g1, Sq(r, c));
    }
  }

  /**
   * A plain move (no tag): the destination holds the piece with has_moved
   * set, the origin is empty when it differs from the destination, and
   * every other square is unchanged.
   */
  lemma MovedGridSpec(g: Grid, from: Square, to: Square, s: Square)
    requires OnBoard(to) && At(g, from).Some?
    ensures from != to ==> At(MovedGrid(g, from, to, NoSpecial), to) == Some(At(g, from).value.(hasMoved := true))
    ensures At(MovedGrid(g, from, to, NoSpecial), from) == None
    ensures s != from && s != to ==> At(MovedGrid(g, from, to, NoSpecial), s) == At(g, s)
  {
  }

  /** With the en_passant tag, the square on the origin's row and the destination's column is emptied. */
  lemma EnPassantSpec(g: Grid, from: Square, to: Square, s: Square)
    requires OnBoard(to) && At(g, from).Some?
    ensures Sq(from.row, to.col) != to ==> At(MovedGrid(g, from, to, EnPassant), Sq(from.row, to.col)) == None
    ensures s != from && s != to && s != Sq(from.row, to.col) ==> At(MovedGrid(g, from, to, EnPassant), s) == At(g, s)
  {
  }

  /**
   * With a castle tag, the rook of the origin's row moves from column 7 to
   * column 5 (kingside) or from column 0 to column 3 (queenside), marked as
   * moved, when the king's own squares are elsewhere.
   */
  lemma CastleSpec(g: Grid, from: Square, to: Square)
    requires OnBoard(to) && At(g, from).Some?
    ensures var k, a := Sq(from.row, 7), Sq(from.row, 5);
      from != a && to != a && to != k ==>
        At(MovedGrid(g, from, to, CastleKingside), a) == Touched(At(g, k)) &&
        At(MovedGrid(g, from, to, CastleKingside), k) == None
    ensures var q, a := Sq(from.row, 0), Sq(from.row, 3);
      from != a && to != a && to != q ==>
        At(MovedGrid(g, from, to, CastleQueenside), a) == Touched(At(g, q)) &&
        At(MovedGrid(g, from, to, CastleQueenside), q) == None
  {
  }

  /** A piece on the destination of a plain move is appended to the captured list of its own colour; the other list is unchanged. */
  lemma CapturedSpec(g: Grid, cap: map<Color, seq<Piece>>, from: Square, to: Square)
    requires CapturedShape(cap) && OnBoard(to) && At(g, from).Some?
    ensures At(g, to).None? ==> CapturedAfter(g, cap, from, to, NoSpecial) == cap
    ensures At(g, to).Some? && At(g, to).value.color == White ==>
      var r := CapturedAfter(g, cap, from, to, NoSpecial);
      r[White] == cap[White] + [At(g, to).value] && r[Black] == cap[Black]
  ensures At(g, to).Some? && At(g, to).value.color == Black ==>
      var r := CapturedAfter(g, cap, from, to, NoSpecial);
      r[Black] == cap[Black] + [At(g, to).value] && r[White] == cap[White]
  {
  }

  lemma {:induction false} RowPiecesMembers(g: Grid, c: Color, r: int, n: int, s: Square)
    requires 0 <= r < 8 && 0 <= n <= 8
    ensures s in RowPieces(g, c, r, n) <==> s.row == r && 0 <= s.col < n && Friendly(g, s, c)
  {
    if n > 0 {
      RowPiecesMembers(g, c, r, n - 1, s);
    }
  }

  lemma {:induction false} PiecesUpToMembers(g: Grid, c: Color, rows: int, s: Square)
    requires 0 <= rows <= 8
    ensures s in PiecesUpTo(g, c, rows) <==> 0 <= s.row < rows && Friendly(g, s, c)
  {
    if rows > 0 {
      PiecesUpToMembers(g, c, rows - 1, s);
      RowPiecesMembers(g, c, rows - 1, 8, s);
    }
  }

  /** get_all_pieces lists exactly the squares holding a piece of that colour. */
  lemma PiecesOfMembers(g: Grid, c: Color, s: Square)
    ensures s in PiecesOf(g, c) <==> Friendly(g, s, c)
  {
    PiecesUpToMembers(g, c, 8, s);
  }

  /** Row-major order: square a comes before square b. */
  predicate Before(a: Square, b: Square)
  {
    a.row < b.row || (a.row == b.row && a.col < b.col)
  }

  lemma {:induction false} KingFromSpec(g: Grid, c: Color, row: int, col: int)
    requires 0 <= row && 0 <= col <= 8
    ensures KingFrom(g, c, row, col).None? <==>
      forall s :: OnBoard(s) && !Before(s, Sq(row, col)) ==> !IsKingOf(g, s, c)
    ensures KingFrom(g, c, row, col).Some? ==>
      var k := KingFrom(g, c, row, col).value;
      IsKingOf(g, k, c) && !Before(k, Sq(row, col)) &&
      forall s :: OnBoard(s) && !Before(s, Sq(row, col)) && Before(s, k) ==> !IsKingOf(g, s, c)
    decreases 8 - row, 8 - col
  {
    if row >= 8 {
    } else if col == 8 {
      KingFromSpec(g, c, row + 1, 0);
    } else if IsKingOf(g, Sq(row, col), c) {
    } else {
      KingFromSpec(g, c, row, col + 1);
    }
  }

  /**
   * find_king answers None exactly when there is no king of that colour;
   * otherwise it answers the first such king in row-major order.
   */
  lemma KingSquareSpec(g: Grid, c: Color)
    ensures KingSquare(g, c).None? <==> forall s :: !IsKingOf(g, s, c)
    ensures KingSquare(g, c).Some? ==>
      IsKingOf(g, KingSquare(g, c).value, c) &&
      forall s :: Before(s, KingSquare(g, c).value) ==> !IsKingOf(g, s, c)
  {
    KingFromSpec(g, c, 0, 0);
  }

  lemma {:induction false} RowPiecesCongruent(g1: Grid, g2: Grid, c: Color, r: int, n: int)
    requires SameColours(g1, g2) && 0 <= r < 8 && 0 <= n <= 8
    ensures RowPieces(g1, c, r, n) == RowPieces(g2, c, r, n)
  {
    if n > 0 {
      assert ColourAt(g1, Sq(r, n - 1)) == ColourAt(g2, Sq(r, n - 1));
      RowPiecesCongruent(g1, g2, c, r, n - 1);
    }
  }

  lemma {:induction false} PiecesUpToCongruent(g1: Grid, g2: Grid, c: Color, rows: int)
    requires SameColours(g1, g2) && 0 <= rows <= 8
    ensures PiecesUpTo(g1, c, rows) == PiecesUpTo(g2, c, rows)
  {
    if rows > 0 {
      RowPiecesCongruent(g1, g2, c, rows - 1, 8);
      PiecesUpToCongruent(g1, g2, c, rows - 1);
    }
  }

  lemma {:induction false} KingFromCongruent(g1: Grid, g2: Grid, c: Color, row: int, col: int)
    requires forall s :: IsKingOf(g1, s, c) == IsKingOf(g2, s, c)
    requires 0 <= row && 0 <= col <= 8
    ensures KingFrom(g1, c, row, col) == KingFrom(g2, c, row, col)
    decreases 8 - row, 8 - col
  {
    if row < 8 {
      if col == 8 {
        KingFromCongruent(g1, g2, c, row + 1, 0);
      } else {
        assert IsKingOf(g1, Sq(row, col), c) == IsKingOf(g2, Sq(row, col), c);
        KingFromCongruent(g1, g2, c, row, col + 1);
      }
    }
  }

  /**
   * Whether colour c is in check depends only on the colours of the
   * squares, on where c's kings stand and on the pieces of the other colour.
   */
  lemma InCheckCongruent(g1: Grid, g2: Grid, c: Color)
    requires SameColours(g1, g2)
    requires forall s :: IsKingOf(g1, s, c) == IsKingOf(g2, s, c)
    requires forall s :: Friendly(g1, s, Opponent(c)) ==> At(g1, s) == At(g2, s)
    ensures InCheck(g1, c) == InCheck(g2, c)
  {
    KingFromCongruent(g1, g2, c, 0, 0);
    PiecesUpToCongruent(g1, g2, Opponent(c), 8);
    forall q | q in PiecesOf(g1, Opponent(c))
      ensures MovesFrom(g1, q) == MovesFrom(g2, q)
    {
      PiecesOfMembers(g1, Opponent(c), q);
      PossibleMovesCongruent(g1, g2, At(g1, q).value, q);
    }
    if KingSquare(g1, c).Some? {
      AttackedFromCongruent(g1, g2, KingSquare(g1, c).value, PiecesOf(g1, Opponent(c)), 0);
    }
  }

  lemma {:induction false} AttackedFromCongruent(g1: Grid, g2: Grid, s: Square, qs: seq<Square>, i: nat)
    requires forall q :: q in qs ==> MovesFrom(g1, q) == MovesFrom(g2, q)
    ensures AttackedFrom(g1, s, qs, i) == AttackedFrom(g2, s, qs, i)
    decreases |qs| - i
  {
    if i < |qs| {
      AttackedFromCongruent(g1, g2, s, qs, i + 1);
    }
  }

  lemma {:induction false} AttackedFromMembers(g: Grid, s: Square, qs: seq<Square>, i: nat)
    requires i <= |qs|
    ensures AttackedFrom(g, s, qs, i) <==> exists j :: i <= j < |qs| && s in MovesFrom(g, qs[j])
    decreases |qs| - i
  {
    if i < |qs| {
      AttackedFromMembers(g, s, qs, i + 1);
      if s !in MovesFrom(g, qs[i]) && exists j :: i <= j < |qs| && s in MovesFrom(g, qs[j]) {
        var j :| i <= j < |qs| && s in MovesFrom(g, qs[j]);
        assert i + 1 <= j;
      }
    }
  }

  /** is_square_attacked: some piece of the attacking colour has s among its possible moves. */
  lemma AttackedSpec(g: Grid, s: Square, attacker: Color)
    ensures Attacked(g, s, attacker) <==> exists q :: Friendly(g, q, attacker) && s in MovesFrom(g, q)
  {
    var ps := PiecesOf(g, attacker);
    AttackedFromMembers(g, s, ps, 0);
    forall q
      ensures q in ps <==> Friendly(g, q, attacker)
    {
      PiecesOfMembers(g, attacker, q);
    }
    if exists q :: Friendly(g, q, attacker) && s in MovesFrom(g, q) {
      var q :| Friendly(g, q, attacker) && s in MovesFrom(g, q);
      var j :| 0 <= j < |ps| && ps[j] == q;
    }
  }
  /**
   * is_square_attacked as written: it passes a for_attack_check keyword that
   * no get_possible_moves accepts, so the first call raises (None here);
   * only when the attacking colour has no piece does the loop finish, with False.
   */
  function AttackedAsWritten(g: Grid, s: Square, attacker: Color): (r: Option<bool>)
    ensures r == None <==> exists q :: Friendly(g, q, attacker)
    ensures r != None ==> r == Some(Attacked(g, s, attacker))
  {
    var ps := PiecesOf(g, attacker);
    if ps == [] then
      assert forall q :: !Friendly(g, q, attacker) by {
        forall q ensures !Friendly(g, q, attacker) {
          PiecesOfMembers(g, attacker, q);
        }
      }
      Some(false)
    else
      PiecesOfMembers(g, attacker, ps[0]);
      None
  }

  /** In the initial position, is_in_check for white already raises: black has pieces. */
  lemma InitialCheckRaises()
    ensures KingSquare(InitialGrid(), White) == Some(Sq(7, 4))
    ensures AttackedAsWritten(InitialGrid(), Sq(7, 4), Black) == None
  {
    var g := InitialGrid();
    assert Friendly(g, Sq(0, 0), Black);
    KingSquareSpec(g, White);
    assert IsKingOf(g, Sq(7, 4), White);
    var k := KingSquare(g, White).value;
    InitialLayout(k.row, k.col);
    assert Before(Sq(7, 4), k) || k == Sq(7, 4) || Before(k, Sq(7, 4));
  }
}
