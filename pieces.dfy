/**
 * Pieces of the object engine and their pseudo-legal move generators
 * (chess/piece.py).
 *
 * A piece is a value: its kind (the Python subclass), its colour and its
 * has_moved flag.  Its position is the grid slot that holds it, so the
 * generators take that square as a parameter.  Each generator is a method
 * that builds its list the way the source does and is proved equal to a
 * specification function; the lemmas below characterise the functions.
 */
module Pieces {
  import opened Wrappers

  datatype Color = White | Black

  function Opponent(c: Color): (o: Color)
    ensures o != c
  {
    if c == White then Black else White
  }

  datatype Kind = Pawn | Knight | Bishop | Rook | Queen | King

  datatype Piece = Piece(kind: Kind, color: Color, hasMoved: bool)

  /** A (row, col) pair.  The generators build pairs that may lie off the board. */
  datatype Square = Sq(row: int, col: int)

  /** Board.is_valid_position. */
  predicate OnBoard(s: Square)
  {
    0 <= s.row < 8 && 0 <= s.col < 8
  }

  predicate IsGrid(g: seq<seq<Option<Piece>>>)
  {
    |g| == 8 && forall r :: 0 <= r < 8 ==> |g[r]| == 8
  }

  function EmptyGrid(): (g: seq<seq<Option<Piece>>>)
    ensures IsGrid(g)
  {
    seq(8, _ => seq(8, _ => None))
  }

  /** Board.grid: 8 rows of 8 squares, None for an empty square. */
  type Grid = g: seq<seq<Option<Piece>>> | IsGrid(g) witness EmptyGrid()

  /** Board.get_piece: the content of a square, None for any square off the board. */
  function At(g: Grid, s: Square): (r: Option<Piece>)
    ensures !OnBoard(s) ==> r == None
  {
    if OnBoard(s) then g[s.row][s.col] else None
  }

  /** A piece of colour c stands on s. */
  predicate Friendly(g: Grid, s: Square, c: Color)
  {
    At(g, s).Some? && At(g, s).value.color == c
  }

  /** A piece of the other colour stands on s. */
  predicate Enemy(g: Grid, s: Square, c: Color)
  {
    At(g, s).Some? && At(g, s).value.color != c
  }

  /** Chebyshev distance one: the squares a king reaches. */
  predicate Adjacent(a: Square, b: Square)
  {
    -1 <= a.row - b.row <= 1 && -1 <= a.col - b.col <= 1 && a != b
  }

  /** An L-shaped jump: (±1, ±2) or (±2, ±1). */
  predicate KnightJump(a: Square, b: Square)
  {
    var dr, dc := b.row - a.row, b.col - a.col;
    ((dr == 1 || dr == -1) && (dc == 2 || dc == -2)) || ((dr == 2 || dr == -2) && (dc == 1 || dc == -1))
  }

  // ---------------------------------------------------------------- pawn

  /** Row direction of a pawn: white moves towards row 0, black towards row 7. */
  function Forward(c: Color): int
  {
    if c == White then -1 else 1
  }

  /**
   * The forward steps of a pawn.  The double step is tested with get_piece
   * alone, which answers None off the board, so it is not bounds-checked.
   */
  function PawnSteps(g: Grid, p: Piece, pos: Square): seq<Square>
  {
    var fwd := Sq(pos.row + Forward(p.color), pos.col);
    var dbl := Sq(pos.row + 2 * Forward(p.color), pos.col);
    if OnBoard(fwd) && At(g, fwd).None? then
      [fwd] + (if !p.hasMoved && At(g, dbl).None? then [dbl] else [])
    else
      []
  }

  /** The diagonal capture towards column offset dc: only onto a piece of the other colour. */
  function PawnCapture(g: Grid, p: Piece, pos: Square, dc: int): seq<Square>
  {
    var t := Sq(pos.row + Forward(p.color), pos.col + dc);
    if OnBoard(t) && Enemy(g, t, p.color) then [t] else []
  }

  /** The captures tried by the first k passes of the loop over dc in [-1, 1]. */
  function PawnCaptures(g: Grid, p: Piece, pos: Square, k: int): seq<Square>
  {
    if k <= 0 then []
    else if k == 1 then PawnCapture(g, p, pos, -1)
    else PawnCapture(g, p, pos, -1) + PawnCapture(g, p, pos, 1)
  }

  function PawnMoves(g: Grid, p: Piece, pos: Square): seq<Square>
  {
    PawnSteps(g, p, pos) + PawnCaptures(g, p, pos, 2)
  }

  // ------------------------------------------------------ knight and king

  function KnightTargets(pos: Square): seq<Square>
  {
    var row, col := pos.row, pos.col;
    [Sq(row + 2, col + 1), Sq(row + 2, col - 1),
     Sq(row - 2, col + 1), Sq(row - 2, col - 1),
     Sq(row + 1, col + 2), Sq(row + 1, col - 2),
     Sq(row - 1, col + 2), Sq(row - 1, col - 2)]
  }

  /** The eight directions of the queen and of the king, in the source's order. */
  function AllDirs(): seq<(int, int)>
  {
    [(1, 0), (-1, 0), (0, 1), (0, -1), (1, 1), (1, -1), (-1, 1), (-1, -1)]
  }

  function RookDirs(): seq<(int, int)>
  {
    [(1, 0), (-1, 0), (0, 1), (0, -1)]
  }

  function BishopDirs(): seq<(int, int)>
  {
    [(1, 1), (1, -1), (-1, 1), (-1, -1)]
  }

  function KingTargets(pos: Square): seq<Square>
  {
    seq(8, i requires 0 <= i < 8 => Sq(pos.row + AllDirs()[i].0, pos.col + AllDirs()[i].1))
  }

  /** The candidates kept by a knight or a king: on the board and not holding a piece of colour c. */
  function Reachable(g: Grid, c: Color, cands: seq<Square>): seq<Square>
  {
    if cands == [] then []
    else
      var t := cands[|cands| - 1];
      Reachable(g, c, cands[..|cands| - 1]) + (if OnBoard(t) && !Friendly(g, t, c) then [t] else [])
  }

  // ------------------------------------------------ bishop, rook, queen

  function Offset(pos: Square, dr: int, dc: int, i: int): Square
  {
    Sq(pos.row + i * dr, pos.col + i * dc)
  }

  /**
   * One ray from step i on (at most to step 7): it ends at the edge of the
   * board, before a piece of colour c, or on a piece of the other colour.
   */
  function Ray(g: Grid, c: Color, pos: Square, dr: int, dc: int, i: nat): seq<Square>
    decreases 8 - i
  {
    if i >= 8 then []
    else
      var s := Offset(pos, dr, dc, i);
      if !OnBoard(s) then []
      else if At(g, s).None? then [s] + Ray(g, c, pos, dr, dc, i + 1)
      else if At(g, s).value.color != c then [s]
      else []
  }

  /** The rays along dirs, one list per direction. */
  function Rays(g: Grid, c: Color, pos: Square, dirs: seq<(int, int)>): seq<seq<Square>>
  {
    if dirs == [] then [] else [Ray(g, c, pos, dirs[0].0, dirs[0].1, 1)] + Rays(g, c, pos, dirs[1..])
  }

  function Flatten(xss: seq<seq<Square>>): seq<Square>
  {
    if xss == [] then [] else xss[0] + Flatten(xss[1..])
  }

  /** The rays along dirs, one after another. */
  function Slides(g: Grid, c: Color, pos: Square, dirs: seq<(int, int)>): seq<Square>
  {
    Flatten(Rays(g, c, pos, dirs))
  }

  // ----------------------------------------------------------- dispatch

  /** get_possible_moves of the piece p standing on pos. */
  function PossibleMoves(g: Grid, p: Piece, pos: Square): seq<Square>
  {
    match p.kind
    case Pawn => PawnMoves(g, p, pos)
    case Knight => Reachable(g, p.color, KnightTargets(pos))
    case Bishop => Slides(g, p.color, pos, BishopDirs())
    case Rook => Slides(g, p.color, pos, RookDirs())
    case Queen => Slides(g, p.color, pos, AllDirs())
    case King => Reachable(g, p.color, KingTargets(pos))
  }

  /** The moves of whatever stands on q; nothing for an empty square. */
  function MovesFrom(g: Grid, q: Square): seq<Square>
  {
    if At(g, q).Some? then PossibleMoves(g, At(g, q).value, q) else []
  }

  // ============================================================ methods

  /** Pawn.get_possible_moves. */
  method PawnPossibleMoves(g: Grid, p: Piece, pos: Square) returns (moves: seq<Square>)
    ensures moves == PawnMoves(g, p, pos)
  {
    moves := [];
    var direction := if p.color == White then -1 else 1;
    var forward := Sq(pos.row + direction, pos.col);
    if OnBoard(forward) && At(g, forward).None? {
      moves := moves + [forward];
      if !p.hasMoved {
        var doubleForward := Sq(pos.row + 2 * direction, pos.col);
        if At(g, doubleForward).None? {
          moves := moves + [doubleForward];
        }
      }
    }
    ghost var steps := moves;
    assert steps == PawnSteps(g, p, pos);
    var dcs := [-1, 1];
    for k := 0 to 2
      invariant moves == steps + PawnCaptures(g, p, pos, k)
    {
      ghost var prev := moves;
      var capture := Sq(pos.row + direction, pos.col + dcs[k]);
      if OnBoard(capture) {
        var target := At(g, capture);
        if target.Some? && target.value.color != p.color {
          moves := moves + [capture];
        }
      }
      assert moves == prev + PawnCapture(g, p, pos, dcs[k]);
    }
  }

  /** The candidate loop shared by Knight.get_possible_moves and King.get_possible_moves. */
  method KeepReachable(g: Grid, c: Color, cands: seq<Square>) returns (moves: seq<Square>)
    ensures moves == Reachable(g, c, cands)
  {
    moves := [];
    for k := 0 to |cands|
      invariant moves == Reachable(g, c, cands[..k])
    {
      var pos := cands[k];
      if OnBoard(pos) {
        var target := At(g, pos);
        if target.None? || target.value.color != c {
          moves := moves + [pos];
        }
      }
      assert cands[..k + 1][..k] == cands[..k];
    }
    assert cands[..|cands|] == cands;
  }

  /** Knight.get_possible_moves. */
  method KnightPossibleMoves(g: Grid, p: Piece, pos: Square) returns (moves: seq<Square>)
    ensures moves == Reachable(g, p.color, KnightTargets(pos))
  {
    var knightMoves := KnightTargets(pos);
    moves := KeepReachable(g, p.color, knightMoves);
  }

  /** King.get_possible_moves. */
  method KingPossibleMoves(g: Grid, p: Piece, pos: Square) returns (moves: seq<Square>)
    ensures moves == Reachable(g, p.color, KingTargets(pos))
  {
    var directions := AllDirs();
    var targets := [];
    for k := 0 to 8
      invariant targets == KingTargets(pos)[..k]
    {
      targets := targets + [Sq(pos.row + directions[k].0, pos.col + directions[k].1)];
    }
    assert KingTargets(pos)[..8] == KingTargets(pos);
    moves := KeepReachable(g, p.color, targets);
  }

  /** The direction loops shared by Bishop, Rook and Queen.get_possible_moves. */
  method SlidingMoves(g: Grid, c: Color, pos: Square, directions: seq<(int, int)>) returns (moves: seq<Square>)
    ensures moves == Slides(g, c, pos, directions)
  {
    moves := [];
    for d := 0 to |directions|
      invariant moves == Slides(g, c, pos, directions[..d])
    {
      var (dr, dc) := directions[d];
      ghost var before := moves;
      var i := 1;
      while i < 8
        invariant 1 <= i <= 8
        invariant moves + Ray(g, c, pos, dr, dc, i) == before + Ray(g, c, pos, dr, dc, 1)
      {
        var newPos := Sq(pos.row + i * dr, pos.col + i * dc);
        if !OnBoard(newPos) {
          break;
        }
        var target := At(g, newPos);
        if target.None? {
          moves := moves + [newPos];
        } else {
          if target.value.color != c {
            moves := moves + [newPos];
          }
          break;
        }
        i := i + 1;
      }
      assert moves == before + Ray(g, c, pos, dr, dc, 1);
      assert directions[..d + 1] == directions[..d] + [directions[d]];
      SlidesAppend(g, c, pos, directions[..d], [directions[d]]);
      assert Rays(g, c, pos, [directions[d]]) == [Ray(g, c, pos, dr, dc, 1)];
      assert Flatten([Ray(g, c, pos, dr, dc, 1)]) == Ray(g, c, pos, dr, dc, 1) + [];
    }
    assert directions[..|directions|] == directions;
  }

  /** get_possible_moves, dispatched on the piece's class. */
  method GetPossibleMoves(g: Grid, p: Piece, pos: Square) returns (moves: seq<Square>)
    ensures moves == PossibleMoves(g, p, pos)
  {
    match p.kind
    case Pawn => moves := PawnPossibleMoves(g, p, pos);
    case Knight => moves := KnightPossibleMoves(g, p, pos);
    case Bishop => moves := SlidingMoves(g, p.color, pos, BishopDirs());
    case Rook => moves := SlidingMoves(g, p.color, pos, RookDirs());
    case Queen => moves := SlidingMoves(g, p.color, pos, AllDirs());
    case King => moves := KingPossibleMoves(g, p, pos);
  }

  /** Piece.is_valid_move: the target is among the possible moves. */
  method IsValidMove(g: Grid, p: Piece, pos: Square, target: Square) returns (ok: bool)
    ensures ok <==> target in PossibleMoves(g, p, pos)
  {
    var moves := GetPossibleMoves(g, p, pos);
    ok := target in moves;
  }

  // ============================================================= lemmas

  /** A pawn steps one row forward onto an empty square, two rows when it has not moved and both squares are empty, and goes diagonally only onto an enemy piece. */
  lemma PawnMovesSpec(g: Grid, p: Piece, pos: Square, t: Square)
    ensures t in PawnMoves(g, p, pos) <==>
      var d := Forward(p.color);
      var fwd := Sq(pos.row + d, pos.col);
      || (t == fwd && OnBoard(fwd) && At(g, fwd).None?)
      || (t == Sq(pos.row + 2 * d, pos.col) && !p.hasMoved && OnBoard(fwd) && At(g, fwd).None? && At(g, t).None?)
      || (t.row == pos.row + d && (t.col == pos.col - 1 || t.col == pos.col + 1) && OnBoard(t) && Enemy(g, t, p.color))
  {
  }

  lemma {:induction false} ReachableMembers(g: Grid, c: Color, cands: seq<Square>, t: Square)
    ensures t in Reachable(g, c, cands) <==> t in cands && OnBoard(t) && !Friendly(g, t, c)
  {
    if cands != [] {
      var init := cands[..|cands| - 1];
      ReachableMembers(g, c, init, t);
      assert cands == init + [cands[|cands| - 1]];
    }
  }

  /** Knight destinations are exactly the on-board L-jumps that do not hold a friendly piece. */
  lemma KnightMovesSpec(g: Grid, c: Color, pos: Square, t: Square)
    ensures t in Reachable(g, c, KnightTargets(pos)) <==> OnBoard(t) && KnightJump(pos, t) && !Friendly(g, t, c)
  {
    ReachableMembers(g, c, KnightTargets(pos), t);
  }

  /** King destinations are exactly the on-board squares at Chebyshev distance one that do not hold a friendly piece. */
  lemma KingMovesSpec(g: Grid, c: Color, pos: Square, t: Square)
    ensures t in Reachable(g, c, KingTargets(pos)) <==> OnBoard(t) && Adjacent(pos, t) && !Friendly(g, t, c)
  {
    ReachableMembers(g, c, KingTargets(pos), t);
    var ts := KingTargets(pos);
    if Adjacent(pos, t) {
      var dr, dc := t.row - pos.row, t.col - pos.col;
      var k := if (dr, dc) == (1, 0) then 0 else if (dr, dc) == (-1, 0) then 1
        else if (dr, dc) == (0, 1) then 2 else if (dr, dc) == (0, -1) then 3
        else if (dr, dc) == (1, 1) then 4 else if (dr, dc) == (1, -1) then 5
        else if (dr, dc) == (-1, 1) then 6 else 7;
      assert ts[k] == t;
    }
    if t in ts {
      var k :| 0 <= k < 8 && ts[k] == t;
      assert Adjacent(pos, t);
    }
  }

  /** Every step before k, from step i on, is an empty square on the board. */
  ghost predicate ClearFrom(g: Grid, pos: Square, dr: int, dc: int, i: int, k: int)
  {
    forall j :: i <= j < k ==> OnBoard(Offset(pos, dr, dc, j)) && At(g, Offset(pos, dr, dc, j)).None?
  }

  /** A ray holds exactly the squares whose predecessors are empty and on the board and which do not hold a friendly piece. */
  lemma {:induction false} RayMembers(g: Grid, c: Color, pos: Square, dr: int, dc: int, i: nat, t: Square)
    ensures t in Ray(g, c, pos, dr, dc, i) <==>
      exists k :: i <= k < 8 && t == Offset(pos, dr, dc, k) && OnBoard(t) && !Friendly(g, t, c) && ClearFrom(g, pos, dr, dc, i, k)
    decreases 8 - i
  {
    if i < 8 {
      var s := Offset(pos, dr, dc, i);
      RayMembers(g, c, pos, dr, dc, i + 1, t);
      if t in Ray(g, c, pos, dr, dc, i) {
        if t == s {
          assert ClearFrom(g, pos, dr, dc, i, i);
        } else {
          var k :| i + 1 <= k < 8 && t == Offset(pos, dr, dc, k) && OnBoard(t) && !Friendly(g, t, c) && ClearFrom(g, pos, dr, dc, i + 1, k);
          assert ClearFrom(g, pos, dr, dc, i, k);
        }
      }
      if exists k :: i <= k < 8 && t == Offset(pos, dr, dc, k) && OnBoard(t) && !Friendly(g, t, c) && ClearFrom(g, pos, dr, dc, i, k) {
        var k :| i <= k < 8 && t == Offset(pos, dr, dc, k) && OnBoard(t) && !Friendly(g, t, c) && ClearFrom(g, pos, dr, dc, i, k);
        if k > i {
          assert OnBoard(s) && At(g, s).None?;
          assert ClearFrom(g, pos, dr, dc, i + 1, k);
        }
      }
    }
  }

  /** On a unit direction, a square on the board has all its predecessors from pos on the board. */
  lemma OffsetConvex(pos: Square, dr: int, dc: int, j: int, k: int)
    requires OnBoard(pos) && -1 <= dr <= 1 && -1 <= dc <= 1
    requires 0 <= j <= k && OnBoard(Offset(pos, dr, dc, k))
    ensures OnBoard(Offset(pos, dr, dc, j))
  {
    assert j * dr == if dr == 1 then j else if dr == 0 then 0 else -j;
    assert k * dr == if dr == 1 then k else if dr == 0 then 0 else -k;
    assert j * dc == if dc == 1 then j else if dc == 0 then 0 else -j;
    assert k * dc == if dc == 1 then k else if dc == 0 then 0 else -k;
  }

  /**
   * From a square on the board, a sliding piece reaches t along (dr, dc)
   * exactly when t is k steps away, every square strictly between is empty,
   * and t does not hold a friendly piece: the ray stops before a friendly
   * piece and includes the first enemy piece.
   */
  lemma SlideMembers(g: Grid, c: Color, pos: Square, dr: int, dc: int, t: Square)
    requires OnBoard(pos) && -1 <= dr <= 1 && -1 <= dc <= 1
    ensures t in Ray(g, c, pos, dr, dc, 1) <==>
      exists k :: 1 <= k < 8 && t == Offset(pos, dr, dc, k) && OnBoard(t) && !Friendly(g, t, c) &&
        forall j :: 1 <= j < k ==> At(g, Offset(pos, dr, dc, j)).None?
  {
    RayMembers(g, c, pos, dr, dc, 1, t);
    if exists k :: 1 <= k < 8 && t == Offset(pos, dr, dc, k) && OnBoard(t) && !Friendly(g, t, c) &&
        forall j :: 1 <= j < k ==> At(g, Offset(pos, dr, dc, j)).None? {
      var k :| 1 <= k < 8 && t == Offset(pos, dr, dc, k) && OnBoard(t) && !Friendly(g, t, c) &&
        forall j :: 1 <= j < k ==> At(g, Offset(pos, dr, dc, j)).None?;
      forall j | 1 <= j < k
        ensures OnBoard(Offset(pos, dr, dc, j)) && At(g, Offset(pos, dr, dc, j)).None?
      {
        OffsetConvex(pos, dr, dc, j, k);
      }
    }
  }

  lemma {:induction false} FlattenAppend(a: seq<seq<Square>>, b: seq<seq<Square>>)
    ensures Flatten(a + b) == Flatten(a) + Flatten(b)
  {
    if a == [] {
      assert a + b == b;
    } else {
      FlattenAppend(a[1..], b);
      assert (a + b)[1..] == a[1..] + b;
    }
  }

  lemma {:induction false} RaysAppend(g: Grid, c: Color, pos: Square, a: seq<(int, int)>, b: seq<(int, int)>)
    ensures Rays(g, c, pos, a + b) == Rays(g, c, pos, a) + Rays(g, c, pos, b)
  {
    if a == [] {
      assert a + b == b;
    } else {
      RaysAppend(g, c, pos, a[1..], b);
      assert (a + b)[1..] == a[1..] + b;
    }
  }

  lemma SlidesAppend(g: Grid, c: Color, pos: Square, a: seq<(int, int)>, b: seq<(int, int)>)
    ensures Slides(g, c, pos, a + b) == Slides(g, c, pos, a) + Slides(g, c, pos, b)
  {
    RaysAppend(g, c, pos, a, b);
    FlattenAppend(Rays(g, c, pos, a), Rays(g, c, pos, b));
  }

  /** The queen's list is the rook's list followed by the bishop's, so as sets its moves are their union. */
  lemma QueenIsRookPlusBishop(g: Grid, c: Color, pos: Square)
    ensures Slides(g, c, pos, AllDirs()) == Slides(g, c, pos, RookDirs()) + Slides(g, c, pos, BishopDirs())
    ensures forall t :: t in Slides(g, c, pos, AllDirs()) <==>
      t in Slides(g, c, pos, RookDirs()) || t in Slides(g, c, pos, BishopDirs())
  {
    assert AllDirs() == RookDirs() + BishopDirs();
    SlidesAppend(g, c, pos, RookDirs(), BishopDirs());
  }

  lemma {:induction false} SlidesOnBoard(g: Grid, c: Color, pos: Square, dirs: seq<(int, int)>, t: Square)
    requires t in Slides(g, c, pos, dirs)
    ensures OnBoard(t)
  {
    if t in Ray(g, c, pos, dirs[0].0, dirs[0].1, 1) {
      RayMembers(g, c, pos, dirs[0].0, dirs[0].1, 1, t);
    } else {
      SlidesOnBoard(g, c, pos, dirs[1..], t);
    }
  }

  /** The home row of the pawns of each colour. */
  function HomeRow(c: Color): int
  {
    if c == White then 6 else 1
  }

  /**
   * Every generated destination lies on the board, provided that an unmoved
   * pawn stands on its home row (the double step itself is not bounds-checked).
   */
  lemma PossibleMovesOnBoard(g: Grid, p: Piece, pos: Square, t: Square)
    requires OnBoard(pos)
    requires p.kind == Pawn && !p.hasMoved ==> pos.row == HomeRow(p.color)
    requires t in PossibleMoves(g, p, pos)
    ensures OnBoard(t)
  {
    match p.kind
    case Pawn => PawnMovesSpec(g, p, pos, t);
    case Knight => ReachableMembers(g, p.color, KnightTargets(pos), t);
    case King => ReachableMembers(g, p.color, KingTargets(pos), t);
    case Bishop => SlidesOnBoard(g, p.color, pos, BishopDirs(), t);
    case Rook => SlidesOnBoard(g, p.color, pos, RookDirs(), t);
    case Queen => SlidesOnBoard(g, p.color, pos, AllDirs(), t);
  }

  // ----------------------------------------- the generators see only colours

  /** The colour standing on s, None for an empty or off-board square. */
  function ColourAt(g: Grid, s: Square): Option<Color>
  {
    if At(g, s).Some? then Some(At(g, s).value.color) else None
  }

  /** Two grids with the same colour (or emptiness) on every square. */
  ghost predicate SameColours(g1: Grid, g2: Grid)
  {
    forall s :: ColourAt(g1, s) == ColourAt(g2, s)
  }

  lemma {:induction false} RayCongruent(g1: Grid, g2: Grid, c: Color, pos: Square, dr: int, dc: int, i: nat)
    requires SameColours(g1, g2)
    ensures Ray(g1, c, pos, dr, dc, i) == Ray(g2, c, pos, dr, dc, i)
    decreases 8 - i
  {
    if i < 8 {
      var s := Offset(pos, dr, dc, i);
      assert ColourAt(g1, s) == ColourAt(g2, s);
      RayCongruent(g1, g2, c, pos, dr, dc, i + 1);
    }
  }

  lemma {:induction false} SlidesCongruent(g1: Grid, g2: Grid, c: Color, pos: Square, dirs: seq<(int, int)>)
    requires SameColours(g1, g2)
    ensures Rays(g1, c, pos, dirs) == Rays(g2, c, pos, dirs)
    ensures Slides(g1, c, pos, dirs) == Slides(g2, c, pos, dirs)
  {
    if dirs != [] {
      RayCongruent(g1, g2, c, pos, dirs[0].0, dirs[0].1, 1);
      SlidesCongruent(g1, g2, c, pos, dirs[1..]);
    }
  }

  lemma {:induction false} ReachableCongruent(g1: Grid, g2: Grid, c: Color, cands: seq<Square>)
    requires SameColours(g1, g2)
    ensures Reachable(g1, c, cands) == Reachable(g2, c, cands)
  {
    if cands != [] {
      assert ColourAt(g1, cands[|cands| - 1]) == ColourAt(g2, cands[|cands| - 1]);
      ReachableCongruent(g1, g2, c, cands[..|cands| - 1]);
    }
  }

  /**
   * Every generator looks at the other squares only through their colour:
   * grids with the same colours everywhere give a piece the same moves.
   */
  lemma PossibleMovesCongruent(g1: Grid, g2: Grid, p: Piece, pos: Square)
    requires SameColours(g1, g2)
    ensures PossibleMoves(g1, p, pos) == PossibleMoves(g2, p, pos)
  {
    match p.kind
    case Pawn =>
      var f := Forward(p.color);
      assert ColourAt(g1, Sq(pos.row + f, pos.col)) == ColourAt(g2, Sq(pos.row + f, pos.col));
      assert ColourAt(g1, Sq(pos.row + 2 * f, pos.col)) == ColourAt(g2, Sq(pos.row + 2 * f, pos.col));
      assert ColourAt(g1, Sq(pos.row + f, pos.col - 1)) == ColourAt(g2, Sq(pos.row + f, pos.col - 1));
      assert ColourAt(g1, Sq(pos.row + f, pos.col + 1)) == ColourAt(g2, Sq(pos.row + f, pos.col + 1));
    case Knight => ReachableCongruent(g1, g2, p.color, KnightTargets(pos));
    case King => ReachableCongruent(g1, g2, p.color, KingTargets(pos));
    case Bishop => SlidesCongruent(g1, g2, p.color, pos, BishopDirs());
    case Rook => SlidesCongruent(g1, g2, p.color, pos, RookDirs());
    case Queen => SlidesCongruent(g1, g2, p.color, pos, AllDirs());
  }
}
