/**
 * The computer player of the object engine (chess/ai.py): collection of
 * every legal move of its colour, a pick among them, and a material
 * evaluation of a board.
 */
module Ai {
  import opened Wrappers
  import opened Pieces
  import opened Boards
  import opened Games

  /** A move as get_move returns it: the origin square and the destination. */
  type Move = (Square, Square)

  /** The moves (q, t) for the first n destinations t of ts, in their order. */
  function Pairs(q: Square, ts: seq<Square>, n: nat): seq<Move>
    requires n <= |ts|
  {
    if n == 0 then [] else Pairs(q, ts, n - 1) + [(q, ts[n - 1])]
  }

  /** all_moves after the loop of get_move has visited the first n pieces of qs. */
  function MovesUpTo(g: Grid, player: Color, qs: seq<Square>, n: nat): seq<Move>
    requires n <= |qs|
  {
    if n == 0 then []
    else MovesUpTo(g, player, qs, n - 1) + Pairs(qs[n - 1], LegalMoves(g, player, qs[n - 1]), |LegalMoves(g, player, qs[n - 1])|)
  }

  /**
   * Every legal move of the pieces of colour c, piece by piece in the order
   * of get_all_pieces; legality is judged for player, the game's player to move.
   */
  function AllMoves(g: Grid, player: Color, c: Color): seq<Move>
  {
    MovesUpTo(g, player, PiecesOf(g, c), |PiecesOf(g, c)|)
  }

  /** evaluate_position's table: Pawn 1, Knight 3, Bishop 3, Rook 5, Queen 9, King 0. */
  function PieceValue(k: Kind): int
  {
    match k
    case Pawn => 1
    case Knight => 3
    case Bishop => 3
    case Rook => 5
    case Queen => 9
    case King => 0
  }

  /** What one square adds to the evaluation for colour c. */
  function CellScore(o: Option<Piece>, c: Color): int
  {
    match o
    case None => 0
    case Some(p) => if p.color == c then PieceValue(p.kind) else -PieceValue(p.kind)
  }

  /** What one square adds to the material of colour c. */
  function CellMaterial(o: Option<Piece>, c: Color): nat
  {
    if o.Some? && o.value.color == c then PieceValue(o.value.kind) else 0
  }

  /** The evaluation of the first n squares of row r. */
  function RowScore(g: Grid, c: Color, r: int, n: int): int
    requires 0 <= r < 8 && 0 <= n <= 8
  {
    if n == 0 then 0 else RowScore(g, c, r, n - 1) + CellScore(At(g, Sq(r, n - 1)), c)
  }

  /** The evaluation of the first rows rows. */
  function ScoreUpTo(g: Grid, c: Color, rows: int): int
    requires 0 <= rows <= 8
  {
    if rows == 0 then 0 else ScoreUpTo(g, c, rows - 1) + RowScore(g, c, rows - 1, 8)
  }

  /** evaluate_position for an AI of colour c. */
  function Evaluation(g: Grid, c: Color): int
  {
    ScoreUpTo(g, c, 8)
  }

  function RowMaterial(g: Grid, c: Color, r: int, n: int): nat
    requires 0 <= r < 8 && 0 <= n <= 8
  {
    if n == 0 then 0 else RowMaterial(g, c, r, n - 1) + CellMaterial(At(g, Sq(r, n - 1)), c)
  }

  function MaterialUpTo(g: Grid, c: Color, rows: int): nat
    requires 0 <= rows <= 8
  {
    if rows == 0 then 0 else MaterialUpTo(g, c, rows - 1) + RowMaterial(g, c, rows - 1, 8)
  }

  /** The summed table values of the pieces of colour c. */
  function Material(g: Grid, c: Color): nat
  {
    MaterialUpTo(g, c, 8)
  }

  class ChessAI {
    const color: Color

    /** An AI playing colour c. */
    constructor (c: Color)
      ensures color == c
    {
      color := c;
    }

    /**
     * get_move: None when no piece of the AI's colour has a legal move,
     * otherwise the move at the index pick (the random choice) among all of them.
     */
    method GetMove(game: ChessGame, pick: nat) returns (move: Option<Move>)
      requires game.Valid()
      ensures var all := AllMoves(game.board.grid, game.currentPlayer, color);
        move == if all == [] then None else Some(all[pick % |all|])
    {
      ghost var g, player := game.board.grid, game.currentPlayer;
      var pieces := game.board.GetAllPieces(color);
      var allMoves: seq<Move> := [];
      for i := 0 to |pieces|
        invariant allMoves == MovesUpTo(g, player, pieces, i)
      {
        var q := pieces[i];
        var legalMoves := game.GetLegalMoves(q);
        ghost var before := allMoves;
        for j := 0 to |legalMoves|
          invariant allMoves == before + Pairs(q, legalMoves, j)
        {
          allMoves := allMoves + [(q, legalMoves[j])];
        }
        assert MovesUpTo(g, player, pieces, i + 1) == MovesUpTo(g, player, pieces, i) + Pairs(q, legalMoves, |legalMoves|);
      }
      if allMoves == [] {
        return None;
      }
      return Some(allMoves[pick % |allMoves|]);
    }

    /** evaluate_position: the table values of the AI's pieces minus those of the other colour. */
    method EvaluatePosition(board: Board) returns (score: int)
      ensures score == Evaluation(board.grid, color)
    {
      score := 0;
      for row := 0 to 8
        invariant score == ScoreUpTo(board.grid, color, row)
      {
        for col := 0 to 8
          invariant score == ScoreUpTo(board.grid, color, row) + RowScore(board.grid, color, row, col)
        {
          var piece := At(board.grid, Sq(row, col));
          if piece.Some? {
            var value := PieceValue(piece.value.kind);
            if piece.value.color == color {
              score := score + value;
            } else {
              score := score - value;
            }
          }
        }
      }
    }
  }

  // ================================================================ lemmas

  lemma {:induction false} PairsMembers(q: Square, ts: seq<Square>, n: nat, m: Move)
    requires n <= |ts|
    ensures m in Pairs(q, ts, n) <==> m.0 == q && m.1 in ts[..n]
  {
    if n > 0 {
      PairsMembers(q, ts, n - 1, m);
      assert ts[..n] == ts[..n - 1] + [ts[n - 1]];
    }
  }

  lemma {:induction false} MovesUpToMembers(g: Grid, player: Color, qs: seq<Square>, n: nat, m: Move)
    requires n <= |qs|
    ensures m in MovesUpTo(g, player, qs, n) <==>
      exists j :: 0 <= j < n && m.0 == qs[j] && m.1 in LegalMoves(g, player, qs[j])
  {
    if n > 0 {
      MovesUpToMembers(g, player, qs, n - 1, m);
      var ts := LegalMoves(g, player, qs[n - 1]);
      PairsMembers(qs[n - 1], ts, |ts|, m);
      assert ts[..|ts|] == ts;
      if exists j :: 0 <= j < n && m.0 == qs[j] && m.1 in LegalMoves(g, player, qs[j]) {
        var j :| 0 <= j < n && m.0 == qs[j] && m.1 in LegalMoves(g, player, qs[j]);
        if j < n - 1 {
          assert exists j' :: 0 <= j' < n - 1 && m.0 == qs[j'] && m.1 in LegalMoves(g, player, qs[j']);
        }
      }
    }
  }

  /**
   * get_move's candidates are exactly the pairs (q, t) with q holding a
   * piece of colour c and t among get_legal_moves of that piece.
   */
  lemma AllMovesSpec(g: Grid, player: Color, c: Color, m: Move)
    ensures m in AllMoves(g, player, c) <==> Friendly(g, m.0, c) && m.1 in LegalMoves(g, player, m.0)
  {
    var ps := PiecesOf(g, c);
    MovesUpToMembers(g, player, ps, |ps|, m);
    PiecesOfMembers(g, c, m.0);
    if Friendly(g, m.0, c) && m.1 in LegalMoves(g, player, m.0) {
      var j :| 0 <= j < |ps| && ps[j] == m.0;
    }
  }

  /** get_move returns None exactly when no piece of colour c has a legal move. */
  lemma NoMoveSpec(g: Grid, player: Color, c: Color)
    ensures AllMoves(g, player, c) == [] <==> forall q :: Friendly(g, q, c) ==> LegalMoves(g, player, q) == []
  {
    if AllMoves(g, player, c) != [] {
      var m := AllMoves(g, player, c)[0];
      AllMovesSpec(g, player, c, m);
    }
    if exists q :: Friendly(g, q, c) && LegalMoves(g, player, q) != [] {
      var q :| Friendly(g, q, c) && LegalMoves(g, player, q) != [];
      AllMovesSpec(g, player, c, (q, LegalMoves(g, player, q)[0]));
    }
  }

  /**
   * When the AI is the player to move, get_move finds no move exactly when
   * check_game_over would find none.
   */
  lemma NoMoveIsGameOver(g: Grid, c: Color)
    ensures AllMoves(g, c, c) == [] <==> !HasLegalMove(g, c)
  {
    NoMoveSpec(g, c, c);
    var ps := PiecesOf(g, c);
    AnyLegalMembers(g, c, ps, 0);
    if HasLegalMove(g, c) {
      var j :| 0 <= j < |ps| && LegalMoves(g, c, ps[j]) != [];
      PiecesOfMembers(g, c, ps[j]);
    } else {
      forall q | Friendly(g, q, c)
        ensures LegalMoves(g, c, q) == []
      {
        PiecesOfMembers(g, c, q);
        var j :| 0 <= j < |ps| && ps[j] == q;
      }
    }
  }

  lemma {:induction false} RowScoreBalance(g: Grid, c: Color, r: int, n: int)
    requires 0 <= r < 8 && 0 <= n <= 8
    ensures RowScore(g, c, r, n) == RowMaterial(g, c, r, n) - RowMaterial(g, Opponent(c), r, n)
  {
    if n > 0 {
      RowScoreBalance(g, c, r, n - 1);
    }
  }

  lemma {:induction false} ScoreUpToBalance(g: Grid, c: Color, rows: int)
    requires 0 <= rows <= 8
    ensures ScoreUpTo(g, c, rows) == MaterialUpTo(g, c, rows) - MaterialUpTo(g, Opponent(c), rows)
  {
    if rows > 0 {
      ScoreUpToBalance(g, c, rows - 1);
      RowScoreBalance(g, c, rows - 1, 8);
    }
  }

  /** evaluate_position is the AI's material minus the other colour's material. */
  lemma EvaluationIsBalance(g: Grid, c: Color)
    ensures Evaluation(g, c) == Material(g, c) - Material(g, Opponent(c))
  {
    ScoreUpToBalance(g, c, 8);
  }

  /** Evaluating the same board for the other colour negates the evaluation. */
  lemma EvaluationAntisymmetric(g: Grid, c: Color)
    ensures Evaluation(g, Opponent(c)) == -Evaluation(g, c)
  {
    EvaluationIsBalance(g, c);
    EvaluationIsBalance(g, Opponent(c));
  }

  lemma {:induction false} RowScoreUpdate(g: Grid, c: Color, r: int, n: int, s: Square, v: Option<Piece>)
    requires 0 <= r < 8 && 0 <= n <= 8 && OnBoard(s)
    ensures RowScore(SetAt(g, s, v), c, r, n) ==
      RowScore(g, c, r, n) + (if s.row == r && s.col < n then CellScore(v, c) - CellScore(At(g, s), c) else 0)
  {
    if n > 0 {
      RowScoreUpdate(g, c, r, n - 1, s, v);
      var t := Sq(r, n - 1);
      if t != s {
        assert At(SetAt(g, s, v), t) == At(g, t);
      }
    }
  }

  lemma {:induction false} ScoreUpToUpdate(g: Grid, c: Color, rows: int, s: Square, v: Option<Piece>)
    requires 0 <= rows <= 8 && OnBoard(s)
    ensures ScoreUpTo(SetAt(g, s, v), c, rows) ==
      ScoreUpTo(g, c, rows) + (if s.row < rows then CellScore(v, c) - CellScore(At(g, s), c) else 0)
  {
    if rows > 0 {
      ScoreUpToUpdate(g, c, rows - 1, s, v);
      RowScoreUpdate(g, c, rows - 1, 8, s, v);
    }
  }

  /** Changing one square changes the evaluation by the difference of what that square contributes. */
  lemma EvaluationUpdate(g: Grid, c: Color, s: Square, v: Option<Piece>)
    requires OnBoard(s)
    ensures Evaluation(SetAt(g, s, v), c) == Evaluation(g, c) + CellScore(v, c) - CellScore(At(g, s), c)
  {
    ScoreUpToUpdate(g, c, 8, s, v);
  }

  /** Kings contribute nothing: removing a king from the board leaves the evaluation as it was. */
  lemma KingsCountNothing(g: Grid, c: Color, s: Square)
    requires OnBoard(s) && At(g, s).Some? && At(g, s).value.kind == King
    ensures Evaluation(SetAt(g, s, None), c) == Evaluation(g, c)
  {
    EvaluationUpdate(g, c, s, None);
  }
}
