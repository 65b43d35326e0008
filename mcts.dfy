/**
 * The Monte Carlo search of chess.py (AIVMCTS.MCTS) as a function of the
 * position, the search parameters and the sequence of random draws: draw(k)
 * is the index the k-th call of random_action would pick. Every trial plays
 * on a copy of the game, so the position the search starts from is the same
 * for each of them.
 */
module Rollouts {
  import opened Wrappers
  import opened Pieces
  import opened TupleRules

  /** The result of the search: a chosen move, or an exception raised on the way. */
  datatype Outcome = Chosen(action: Action) | Raised

  /** The best score the search starts from. */
  const Sentinel := -999999

  /**
   * How the depth loop of a trial ends: with a checkmate after one of the
   * searching side's moves (the search returns the trial's first move), by
   * running out of rounds or breaking after a checkmate by the other side
   * (the position to score and the next draw), or with an exception.
   */
  datatype DepthEnd = Won | Settled(board: GameBoard, turn: Color, next: nat) | Failed

  /**
   * How one round of the depth loop ends: a checkmate for the searcher, an
   * exception, the loop stopped after the other side's checkmate, or the
   * position the next round starts from.
   */
  datatype RoundEnd = RoundWon | RoundFailed | Stop(board: GameBoard, turn: Color, next: nat) | Next(board: GameBoard, turn: Color, next: nat)

  /**
   * How a whole trial ends: a checkmate for the searcher, skipped without a
   * score, scored (with the position get_score looked at), or raised.
   */
  datatype TrialEnd = Mate | Skip(next: nat) | Scored(score: int, board: GameBoard, turn: Color, next: nat) | Crash

  /** random_move on board b with turn to move: the drawn action played, origin emptied first. */
  function Moved(b: GameBoard, turn: Color, pick: nat): (r: GameBoard)
    requires KingsOnBoard(b) && ActionSpaceOf(b, turn) != []
  {
    var a := Sampled(ActionSpaceOf(b, turn), pick).value;
    ActionSpaceMembers(b, turn, a);
    ApiPlayed(b, a.cur, a.nxt)
  }

  /**
   * One round of the depth loop from board b with turn to move, the next
   * random draw being draw(k): a random move; a checkmate then ends the
   * search; an empty action space moves on to the next round; otherwise the
   * other side plays a random move, and a checkmate after it stops the loop.
   * A missing king, or nothing to draw, raises.
   */
  function Round(b: GameBoard, turn: Color, draw: nat -> nat, k: nat): RoundEnd
  {
    RoundAfter(b, turn, draw, k, 1)
  }

  /** Round behind a counter, so that the depth loop unfolds a round only where RoundDef is used. */
  function RoundAfter(b: GameBoard, turn: Color, draw: nat -> nat, k: nat, n: nat): RoundEnd
  {
    if n > 0 then RoundAfter(b, turn, draw, k, n - 1)
    else if !KingsOnBoard(b) || ActionSpaceOf(b, turn) == [] then RoundFailed
    else
      var b1, t1 := Moved(b, turn, draw(k)), Opponent(turn);
      if !KingsOnBoard(b1) then RoundFailed
      else if Checkmate(b1, t1) then RoundWon
      else if ActionSpaceOf(b1, t1) == [] then Next(b1, t1, k + 1)
      else
        var b2 := Moved(b1, t1, draw(k + 1));
        if !KingsOnBoard(b2) then RoundFailed
        else if Checkmate(b2, turn) then Stop(b2, turn, k + 2)
        else Next(b2, turn, k + 2)
  }

  lemma RoundDef(b: GameBoard, turn: Color, draw: nat -> nat, k: nat)
    ensures Round(b, turn, draw, k) ==
      if !KingsOnBoard(b) || ActionSpaceOf(b, turn) == [] then RoundFailed
      else
        var b1, t1 := Moved(b, turn, draw(k)), Opponent(turn);
        if !KingsOnBoard(b1) then RoundFailed
        else if Checkmate(b1, t1) then RoundWon
        else if ActionSpaceOf(b1, t1) == [] then Next(b1, t1, k + 1)
        else
          var b2 := Moved(b1, t1, draw(k + 1));
          if !KingsOnBoard(b2) then RoundFailed
          else if Checkmate(b2, turn) then Stop(b2, turn, k + 2)
          else Next(b2, turn, k + 2)
  {
    assert RoundAfter(b, turn, draw, k, 1) == RoundAfter(b, turn, draw, k, 0);
  }

  /** The depth loop: n rounds from board b with turn to move, the next draw being draw(k). */
  function Deep(b: GameBoard, turn: Color, draw: nat -> nat, k: nat, n: nat): DepthEnd
    decreases n
  {
    if n == 0 then Settled(b, turn, k)
    else
      match Round(b, turn, draw, k)
      case RoundWon => Won
      case RoundFailed => Failed
      case Stop(b2, t2, k2) => Settled(b2, t2, k2)
      case Next(b2, t2, k2) => Deep(b2, t2, draw, k2, n - 1)
  }

  /**
   * One trial of the search from board b with turn to move: the base move
   * played as manual_move plays it, a random reply, then the depth loop and
   * get_score on the position it leaves.
   */
  function Rollout(b: GameBoard, turn: Color, draw: nat -> nat, depth: nat, k: nat, base: Action): TrialEnd
    requires OnBoard(base.cur) && OnBoard(base.nxt)
  {
    RolloutAfter(b, turn, draw, depth, k, base, 1)
  }

  /** Rollout behind a counter, so that the search unfolds a trial only where RolloutDef is used. */
  function RolloutAfter(b: GameBoard, turn: Color, draw: nat -> nat, depth: nat, k: nat, base: Action, n: nat): TrialEnd
    requires OnBoard(base.cur) && OnBoard(base.nxt)
  {
    if n > 0 then RolloutAfter(b, turn, draw, depth, k, base, n - 1)
    else
    var b1, t1 := ManualPlayed(b, base.cur, base.nxt), Opponent(turn);
    if !KingsOnBoard(b1) then Crash
    else if Checkmate(b1, t1) then Mate
    else if ActionSpaceOf(b1, t1) == [] then Skip(k)
    else
      var b2 := Moved(b1, t1, draw(k));
      if !KingsOnBoard(b2) then Crash
      else if Checkmate(b2, turn) || ActionSpaceOf(b2, turn) == [] then Skip(k + 1)
      else
        match Deep(b2, turn, draw, k + 1, depth)
        case Won => Mate
        case Failed => Crash
        case Settled(b3, t3, k3) => Scored(Score(b3, t3), b3, t3, k3)
  }

  lemma RolloutDef(b: GameBoard, turn: Color, draw: nat -> nat, depth: nat, k: nat, base: Action)
    requires OnBoard(base.cur) && OnBoard(base.nxt)
    ensures Rollout(b, turn, draw, depth, k, base) ==
      var b1, t1 := ManualPlayed(b, base.cur, base.nxt), Opponent(turn);
      if !KingsOnBoard(b1) then Crash
      else if Checkmate(b1, t1) then Mate
      else if ActionSpaceOf(b1, t1) == [] then Skip(k)
      else
        var b2 := Moved(b1, t1, draw(k));
        if !KingsOnBoard(b2) then Crash
        else if Checkmate(b2, turn) || ActionSpaceOf(b2, turn) == [] then Skip(k + 1)
        else
          match Deep(b2, turn, draw, k + 1, depth)
          case Won => Mate
          case Failed => Crash
          case Settled(b3, t3, k3) => Scored(Score(b3, t3), b3, t3, k3)
  {
    assert RolloutAfter(b, turn, draw, depth, k, base, 1) == RolloutAfter(b, turn, draw, depth, k, base, 0);
  }

  /**
   * MCTS with n trials left, the next draw draw(k), the best score so far
   * and the base move that reached it. Each trial draws a base move; a
   * trial that mates returns its base move at once; a strictly higher score
   * replaces the best. With no trial left, the best base move is returned,
   * or a random action when no trial scored above the sentinel.
   */
  function Search(b: GameBoard, turn: Color, draw: nat -> nat, depth: nat, n: nat, k: nat, best: int, bestMove: Option<Action>): Outcome
    requires KingsOnBoard(b)
    requires best >= Sentinel && (bestMove.None? <==> best == Sentinel)
    decreases n
  {
    if n == 0 then
      if best == Sentinel then
        match Sampled(ActionSpaceOf(b, turn), draw(k))
        case None => Raised
        case Some(a) => Chosen(a)
      else Chosen(bestMove.value)
    else
      match Sampled(ActionSpaceOf(b, turn), draw(k))
      case None => Raised
      case Some(base) =>
        ActionSpaceMembers(b, turn, base);
        match Rollout(b, turn, draw, depth, k + 1, base)
        case Mate => Chosen(base)
        case Crash => Raised
        case Skip(k2) => Search(b, turn, draw, depth, n - 1, k2, best, bestMove)
        case Scored(s, _, _, k2) =>
          if s > best then Search(b, turn, draw, depth, n - 1, k2, s, Some(base))
          else Search(b, turn, draw, depth, n - 1, k2, best, bestMove)
  }

  // ================================================================ lemmas

  lemma {:induction false} SearchChosenMember(b: GameBoard, turn: Color, draw: nat -> nat, depth: nat, n: nat, k: nat, best: int, bestMove: Option<Action>)
    requires KingsOnBoard(b)
    requires best >= Sentinel && (bestMove.None? <==> best == Sentinel)
    requires bestMove.Some? ==> bestMove.value in ActionSpaceOf(b, turn)
    decreases n
    ensures Search(b, turn, draw, depth, n, k, best, bestMove).Chosen? ==>
      Search(b, turn, draw, depth, n, k, best, bestMove).action in ActionSpaceOf(b, turn)
  {
    var xs := ActionSpaceOf(b, turn);
    if n > 0 && xs != [] {
      var base := Sampled(xs, draw(k)).value;
      ActionSpaceMembers(b, turn, base);
      var t := Rollout(b, turn, draw, depth, k + 1, base);
      if t.Skip? || (t.Scored? && t.score <= best) {
        SearchChosenMember(b, turn, draw, depth, n - 1, t.next, best, bestMove);
      } else if t.Scored? {
        SearchChosenMember(b, turn, draw, depth, n - 1, t.next, t.score, Some(base));
      }
    }
  }

  /**
   * Whatever the draws, a move the search returns is a valid move of the
   * side to move between two different squares.
   */
  lemma SearchChosenValid(b: GameBoard, turn: Color, draw: nat -> nat, depth: nat, width: nat)
    requires KingsOnBoard(b)
    ensures Search(b, turn, draw, depth, width, 0, Sentinel, None).Chosen? ==>
      var a := Search(b, turn, draw, depth, width, 0, Sentinel, None).action;
      OnBoard(a.cur) && OnBoard(a.nxt) && a.cur != a.nxt && MoveValid(b, turn, a.cur, a.nxt)
  {
    var r := Search(b, turn, draw, depth, width, 0, Sentinel, None);
    SearchChosenMember(b, turn, draw, depth, width, 0, Sentinel, None);
    if r.Chosen? {
      ActionSpaceMembers(b, turn, r.action);
    }
  }

  /** The search raises whenever the side to move has no valid move: the first random_action has nothing to draw. */
  lemma NoActionRaises(b: GameBoard, turn: Color, draw: nat -> nat, depth: nat, n: nat, k: nat)
    requires KingsOnBoard(b) && ActionSpaceOf(b, turn) == []
    ensures Search(b, turn, draw, depth, n, k, Sentinel, None) == Raised
  {
  }

  /**
   * A round started with both kings on the board that stops or moves on
   * leaves both kings on the board and consumes draws; it hands over the
   * colour it started with, or (moving on after a skipped reply) the other
   * side with no valid move, whose next round then raises.
   */
  lemma RoundHandsOver(b: GameBoard, turn: Color, draw: nat -> nat, k: nat)
    requires KingsOnBoard(b)
    ensures var r := Round(b, turn, draw, k);
      (r.Stop? || r.Next?) ==>
        KingsOnBoard(r.board) && k < r.next &&
        (r.turn == turn || (r.Next? && ActionSpaceOf(r.board, r.turn) == [] && Round(r.board, r.turn, draw, r.next) == RoundFailed))
  {
    RoundDef(b, turn, draw, k);
    var r := Round(b, turn, draw, k);
    if r.Next? {
      RoundDef(r.board, r.turn, draw, r.next);
    }
  }

  /**
   * A depth loop started with both kings on the board that settles leaves
   * both kings on the board, consumes draws, and hands over either the
   * colour it started with or a side with no valid move (a round whose
   * reply was skipped on the last round).
   */
  lemma {:induction false} DeepSettles(b: GameBoard, turn: Color, draw: nat -> nat, k: nat, n: nat)
    requires KingsOnBoard(b)
    decreases n
    ensures Deep(b, turn, draw, k, n).Settled? ==>
      var e := Deep(b, turn, draw, k, n);
      KingsOnBoard(e.board) && k <= e.next && (e.turn == turn || ActionSpaceOf(e.board, e.turn) == [])
  {
    if n > 0 {
      var r := Round(b, turn, draw, k);
      RoundHandsOver(b, turn, draw, k);
      if r.Next? {
        DeepSettles(r.board, r.turn, draw, r.next, n - 1);
      }
    }
  }

  /**
   * A trial started with black to move that reaches get_score scores 0,
   * unless its depth loop handed white a position with no valid move:
   * get_score counts only with white to move, and a full round ends with
   * black to move again.
   */
  lemma BlackTrialScoresZero(b: GameBoard, draw: nat -> nat, depth: nat, k: nat, base: Action)
    requires OnBoard(base.cur) && OnBoard(base.nxt)
    ensures var t := Rollout(b, Black, draw, depth, k, base);
      t.Scored? ==>
        KingsOnBoard(t.board) && t.score == Score(t.board, t.turn) &&
        (t.score == 0 || (t.turn == White && ActionSpaceOf(t.board, White) == []))
  {
    var b1 := ManualPlayed(b, base.cur, base.nxt);
    RolloutDef(b, Black, draw, depth, k, base);
    if Rollout(b, Black, draw, depth, k, base).Scored? {
      var b2 := Moved(b1, White, draw(k));
      DeepSettles(b2, Black, draw, k + 1, depth);
    }
  }
}
