/**
 * The plain engine's fail-soft alpha-beta (`maxValue` / `minValue` of
 * `AlphaBetaEngine`): White maximises, Black minimises, the children are
 * the generated moves in generation order, and a move `applyMove` rejects
 * is skipped.
 */
module Search {
  import opened Common
  import opened Board
  import opened Rules
  import opened MoveGen
  import opened Evaluation

  /** `AlphaBetaResult`: the score, and the move that caused a cutoff (`null` otherwise). */
  datatype SearchResult = SearchResult(score: int, move: Option<Move>)

  /**
   * `maxValue`. A White win scores `MAX_VALUE + depth` and a Black win
   * `MIN_VALUE - depth` (quicker wins and slower losses are preferred);
   * the horizon and a position without moves score the evaluation. The
   * score always lies in [MIN_VALUE - depth, MAX_VALUE + depth], and a
   * reported move is an accepted legal move that made the score reach beta.
   */
  function MaxValue(e: Engine, g: Game, s: State, alpha: int, beta: int, depth: nat): (r: SearchResult)
    ensures s.turn == WhiteWin ==> r == SearchResult(MAX_VALUE + depth, None)
    ensures s.turn == BlackWin ==> r == SearchResult(MIN_VALUE - depth, None)
    ensures s.turn != WhiteWin && s.turn != BlackWin && (depth == 0 || g.legalMoves(s) == []) ==>
              r == SearchResult(Evaluate(e, s), None)
    ensures MIN_VALUE - depth <= r.score <= MAX_VALUE + depth
    ensures r.move.Some? ==> r.move.value in g.legalMoves(s) && g.apply(s, r.move.value).ok && r.score >= beta
    decreases depth, 1
  {
    if s.turn == WhiteWin then SearchResult(MAX_VALUE + depth, None)
    else if s.turn == BlackWin then SearchResult(MIN_VALUE - depth, None)
    else if depth == 0 then SearchResult(Evaluate(e, s), None)
    else
      var moves := g.legalMoves(s);
      if |moves| == 0 then SearchResult(Evaluate(e, s), None)
      else MaxLoop(e, g, s, moves, alpha, beta, depth, MIN_VALUE)
  }

  /**
   * The child loop of `maxValue` over `moves` with running maximum
   * `maxScore`: it returns at the first child that lifts the maximum to
   * beta or above, reporting that move, and otherwise raises alpha to the
   * maximum and goes on.
   */
  function MaxLoop(e: Engine, g: Game, s: State, moves: seq<Move>, alpha: int, beta: int, depth: nat, maxScore: int)
    : (r: SearchResult)
    requires depth >= 1
    ensures maxScore <= r.score <= Max(maxScore, MAX_VALUE + depth - 1)
    ensures r.move.Some? ==> r.move.value in moves && g.apply(s, r.move.value).ok && r.score >= beta
    ensures r.move.None? ==> r.score == maxScore || r.score < beta
    decreases depth, 0, |moves|
  {
    if |moves| == 0 then SearchResult(maxScore, None)
    else
      var next := g.apply(s, moves[0]);
      if !next.ok then MaxLoop(e, g, s, moves[1..], alpha, beta, depth, maxScore)
      else
        var child := MinValue(e, g, next.state, alpha, beta, depth - 1);
        var m := Max(maxScore, child.score);
        if m >= beta then SearchResult(m, Some(moves[0]))
        else MaxLoop(e, g, s, moves[1..], Max(alpha, m), beta, depth, m)
  }

  /** `minValue`: the mirror image of `MaxValue` for Black to move. */
  function MinValue(e: Engine, g: Game, s: State, alpha: int, beta: int, depth: nat): (r: SearchResult)
    ensures s.turn == WhiteWin ==> r == SearchResult(MAX_VALUE + depth, None)
    ensures s.turn == BlackWin ==> r == SearchResult(MIN_VALUE - depth, None)
    ensures s.turn != WhiteWin && s.turn != BlackWin && (depth == 0 || g.legalMoves(s) == []) ==>
              r == SearchResult(Evaluate(e, s), None)
    ensures MIN_VALUE - depth <= r.score <= MAX_VALUE + depth
    ensures r.move.Some? ==> r.move.value in g.legalMoves(s) && g.apply(s, r.move.value).ok && r.score <= alpha
    decreases depth, 1
  {
    if s.turn == WhiteWin then SearchResult(MAX_VALUE + depth, None)
    else if s.turn == BlackWin then SearchResult(MIN_VALUE - depth, None)
    else if depth == 0 then SearchResult(Evaluate(e, s), None)
    else
      var moves := g.legalMoves(s);
      if |moves| == 0 then SearchResult(Evaluate(e, s), None)
      else MinLoop(e, g, s, moves, alpha, beta, depth, MAX_VALUE)
  }

  /**
   * The child loop of `minValue`: it returns at the first child that brings
   * the running minimum to alpha or below, and otherwise lowers beta to the
   * minimum and goes on.
   */
  function MinLoop(e: Engine, g: Game, s: State, moves: seq<Move>, alpha: int, beta: int, depth: nat, minScore: int)
    : (r: SearchResult)
    requires depth >= 1
    ensures Min(minScore, MIN_VALUE - depth + 1) <= r.score <= minScore
    ensures r.move.Some? ==> r.move.value in moves && g.apply(s, r.move.value).ok && r.score <= alpha
    ensures r.move.None? ==> r.score == minScore || r.score > alpha
    decreases depth, 0, |moves|
  {
    if |moves| == 0 then SearchResult(minScore, None)
    else
      var next := g.apply(s, moves[0]);
      if !next.ok then MinLoop(e, g, s, moves[1..], alpha, beta, depth, minScore)
      else
        var child := MaxValue(e, g, next.state, alpha, beta, depth - 1);
        var m := Min(minScore, child.score);
        if m <= alpha then SearchResult(m, Some(moves[0]))
        else MinLoop(e, g, s, moves[1..], alpha, Min(beta, m), depth, m)
  }
}
