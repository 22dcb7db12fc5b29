/**
 * Unpruned minimax with the plain engine's leaf rules, and the proof that
 * the fail-soft alpha-beta search computes it: exactly inside the window,
 * a correct bound outside it, and exactly for the initial window at any
 * depth below 1000.
 */
module Minimax {
  import opened Common
  import opened Board
  import opened Rules
  import opened MoveGen
  import opened Evaluation
  import opened Search

  /** Minimax value of `s` with White to maximise. */
  function MinimaxMax(e: Engine, g: Game, s: State, depth: nat): (v: int)
    ensures MIN_VALUE - depth <= v <= MAX_VALUE + depth
    decreases depth, 1
  {
    if s.turn == WhiteWin then MAX_VALUE + depth
    else if s.turn == BlackWin then MIN_VALUE - depth
    else if depth == 0 then Evaluate(e, s)
    else
      var moves := g.legalMoves(s);
      if |moves| == 0 then Evaluate(e, s) else BestForMax(e, g, s, moves, depth)
  }

  /** Largest child value among the accepted moves, folded from `MIN_VALUE`. */
  function BestForMax(e: Engine, g: Game, s: State, moves: seq<Move>, depth: nat): (v: int)
    requires depth >= 1
    ensures MIN_VALUE <= v <= MAX_VALUE + depth - 1
    decreases depth, 0, |moves|
  {
    if |moves| == 0 then MIN_VALUE
    else
      var next := g.apply(s, moves[0]);
      if !next.ok then BestForMax(e, g, s, moves[1..], depth)
      else Max(MinimaxMin(e, g, next.state, depth - 1), BestForMax(e, g, s, moves[1..], depth))
  }

  /** Minimax value of `s` with Black to minimise. */
  function MinimaxMin(e: Engine, g: Game, s: State, depth: nat): (v: int)
    ensures MIN_VALUE - depth <= v <= MAX_VALUE + depth
    decreases depth, 1
  {
    if s.turn == WhiteWin then MAX_VALUE + depth
    else if s.turn == BlackWin then MIN_VALUE - depth
    else if depth == 0 then Evaluate(e, s)
    else
      var moves := g.legalMoves(s);
      if |moves| == 0 then Evaluate(e, s) else BestForMin(e, g, s, moves, depth)
  }

  /** Smallest child value among the accepted moves, folded from `MAX_VALUE`. */
  function BestForMin(e: Engine, g: Game, s: State, moves: seq<Move>, depth: nat): (v: int)
    requires depth >= 1
    ensures MIN_VALUE - depth + 1 <= v <= MAX_VALUE
    decreases depth, 0, |moves|
  {
    if |moves| == 0 then MAX_VALUE
    else
      var next := g.apply(s, moves[0]);
      if !next.ok then BestForMin(e, g, s, moves[1..], depth)
      else Min(MinimaxMax(e, g, next.state, depth - 1), BestForMin(e, g, s, moves[1..], depth))
  }

  /**
   * Fail-soft agreement of a search result `r` with the true value `v` for
   * the window (a, b): inside the window they are equal, at or below alpha
   * `r` is an upper bound, at or above beta a lower bound.
   */
  predicate FailSoft(r: int, v: int, a: int, b: int)
  {
    && (a < r < b ==> r == v)
    && (r <= a ==> v <= r)
    && (r >= b ==> v >= r)
  }

  /** `maxValue` is fail-soft with respect to minimax for every non-empty window. */
  lemma {:induction false} MaxValueFailSoft(e: Engine, g: Game, s: State, alpha: int, beta: int, depth: nat)
    requires alpha < beta
    ensures FailSoft(MaxValue(e, g, s, alpha, beta, depth).score, MinimaxMax(e, g, s, depth), alpha, beta)
    decreases depth, 1
  {
    if s.turn != WhiteWin && s.turn != BlackWin && depth > 0 {
      var moves := g.legalMoves(s);
      if |moves| > 0 {
        MaxLoopFailSoft(e, g, s, moves, alpha, alpha, beta, depth, MIN_VALUE, MIN_VALUE);
      }
    }
  }

  /** `minValue` is fail-soft with respect to minimax for every non-empty window. */
  lemma {:induction false} MinValueFailSoft(e: Engine, g: Game, s: State, alpha: int, beta: int, depth: nat)
    requires alpha < beta
    ensures FailSoft(MinValue(e, g, s, alpha, beta, depth).score, MinimaxMin(e, g, s, depth), alpha, beta)
    decreases depth, 1
  {
    if s.turn != WhiteWin && s.turn != BlackWin && depth > 0 {
      var moves := g.legalMoves(s);
      if |moves| > 0 {
        MinLoopFailSoft(e, g, s, moves, alpha, beta, beta, depth, MAX_VALUE, MAX_VALUE);
      }
    }
  }

  /**
   * One child of a max node, in arithmetic: the child's fail-soft score `c`
   * against its value `v` either cuts off with a score the true maximum
   * reaches, or keeps the running maximum and alpha related to the true
   * maximum as the loop needs.
   */
  lemma MaxStep(a0: int, alpha: int, beta: int, maxScore: int, acc: int, c: int, v: int)
    requires a0 <= alpha < beta && alpha <= Max(a0, maxScore)
    requires MIN_VALUE <= acc <= maxScore && (maxScore > a0 ==> maxScore == acc)
    requires FailSoft(c, v, alpha, beta)
    ensures var m := Max(maxScore, c);
      && (m >= beta ==> Max(acc, v) >= m)
      && (m < beta ==>
            && a0 <= Max(alpha, m) < beta && Max(alpha, m) <= Max(a0, m)
            && MIN_VALUE <= Max(acc, v) <= m && (m > a0 ==> m == Max(acc, v)))
  {
  }

  /** The mirror image of `MaxStep` for a min node. */
  lemma MinStep(alpha: int, beta: int, b0: int, minScore: int, acc: int, c: int, v: int)
    requires alpha < beta <= b0 && Min(b0, minScore) <= beta
    requires minScore <= acc <= MAX_VALUE && (minScore < b0 ==> minScore == acc)
    requires FailSoft(c, v, alpha, beta)
    ensures var m := Min(minScore, c);
      && (m <= alpha ==> Min(acc, v) <= m)
      && (m > alpha ==>
            && alpha < Min(beta, m) <= b0 && Min(b0, m) <= Min(beta, m)
            && m <= Min(acc, v) <= MAX_VALUE && (m < b0 ==> m == Min(acc, v)))
  {
  }

  /** A move `applyMove` rejects is skipped by the max loop and by its fold alike. */
  lemma MaxLoopSkips(e: Engine, g: Game, s: State, moves: seq<Move>, alpha: int, beta: int, depth: nat, maxScore: int)
    requires depth >= 1 && |moves| > 0 && !g.apply(s, moves[0]).ok
    ensures MaxLoop(e, g, s, moves, alpha, beta, depth, maxScore) == MaxLoop(e, g, s, moves[1..], alpha, beta, depth, maxScore)
    ensures BestForMax(e, g, s, moves, depth) == BestForMax(e, g, s, moves[1..], depth)
  {
  }

  /** An accepted move: the max loop cuts off or continues with the new maximum, and the fold takes the child's value. */
  lemma MaxLoopTakes(e: Engine, g: Game, s: State, moves: seq<Move>, alpha: int, beta: int, depth: nat, maxScore: int)
    requires depth >= 1 && |moves| > 0 && g.apply(s, moves[0]).ok
    ensures var next := g.apply(s, moves[0]).state;
      var m := Max(maxScore, MinValue(e, g, next, alpha, beta, depth - 1).score);
      && MaxLoop(e, g, s, moves, alpha, beta, depth, maxScore)
         == (if m >= beta then SearchResult(m, Some(moves[0]))
             else MaxLoop(e, g, s, moves[1..], Max(alpha, m), beta, depth, m))
      && BestForMax(e, g, s, moves, depth) == Max(MinimaxMin(e, g, next, depth - 1), BestForMax(e, g, s, moves[1..], depth))
  {
  }

  /** A move `applyMove` rejects is skipped by the min loop and by its fold alike. */
  lemma MinLoopSkips(e: Engine, g: Game, s: State, moves: seq<Move>, alpha: int, beta: int, depth: nat, minScore: int)
    requires depth >= 1 && |moves| > 0 && !g.apply(s, moves[0]).ok
    ensures MinLoop(e, g, s, moves, alpha, beta, depth, minScore) == MinLoop(e, g, s, moves[1..], alpha, beta, depth, minScore)
    ensures BestForMin(e, g, s, moves, depth) == BestForMin(e, g, s, moves[1..], depth)
  {
  }

  /** An accepted move: the min loop cuts off or continues with the new minimum, and the fold takes the child's value. */
  lemma MinLoopTakes(e: Engine, g: Game, s: State, moves: seq<Move>, alpha: int, beta: int, depth: nat, minScore: int)
    requires depth >= 1 && |moves| > 0 && g.apply(s, moves[0]).ok
    ensures var next := g.apply(s, moves[0]).state;
      var m := Min(minScore, MaxValue(e, g, next, alpha, beta, depth - 1).score);
      && MinLoop(e, g, s, moves, alpha, beta, depth, minScore)
         == (if m <= alpha then SearchResult(m, Some(moves[0]))
             else MinLoop(e, g, s, moves[1..], alpha, Min(beta, m), depth, m))
      && BestForMin(e, g, s, moves, depth) == Min(MinimaxMax(e, g, next, depth - 1), BestForMin(e, g, s, moves[1..], depth))
  {
  }

  /**
   * The max loop against the fold it prunes. `a0` is the alpha the node was
   * called with, `acc` the true maximum of the children already seen (from
   * `MIN_VALUE`) and `maxScore` the search's running maximum: it is at least
   * `acc`, and equal to it once it is above `a0`; alpha has only grown from
   * `a0` and never past the running maximum.
   */
  lemma {:induction false} MaxLoopFailSoft(e: Engine, g: Game, s: State, moves: seq<Move>, a0: int, alpha: int, beta: int,
                                           depth: nat, maxScore: int, acc: int)
    requires depth >= 1
    requires a0 <= alpha < beta && alpha <= Max(a0, maxScore)
    requires MIN_VALUE <= acc <= maxScore && (maxScore > a0 ==> maxScore == acc)
    ensures FailSoft(MaxLoop(e, g, s, moves, alpha, beta, depth, maxScore).score,
                     Max(acc, BestForMax(e, g, s, moves, depth)), a0, beta)
    decreases depth, 0, |moves|
  {
    if |moves| > 0 {
      if !g.apply(s, moves[0]).ok {
        MaxLoopSkips(e, g, s, moves, alpha, beta, depth, maxScore);
        MaxLoopFailSoft(e, g, s, moves[1..], a0, alpha, beta, depth, maxScore, acc);
      } else {
        var next := g.apply(s, moves[0]).state;
        var c := MinValue(e, g, next, alpha, beta, depth - 1).score;
        var v := MinimaxMin(e, g, next, depth - 1);
        MaxLoopTakes(e, g, s, moves, alpha, beta, depth, maxScore);
        MinValueFailSoft(e, g, next, alpha, beta, depth - 1);
        MaxStep(a0, alpha, beta, maxScore, acc, c, v);
        var m := Max(maxScore, c);
        if m < beta {
          MaxLoopFailSoft(e, g, s, moves[1..], a0, Max(alpha, m), beta, depth, m, Max(acc, v));
        }
      }
    }
  }

  /** The min loop against its fold; the mirror image of `MaxLoopFailSoft` with `b0` the beta the node was called with. */
  lemma {:induction false} MinLoopFailSoft(e: Engine, g: Game, s: State, moves: seq<Move>, alpha: int, beta: int, b0: int,
                                           depth: nat, minScore: int, acc: int)
    requires depth >= 1
    requires alpha < beta <= b0 && Min(b0, minScore) <= beta
    requires minScore <= acc <= MAX_VALUE && (minScore < b0 ==> minScore == acc)
    ensures FailSoft(MinLoop(e, g, s, moves, alpha, beta, depth, minScore).score,
                     Min(acc, BestForMin(e, g, s, moves, depth)), alpha, b0)
    decreases depth, 0, |moves|
  {
    if |moves| > 0 {
      if !g.apply(s, moves[0]).ok {
        MinLoopSkips(e, g, s, moves, alpha, beta, depth, minScore);
        MinLoopFailSoft(e, g, s, moves[1..], alpha, beta, b0, depth, minScore, acc);
      } else {
        var next := g.apply(s, moves[0]).state;
        var c := MaxValue(e, g, next, alpha, beta, depth - 1).score;
        var v := MinimaxMax(e, g, next, depth - 1);
        MinLoopTakes(e, g, s, moves, alpha, beta, depth, minScore);
        MaxValueFailSoft(e, g, next, alpha, beta, depth - 1);
        MinStep(alpha, beta, b0, minScore, acc, c, v);
        var m := Min(minScore, c);
        if m > alpha {
          MinLoopFailSoft(e, g, s, moves[1..], alpha, Min(beta, m), b0, depth, m, Min(acc, v));
        }
      }
    }
  }

  /**
   * With the initial window and fewer than 1000 plies the pruned search
   * returns exactly the minimax value, for either side to move: every
   * minimax value lies strictly inside (INITIAL_ALPHA, INITIAL_BETA).
   */
  lemma SearchEqualsMinimax(e: Engine, g: Game, s: State, depth: nat)
    requires depth < 1000
    ensures MaxValue(e, g, s, INITIAL_ALPHA, INITIAL_BETA, depth).score == MinimaxMax(e, g, s, depth)
    ensures MinValue(e, g, s, INITIAL_ALPHA, INITIAL_BETA, depth).score == MinimaxMin(e, g, s, depth)
  {
    MaxValueFailSoft(e, g, s, INITIAL_ALPHA, INITIAL_BETA, depth);
    MinValueFailSoft(e, g, s, INITIAL_ALPHA, INITIAL_BETA, depth);
  }
}
