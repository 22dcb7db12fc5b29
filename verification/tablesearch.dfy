/**
 * The transposition-table search of `AlphaBetaEngineCopy`: the same
 * fail-soft alpha-beta, but children come in heuristic order, a position
 * without moves is a loss for the side to move, and every searched node is
 * looked up in and stored into a table keyed by the position hash.
 */
module TableSearch {
  import opened Common
  import opened Board
  import opened Rules
  import opened Evaluation

  /** `EXACT_SCORE`, `LOWER_BOUND`, `UPPER_BOUND`. */
  datatype Kind = Exact | LowerBound | UpperBound

  /** `TranspositionEntry`: the score, the remaining depth it was searched to, and its kind. */
  datatype Entry = Entry(score: int, depth: nat, kind: Kind)

  /** The table, keyed by the position's `hashCode` (widened to a long, so the int range). */
  type Table = map<int, Entry>

  /** `AlphaBetaResult` together with the table the search leaves behind. */
  datatype TableResult = TableResult(score: int, move: Option<Move>, table: Table)

  /** The key a position is stored under. */
  function Key(e: Engine, s: State): (k: int)
    ensures -0x8000_0000 <= k < 0x8000_0000
  {
    HashCode(s, e.turnHash)
  }

  /**
   * The kind stored for a node score against the window (lo, hi) it is
   * classified by: at or below lo an upper bound, otherwise at or above hi
   * a lower bound, and strictly inside an exact score.
   */
  function Classify(score: int, lo: int, hi: int): (k: Kind)
    ensures k == UpperBound <==> score <= lo
    ensures k == LowerBound <==> lo < score && hi <= score
    ensures k == Exact <==> lo < score < hi
  {
    if score <= lo then UpperBound
    else if score >= hi then LowerBound
    else Exact
  }

  /** The outcome of a table lookup: a score to return at once, or the window to search with. */
  datatype Probe = Hit(score: int) | Narrowed(alpha: int, beta: int)

  /**
   * The lookup at the head of `maxValue` and `minValue`. An entry counts only
   * when it was searched at least as deep as asked. An exact entry answers
   * with its score; a lower bound raises alpha to it, an upper bound lowers
   * beta to it, and if the window then closes the stored score is returned.
   */
  function ProbeTable(t: Table, key: int, depth: nat, alpha: int, beta: int): (p: Probe)
    ensures key !in t || t[key].depth < depth ==> p == Narrowed(alpha, beta)
    ensures key in t && depth <= t[key].depth && t[key].kind == Exact ==> p == Hit(t[key].score)
    ensures key in t && depth <= t[key].depth && t[key].kind == LowerBound ==>
              p == (if Max(alpha, t[key].score) >= beta then Hit(t[key].score) else Narrowed(Max(alpha, t[key].score), beta))
    ensures key in t && depth <= t[key].depth && t[key].kind == UpperBound ==>
              p == (if alpha >= Min(beta, t[key].score) then Hit(t[key].score) else Narrowed(alpha, Min(beta, t[key].score)))
    ensures p.Hit? ==> key in t && depth <= t[key].depth && p.score == t[key].score
    ensures p.Narrowed? ==>
              && alpha <= p.alpha && p.beta <= beta
              && (p.alpha == alpha || (key in t && t[key].kind == LowerBound && p.alpha == t[key].score))
              && (p.beta == beta || (key in t && t[key].kind == UpperBound && p.beta == t[key].score))
    ensures p.Narrowed? && key in t && depth <= t[key].depth ==> p.alpha < p.beta
  {
    if key !in t || t[key].depth < depth then Narrowed(alpha, beta)
    else
      var en := t[key];
      if en.kind == Exact then Hit(en.score)
      else
        var a := if en.kind == LowerBound then Max(alpha, en.score) else alpha;
        var b := if en.kind == UpperBound then Min(beta, en.score) else beta;
        if a >= b then Hit(en.score) else Narrowed(a, b)
  }

  /** The table only gains keys. */
  predicate Grows(t: Table, t': Table)
  {
    forall k :: k in t ==> k in t'
  }

  /**
   * `maxValue` with the table. Terminal positions and the horizon are
   * scored as in the plain engine and leave the table alone; so does a
   * table hit. A White position without moves scores `MIN_VALUE - depth`.
   * Otherwise the children are searched in heuristic order and the node's
   * own entry, written last, holds the returned score at this depth,
   * classified against the alpha the node was called with and the beta
   * after the lookup. The reported move comes from the ordered legal
   * moves: the first of them while no child beats `MIN_VALUE`, otherwise
   * an accepted move.
   */
  function TMaxValue(e: Engine, g: Game, o: Ordering, s: State, t: Table, alpha: int, beta: int, depth: nat): (r: TableResult)
    ensures s.turn == WhiteWin ==> r == TableResult(MAX_VALUE + depth, None, t)
    ensures s.turn == BlackWin ==> r == TableResult(MIN_VALUE - depth, None, t)
    ensures s.turn != WhiteWin && s.turn != BlackWin && depth == 0 ==> r == TableResult(Evaluate(e, s), None, t)
    ensures s.turn != WhiteWin && s.turn != BlackWin && depth > 0 ==>
              var p := ProbeTable(t, Key(e, s), depth, alpha, beta);
              && (p.Hit? ==> r == TableResult(p.score, None, t))
              && (p.Narrowed? && g.legalMoves(s) == [] ==> r == TableResult(MIN_VALUE - depth, None, t))
              && (p.Narrowed? && g.legalMoves(s) != [] ==>
                    && r.move.Some? && r.move.value in g.legalMoves(s)
                    && r.move.value in o(s, g.legalMoves(s))
                    && (r.score == MIN_VALUE ==> r.move.value == o(s, g.legalMoves(s))[0])
                    && (r.score != MIN_VALUE ==> MIN_VALUE < r.score && g.apply(s, r.move.value).ok)
                    && Key(e, s) in r.table
                    && r.table[Key(e, s)] == Entry(r.score, depth, Classify(r.score, alpha, p.beta)))
    ensures Grows(t, r.table)
    decreases depth, 1
  {
    if s.turn == WhiteWin then TableResult(MAX_VALUE + depth, None, t)
    else if s.turn == BlackWin then TableResult(MIN_VALUE - depth, None, t)
    else if depth == 0 then TableResult(Evaluate(e, s), None, t)
    else
      var key := Key(e, s);
      match ProbeTable(t, key, depth, alpha, beta)
      case Hit(v) => TableResult(v, None, t)
      case Narrowed(a, b) =>
        var moves := g.legalMoves(s);
        if |moves| == 0 then TableResult(MIN_VALUE - depth, None, t)
        else
          var ordered := o(s, moves);
          var r := TMaxLoop(e, g, o, s, ordered, t, a, b, depth, MIN_VALUE, ordered[0]);
          TableResult(r.score, r.move, r.table[key := Entry(r.score, depth, Classify(r.score, alpha, b))])
  }

  /**
   * The child loop of the table `maxValue`: the running maximum and the
   * move that first reached it (the first ordered move until a child
   * scores strictly higher), alpha raised to the maximum after each child,
   * and a stop once alpha reaches beta.
   */
  function TMaxLoop(e: Engine, g: Game, o: Ordering, s: State, moves: seq<Move>, t: Table, alpha: int, beta: int,
                    depth: nat, maxScore: int, best: Move): (r: TableResult)
    requires depth >= 1
    ensures maxScore <= r.score
    ensures r.move.Some? && (r.move.value == best || (r.move.value in moves && g.apply(s, r.move.value).ok))
    ensures r.score > maxScore ==> r.move.value in moves && g.apply(s, r.move.value).ok
    ensures r.score == maxScore ==> r.move == Some(best)
    ensures Grows(t, r.table)
    decreases depth, 0, |moves|
  {
    if |moves| == 0 then TableResult(maxScore, Some(best), t)
    else
      var next := g.apply(s, moves[0]);
      if !next.ok then TMaxLoop(e, g, o, s, moves[1..], t, alpha, beta, depth, maxScore, best)
      else
        var child := TMinValue(e, g, o, next.state, t, alpha, beta, depth - 1);
        var improved := child.score > maxScore;
        var score := if improved then child.score else maxScore;
        var move := if improved then moves[0] else best;
        var a := Max(alpha, score);
        if a >= beta then TableResult(score, Some(move), child.table)
        else TMaxLoop(e, g, o, s, moves[1..], child.table, a, beta, depth, score, move)
  }

  /**
   * `minValue` with the table: the mirror image of `TMaxValue`. A Black
   * position without moves scores `MAX_VALUE + depth`, and the node's entry
   * is classified against the alpha after the lookup and the beta the node
   * was called with.
   */
  function TMinValue(e: Engine, g: Game, o: Ordering, s: State, t: Table, alpha: int, beta: int, depth: nat): (r: TableResult)
    ensures s.turn == WhiteWin ==> r == TableResult(MAX_VALUE + depth, None, t)
    ensures s.turn == BlackWin ==> r == TableResult(MIN_VALUE - depth, None, t)
    ensures s.turn != WhiteWin && s.turn != BlackWin && depth == 0 ==> r == TableResult(Evaluate(e, s), None, t)
    ensures s.turn != WhiteWin && s.turn != BlackWin && depth > 0 ==>
              var p := ProbeTable(t, Key(e, s), depth, alpha, beta);
              && (p.Hit? ==> r == TableResult(p.score, None, t))
              && (p.Narrowed? && g.legalMoves(s) == [] ==> r == TableResult(MAX_VALUE + depth, None, t))
              && (p.Narrowed? && g.legalMoves(s) != [] ==>
                    && r.move.Some? && r.move.value in g.legalMoves(s)
                    && r.move.value in o(s, g.legalMoves(s))
                    && (r.score == MAX_VALUE ==> r.move.value == o(s, g.legalMoves(s))[0])
                    && (r.score != MAX_VALUE ==> r.score < MAX_VALUE && g.apply(s, r.move.value).ok)
                    && Key(e, s) in r.table
                    && r.table[Key(e, s)] == Entry(r.score, depth, Classify(r.score, p.alpha, beta)))
    ensures Grows(t, r.table)
    decreases depth, 1
  {
    if s.turn == WhiteWin then TableResult(MAX_VALUE + depth, None, t)
    else if s.turn == BlackWin then TableResult(MIN_VALUE - depth, None, t)
    else if depth == 0 then TableResult(Evaluate(e, s), None, t)
    else
      var key := Key(e, s);
      match ProbeTable(t, key, depth, alpha, beta)
      case Hit(v) => TableResult(v, None, t)
      case Narrowed(a, b) =>
        var moves := g.legalMoves(s);
        if |moves| == 0 then TableResult(MAX_VALUE + depth, None, t)
        else
          var ordered := o(s, moves);
          var r := TMinLoop(e, g, o, s, ordered, t, a, b, depth, MAX_VALUE, ordered[0]);
          TableResult(r.score, r.move, r.table[key := Entry(r.score, depth, Classify(r.score, a, beta))])
  }

  /**
   * The child loop of the table `minValue`: the running minimum and the
   * move that first reached it, beta lowered to the minimum after each
   * child, and a stop once the minimum is at or below alpha.
   */
  function TMinLoop(e: Engine, g: Game, o: Ordering, s: State, moves: seq<Move>, t: Table, alpha: int, beta: int,
                    depth: nat, minScore: int, best: Move): (r: TableResult)
    requires depth >= 1
    ensures r.score <= minScore
    ensures r.move.Some? && (r.move.value == best || (r.move.value in moves && g.apply(s, r.move.value).ok))
    ensures r.score < minScore ==> r.move.value in moves && g.apply(s, r.move.value).ok
    ensures r.score == minScore ==> r.move == Some(best)
    ensures Grows(t, r.table)
    decreases depth, 0, |moves|
  {
    if |moves| == 0 then TableResult(minScore, Some(best), t)
    else
      var next := g.apply(s, moves[0]);
      if !next.ok then TMinLoop(e, g, o, s, moves[1..], t, alpha, beta, depth, minScore, best)
      else
        var child := TMaxValue(e, g, o, next.state, t, alpha, beta, depth - 1);
        var improved := child.score < minScore;
        var score := if improved then child.score else minScore;
        var move := if improved then moves[0] else best;
        if score <= alpha then TableResult(score, Some(move), child.table)
        else TMinLoop(e, g, o, s, moves[1..], child.table, alpha, Min(beta, score), depth, score, move)
  }

  /**
   * The table invariant the search keeps: every entry was stored at a
   * remaining depth between 1 and `bound`, and its score lies in
   * [MIN_VALUE - bound, MAX_VALUE + bound].
   */
  predicate Bounded(t: Table, bound: nat)
  {
    forall k :: k in t ==> 1 <= t[k].depth <= bound && MIN_VALUE - bound <= t[k].score <= MAX_VALUE + bound
  }

  /** Storing an entry within the bounds keeps the table bounded. */
  lemma StoreBounded(t: Table, key: int, score: int, depth: nat, kind: Kind, bound: nat)
    requires Bounded(t, bound)
    requires 1 <= depth <= bound && MIN_VALUE - bound <= score <= MAX_VALUE + bound
    ensures Bounded(t[key := Entry(score, depth, kind)], bound)
  {
  }

  /** A search no deeper than `bound` from a bounded table scores within the bound and leaves the table bounded. */
  lemma {:induction false} TMaxValueBounded(e: Engine, g: Game, o: Ordering, s: State, t: Table, alpha: int, beta: int,
                                            depth: nat, bound: nat)
    requires depth <= bound && Bounded(t, bound)
    ensures var r := TMaxValue(e, g, o, s, t, alpha, beta, depth);
      MIN_VALUE - bound <= r.score <= MAX_VALUE + bound && Bounded(r.table, bound)
    decreases depth, 1, 0, 0
  {
    if s.turn != WhiteWin && s.turn != BlackWin && depth > 0 {
      var key := Key(e, s);
      var p := ProbeTable(t, key, depth, alpha, beta);
      var moves := g.legalMoves(s);
      if p.Narrowed? && |moves| > 0 {
        var ordered := o(s, moves);
        var r := TMaxLoop(e, g, o, s, ordered, t, p.alpha, p.beta, depth, MIN_VALUE, ordered[0]);
        TMaxLoopBounded(e, g, o, s, ordered, t, p.alpha, p.beta, depth, MIN_VALUE, ordered[0], bound);
        StoreBounded(r.table, key, r.score, depth, Classify(r.score, alpha, p.beta), bound);
      }
    }
  }

  /** The loop counterpart of `TMaxValueBounded`. */
  lemma {:induction false} TMaxLoopBounded(e: Engine, g: Game, o: Ordering, s: State, moves: seq<Move>, t: Table, alpha: int, beta: int,
                                           depth: nat, maxScore: int, best: Move, bound: nat)
    requires 1 <= depth <= bound && Bounded(t, bound)
    requires MIN_VALUE - bound <= maxScore <= MAX_VALUE + bound
    ensures var r := TMaxLoop(e, g, o, s, moves, t, alpha, beta, depth, maxScore, best);
      MIN_VALUE - bound <= r.score <= MAX_VALUE + bound && Bounded(r.table, bound)
    decreases depth, 0, |moves|, 1
  {
    if |moves| > 0 {
      if !g.apply(s, moves[0]).ok {
        TMaxLoopSkips(e, g, o, s, moves, t, alpha, beta, depth, maxScore, best);
        TMaxLoopBounded(e, g, o, s, moves[1..], t, alpha, beta, depth, maxScore, best, bound);
      } else {
        TMaxLoopTakeBounded(e, g, o, s, moves, t, alpha, beta, depth, maxScore, best, bound);
      }
    }
  }

  /** `TMaxLoopBounded` for an accepted first move. */
  lemma {:induction false} TMaxLoopTakeBounded(e: Engine, g: Game, o: Ordering, s: State, moves: seq<Move>, t: Table, alpha: int, beta: int,
                                               depth: nat, maxScore: int, best: Move, bound: nat)
    requires 1 <= depth <= bound && Bounded(t, bound)
    requires MIN_VALUE - bound <= maxScore <= MAX_VALUE + bound
    requires |moves| > 0 && g.apply(s, moves[0]).ok
    ensures var r := TMaxLoop(e, g, o, s, moves, t, alpha, beta, depth, maxScore, best);
      MIN_VALUE - bound <= r.score <= MAX_VALUE + bound && Bounded(r.table, bound)
    decreases depth, 0, |moves|, 0
  {
    var child := TMinValue(e, g, o, g.apply(s, moves[0]).state, t, alpha, beta, depth - 1);
    TMaxLoopTakes(e, g, o, s, moves, t, alpha, beta, depth, maxScore, best);
    TMinValueBounded(e, g, o, g.apply(s, moves[0]).state, t, alpha, beta, depth - 1, bound);
    var score := if child.score > maxScore then child.score else maxScore;
    var move := if child.score > maxScore then moves[0] else best;
    if Max(alpha, score) < beta {
      TMaxLoopBounded(e, g, o, s, moves[1..], child.table, Max(alpha, score), beta, depth, score, move, bound);
    }
  }

  /** The mirror image of `TMaxValueBounded`. */
  lemma {:induction false} TMinValueBounded(e: Engine, g: Game, o: Ordering, s: State, t: Table, alpha: int, beta: int,
                                            depth: nat, bound: nat)
    requires depth <= bound && Bounded(t, bound)
    ensures var r := TMinValue(e, g, o, s, t, alpha, beta, depth);
      MIN_VALUE - bound <= r.score <= MAX_VALUE + bound && Bounded(r.table, bound)
    decreases depth, 1, 0, 0
  {
    if s.turn != WhiteWin && s.turn != BlackWin && depth > 0 {
      var key := Key(e, s);
      var p := ProbeTable(t, key, depth, alpha, beta);
      var moves := g.legalMoves(s);
      if p.Narrowed? && |moves| > 0 {
        var ordered := o(s, moves);
        var r := TMinLoop(e, g, o, s, ordered, t, p.alpha, p.beta, depth, MAX_VALUE, ordered[0]);
        TMinLoopBounded(e, g, o, s, ordered, t, p.alpha, p.beta, depth, MAX_VALUE, ordered[0], bound);
        StoreBounded(r.table, key, r.score, depth, Classify(r.score, p.alpha, beta), bound);
      }
    }
  }

  /** The loop counterpart of `TMinValueBounded`. */
  lemma {:induction false} TMinLoopBounded(e: Engine, g: Game, o: Ordering, s: State, moves: seq<Move>, t: Table, alpha: int, beta: int,
                                           depth: nat, minScore: int, best: Move, bound: nat)
    requires 1 <= depth <= bound && Bounded(t, bound)
    requires MIN_VALUE - bound <= minScore <= MAX_VALUE + bound
    ensures var r := TMinLoop(e, g, o, s, moves, t, alpha, beta, depth, minScore, best);
      MIN_VALUE - bound <= r.score <= MAX_VALUE + bound && Bounded(r.table, bound)
    decreases depth, 0, |moves|, 1
  {
    if |moves| > 0 {
      if !g.apply(s, moves[0]).ok {
        TMinLoopSkips(e, g, o, s, moves, t, alpha, beta, depth, minScore, best);
        TMinLoopBounded(e, g, o, s, moves[1..], t, alpha, beta, depth, minScore, best, bound);
      } else {
        TMinLoopTakeBounded(e, g, o, s, moves, t, alpha, beta, depth, minScore, best, bound);
      }
    }
  }

  /** `TMinLoopBounded` for an accepted first move. */
  lemma {:induction false} TMinLoopTakeBounded(e: Engine, g: Game, o: Ordering, s: State, moves: seq<Move>, t: Table, alpha: int, beta: int,
                                               depth: nat, minScore: int, best: Move, bound: nat)
    requires 1 <= depth <= bound && Bounded(t, bound)
    requires MIN_VALUE - bound <= minScore <= MAX_VALUE + bound
    requires |moves| > 0 && g.apply(s, moves[0]).ok
    ensures var r := TMinLoop(e, g, o, s, moves, t, alpha, beta, depth, minScore, best);
      MIN_VALUE - bound <= r.score <= MAX_VALUE + bound && Bounded(r.table, bound)
    decreases depth, 0, |moves|, 0
  {
    var child := TMaxValue(e, g, o, g.apply(s, moves[0]).state, t, alpha, beta, depth - 1);
    TMinLoopTakes(e, g, o, s, moves, t, alpha, beta, depth, minScore, best);
    TMaxValueBounded(e, g, o, g.apply(s, moves[0]).state, t, alpha, beta, depth - 1, bound);
    var score := if child.score < minScore then child.score else minScore;
    var move := if child.score < minScore then moves[0] else best;
    if score > alpha {
      TMinLoopBounded(e, g, o, s, moves[1..], child.table, alpha, Min(beta, score), depth, score, move, bound);
    }
  }

  /** A move `applyMove` rejects is skipped by the table max loop. */
  lemma TMaxLoopSkips(e: Engine, g: Game, o: Ordering, s: State, moves: seq<Move>, t: Table, alpha: int, beta: int,
                      depth: nat, maxScore: int, best: Move)
    requires depth >= 1 && |moves| > 0 && !g.apply(s, moves[0]).ok
    ensures TMaxLoop(e, g, o, s, moves, t, alpha, beta, depth, maxScore, best)
            == TMaxLoop(e, g, o, s, moves[1..], t, alpha, beta, depth, maxScore, best)
  {
  }

  /** An accepted move: the child is searched with the current window and the table, then the loop stops or goes on. */
  lemma TMaxLoopTakes(e: Engine, g: Game, o: Ordering, s: State, moves: seq<Move>, t: Table, alpha: int, beta: int,
                      depth: nat, maxScore: int, best: Move)
    requires depth >= 1 && |moves| > 0 && g.apply(s, moves[0]).ok
    ensures var child := TMinValue(e, g, o, g.apply(s, moves[0]).state, t, alpha, beta, depth - 1);
      var score := if child.score > maxScore then child.score else maxScore;
      var move := if child.score > maxScore then moves[0] else best;
      TMaxLoop(e, g, o, s, moves, t, alpha, beta, depth, maxScore, best)
      == if Max(alpha, score) >= beta then TableResult(score, Some(move), child.table)
         else TMaxLoop(e, g, o, s, moves[1..], child.table, Max(alpha, score), beta, depth, score, move)
  {
  }

  /** A move `applyMove` rejects is skipped by the table min loop. */
  lemma TMinLoopSkips(e: Engine, g: Game, o: Ordering, s: State, moves: seq<Move>, t: Table, alpha: int, beta: int,
                      depth: nat, minScore: int, best: Move)
    requires depth >= 1 && |moves| > 0 && !g.apply(s, moves[0]).ok
    ensures TMinLoop(e, g, o, s, moves, t, alpha, beta, depth, minScore, best)
            == TMinLoop(e, g, o, s, moves[1..], t, alpha, beta, depth, minScore, best)
  {
  }

  /** An accepted move in the table min loop. */
  lemma TMinLoopTakes(e: Engine, g: Game, o: Ordering, s: State, moves: seq<Move>, t: Table, alpha: int, beta: int,
                      depth: nat, minScore: int, best: Move)
    requires depth >= 1 && |moves| > 0 && g.apply(s, moves[0]).ok
    ensures var child := TMaxValue(e, g, o, g.apply(s, moves[0]).state, t, alpha, beta, depth - 1);
      var score := if child.score < minScore then child.score else minScore;
      var move := if child.score < minScore then moves[0] else best;
      TMinLoop(e, g, o, s, moves, t, alpha, beta, depth, minScore, best)
      == if score <= alpha then TableResult(score, Some(move), child.table)
         else TMinLoop(e, g, o, s, moves[1..], child.table, alpha, Min(beta, score), depth, score, move)
  {
  }
}
