/**
 * `getBestMove`, the same in both engines: iterative deepening over the
 * root moves in heuristic order, one task per move, keeping the best move
 * of the last fully completed depth.
 */
module Driver {
  import opened Common
  import opened Board
  import opened Rules
  import opened MoveGen
  import opened Evaluation
  import opened Search
  import opened Minimax
  import opened TableSearch

  /** `AlphaBetaEngine` searches without a table, `AlphaBetaEngineCopy` with one. */
  datatype Variant = Plain | WithTable

  /**
   * Time as the driver meets it: the deepest iteration started before the
   * deadline (the loop stops at the deadline or with 100 ms or less left),
   * and which root tasks of an iteration fail, by timing out or by raising
   * the search's timeout exception.
   */
  datatype Clock = Clock(lastDepth: nat, taskFails: (nat, nat) -> bool)

  /** Some task of iteration `depth` among the first `n` fails. */
  predicate Interrupted(clock: Clock, depth: nat, n: nat)
  {
    exists i :: 0 <= i < n && clock.taskFails(depth, i)
  }

  /** The score a root move starts from and a rejected root move gets: the worst for the engine's side. */
  function Worst(e: Engine): int
  {
    if e.player == White then MIN_VALUE else MAX_VALUE
  }

  /** `a` is strictly better than `b` for White (higher) or for Black (lower). */
  predicate Better(white: bool, a: int, b: int)
  {
    if white then a > b else a < b
  }

  /**
   * The result loop of one iteration: each task's score in order, taken
   * only when strictly better than the best so far, so the first of equal
   * scores wins. The result is never worse than the start or any score.
   */
  function Collect(white: bool, moves: seq<Move>, scores: seq<int>, bestScore: int, best: Move): (r: (int, Move))
    requires |scores| == |moves|
    ensures !Better(white, bestScore, r.0)
    ensures forall i :: 0 <= i < |scores| ==> !Better(white, scores[i], r.0)
    ensures r.1 == best || r.1 in moves
    decreases |moves|
  {
    if |moves| == 0 then (bestScore, best)
    else if Better(white, scores[0], bestScore) then Collect(white, moves[1..], scores[1..], scores[0], moves[0])
    else Collect(white, moves[1..], scores[1..], bestScore, best)
  }

  /**
   * The move `Collect` keeps: the incumbent when no score beats the start,
   * and otherwise the move of the best score, the earliest among equal
   * best scores, together with that score: its score is strictly better
   * than the start and than every score before it, and no later score is
   * strictly better.
   */
  lemma CollectFirstBest(white: bool, moves: seq<Move>, scores: seq<int>, bestScore: int, best: Move)
    requires |scores| == |moves|
    ensures var r := Collect(white, moves, scores, bestScore, best);
      && ((forall i :: 0 <= i < |scores| ==> !Better(white, scores[i], bestScore)) ==> r == (bestScore, best))
      && ((exists i :: 0 <= i < |scores| && Better(white, scores[i], bestScore)) ==>
            exists i :: 0 <= i < |scores| && r == (scores[i], moves[i]) && Better(white, scores[i], bestScore)
                        && (forall j :: 0 <= j < i ==> Better(white, scores[i], scores[j]))
                        && (forall j :: i < j < |scores| ==> !Better(white, scores[j], scores[i])))
  {
    CollectLastImprovement(white, moves, scores, bestScore, best);
  }

  /** The move `Collect` keeps is the last strict improvement: better than the start and than every score before it. */
  lemma {:induction false} CollectLastImprovement(white: bool, moves: seq<Move>, scores: seq<int>, bestScore: int, best: Move)
    requires |scores| == |moves|
    ensures var r := Collect(white, moves, scores, bestScore, best);
      && ((forall i :: 0 <= i < |scores| ==> !Better(white, scores[i], bestScore)) ==> r == (bestScore, best))
      && ((exists i :: 0 <= i < |scores| && Better(white, scores[i], bestScore)) ==>
            exists i :: 0 <= i < |scores| && r == (scores[i], moves[i]) && Better(white, scores[i], bestScore)
                        && forall j :: 0 <= j < i ==> Better(white, scores[i], scores[j]))
    decreases |moves|
  {
    if |moves| > 0 {
      var r := Collect(white, moves, scores, bestScore, best);
      if Better(white, scores[0], bestScore) {
        CollectLastImprovement(white, moves[1..], scores[1..], scores[0], moves[0]);
        if exists i :: 0 <= i < |scores| - 1 && Better(white, scores[1..][i], scores[0]) {
          var i :| 0 <= i < |scores| - 1 && r == (scores[1..][i], moves[1..][i]) && Better(white, scores[1..][i], scores[0])
                   && forall j :: 0 <= j < i ==> Better(white, scores[1..][i], scores[1..][j]);
          assert r == (scores[i + 1], moves[i + 1]);
          forall j | 0 <= j < i + 1
            ensures Better(white, scores[i + 1], scores[j])
          {
            if j > 0 {
              assert scores[j] == scores[1..][j - 1];
            }
          }
        } else {
          assert r == (scores[0], moves[0]);
        }
      } else {
        CollectLastImprovement(white, moves[1..], scores[1..], bestScore, best);
        if exists i :: 0 <= i < |scores| && Better(white, scores[i], bestScore) {
          var k :| 0 <= k < |scores| && Better(white, scores[k], bestScore);
          assert k > 0 && Better(white, scores[1..][k - 1], bestScore);
          var i :| 0 <= i < |scores| - 1 && r == (scores[1..][i], moves[1..][i]) && Better(white, scores[1..][i], bestScore)
                   && forall j :: 0 <= j < i ==> Better(white, scores[1..][i], scores[1..][j]);
          assert r == (scores[i + 1], moves[i + 1]);
          forall j | 0 <= j < i + 1
            ensures Better(white, scores[i + 1], scores[j])
          {
            if j > 0 {
              assert scores[j] == scores[1..][j - 1];
            }
          }
        } else {
          forall i | 0 <= i < |scores| - 1
            ensures !Better(white, scores[1..][i], bestScore)
          {
            assert scores[1..][i] == scores[i + 1];
          }
        }
      }
    }
  }

  /**
   * One root task: a root move `applyMove` rejects scores the worst value;
   * otherwise the opponent's reply is searched from the initial window,
   * `depth` plies below the root move, by `minValue` for a White engine and
   * `maxValue` for any other. The table engine threads its table through.
   */
  function RootTask(v: Variant, e: Engine, g: Game, o: Ordering, s: State, m: Move, depth: nat, t: Table): (r: (int, Table))
    ensures !g.apply(s, m).ok ==> r == (Worst(e), t)
    ensures v == Plain ==> r.1 == t
    ensures v == Plain && g.apply(s, m).ok ==>
              r.0 == (if e.player == White then MinValue(e, g, g.apply(s, m).state, INITIAL_ALPHA, INITIAL_BETA, depth).score
                      else MaxValue(e, g, g.apply(s, m).state, INITIAL_ALPHA, INITIAL_BETA, depth).score)
  {
    var next := g.apply(s, m);
    if !next.ok then (Worst(e), t)
    else
      match v
      case Plain =>
        var r := if e.player == White then MinValue(e, g, next.state, INITIAL_ALPHA, INITIAL_BETA, depth)
                 else MaxValue(e, g, next.state, INITIAL_ALPHA, INITIAL_BETA, depth);
        (r.score, t)
      case WithTable =>
        var r := if e.player == White then TMinValue(e, g, o, next.state, t, INITIAL_ALPHA, INITIAL_BETA, depth)
                 else TMaxValue(e, g, o, next.state, t, INITIAL_ALPHA, INITIAL_BETA, depth);
        (r.score, r.table)
  }

  /** The scores of the tasks of one iteration, in task order, with the table passed from task to task. */
  function DepthScores(v: Variant, e: Engine, g: Game, o: Ordering, s: State, ordered: seq<Move>, depth: nat, t: Table)
    : (r: (seq<int>, Table))
    ensures |r.0| == |ordered|
    ensures forall i :: 0 <= i < |ordered| && !g.apply(s, ordered[i]).ok ==> r.0[i] == Worst(e)
    decreases |ordered|
  {
    if |ordered| == 0 then ([], t)
    else
      var first := RootTask(v, e, g, o, s, ordered[0], depth, t);
      var rest := DepthScores(v, e, g, o, s, ordered[1..], depth, first.1);
      ([first.0] + rest.0, rest.1)
  }

  /** In the plain engine the table plays no part: each score is its root task's score from the same table. */
  lemma {:induction false} PlainDepthScores(e: Engine, g: Game, o: Ordering, s: State, ordered: seq<Move>, depth: nat, t: Table)
    ensures var r := DepthScores(Plain, e, g, o, s, ordered, depth, t);
      forall i :: 0 <= i < |ordered| ==> r.0[i] == RootTask(Plain, e, g, o, s, ordered[i], depth, t).0
    decreases |ordered|
  {
    if |ordered| > 0 {
      PlainDepthScores(e, g, o, s, ordered[1..], depth, t);
      var r := DepthScores(Plain, e, g, o, s, ordered, depth, t);
      forall i | 0 < i < |ordered|
        ensures r.0[i] == RootTask(Plain, e, g, o, s, ordered[i], depth, t).0
      {
        assert ordered[1..][i - 1] == ordered[i];
      }
    }
  }

  /** The outcome of one iteration: whether it completed, the best move it leaves, and the table. */
  datatype Iteration = Iteration(completed: bool, best: Move, table: Table)

  /**
   * One iteration of the deepening loop: the legal moves are ordered by
   * the heuristic, every task is run, and if any fails the iteration is
   * discarded; otherwise the best task move replaces the incumbent.
   */
  function RunDepth(v: Variant, e: Engine, g: Game, o: Ordering, s: State, legal: seq<Move>, clock: Clock, depth: nat,
                    incumbent: Move, t: Table): (it: Iteration)
    ensures it.completed <==> !Interrupted(clock, depth, |o(s, legal)|)
    ensures !it.completed ==> it.best == incumbent
    ensures it.best == incumbent || it.best in legal
  {
    var ordered := o(s, legal);
    var scores := DepthScores(v, e, g, o, s, ordered, depth, t);
    if Interrupted(clock, depth, |ordered|) then Iteration(false, incumbent, scores.1)
    else Iteration(true, Collect(e.player == White, ordered, scores.0, Worst(e), incumbent).1, scores.1)
  }

  /**
   * The deepening loop from iteration `depth` on: it stops after the last
   * iteration the clock allows, or at the first interrupted one, and
   * returns the best move of the last completed iteration (the incumbent
   * if none completed).
   */
  function Deepen(v: Variant, e: Engine, g: Game, o: Ordering, s: State, legal: seq<Move>, clock: Clock, depth: nat,
                  incumbent: Move, t: Table): (m: Move)
    requires depth >= 1
    ensures m == incumbent || m in legal
    ensures depth > clock.lastDepth ==> m == incumbent
    ensures depth <= clock.lastDepth && Interrupted(clock, depth, |o(s, legal)|) ==> m == incumbent
    decreases clock.lastDepth + 1 - depth
  {
    if depth > clock.lastDepth then incumbent
    else
      var it := RunDepth(v, e, g, o, s, legal, clock, depth, incumbent, t);
      if !it.completed then incumbent
      else Deepen(v, e, g, o, s, legal, clock, depth + 1, it.best, it.table)
  }

  /**
   * `getBestMove`: no move when the position has no legal move; otherwise
   * a legal move, the first legal move when no iteration completes. The
   * table starts empty on every call.
   */
  function GetBestMove(v: Variant, e: Engine, g: Game, s: State, clock: Clock): (r: Option<Move>)
    ensures r.None? <==> g.legalMoves(s) == []
    ensures r.Some? ==> r.value in g.legalMoves(s)
    ensures r.Some? && (clock.lastDepth == 0 || Interrupted(clock, 1, |SortMovesByHeuristic(e, g, s, g.legalMoves(s))|)) ==>
              r.value == g.legalMoves(s)[0]
  {
    var legal := g.legalMoves(s);
    var o := HeuristicOrder(e, g);
    if |legal| == 0 then None
    else Some(Deepen(v, e, g, o, s, legal, clock, 1, legal[0], map[]))
  }

  /** On the fast state, the engines' move is one the generator lists and `applyMove` accepts. */
  lemma TablutBestMoveAccepted(v: Variant, e: Engine, s: State, clock: Clock)
    ensures var r := GetBestMove(v, e, Tablut(), s, clock);
      && (r.None? <==> GenerateLegalMoves(s) == [])
      && (r.Some? ==> r.value in GenerateLegalMoves(s) && Legal(s, r.value) && ApplyMove(s, r.value).ok)
  {
    GeneratedAccepted(s);
  }

  // ---------------------------------------------------------------------
  // The plain engine picks a minimax-best root move
  // ---------------------------------------------------------------------

  /** The minimax value of a root move for the engine's side, `depth` plies below it; a rejected move gets the worst value. */
  function RootValue(e: Engine, g: Game, s: State, m: Move, depth: nat): int
  {
    var next := g.apply(s, m);
    if !next.ok then Worst(e)
    else if e.player == White then MinimaxMin(e, g, next.state, depth)
    else MinimaxMax(e, g, next.state, depth)
  }

  /** A plain root task scores its move's minimax value. */
  lemma PlainTaskIsMinimax(e: Engine, g: Game, o: Ordering, s: State, m: Move, depth: nat, t: Table)
    requires depth < 1000
    ensures RootTask(Plain, e, g, o, s, m, depth, t).0 == RootValue(e, g, s, m, depth)
  {
    if g.apply(s, m).ok {
      SearchEqualsMinimax(e, g, g.apply(s, m).state, depth);
    }
  }

  /**
   * The root move is a minimax-best legal move at `depth`: accepted, and no
   * legal move has a strictly better minimax value for the engine's side.
   */
  ghost predicate MinimaxBest(e: Engine, g: Game, s: State, legal: seq<Move>, depth: nat, m: Move)
  {
    && m in legal && g.apply(s, m).ok
    && forall m' :: m' in legal ==> !Better(e.player == White, RootValue(e, g, s, m', depth), RootValue(e, g, s, m, depth))
  }

  /** Some legal move has a minimax value better than the worst score. */
  ghost predicate SomeBetterThanWorst(e: Engine, g: Game, s: State, legal: seq<Move>, depth: nat)
  {
    exists m :: m in legal && Better(e.player == White, RootValue(e, g, s, m, depth), Worst(e))
  }

  /**
   * The result loop over scores that are the moves' minimax values picks
   * the incumbent when no legal move beats the worst score, and a
   * minimax-best legal move otherwise, provided the ordered moves are legal
   * and include every accepted one.
   */
  lemma CollectPicksMinimaxBest(e: Engine, g: Game, s: State, legal: seq<Move>, ordered: seq<Move>, scores: seq<int>,
                                depth: nat, incumbent: Move)
    requires |scores| == |ordered|
    requires forall i :: 0 <= i < |ordered| ==> scores[i] == RootValue(e, g, s, ordered[i], depth)
    requires forall m :: m in ordered ==> m in legal
    requires forall m :: m in legal && g.apply(s, m).ok ==> m in ordered
    ensures var r := Collect(e.player == White, ordered, scores, Worst(e), incumbent);
      && (!SomeBetterThanWorst(e, g, s, legal, depth) ==> r.1 == incumbent)
      && (SomeBetterThanWorst(e, g, s, legal, depth) ==> MinimaxBest(e, g, s, legal, depth, r.1))
  {
    var white := e.player == White;
    var r := Collect(white, ordered, scores, Worst(e), incumbent);
    CollectFirstBest(white, ordered, scores, Worst(e), incumbent);
    if SomeBetterThanWorst(e, g, s, legal, depth) {
      var m :| m in legal && Better(white, RootValue(e, g, s, m, depth), Worst(e));
      var i :| 0 <= i < |ordered| && ordered[i] == m;
      assert Better(white, scores[i], Worst(e));
      var k :| 0 <= k < |scores| && r == (scores[k], ordered[k]) && Better(white, scores[k], Worst(e));
      forall m' | m' in legal
        ensures !Better(white, RootValue(e, g, s, m', depth), r.0)
      {
        if g.apply(s, m').ok {
          var j :| 0 <= j < |ordered| && ordered[j] == m';
        }
      }
    } else {
      forall i | 0 <= i < |scores|
        ensures !Better(white, scores[i], Worst(e))
      {
        assert ordered[i] in legal;
      }
    }
  }

  /**
   * A completed iteration of the plain engine keeps the incumbent when no
   * legal move has a minimax value better than the worst, and otherwise
   * picks an accepted legal move whose minimax value no legal move beats.
   */
  lemma {:induction false} PlainDepthPicksMinimaxBest(e: Engine, g: Game, o: Ordering, s: State, legal: seq<Move>, clock: Clock,
                                                      depth: nat, incumbent: Move, t: Table)
    requires depth < 1000
    requires !Interrupted(clock, depth, |o(s, legal)|)
    requires KeepsAccepted(g, o, s, legal)
    ensures var it := RunDepth(Plain, e, g, o, s, legal, clock, depth, incumbent, t);
      && it.completed
      && (!SomeBetterThanWorst(e, g, s, legal, depth) ==> it.best == incumbent)
      && (SomeBetterThanWorst(e, g, s, legal, depth) ==> MinimaxBest(e, g, s, legal, depth, it.best))
  {
    var ordered := o(s, legal);
    var scores := DepthScores(Plain, e, g, o, s, ordered, depth, t).0;
    PlainDepthScores(e, g, o, s, ordered, depth, t);
    forall i | 0 <= i < |ordered|
      ensures scores[i] == RootValue(e, g, s, ordered[i], depth)
    {
      PlainTaskIsMinimax(e, g, o, s, ordered[i], depth, t);
    }
    CollectPicksMinimaxBest(e, g, s, legal, ordered, scores, depth, incumbent);
  }

  /** No task of iterations `from` to `to` fails. */
  ghost predicate Uninterrupted(clock: Clock, from: nat, to: nat)
  {
    forall d, i :: from <= d <= to ==> !clock.taskFails(d, i)
  }

  /** A completed iteration hands its best move and table to the next one. */
  lemma DeepenContinues(v: Variant, e: Engine, g: Game, o: Ordering, s: State, legal: seq<Move>, clock: Clock,
                        depth: nat, incumbent: Move, t: Table)
    requires 1 <= depth <= clock.lastDepth
    requires RunDepth(v, e, g, o, s, legal, clock, depth, incumbent, t).completed
    ensures var it := RunDepth(v, e, g, o, s, legal, clock, depth, incumbent, t);
      Deepen(v, e, g, o, s, legal, clock, depth, incumbent, t) == Deepen(v, e, g, o, s, legal, clock, depth + 1, it.best, it.table)
  {
  }

  /** An iteration whose tasks all succeed completes. */
  lemma UninterruptedCompletes(v: Variant, e: Engine, g: Game, o: Ordering, s: State, legal: seq<Move>, clock: Clock,
                               from: nat, to: nat, depth: nat, incumbent: Move, t: Table)
    requires Uninterrupted(clock, from, to) && from <= depth <= to
    ensures RunDepth(v, e, g, o, s, legal, clock, depth, incumbent, t).completed
  {
    assert !Interrupted(clock, depth, |o(s, legal)|);
  }

  /** An iteration that runs without interruption hands the loop on to the next one. */
  lemma DeepenStep(v: Variant, e: Engine, g: Game, o: Ordering, s: State, legal: seq<Move>, clock: Clock,
                   depth: nat, incumbent: Move, t: Table)
    returns (best: Move, table: Table)
    requires 1 <= depth <= clock.lastDepth
    requires Uninterrupted(clock, depth, clock.lastDepth)
    ensures Deepen(v, e, g, o, s, legal, clock, depth, incumbent, t) == Deepen(v, e, g, o, s, legal, clock, depth + 1, best, table)
  {
    UninterruptedCompletes(v, e, g, o, s, legal, clock, depth, clock.lastDepth, depth, incumbent, t);
    var it := RunDepth(v, e, g, o, s, legal, clock, depth, incumbent, t);
    DeepenContinues(v, e, g, o, s, legal, clock, depth, incumbent, t);
    best, table := it.best, it.table;
  }

  /** The last iteration the clock allows, when it completes, decides the deepening loop's move. */
  lemma DeepenLast(v: Variant, e: Engine, g: Game, o: Ordering, s: State, legal: seq<Move>, clock: Clock,
                   incumbent: Move, t: Table)
    requires 1 <= clock.lastDepth
    requires RunDepth(v, e, g, o, s, legal, clock, clock.lastDepth, incumbent, t).completed
    ensures Deepen(v, e, g, o, s, legal, clock, clock.lastDepth, incumbent, t)
            == RunDepth(v, e, g, o, s, legal, clock, clock.lastDepth, incumbent, t).best
  {
    DeepenContinues(v, e, g, o, s, legal, clock, clock.lastDepth, incumbent, t);
  }

  /**
   * Run without interruption, the plain engine's deepening loop from
   * iteration `depth` ends as the loop from its last iteration does, started with the
   * incumbent and table the earlier iterations hand on.
   */
  lemma {:induction false} DeepenReachesLast(e: Engine, g: Game, o: Ordering, s: State, legal: seq<Move>,
                                             clock: Clock, depth: nat, incumbent: Move, t: Table)
    returns (last: Move, table: Table)
    requires 1 <= depth <= clock.lastDepth
    requires Uninterrupted(clock, depth, clock.lastDepth)
    ensures Deepen(Plain, e, g, o, s, legal, clock, depth, incumbent, t)
            == Deepen(Plain, e, g, o, s, legal, clock, clock.lastDepth, last, table)
    decreases clock.lastDepth - depth
  {
    if depth < clock.lastDepth {
      var best, next := DeepenStep(Plain, e, g, o, s, legal, clock, depth, incumbent, t);
      assert Uninterrupted(clock, depth + 1, clock.lastDepth);
      last, table := DeepenReachesLast(e, g, o, s, legal, clock, depth + 1, best, next);
    } else {
      last, table := incumbent, t;
    }
  }

  /** The deepening loop of the plain engine, run to its last iteration, returns that iteration's minimax-best move. */
  lemma PlainDeepenMinimaxBest(e: Engine, g: Game, o: Ordering, s: State, legal: seq<Move>, clock: Clock,
                               depth: nat, incumbent: Move, t: Table)
    requires 1 <= depth <= clock.lastDepth < 1000
    requires Uninterrupted(clock, depth, clock.lastDepth)
    requires KeepsAccepted(g, o, s, legal)
    ensures SomeBetterThanWorst(e, g, s, legal, clock.lastDepth) ==>
              MinimaxBest(e, g, s, legal, clock.lastDepth, Deepen(Plain, e, g, o, s, legal, clock, depth, incumbent, t))
  {
    var last, table := DeepenReachesLast(e, g, o, s, legal, clock, depth, incumbent, t);
    UninterruptedCompletes(Plain, e, g, o, s, legal, clock, depth, clock.lastDepth, clock.lastDepth, last, table);
    DeepenLast(Plain, e, g, o, s, legal, clock, last, table);
    PlainDepthPicksMinimaxBest(e, g, o, s, legal, clock, clock.lastDepth, last, table);
  }

  /**
   * When every iteration up to the last completes, the plain engine's move
   * is an accepted legal move of best minimax value at the last depth,
   * whenever some legal move is better than the worst score.
   */
  lemma PlainBestMoveIsMinimaxBest(e: Engine, g: Game, s: State, clock: Clock)
    requires 1 <= clock.lastDepth < 1000
    requires Uninterrupted(clock, 1, clock.lastDepth)
    ensures var r := GetBestMove(Plain, e, g, s, clock);
      SomeBetterThanWorst(e, g, s, g.legalMoves(s), clock.lastDepth) ==>
        r.Some? && MinimaxBest(e, g, s, g.legalMoves(s), clock.lastDepth, r.value)
  {
    var legal := g.legalMoves(s);
    if |legal| > 0 {
      HeuristicOrderKeepsAccepted(e, g, s, legal);
      PlainDeepenMinimaxBest(e, g, HeuristicOrder(e, g), s, legal, clock, 1, legal[0], map[]);
    }
  }
}
