/**
 * The integer side of the engines' static evaluation (`evaluateState`,
 * `getMinEscapeDistance`) and the heuristic move ordering
 * (`sortMovesByHeuristic`), shared by both engines.
 */
module Evaluation {
  import opened Common
  import opened Board
  import opened Rules
  import opened MoveGen
  import StableSort

  const MAX_VALUE: int := 100000
  const MIN_VALUE: int := -100000
  const HEURISTIC_MAX: int := 50000
  const HEURISTIC_MIN: int := -50000
  const INITIAL_ALPHA: int := MIN_VALUE - 1000
  const INITIAL_BETA: int := MAX_VALUE + 1000

  /**
   * An engine: the side it plays, the rounded weighted score of a
   * non-terminal position (computed in floating point from the weight
   * vector, so left uninterpreted), and the hash of each turn value (the
   * JVM identity hash of the enum constant) that enters the position key.
   */
  datatype Engine = Engine(player: Turn, heuristic: State -> int, turnHash: Turn -> int)

  function Gap(a: int, b: int): nat { Abs(a - b) }

  /**
   * The two services the engines ask of the board: the legal-move list and
   * the all-or-nothing move application. The search is stated for any such
   * pair; `Tablut` is the pair of the fast state.
   */
  datatype Game = Game(legalMoves: State -> seq<Move>, apply: (State, Move) -> Applied)

  function Tablut(): Game
  {
    Game(GenerateLegalMoves, ApplyMove)
  }

  /** `Math.min` then `Math.max` against the heuristic bounds: the value of the range nearest the input. */
  function Clamp(x: int): (v: int)
    ensures HEURISTIC_MIN <= v <= HEURISTIC_MAX
    ensures forall y :: HEURISTIC_MIN <= y <= HEURISTIC_MAX ==> Gap(v, x) <= Gap(y, x)
  {
    Max(Min(x, HEURISTIC_MAX), HEURISTIC_MIN)
  }

  /**
   * `evaluateState`: a White win scores `MAX_VALUE`, a Black win or a
   * missing king `MIN_VALUE`, and every other position the heuristic
   * brought into [-50000, 50000], strictly inside the terminal scores.
   */
  function Evaluate(e: Engine, s: State): (v: int)
    ensures s.turn == WhiteWin ==> v == MAX_VALUE
    ensures s.turn != WhiteWin && (s.turn == BlackWin || s.kingRow == -1) ==> v == MIN_VALUE
    ensures s.turn != WhiteWin && s.turn != BlackWin && s.kingRow != -1 ==>
              HEURISTIC_MIN <= v <= HEURISTIC_MAX && MIN_VALUE < v < MAX_VALUE
              && (HEURISTIC_MIN <= e.heuristic(s) <= HEURISTIC_MAX ==> v == e.heuristic(s))
    ensures MIN_VALUE <= v <= MAX_VALUE
  {
    if s.turn == WhiteWin then MAX_VALUE
    else if s.turn == BlackWin then MIN_VALUE
    else if s.kingRow == -1 then MIN_VALUE
    else Clamp(e.heuristic(s))
  }

  /** Manhattan distance from (r, c) to the `i`-th escape cell. */
  function EscapeDistance(r: int, c: int, i: nat): nat
    requires i < |ESCAPES|
  {
    Abs(r - ESCAPES[i].0) + Abs(c - ESCAPES[i].1)
  }

  /**
   * `getMinEscapeDistance`: the running minimum over the escape list,
   * started at `Integer.MAX_VALUE`. The result is the distance to one of the
   * escapes and no greater than the distance to any of them.
   */
  method MinEscapeDistance(kingR: int, kingC: int) returns (d: int)
    requires Abs(kingR) + Abs(kingC) < 0x3FFF_FFF0
    ensures exists i :: 0 <= i < |ESCAPES| && d == EscapeDistance(kingR, kingC, i)
    ensures forall i :: 0 <= i < |ESCAPES| ==> d <= EscapeDistance(kingR, kingC, i)
  {
    d := INT_MAX;
    var i := 0;
    while i < |ESCAPES|
      invariant 0 <= i <= |ESCAPES|
      invariant i > 0 ==> exists j :: 0 <= j < i && d == EscapeDistance(kingR, kingC, j)
      invariant i == 0 ==> d == INT_MAX
      invariant forall j :: 0 <= j < i ==> d <= EscapeDistance(kingR, kingC, j)
    {
      var distance := Abs(kingR - ESCAPES[i].0) + Abs(kingC - ESCAPES[i].1);
      ghost var before := d;
      d := Min(d, distance);
      assert d == distance || d == before;
      assert d == distance ==> d == EscapeDistance(kingR, kingC, i);
      i := i + 1;
    }
  }

  // ---------------------------------------------------------------------
  // Move ordering
  // ---------------------------------------------------------------------

  /** The moves of `moves` that `applyMove` accepts on `s`, in their order. */
  function Accepted(g: Game, s: State, moves: seq<Move>): (acc: seq<Move>)
    ensures forall m :: m in acc <==> m in moves && g.apply(s, m).ok
    ensures |acc| <= |moves|
  {
    if |moves| == 0 then []
    else (if g.apply(s, moves[0]).ok then [moves[0]] else []) + Accepted(g, s, moves[1..])
  }

  /** Filtering distributes over concatenation: the accepted moves keep the order they had in the input. */
  lemma {:induction false} AcceptedAppend(g: Game, s: State, a: seq<Move>, b: seq<Move>)
    ensures Accepted(g, s, a + b) == Accepted(g, s, a) + Accepted(g, s, b)
    decreases |a|
  {
    if |a| > 0 {
      assert (a + b)[1..] == a[1..] + b;
      AcceptedAppend(g, s, a[1..], b);
    } else {
      assert a + b == b;
    }
  }

  /** The score a move is sorted by: the evaluation of the position it leads to. */
  function MoveScore(e: Engine, g: Game, s: State, m: Move): int
  {
    Evaluate(e, g.apply(s, m).state)
  }

  /** `MoveScore` on `s` as a sort key. */
  function ScoreKey(e: Engine, g: Game, s: State): Move -> int
  {
    m => MoveScore(e, g, s, m)
  }

  /**
   * `sortMovesByHeuristic`: an empty input gives an empty list; when no
   * move is accepted the input comes back as it is; otherwise the accepted
   * moves, stably sorted by the score of the position each leads to,
   * best-for-White first on WHITE's turn and lowest first on any other turn.
   */
  function SortMovesByHeuristic(e: Engine, g: Game, s: State, moves: seq<Move>): (r: seq<Move>)
    ensures |moves| == 0 ==> r == []
    ensures |moves| > 0 && Accepted(g, s, moves) == [] ==> r == moves
    ensures Accepted(g, s, moves) != [] ==>
              && multiset(r) == multiset(Accepted(g, s, moves))
              && StableSort.Ordered(r, ScoreKey(e, g, s), s.turn == White)
    ensures forall m :: m in r ==> m in moves
    ensures |moves| > 0 ==> |r| > 0
  {
    if |moves| == 0 then []
    else
      var acc := Accepted(g, s, moves);
      if acc == [] then moves
      else
        StableSort.SortOrdered(acc, ScoreKey(e, g, s), s.turn == White);
        var r := StableSort.Sort(acc, ScoreKey(e, g, s), s.turn == White);
        assert forall m :: m in r ==> m in multiset(acc);
        assert acc[0] in multiset(r);
        r
  }

  /** Moves with equal scores come out in the order they went in. */
  lemma SortMovesStable(e: Engine, g: Game, s: State, moves: seq<Move>, k: int)
    requires Accepted(g, s, moves) != []
    ensures StableSort.WithKey(SortMovesByHeuristic(e, g, s, moves), ScoreKey(e, g, s), k)
            == StableSort.WithKey(Accepted(g, s, moves), ScoreKey(e, g, s), k)
  {
    StableSort.SortStable(Accepted(g, s, moves), ScoreKey(e, g, s), s.turn == White, k);
  }

  /** What the searches rely on in a move ordering: a non-empty list stays non-empty and no move is invented. */
  predicate Reorders(r: seq<Move>, moves: seq<Move>)
  {
    (|moves| > 0 ==> |r| > 0) && forall m :: m in r ==> m in moves
  }

  /** A move ordering used inside the search, one list of moves of a position at a time. */
  type Ordering = f: (State, seq<Move>) -> seq<Move> | forall s, ms :: Reorders(f(s, ms), ms)
    witness (s: State, ms: seq<Move>) => ms

  /** The ordering of the table engine: `sortMovesByHeuristic` with the engine's evaluation. */
  function HeuristicOrder(e: Engine, g: Game): Ordering
  {
    (s: State, ms: seq<Move>) => SortMovesByHeuristic(e, g, s, ms)
  }

  /** Every move of `moves` that `applyMove` accepts survives the ordering. */
  predicate KeepsAccepted(g: Game, o: Ordering, s: State, moves: seq<Move>)
  {
    forall m :: m in moves && g.apply(s, m).ok ==> m in o(s, moves)
  }

  /** The heuristic ordering drops only moves `applyMove` rejects. */
  lemma HeuristicOrderKeepsAccepted(e: Engine, g: Game, s: State, moves: seq<Move>)
    ensures KeepsAccepted(g, HeuristicOrder(e, g), s, moves)
  {
    forall m | m in moves && g.apply(s, m).ok
      ensures m in SortMovesByHeuristic(e, g, s, moves)
    {
      assert m in Accepted(g, s, moves);
      assert m in multiset(Accepted(g, s, moves));
    }
  }
}
