# Tablut engine in Dafny

A model of the move-selection core of a TablutCompetition client (Ashton
Tablut rules, 9×9 board). It covers three pieces of the Java code.

- **`FastTablutState`**: the flat 81-cell board with its cached king
  position and soldier counts. It validates and applies moves
  (`isPathClear`, `applyMove`, `checkCaptures`), generates moves
  (`generateLegalMoves`), builds a state from a snapshot (`fromState`) and
  computes `hashCode`.
- **`AlphaBetaEngine`**:
  - fail-soft alpha-beta (`maxValue` / `minValue`);
  - the integer side of `evaluateState`;
  - `getMinEscapeDistance`;
  - `sortMovesByHeuristic`;
  - the iterative-deepening driver `getBestMove`.
- **`AlphaBetaEngineCopy`**: the same driver over a search that probes and
  stores a transposition table, orders children heuristically, and scores a
  position without moves as a loss for the side to move.

Everything is a pure function on values:

- A board is a `seq<Cell>` of length 81.
- `applyMove` returns `Applied(ok, state)`: the Java boolean together with
  the receiver's state after the call.
- `clone` is implicit, because states are values.
- The transposition table is a `map<int, Entry>` that the search takes in
  and hands back.

## How the pieces fit

The modules follow the program's structure:

- `Common`: options, min/max, 32-bit wrap-around.
- `Board`: cells, the constants, `fromState`, `equals` / `hashCode`, and the
  cached-field invariant `Inv`.
- `Rules`: `isPathClear`, `applyMove`, `checkCaptures`. The predicate
  `Legal` states the move rules declaratively, as an independent reference
  for `ApplyMove`.
- `RulesFacts`: what a move does to the board, the counts, the king cache
  and the turn.
- `MoveGen`: `generateLegalMoves`.
- `StableSort`: the stable sort that `Collections.sort` performs.
- `Evaluation`: the evaluation, the escape distance and the move ordering.
- `Search`: the plain engine's search.
- `Minimax`: an unpruned reference search, and the proof that the pruned
  search computes it.
- `TableSearch`: the table engine's search.
- `Driver`: `getBestMove` for both engines.

The searches take the board services as a parameter, so every search fact
holds for any pair of a move list and a move application:

- `Game(legalMoves, apply)` is that pair. `Evaluation.Tablut()` instantiates
  it with `GenerateLegalMoves` and `ApplyMove`.
- The table search likewise takes its move ordering as a value of type
  `Ordering`. Such an ordering keeps a non-empty list non-empty and invents
  no move. `Evaluation.HeuristicOrder` instantiates it with
  `SortMovesByHeuristic`.

What the model keeps from the code, even where a textbook engine differs:

- The position key is the recomputed `hashCode` of board and turn. It is
  not an incremental Zobrist hash.
- Neither engine has a quiescence search.
- The board edge is a wall for soldier and for king captures.
- The three-wall king capture applies anywhere on row 4 or column 4,
  including on the throne itself.
- `applyMove` lets the king land on any citadel.
- A root task searches `depth` plies below the root move.
- The table engine's `maxValue` / `minValue` score a position without legal
  moves as a loss for the side to move. The plain engine evaluates it.
- The table engine's store classifies asymmetrically:
  - `maxValue` uses the alpha saved before the probe and the beta after it;
  - `minValue` uses the alpha after the probe and the saved beta.
- `getBestMove` clears the table at the start of every call. `GetBestMove`
  starts every search from the empty map, so no state survives between
  calls.

## Model

Paths are relative to the repository root. `FastTablutState.java` is under
`TablutCompetition/Tablut/src/it/unibo/ai/didattica/competition/tablut/domain/`.
The two engines are under `.../tablut/client/`.

| member | source | states |
|---|---|---|
| Board.UpdateOneCell | TablutCompetition/Tablut/src/it/unibo/ai/didattica/competition/tablut/domain/FastTablutState.java:63-67 | `set` followed by `get`: writing an on-board cell changes that cell and no other |
| Board.CitadelsListed | TablutCompetition/Tablut/src/it/unibo/ai/didattica/competition/tablut/domain/FastTablutState.java:43-48 | the geometric citadel test agrees with the 16-entry `CITADELS` list minus the throne, as `isCitadel` checks it |
| Board.EscapesListed | TablutCompetition/Tablut/src/it/unibo/ai/didattica/competition/tablut/domain/FastTablutState.java:49-54 | the geometric escape test agrees with the 16-entry `ESCAPES` list |
| Board.FromState | TablutCompetition/Tablut/src/it/unibo/ai/didattica/competition/tablut/domain/FastTablutState.java:80-102 | the cells and turn are copied; the soldier counts are the numbers of W and B cells; the king row is -1 iff there is no king, and otherwise the cached square holds the king; with at most one king the cached-field invariant holds |
| Board.HashCode | TablutCompetition/Tablut/src/it/unibo/ai/didattica/competition/tablut/domain/FastTablutState.java:386-392 | the position hash stays in Java's `int` range: `Arrays.hashCode` and the combination with the turn's hash are reduced to 32 bits |
| Board.SamePositionSameHash | TablutCompetition/Tablut/src/it/unibo/ai/didattica/competition/tablut/domain/FastTablutState.java:385-401 | positions that `equals` identifies (same cells, same turn) have the same `hashCode`, whatever their cached fields hold |
| Rules.IsPathClear | TablutCompetition/Tablut/src/it/unibo/ai/didattica/competition/tablut/domain/FastTablutState.java:120-136 | the path is clear iff every cell strictly between origin and destination is passable: E or T for the king; for any other piece, E and not a citadel |
| Rules.ApplyMove | TablutCompetition/Tablut/src/it/unibo/ai/didattica/competition/tablut/domain/FastTablutState.java:142-203 | a move is accepted iff it is `Legal` (straight and non-null, a piece the turn may move, empty destination, throne and citadel rules, clear path); a rejected move leaves board, turn, king cache and counts unchanged |
| Rules.CaptureAt | TablutCompetition/Tablut/src/it/unibo/ai/didattica/competition/tablut/domain/FastTablutState.java:209-280 | one direction of `checkCaptures`: a sandwiched opposing soldier is removed and its colour count decremented; a king whose capture rule fires after a black move is removed, with king row -1 and BLACKWIN; otherwise nothing changes |
| Rules.CheckCaptures | TablutCompetition/Tablut/src/it/unibo/ai/didattica/competition/tablut/domain/FastTablutState.java:205-282 | the turn changes only to BLACKWIN with the king gone; the cached king row is kept or becomes -1 |
| RulesFacts.CheckCapturesFrame | TablutCompetition/Tablut/src/it/unibo/ai/didattica/competition/tablut/domain/FastTablutState.java:205-282 | `checkCaptures` changes no cell other than the four neighbours of the destination |
| RulesFacts.CheckCapturesNeighbours | TablutCompetition/Tablut/src/it/unibo/ai/didattica/competition/tablut/domain/FastTablutState.java:209-280 | each neighbour of the destination becomes empty exactly when its own direction's soldier or king rule fires on the board before any capture, and otherwise keeps its content; the four directions do not interfere |
| RulesFacts.CheckCapturesAt | TablutCompetition/Tablut/src/it/unibo/ai/didattica/competition/tablut/domain/FastTablutState.java:205-282 | any cell after `checkCaptures` is emptied iff it is a neighbour whose capture rule fires, and is unchanged otherwise |
| RulesFacts.CheckCapturesCache | TablutCompetition/Tablut/src/it/unibo/ai/didattica/competition/tablut/domain/FastTablutState.java:237-238 | each captured soldier comes off its colour's count; a captured king sets the king row to -1 and the turn to BLACKWIN; otherwise the king row and the turn are kept |
| RulesFacts.EdgeClosesSoldierCapture | TablutCompetition/Tablut/src/it/unibo/ai/didattica/competition/tablut/domain/FastTablutState.java:218-226 | the board edge closes a soldier capture: a neighbour of the destination in any direction, lying on the edge with nothing beyond it, is taken exactly when it is a soldier of the other side |
| RulesFacts.ThroneKingTakenByThree | TablutCompetition/Tablut/src/it/unibo/ai/didattica/competition/tablut/domain/FastTablutState.java:267-270 | a king on the throne is taken by a black move with three walls, because the three-wall clause covers all of row 4 and column 4, the throne included |
| RulesFacts.SlideCells | TablutCompetition/Tablut/src/it/unibo/ai/didattica/competition/tablut/domain/FastTablutState.java:172-173 | the slide: the origin becomes T if it is the throne and E otherwise, the piece stands on the destination, and every other cell is unchanged |
| RulesFacts.CheckCapturesPreservesInv | TablutCompetition/Tablut/src/it/unibo/ai/didattica/competition/tablut/domain/FastTablutState.java:235-239 | captures keep the counts equal to the W and B cells, and the king cache consistent with the board |
| RulesFacts.ApplyMovePreservesInv | TablutCompetition/Tablut/src/it/unibo/ai/didattica/competition/tablut/domain/FastTablutState.java:172-185 | `applyMove`, accepted or not, keeps the cached-field invariant |
| RulesFacts.ApplyMoveLands | TablutCompetition/Tablut/src/it/unibo/ai/didattica/competition/tablut/domain/FastTablutState.java:173 | after an accepted move the moved piece stands on the destination; no capture removes it |
| RulesFacts.ApplyMoveVacates | TablutCompetition/Tablut/src/it/unibo/ai/didattica/competition/tablut/domain/FastTablutState.java:172 | after an accepted move the origin holds T if it was the throne and E otherwise |
| RulesFacts.ApplyMoveCaptures | TablutCompetition/Tablut/src/it/unibo/ai/didattica/competition/tablut/domain/FastTablutState.java:175-185 | in an accepted move, a king landing on an escape wins for White at once, with no capture; otherwise each neighbour of the destination is removed exactly by its capture rule, read on the board after the slide |
| RulesFacts.TurnAfterMove | TablutCompetition/Tablut/src/it/unibo/ai/didattica/competition/tablut/domain/FastTablutState.java:187-200 | on WHITE's or BLACK's turn an accepted move gives WHITEWIN on escape, BLACKWIN if the king is gone, WHITEWIN if no black soldier is left, and otherwise the other side to move |
| MoveGen.GenRay | TablutCompetition/Tablut/src/it/unibo/ai/didattica/competition/tablut/domain/FastTablutState.java:304-335 | every move a ray lists starts at the scanned piece and is `Legal` |
| MoveGen.GenPiece | TablutCompetition/Tablut/src/it/unibo/ai/didattica/competition/tablut/domain/FastTablutState.java:296-337 | a piece the side to move does not own gives no moves; every move listed for a piece starts on it and is `Legal` |
| MoveGen.GenerateLegalMoves | TablutCompetition/Tablut/src/it/unibo/ai/didattica/competition/tablut/domain/FastTablutState.java:288-342 | every generated move moves a piece of the side to move (W or K on WHITE's turn, B otherwise) in a straight line to an empty cell, and is `Legal` |
| MoveGen.GeneratedAccepted | TablutCompetition/Tablut/src/it/unibo/ai/didattica/competition/tablut/domain/FastTablutState.java:327-333 | soundness: `applyMove` accepts every generated move |
| StableSort.Sort | TablutCompetition/Tablut/src/it/unibo/ai/didattica/competition/tablut/client/AlphaBetaEngine.java:119 | the sort is a permutation of its input |
| StableSort.SortOrdered | TablutCompetition/Tablut/src/it/unibo/ai/didattica/competition/tablut/client/AlphaBetaEngine.java:68-76 | the sorted list is ordered by key: non-increasing when descending, non-decreasing otherwise |
| StableSort.SortStable | TablutCompetition/Tablut/src/it/unibo/ai/didattica/competition/tablut/client/AlphaBetaEngine.java:119 | the sort is stable: for every key, the elements with that key keep their input order |
| Evaluation.Clamp | TablutCompetition/Tablut/src/it/unibo/ai/didattica/competition/tablut/client/AlphaBetaEngine.java:334-335 | the clamp lands in [-50000, 50000] and is the value of that range nearest its input |
| Evaluation.Evaluate | TablutCompetition/Tablut/src/it/unibo/ai/didattica/competition/tablut/client/AlphaBetaEngine.java:315-338 | WHITEWIN scores 100000; BLACKWIN or a missing king scores -100000; any other position scores in [-50000, 50000], strictly between the terminal values, and equals the heuristic when the heuristic is in range |
| Evaluation.MinEscapeDistance | TablutCompetition/Tablut/src/it/unibo/ai/didattica/competition/tablut/client/AlphaBetaEngine.java:306-313 | the result is the Manhattan distance to one of the escapes, and no greater than the distance to any of them |
| Evaluation.Accepted | TablutCompetition/Tablut/src/it/unibo/ai/didattica/competition/tablut/client/AlphaBetaEngine.java:107-115 | a move is scored iff it is in the input and `applyMove` accepts it |
| Evaluation.AcceptedAppend | TablutCompetition/Tablut/src/it/unibo/ai/didattica/competition/tablut/client/AlphaBetaEngine.java:107-115 | the filter distributes over concatenation, so the scored moves keep their generation order |
| Evaluation.SortMovesByHeuristic | TablutCompetition/Tablut/src/it/unibo/ai/didattica/competition/tablut/client/AlphaBetaEngine.java:102-127 | empty input gives an empty list; with no accepted move the input comes back unchanged; otherwise the output is a permutation of the accepted moves, ordered by the successor's evaluation, non-increasing on WHITE's turn and non-decreasing otherwise |
| Evaluation.SortMovesStable | TablutCompetition/Tablut/src/it/unibo/ai/didattica/competition/tablut/client/AlphaBetaEngine.java:119 | moves with equal scores keep their generation order |
| Evaluation.HeuristicOrderKeepsAccepted | TablutCompetition/Tablut/src/it/unibo/ai/didattica/competition/tablut/client/AlphaBetaEngine.java:107-117 | the heuristic ordering drops only moves `applyMove` rejects |
| Search.MaxValue | TablutCompetition/Tablut/src/it/unibo/ai/didattica/competition/tablut/client/AlphaBetaEngine.java:247-270 | WHITEWIN scores MAX_VALUE + depth and BLACKWIN MIN_VALUE - depth; the horizon and a position without moves score the evaluation; every score lies in [MIN_VALUE - depth, MAX_VALUE + depth]; a reported move is an accepted legal move whose score reached beta |
| Search.MaxLoop | TablutCompetition/Tablut/src/it/unibo/ai/didattica/competition/tablut/client/AlphaBetaEngine.java:259-269 | the running maximum only grows; the loop returns a move only on a cutoff at or above beta; without a cutoff the score is below beta or the starting maximum |
| Search.MinValue | TablutCompetition/Tablut/src/it/unibo/ai/didattica/competition/tablut/client/AlphaBetaEngine.java:272-295 | the mirror image of `MaxValue`; a reported move is an accepted legal move whose score fell to alpha or below |
| Search.MinLoop | TablutCompetition/Tablut/src/it/unibo/ai/didattica/competition/tablut/client/AlphaBetaEngine.java:284-294 | the running minimum only falls; the loop returns a move only on a cutoff at or below alpha |
| Minimax.MaxValueFailSoft | TablutCompetition/Tablut/src/it/unibo/ai/didattica/competition/tablut/client/AlphaBetaEngine.java:247-270 | for every window alpha < beta, the `maxValue` score equals the minimax value inside the window, is an upper bound at or below alpha, and a lower bound at or above beta |
| Minimax.MinValueFailSoft | TablutCompetition/Tablut/src/it/unibo/ai/didattica/competition/tablut/client/AlphaBetaEngine.java:272-295 | the same fail-soft agreement for `minValue` |
| Minimax.MaxLoopFailSoft | TablutCompetition/Tablut/src/it/unibo/ai/didattica/competition/tablut/client/AlphaBetaEngine.java:259-269 | the max child loop, with alpha raised after each child and a stop at beta, is fail-soft against the maximum over the accepted children, folded from MIN_VALUE |
| Minimax.MinLoopFailSoft | TablutCompetition/Tablut/src/it/unibo/ai/didattica/competition/tablut/client/AlphaBetaEngine.java:284-294 | the min child loop is fail-soft against the minimum over the accepted children, folded from MAX_VALUE |
| Minimax.SearchEqualsMinimax | TablutCompetition/Tablut/src/it/unibo/ai/didattica/competition/tablut/client/AlphaBetaEngine.java:28-29 | with the initial window (MIN_VALUE - 1000, MAX_VALUE + 1000) and fewer than 1000 plies, `maxValue` and `minValue` return exactly the unpruned minimax value |
| TableSearch.Key | TablutCompetition/Tablut/src/it/unibo/ai/didattica/competition/tablut/client/AlphaBetaEngineCopy.java:271 | the table key is the position's `hashCode` widened to a long, so it lies in the int range |
| TableSearch.Classify | TablutCompetition/Tablut/src/it/unibo/ai/didattica/competition/tablut/client/AlphaBetaEngineCopy.java:328-335 | UPPER_BOUND iff score ≤ lo; LOWER_BOUND iff lo < score and score ≥ hi; EXACT iff strictly inside |
| TableSearch.ProbeTable | TablutCompetition/Tablut/src/it/unibo/ai/didattica/competition/tablut/client/AlphaBetaEngineCopy.java:274-290 | an entry is used only if stored at least as deep as asked, otherwise the window is unchanged; EXACT answers with its score; LOWER_BOUND makes alpha max(alpha, score) and UPPER_BOUND makes beta min(beta, score), and if the window then closes (alpha ≥ beta) the stored score is the answer, otherwise the narrowed window is searched |
| TableSearch.TMaxValue | TablutCompetition/Tablut/src/it/unibo/ai/didattica/competition/tablut/client/AlphaBetaEngineCopy.java:250-340 | terminal, horizon and table-hit answers leave the table unchanged; no moves scores MIN_VALUE - depth; otherwise the move is a legal move taken from the heuristic ordering, the first ordered move when the score stays MIN_VALUE and otherwise an accepted move scoring above it, and the node's own entry holds the returned score at this depth, classified against the pre-probe alpha and the post-probe beta; the table only gains keys |
| TableSearch.TMaxLoop | TablutCompetition/Tablut/src/it/unibo/ai/didattica/competition/tablut/client/AlphaBetaEngineCopy.java:304-325 | the running maximum only grows; while no accepted child scores strictly higher the move stays the one passed in (the first ordered move at the top), and a higher score comes with an accepted move of the list |
| TableSearch.TMinValue | TablutCompetition/Tablut/src/it/unibo/ai/didattica/competition/tablut/client/AlphaBetaEngineCopy.java:342-433 | the mirror image of `TMaxValue`; no moves scores MAX_VALUE + depth; the move is the first ordered move when the score stays MAX_VALUE; the entry is classified against the post-probe alpha and the pre-probe beta |
| TableSearch.TMinLoop | TablutCompetition/Tablut/src/it/unibo/ai/didattica/competition/tablut/client/AlphaBetaEngineCopy.java:393-417 | the running minimum only falls; while no accepted child scores strictly lower the move stays the one passed in, and a lower score comes with an accepted move of the list |
| TableSearch.TMaxValueBounded | TablutCompetition/Tablut/src/it/unibo/ai/didattica/competition/tablut/client/AlphaBetaEngineCopy.java:327-337 | from a table whose entries have depth 1..bound and scores within MIN_VALUE - bound..MAX_VALUE + bound, a search of depth ≤ bound scores within those limits and keeps the table so |
| TableSearch.TMinValueBounded | TablutCompetition/Tablut/src/it/unibo/ai/didattica/competition/tablut/client/AlphaBetaEngineCopy.java:419-430 | the same table invariant for the min side |
| Driver.Collect | TablutCompetition/Tablut/src/it/unibo/ai/didattica/competition/tablut/client/AlphaBetaEngine.java:199-209 | the root merge's result is never worse for the engine's side than its start or any task score; its move is the incumbent or one of the tasks' moves |
| Driver.CollectFirstBest | TablutCompetition/Tablut/src/it/unibo/ai/didattica/competition/tablut/client/AlphaBetaEngine.java:159-160 | the merge keeps the incumbent when no score is strictly better than the start; otherwise it picks the move of the best score, the earliest among equal best scores: its score is strictly better than the start and than every score before it, and no later score is strictly better |
| Driver.RootTask | TablutCompetition/Tablut/src/it/unibo/ai/didattica/competition/tablut/client/AlphaBetaEngine.java:170-181 | a rejected root move scores the engine's worst value; otherwise the plain task is `minValue` (White engine) or `maxValue` from the initial window at the full depth, and leaves the table alone |
| Driver.DepthScores | TablutCompetition/Tablut/src/it/unibo/ai/didattica/competition/tablut/client/AlphaBetaEngine.java:166-184 | one score per ordered root move, the worst value for a rejected one |
| Driver.PlainDepthScores | TablutCompetition/Tablut/src/it/unibo/ai/didattica/competition/tablut/client/AlphaBetaEngine.java:166-184 | in the plain engine every score is its own root task's score, whatever the other tasks did |
| Driver.RunDepth | TablutCompetition/Tablut/src/it/unibo/ai/didattica/competition/tablut/client/AlphaBetaEngine.java:186-229 | an iteration completes iff no task fails; an incomplete one keeps the incumbent; the best move is the incumbent or a legal move |
| Driver.Deepen | TablutCompetition/Tablut/src/it/unibo/ai/didattica/competition/tablut/client/AlphaBetaEngine.java:150-230 | the deepening loop returns the incumbent or a legal move; an interrupted iteration, or running out of iterations, returns the incumbent |
| Driver.GetBestMove | TablutCompetition/Tablut/src/it/unibo/ai/didattica/competition/tablut/client/AlphaBetaEngineCopy.java:133-241 | null iff there are no legal moves; otherwise a legal move, namely the first legal move when no iteration completes |
| Driver.TablutBestMoveAccepted | TablutCompetition/Tablut/src/it/unibo/ai/didattica/competition/tablut/client/AlphaBetaEngine.java:140-147 | on the fast state, either engine's move is a generated, legal move that `applyMove` accepts |
| Driver.PlainTaskIsMinimax | TablutCompetition/Tablut/src/it/unibo/ai/didattica/competition/tablut/client/AlphaBetaEngine.java:176-180 | a plain root task below 1000 plies scores the minimax value of its root move |
| Driver.CollectPicksMinimaxBest | TablutCompetition/Tablut/src/it/unibo/ai/didattica/competition/tablut/client/AlphaBetaEngine.java:196-209 | if the merge is fed the minimax values of all accepted moves, it keeps the incumbent when no move beats the worst value, and otherwise picks an accepted legal move of best minimax value |
| Driver.PlainDepthPicksMinimaxBest | TablutCompetition/Tablut/src/it/unibo/ai/didattica/competition/tablut/client/AlphaBetaEngine.java:164-215 | an uninterrupted iteration of the plain engine completes, and it picks a minimax-best move whenever some legal move beats the worst value |
| Driver.DeepenReachesLast | TablutCompetition/Tablut/src/it/unibo/ai/didattica/competition/tablut/client/AlphaBetaEngine.java:150-230 | when no task fails up to the last depth, the plain deepening loop ends as a loop started at the last depth with the incumbent the earlier iterations hand on |
| Driver.PlainDeepenMinimaxBest | TablutCompetition/Tablut/src/it/unibo/ai/didattica/competition/tablut/client/AlphaBetaEngine.java:152-218 | run without interruption to its last iteration, the deepening loop returns a minimax-best move of that iteration |
| Driver.PlainBestMoveIsMinimaxBest | TablutCompetition/Tablut/src/it/unibo/ai/didattica/competition/tablut/client/AlphaBetaEngine.java:133-241 | if no task fails up to the last depth, the plain engine returns an accepted legal move of best minimax value at that depth, whenever some legal move beats the worst value |

## Left out

- Threads and time. Left out: the executor, `Future.get` with its timeout,
  `future.cancel`, and the `System.currentTimeMillis` checks in
  `getBestMove`, `maxValue` and `minValue`. The parameter `Clock` replaces
  them. It gives the last iteration started before the deadline, and which
  root tasks fail by timing out or raising an exception. A failed task
  discards its iteration, as the `catch` blocks of `AlphaBetaEngine.getBestMove`
  and `AlphaBetaEngineCopy.getBestMove` do.
- The shared `HashMap`. The table engine's root tasks share it
  concurrently. The model threads the table through the tasks one at a
  time, in submission order, which is one possible interleaving.
- Floating point. The weighted score (`evalKingPos`, the weight products,
  `Math.round`) is the uninterpreted `Engine.heuristic`. Only the terminal
  mapping and the clamp are modelled.
- The JVM identity hash of the `Turn` enum, which enters `hashCode`. It is
  the parameter `Engine.turnHash`.
- Position keys are not assumed collision-free.
- `TMaxValue`, `TMinValue`: no equivalence with minimax is claimed for the
  table engine. It reuses entries stored at a greater depth, and distinct
  positions can share a key, so its scores need not be minimax values.
  Instead, the contracts state the probe and store rules, the no-moves
  scores, and the move: taken from the ordering, and the first ordered
  move while no child improves on the starting score.
- `TableSearch.TMaxLoop`, `TableSearch.TMinLoop`: the stop rule is not
  stated. The contracts do not say that the max loop stops exactly when
  the raised alpha reaches beta, or that the min loop stops exactly when
  the minimum falls to alpha. So they do not say which children were
  searched either. Their window depends on the table, and no fail-soft
  agreement like the plain loops' is claimed for them.
- `Action` strings, `getBox` and the `Action` parser. A move is four
  coordinates in 0..8. Actions naming off-board squares are not modelled.
- `getPawn`, `removePawn`, `getBoard` and `byteToPawn`. These are framework
  adapters that the engines do not call.
- `clone`. It copies every field, and states are values in the model, so it
  is implicit. `equals` compares board and turn only (`Board.SamePosition`).
- Completeness of `generateLegalMoves`. It does not hold: a king can cross
  the empty throne under `applyMove`, but generation stops at the throne.
  Only soundness is stated.
- `MinEscapeDistance`: requires |kingR| + |kingC| < 0x3FFF_FFF0, so that the
  Java `int` sums cannot overflow. The engines call it only with on-board
  king coordinates.
- `Driver.PlainBestMoveIsMinimaxBest`: is stated for at most 999
  iterations. Beyond that the initial window no longer contains every
  score.
- The plain engine's unused `transpositionTable` field, and the clearing
  of it.
- `bestScoreAtCurrentDepth` and all console logging.
- `WeightCalibratorGA`, `MyTablutAgent`, `HeuristicWeightsCopy` and
  `AtTimeLimitException`. These are the genetic weight tuner, the network
  client, a weight holder and an unused exception. None is part of the
  search core.
