/**
 * Legal-move generation of the fast state (`generateLegalMoves`): rays
 * scanned outward from every piece of the side to move, stopping at the
 * first square the move rules refuse.
 */
module MoveGen {
  import opened Board
  import opened Rules
  import opened RulesFacts

  /** The soldier kind the generator scans for: W on WHITE's turn, B on every other turn. */
  function OwnSoldier(t: Turn): Cell { if t == White then W else B }

  /** The pieces the generator moves: its own soldiers, plus the king on WHITE's turn. */
  predicate Scanned(t: Turn, pawn: Cell)
  {
    pawn == OwnSoldier(t) || (pawn == K && t == White)
  }

  /**
   * One ray from (r, c) in direction (dr, dc), from the `steps`-th square
   * on. The first refused square ends the ray; every square before it is a
   * move. The refusals are those of
   * `FastTablutState.generateLegalMoves`, in its order.
   */
  function GenRay(s: State, r: Coord, c: Coord, dr: int, dc: int, steps: nat): (ms: seq<Move>)
    requires IsDirection(dr, dc) && steps >= 1
    requires Scanned(s.turn, Get(s, r, c))
    ensures forall m :: m in ms ==> m.fromRow == r && m.fromCol == c && Legal(s, m)
    decreases SIZE - steps
  {
    var pawn := Get(s, r, c);
    var rTo, cTo := r + dr * steps, c + dc * steps;
    if steps >= SIZE then []
    else if !OnBoard(rTo, cTo) then []
    else if steps > 1 && Get(s, rTo, cTo) != E
            && Get(s, r + dr * (steps - 1), c + dc * (steps - 1)) != E then []
    else if Get(s, rTo, cTo) != E then []
    else if IsThrone(rTo, cTo) && pawn != K then []
    else if IsCitadel(rTo, cTo) && pawn != K && !IsCitadel(r, c) then []
    else if IsCitadel(rTo, cTo) && pawn != K && IsCitadel(r, c) && steps > 1 then []
    else
      var m := Move(r, c, rTo, cTo);
      assert Distance(m) == steps;
      if !IsPathClear(s, m, pawn) then []
      else [m] + GenRay(s, r, c, dr, dc, steps + 1)
  }

  /** All moves of the piece at (r, c), directions east, west, south, north; none if the piece is not scanned. */
  function GenPiece(s: State, r: Coord, c: Coord): (ms: seq<Move>)
    ensures forall m :: m in ms ==> m.fromRow == r && m.fromCol == c && Legal(s, m)
    ensures !Scanned(s.turn, Get(s, r, c)) ==> ms == []
  {
    if !Scanned(s.turn, Get(s, r, c)) then []
    else GenRay(s, r, c, 0, 1, 1) + GenRay(s, r, c, 0, -1, 1)
         + GenRay(s, r, c, 1, 0, 1) + GenRay(s, r, c, -1, 0, 1)
  }

  /** Moves of the cells from index `i` on, in row-major order. */
  function GenFrom(s: State, i: nat): (ms: seq<Move>)
    requires i <= 81
    ensures forall m :: m in ms ==> Legal(s, m) && Scanned(s.turn, Get(s, m.fromRow, m.fromCol))
                                    && Index(m.fromRow, m.fromCol) >= i
    decreases 81 - i
  {
    if i == 81 then []
    else GenPiece(s, i / SIZE, i % SIZE) + GenFrom(s, i + 1)
  }

  /**
   * `generateLegalMoves`. Every move it lists moves a piece of the side to
   * move (W or K on WHITE's turn, B otherwise) in a straight line to an
   * empty cell and is one the rules accept.
   */
  function GenerateLegalMoves(s: State): (ms: seq<Move>)
    ensures forall m :: m in ms ==>
      && Legal(s, m)
      && Scanned(s.turn, Get(s, m.fromRow, m.fromCol))
      && Straight(m)
      && Get(s, m.toRow, m.toCol) == E
  {
    GenFrom(s, 0)
  }

  /** Soundness with respect to `applyMove`: every generated move is accepted on a copy of the state. */
  lemma GeneratedAccepted(s: State)
    ensures forall m :: m in GenerateLegalMoves(s) ==> ApplyMove(s, m).ok
  {
  }
}
