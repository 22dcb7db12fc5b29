/**
 * Move validation and application of the fast state: `isPathClear`,
 * `applyMove` and `checkCaptures`.
 */
module Rules {
  import opened Common
  import opened Board

  /** What `applyMove` reports together with the receiver's state after the call. */
  datatype Applied = Applied(ok: bool, state: State)

  // ---------------------------------------------------------------------
  // Path clearance
  // ---------------------------------------------------------------------

  /**
   * Whether a piece may slide across a cell: anything but E and T blocks,
   * T blocks every piece but the king, and so does an empty citadel.
   */
  predicate Passable(cell: Cell, citadel: bool, moving: Cell)
  {
    !(cell != E && cell != T)
    && !(cell == T && moving != K)
    && !(citadel && cell == E && moving != K)
  }

  /** Number of single steps from the origin to the destination of a straight move. */
  function Distance(m: Move): nat
  {
    Abs(m.toRow - m.fromRow) + Abs(m.toCol - m.fromCol)
  }

  function StepRow(m: Move): int { Signum(m.toRow - m.fromRow) }

  function StepCol(m: Move): int { Signum(m.toCol - m.fromCol) }

  /** The `k`-th cell after the origin on the way to the destination is crossable. */
  predicate PathCellOk(s: State, m: Move, k: int, moving: Cell)
  {
    var r, c := m.fromRow + k * StepRow(m), m.fromCol + k * StepCol(m);
    Passable(Get(s, r, c), IsCitadel(r, c), moving)
  }

  /**
   * Reference reading of a clear path, independent of the scan below:
   * a king crosses only E or T cells, any other piece only E cells that
   * are not citadels.
   */
  predicate ClearPath(s: State, m: Move, moving: Cell)
  {
    forall k :: 1 <= k < Distance(m) ==> PathCellOk(s, m, k, moving)
  }

  /** The loop of `isPathClear`, from the `k`-th cell on. */
  function ScanPath(s: State, m: Move, k: nat, moving: Cell): (clear: bool)
    ensures clear <==> forall j :: k <= j < Distance(m) ==> PathCellOk(s, m, j, moving)
    decreases Distance(m) - k
  {
    if k >= Distance(m) then true
    else if !PathCellOk(s, m, k, moving) then false
    else ScanPath(s, m, k + 1, moving)
  }

  /** `isPathClear`: every cell strictly between origin and destination is crossable. */
  function IsPathClear(s: State, m: Move, moving: Cell): (clear: bool)
    ensures clear <==> ClearPath(s, m, moving)
  {
    ScanPath(s, m, 1, moving)
  }

  // ---------------------------------------------------------------------
  // Legality, stated declaratively
  // ---------------------------------------------------------------------

  /** The pieces each turn value lets move: WHITE moves W and K, BLACK moves B; other turns are not checked. */
  function Movable(t: Turn): set<Cell>
  {
    match t
    case White => {W, K}
    case Black => {B}
    case _ => {W, B, K}
  }

  /** Exactly one of the two coordinates changes. */
  predicate Straight(m: Move)
  {
    (m.fromRow == m.toRow) != (m.fromCol == m.toCol)
  }

  /**
   * The rules of a legal move in one place: a straight non-null move of a
   * piece the turn may move, to an empty cell, with a clear path; a piece
   * other than the king never lands on the throne, and lands on a citadel
   * only by a single step from a citadel.
   */
  predicate Legal(s: State, m: Move)
  {
    var piece := Get(s, m.fromRow, m.fromCol);
    && Straight(m)
    && piece in Movable(s.turn)
    && Get(s, m.toRow, m.toCol) == E
    && (piece != K ==> !IsThrone(m.toRow, m.toCol))
    && (piece != K && IsCitadel(m.toRow, m.toCol) ==> IsCitadel(m.fromRow, m.fromCol) && Distance(m) == 1)
    && ClearPath(s, m, piece)
  }

  // ---------------------------------------------------------------------
  // Captures
  // ---------------------------------------------------------------------

  function Opponent(moved: Cell): Cell { if moved == B then W else B }

  /** A cell that closes a soldier capture: off the board, the mover's own type, the king, the throne square, or a citadel. */
  predicate SoldierWall(s: State, r: int, c: int, moved: Cell)
  {
    !OnBoard(r, c) || Get(s, r, c) == moved || Get(s, r, c) == K || IsThrone(r, c) || IsCitadel(r, c)
  }

  /** A side of the king that counts against it: off the board, a black soldier, the throne square, or a citadel. */
  predicate KingWall(s: State, r: int, c: int)
  {
    !OnBoard(r, c) || Get(s, r, c) == B || IsThrone(r, c) || IsCitadel(r, c)
  }

  function WallValue(s: State, r: int, c: int): nat { if KingWall(s, r, c) then 1 else 0 }

  /** Walls around the king at (r, c). */
  function KingWalls(s: State, r: int, c: int): (n: nat)
    ensures n <= 4
  {
    WallValue(s, r, c + 1) + WallValue(s, r, c - 1) + WallValue(s, r + 1, c) + WallValue(s, r - 1, c)
  }

  /** The three-clause capture test of `FastTablutState.checkCaptures` for a king at (r, c) with `walls` walls. */
  predicate KingCaptureRule(r: int, c: int, walls: int)
  {
    (IsThrone(r, c) && walls == 4)
    || (walls >= 3 && (r == 4 || c == 4))
    || walls == 4
  }

  /** Capture of an opposing soldier at (ro, co) seen from (rl, cl), on the state before that direction is handled. */
  predicate SoldierTaken(s: State, rl: int, cl: int, moved: Cell, dr: int, dc: int)
  {
    var ro, co := rl + dr, cl + dc;
    OnBoard(ro, co) && Get(s, ro, co) == Opponent(moved) && SoldierWall(s, ro + dr, co + dc, moved)
  }

  /** Capture of the king at (ro, co): a black soldier moved and enough of its sides are walls. */
  predicate KingTaken(s: State, rl: int, cl: int, moved: Cell, dr: int, dc: int)
  {
    var ro, co := rl + dr, cl + dc;
    OnBoard(ro, co) && Get(s, ro, co) == K && moved == B
    && (KingWalls(s, ro, co) == 4 || (KingWalls(s, ro, co) == 3 && (ro == 4 || co == 4)))
  }

  /** One iteration of the direction loop of `checkCaptures`. */
  function CaptureAt(s: State, rl: int, cl: int, moved: Cell, dr: int, dc: int): (r: State)
    ensures r.turn == s.turn || r.turn == BlackWin
    ensures var ro, co := rl + dr, cl + dc;
      if SoldierTaken(s, rl, cl, moved, dr, dc) then
        && r.board == s.board[Index(ro, co) := E]
        && r.whiteCount == s.whiteCount - (if Opponent(moved) == W then 1 else 0)
        && r.blackCount == s.blackCount - (if Opponent(moved) == B then 1 else 0)
        && r.kingRow == s.kingRow && r.turn == s.turn
      else if KingTaken(s, rl, cl, moved, dr, dc) then
        r == s.(board := s.board[Index(ro, co) := E], kingRow := -1, turn := BlackWin)
      else r == s
  {
    var ro, co := rl + dr, cl + dc;
    if !OnBoard(ro, co) then s
    else if Get(s, ro, co) == Opponent(moved) then
      var rw, cw := ro + dr, co + dc;
      var isWall :=
        if !OnBoard(rw, cw) then true
        else
          var wallPawn := Get(s, rw, cw);
          wallPawn == moved || wallPawn == K || IsThrone(rw, cw) || IsCitadel(rw, cw);
      if isWall then
        var white := if Get(s, ro, co) == W then s.whiteCount - 1 else s.whiteCount;
        var black := if Get(s, ro, co) == B then s.blackCount - 1 else s.blackCount;
        s.(board := s.board[Index(ro, co) := E], whiteCount := white, blackCount := black)
      else s
    else if Get(s, ro, co) == K then
      if moved != B then s
      else
        var walls := KingWalls(s, ro, co);
        if KingCaptureRule(ro, co, walls) then
          s.(board := s.board[Index(ro, co) := E], kingRow := -1, turn := BlackWin)
        else s
    else s
  }

  /** `checkCaptures`: the directions east, west, south, north in turn, each seeing the previous ones' removals. */
  function CheckCaptures(s: State, rl: int, cl: int, moved: Cell): (r: State)
    ensures r.turn == s.turn || (r.turn == BlackWin && r.kingRow == -1)
    ensures r.kingRow == s.kingRow || r.kingRow == -1
  {
    var s1 := CaptureAt(s, rl, cl, moved, 0, 1);
    var s2 := CaptureAt(s1, rl, cl, moved, 0, -1);
    var s3 := CaptureAt(s2, rl, cl, moved, 1, 0);
    CaptureAt(s3, rl, cl, moved, -1, 0)
  }

  // ---------------------------------------------------------------------
  // Move application
  // ---------------------------------------------------------------------

  /** The last phase of `applyMove`: terminal detection, then the turn flip. */
  function Resolve(s: State): State
  {
    var t1 := if s.turn != WhiteWin && s.kingRow == -1 then BlackWin else s.turn;
    var t2 :=
      if t1 != WhiteWin && t1 != BlackWin then
        var t := if s.whiteCount == 0 && s.kingRow == -1 then BlackWin else t1;
        if s.blackCount == 0 then WhiteWin else t
      else t1;
    var t3 :=
      if t2 != WhiteWin && t2 != BlackWin then
        (if t2 == White then Black else if t2 == Black then White else t2)
      else t2;
    s.(turn := t3)
  }

  /** What the origin cell becomes when a piece leaves it. */
  function Vacated(r: int, c: int): Cell { if IsThrone(r, c) then T else E }

  /** The slide phase of `applyMove`: the origin is vacated, the piece lands, and a moving king updates the cached position. */
  function Slide(s: State, m: Move): State
  {
    var pawn := Get(s, m.fromRow, m.fromCol);
    var board := s.board[Index(m.fromRow, m.fromCol) := Vacated(m.fromRow, m.fromCol)]
                        [Index(m.toRow, m.toCol) := pawn];
    if pawn == K then s.(board := board, kingRow := m.toRow, kingCol := m.toCol)
    else s.(board := board)
  }

  /** A king landing on an escape cell ends the game before any capture or turn change. */
  predicate KingEscapes(s: State, m: Move)
  {
    Get(s, m.fromRow, m.fromCol) == K && IsEscape(m.toRow, m.toCol)
  }

  /** The slide, the escape or captures, then terminal detection and turn flip: what `applyMove` does once every check has passed. */
  function Perform(s: State, m: Move): State
  {
    var slid := Slide(s, m);
    if KingEscapes(s, m) then slid.(turn := WhiteWin)
    else Resolve(CheckCaptures(slid, m.toRow, m.toCol, Get(s, m.fromRow, m.fromCol)))
  }

  /**
   * `applyMove`: every rejection happens before the first write, so a
   * rejected move reports false with the state untouched.
   */
  function ApplyMove(s: State, m: Move): (r: Applied)
    ensures !r.ok ==> r.state == s
    ensures r.ok <==> Legal(s, m)
  {
    var rFrom: int, cFrom: int, rTo: int, cTo: int := m.fromRow, m.fromCol, m.toRow, m.toCol;
    var pawn := Get(s, rFrom, cFrom);
    if rFrom == rTo && cFrom == cTo then Applied(false, s)
    else if rFrom != rTo && cFrom != cTo then Applied(false, s)
    else if pawn == E || pawn == T then Applied(false, s)
    else if s.turn == White && pawn != W && pawn != K then Applied(false, s)
    else if s.turn == Black && pawn != B then Applied(false, s)
    else if Get(s, rTo, cTo) != E then Applied(false, s)
    else if IsThrone(rTo, cTo) && pawn != K then Applied(false, s)
    else if IsCitadel(rTo, cTo) && pawn != K && !IsCitadel(rFrom, cFrom) then Applied(false, s)
    else if IsCitadel(rTo, cTo) && pawn != K && IsCitadel(rFrom, cFrom)
            && (Abs(rTo - rFrom) > 1 || Abs(cTo - cFrom) > 1) then Applied(false, s)
    else if !IsPathClear(s, m, pawn) then Applied(false, s)
    else Applied(true, Perform(s, m))
  }
}
