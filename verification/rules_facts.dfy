/**
 * What an accepted move does to the position: the captures of the four
 * directions are independent of each other, the cached fields stay
 * consistent with the board, and the turn moves on as `FastTablutState.applyMove`
 * resolves it.
 */
module RulesFacts {
  import opened Common
  import opened Board
  import opened Rules

  /** The piece at (dr, dc) from (rl, cl) is removed by the direction loop. */
  predicate Taken(s: State, rl: int, cl: int, moved: Cell, dr: int, dc: int)
  {
    SoldierTaken(s, rl, cl, moved, dr, dc) || KingTaken(s, rl, cl, moved, dr, dc)
  }

  predicate IsDirection(dr: int, dc: int)
  {
    (dr, dc) == (0, 1) || (dr, dc) == (0, -1) || (dr, dc) == (1, 0) || (dr, dc) == (-1, 0)
  }

  /** Two states whose boards agree everywhere but at (x0, y0). */
  ghost predicate AgreeExcept(s: State, t: State, x0: int, y0: int)
  {
    forall x, y :: (x, y) != (x0, y0) ==> Get(t, x, y) == Get(s, x, y)
  }

  /** Number of directions in which a soldier is captured. */
  function SoldierCaptures(s: State, rl: int, cl: int, moved: Cell): nat
  {
    (if SoldierTaken(s, rl, cl, moved, 0, 1) then 1 else 0)
    + (if SoldierTaken(s, rl, cl, moved, 0, -1) then 1 else 0)
    + (if SoldierTaken(s, rl, cl, moved, 1, 0) then 1 else 0)
    + (if SoldierTaken(s, rl, cl, moved, -1, 0) then 1 else 0)
  }

  predicate KingCaptured(s: State, rl: int, cl: int, moved: Cell)
  {
    KingTaken(s, rl, cl, moved, 0, 1) || KingTaken(s, rl, cl, moved, 0, -1)
    || KingTaken(s, rl, cl, moved, 1, 0) || KingTaken(s, rl, cl, moved, -1, 0)
  }

  /** A single direction step changes at most the neighbour it looks at. */
  lemma CaptureAtBoard(s: State, rl: int, cl: int, moved: Cell, dr: int, dc: int)
    ensures var t := CaptureAt(s, rl, cl, moved, dr, dc);
      && AgreeExcept(s, t, rl + dr, cl + dc)
      && Get(t, rl + dr, cl + dc) == (if Taken(s, rl, cl, moved, dr, dc) then E else Get(s, rl + dr, cl + dc))
  {
    var t := CaptureAt(s, rl, cl, moved, dr, dc);
    if Taken(s, rl, cl, moved, dr, dc) {
      UpdateOneCell(s, rl + dr, cl + dc, E, t);
    }
  }

  /** A single direction step adjusts the cache to match what it removed. */
  lemma CaptureAtCache(s: State, rl: int, cl: int, moved: Cell, dr: int, dc: int)
    ensures var t := CaptureAt(s, rl, cl, moved, dr, dc);
      && t.whiteCount == s.whiteCount - (if SoldierTaken(s, rl, cl, moved, dr, dc) && Opponent(moved) == W then 1 else 0)
      && t.blackCount == s.blackCount - (if SoldierTaken(s, rl, cl, moved, dr, dc) && Opponent(moved) == B then 1 else 0)
      && t.kingRow == (if KingTaken(s, rl, cl, moved, dr, dc) then -1 else s.kingRow)
      && t.turn == (if KingTaken(s, rl, cl, moved, dr, dc) then BlackWin else s.turn)
  {
  }

  /** The capture decisions of one direction depend only on the six cells that direction reads. */
  lemma SameReadsSameDecision(s: State, t: State, rl: int, cl: int, moved: Cell, dr: int, dc: int)
    requires var ro, co := rl + dr, cl + dc;
      && Get(t, ro, co) == Get(s, ro, co)
      && Get(t, ro + dr, co + dc) == Get(s, ro + dr, co + dc)
      && Get(t, ro, co + 1) == Get(s, ro, co + 1)
      && Get(t, ro, co - 1) == Get(s, ro, co - 1)
      && Get(t, ro + 1, co) == Get(s, ro + 1, co)
      && Get(t, ro - 1, co) == Get(s, ro - 1, co)
    ensures SoldierTaken(t, rl, cl, moved, dr, dc) == SoldierTaken(s, rl, cl, moved, dr, dc)
    ensures KingTaken(t, rl, cl, moved, dr, dc) == KingTaken(s, rl, cl, moved, dr, dc)
  {
    var ro, co := rl + dr, cl + dc;
    SameCellSameWall(s, t, ro + dr, co + dc, moved);
    SameCellSameWall(s, t, ro, co + 1, moved);
    SameCellSameWall(s, t, ro, co - 1, moved);
    SameCellSameWall(s, t, ro + 1, co, moved);
    SameCellSameWall(s, t, ro - 1, co, moved);
    assert KingWalls(t, ro, co) == KingWalls(s, ro, co);
  }

  /** Whether a square is a wall depends only on what stands on it. */
  lemma SameCellSameWall(s: State, t: State, r: int, c: int, moved: Cell)
    requires Get(t, r, c) == Get(s, r, c)
    ensures WallValue(t, r, c) == WallValue(s, r, c)
    ensures SoldierWall(t, r, c, moved) == SoldierWall(s, r, c, moved)
  {
  }

  /**
   * A change at one neighbour of the destination does not alter what another
   * direction sees: that direction reads its own neighbour, the cell beyond,
   * and the king's sides, all at distance 0 or 2 from the destination.
   */
  lemma OtherDirectionUnaffected(s: State, t: State, x0: int, y0: int,
                                 rl: int, cl: int, moved: Cell, dr: int, dc: int)
    requires AgreeExcept(s, t, x0, y0)
    requires IsDirection(x0 - rl, y0 - cl)
    requires IsDirection(dr, dc) && (x0, y0) != (rl + dr, cl + dc)
    ensures SoldierTaken(t, rl, cl, moved, dr, dc) == SoldierTaken(s, rl, cl, moved, dr, dc)
    ensures KingTaken(t, rl, cl, moved, dr, dc) == KingTaken(s, rl, cl, moved, dr, dc)
    ensures Get(t, rl + dr, cl + dc) == Get(s, rl + dr, cl + dc)
  {
    var ro, co := rl + dr, cl + dc;
    assert (ro + dr, co + dc) != (x0, y0);
    assert (ro, co + 1) != (x0, y0) && (ro, co - 1) != (x0, y0);
    assert (ro + 1, co) != (x0, y0) && (ro - 1, co) != (x0, y0);
    SameReadsSameDecision(s, t, rl, cl, moved, dr, dc);
  }

  /** A step in one direction leaves what every other direction decides and reads unchanged. */
  lemma StepKeepsOthers(s: State, rl: int, cl: int, moved: Cell, er: int, ec: int, dr: int, dc: int)
    requires IsDirection(er, ec) && IsDirection(dr, dc) && (er, ec) != (dr, dc)
    ensures var t := CaptureAt(s, rl, cl, moved, er, ec);
      && SoldierTaken(t, rl, cl, moved, dr, dc) == SoldierTaken(s, rl, cl, moved, dr, dc)
      && KingTaken(t, rl, cl, moved, dr, dc) == KingTaken(s, rl, cl, moved, dr, dc)
      && Get(t, rl + dr, cl + dc) == Get(s, rl + dr, cl + dc)
  {
    var t := CaptureAt(s, rl, cl, moved, er, ec);
    CaptureAtBoard(s, rl, cl, moved, er, ec);
    OtherDirectionUnaffected(s, t, rl + er, cl + ec, rl, cl, moved, dr, dc);
  }

  /** The four steps of `checkCaptures` and what each sees, named for the lemmas below. */
  lemma {:induction false} CaptureSteps(s: State, rl: int, cl: int, moved: Cell)
    returns (s1: State, s2: State, s3: State)
    ensures s1 == CaptureAt(s, rl, cl, moved, 0, 1)
    ensures s2 == CaptureAt(s1, rl, cl, moved, 0, -1)
    ensures s3 == CaptureAt(s2, rl, cl, moved, 1, 0)
    ensures CheckCaptures(s, rl, cl, moved) == CaptureAt(s3, rl, cl, moved, -1, 0)
    ensures SoldierTaken(s1, rl, cl, moved, 0, -1) == SoldierTaken(s, rl, cl, moved, 0, -1)
    ensures KingTaken(s1, rl, cl, moved, 0, -1) == KingTaken(s, rl, cl, moved, 0, -1)
    ensures SoldierTaken(s2, rl, cl, moved, 1, 0) == SoldierTaken(s, rl, cl, moved, 1, 0)
    ensures KingTaken(s2, rl, cl, moved, 1, 0) == KingTaken(s, rl, cl, moved, 1, 0)
    ensures SoldierTaken(s3, rl, cl, moved, -1, 0) == SoldierTaken(s, rl, cl, moved, -1, 0)
    ensures KingTaken(s3, rl, cl, moved, -1, 0) == KingTaken(s, rl, cl, moved, -1, 0)
    ensures Get(s1, rl, cl - 1) == Get(s, rl, cl - 1)
    ensures Get(s2, rl + 1, cl) == Get(s, rl + 1, cl)
    ensures Get(s3, rl - 1, cl) == Get(s, rl - 1, cl)
  {
    s1 := CaptureAt(s, rl, cl, moved, 0, 1);
    s2 := CaptureAt(s1, rl, cl, moved, 0, -1);
    s3 := CaptureAt(s2, rl, cl, moved, 1, 0);
    StepKeepsOthers(s, rl, cl, moved, 0, 1, 0, -1);
    StepKeepsOthers(s, rl, cl, moved, 0, 1, 1, 0);
    StepKeepsOthers(s, rl, cl, moved, 0, 1, -1, 0);
    StepKeepsOthers(s1, rl, cl, moved, 0, -1, 1, 0);
    StepKeepsOthers(s1, rl, cl, moved, 0, -1, -1, 0);
    StepKeepsOthers(s2, rl, cl, moved, 1, 0, -1, 0);
  }

  /** `checkCaptures` read at a cell that is not a neighbour of the destination: unchanged. */
  lemma CheckCapturesFrameAt(s: State, rl: int, cl: int, moved: Cell, x: int, y: int)
    requires !IsDirection(x - rl, y - cl)
    ensures Get(CheckCaptures(s, rl, cl, moved), x, y) == Get(s, x, y)
  {
    var s1 := CaptureAt(s, rl, cl, moved, 0, 1);
    var s2 := CaptureAt(s1, rl, cl, moved, 0, -1);
    var s3 := CaptureAt(s2, rl, cl, moved, 1, 0);
    assert (x, y) != (rl, cl + 1) && (x, y) != (rl, cl - 1);
    assert (x, y) != (rl + 1, cl) && (x, y) != (rl - 1, cl);
    CaptureAtBoard(s, rl, cl, moved, 0, 1);
    CaptureAtBoard(s1, rl, cl, moved, 0, -1);
    CaptureAtBoard(s2, rl, cl, moved, 1, 0);
    CaptureAtBoard(s3, rl, cl, moved, -1, 0);
  }

  /** `checkCaptures` touches no cell but the four neighbours of the destination. */
  lemma CheckCapturesFrame(s: State, rl: int, cl: int, moved: Cell)
    ensures var r := CheckCaptures(s, rl, cl, moved);
      forall x, y :: !IsDirection(x - rl, y - cl) ==> Get(r, x, y) == Get(s, x, y)
  {
    forall x, y | !IsDirection(x - rl, y - cl)
      ensures Get(CheckCaptures(s, rl, cl, moved), x, y) == Get(s, x, y)
    {
      CheckCapturesFrameAt(s, rl, cl, moved, x, y);
    }
  }

  /** The east neighbour is decided by the first step and kept by the other three. */
  lemma CheckCapturesEast(s: State, rl: int, cl: int, moved: Cell)
    ensures Get(CheckCaptures(s, rl, cl, moved), rl, cl + 1)
            == (if Taken(s, rl, cl, moved, 0, 1) then E else Get(s, rl, cl + 1))
  {
    var s1 := CaptureAt(s, rl, cl, moved, 0, 1);
    var s2 := CaptureAt(s1, rl, cl, moved, 0, -1);
    var s3 := CaptureAt(s2, rl, cl, moved, 1, 0);
    CaptureAtBoard(s, rl, cl, moved, 0, 1);
    StepKeepsOthers(s1, rl, cl, moved, 0, -1, 0, 1);
    StepKeepsOthers(s2, rl, cl, moved, 1, 0, 0, 1);
    StepKeepsOthers(s3, rl, cl, moved, -1, 0, 0, 1);
  }

  /** The west neighbour is decided by the second step, on what the first left unchanged. */
  lemma CheckCapturesWest(s: State, rl: int, cl: int, moved: Cell)
    ensures Get(CheckCaptures(s, rl, cl, moved), rl, cl - 1)
            == (if Taken(s, rl, cl, moved, 0, -1) then E else Get(s, rl, cl - 1))
  {
    var s1 := CaptureAt(s, rl, cl, moved, 0, 1);
    var s2 := CaptureAt(s1, rl, cl, moved, 0, -1);
    var s3 := CaptureAt(s2, rl, cl, moved, 1, 0);
    StepKeepsOthers(s, rl, cl, moved, 0, 1, 0, -1);
    CaptureAtBoard(s1, rl, cl, moved, 0, -1);
    StepKeepsOthers(s2, rl, cl, moved, 1, 0, 0, -1);
    StepKeepsOthers(s3, rl, cl, moved, -1, 0, 0, -1);
  }

  /** The south neighbour is decided by the third step. */
  lemma CheckCapturesSouth(s: State, rl: int, cl: int, moved: Cell)
    ensures Get(CheckCaptures(s, rl, cl, moved), rl + 1, cl)
            == (if Taken(s, rl, cl, moved, 1, 0) then E else Get(s, rl + 1, cl))
  {
    var s1 := CaptureAt(s, rl, cl, moved, 0, 1);
    var s2 := CaptureAt(s1, rl, cl, moved, 0, -1);
    var s3 := CaptureAt(s2, rl, cl, moved, 1, 0);
    StepKeepsOthers(s, rl, cl, moved, 0, 1, 1, 0);
    StepKeepsOthers(s1, rl, cl, moved, 0, -1, 1, 0);
    CaptureAtBoard(s2, rl, cl, moved, 1, 0);
    StepKeepsOthers(s3, rl, cl, moved, -1, 0, 1, 0);
  }

  /** The north neighbour is decided by the last step. */
  lemma CheckCapturesNorth(s: State, rl: int, cl: int, moved: Cell)
    ensures Get(CheckCaptures(s, rl, cl, moved), rl - 1, cl)
            == (if Taken(s, rl, cl, moved, -1, 0) then E else Get(s, rl - 1, cl))
  {
    var s1 := CaptureAt(s, rl, cl, moved, 0, 1);
    var s2 := CaptureAt(s1, rl, cl, moved, 0, -1);
    var s3 := CaptureAt(s2, rl, cl, moved, 1, 0);
    StepKeepsOthers(s, rl, cl, moved, 0, 1, -1, 0);
    StepKeepsOthers(s1, rl, cl, moved, 0, -1, -1, 0);
    StepKeepsOthers(s2, rl, cl, moved, 1, 0, -1, 0);
    CaptureAtBoard(s3, rl, cl, moved, -1, 0);
  }

  /**
   * `checkCaptures` on the neighbours: each neighbour of the destination is
   * removed exactly when its own direction's rule fires on the board as it
   * was before any capture.
   */
  lemma CheckCapturesNeighbours(s: State, rl: int, cl: int, moved: Cell)
    ensures var r := CheckCaptures(s, rl, cl, moved);
      forall dr, dc :: IsDirection(dr, dc) ==>
        Get(r, rl + dr, cl + dc) == (if Taken(s, rl, cl, moved, dr, dc) then E else Get(s, rl + dr, cl + dc))
  {
    var r := CheckCaptures(s, rl, cl, moved);
    forall dr, dc | IsDirection(dr, dc)
      ensures Get(r, rl + dr, cl + dc) == (if Taken(s, rl, cl, moved, dr, dc) then E else Get(s, rl + dr, cl + dc))
    {
      if (dr, dc) == (0, 1) {
        CheckCapturesEast(s, rl, cl, moved);
      } else if (dr, dc) == (0, -1) {
        CheckCapturesWest(s, rl, cl, moved);
      } else if (dr, dc) == (1, 0) {
        CheckCapturesSouth(s, rl, cl, moved);
      } else {
        CheckCapturesNorth(s, rl, cl, moved);
      }
    }
  }

  /**
   * `checkCaptures` on the cache: each captured soldier comes off its
   * colour's count, and a captured king clears the cached row and hands
   * the game to Black.
   */
  lemma {:induction false} CheckCapturesCache(s: State, rl: int, cl: int, moved: Cell)
    ensures var r := CheckCaptures(s, rl, cl, moved);
      && r.whiteCount == s.whiteCount - (if Opponent(moved) == W then SoldierCaptures(s, rl, cl, moved) else 0)
      && r.blackCount == s.blackCount - (if Opponent(moved) == B then SoldierCaptures(s, rl, cl, moved) else 0)
      && r.kingRow == (if KingCaptured(s, rl, cl, moved) then -1 else s.kingRow)
      && r.turn == (if KingCaptured(s, rl, cl, moved) then BlackWin else s.turn)
  {
    var s1, s2, s3 := CaptureSteps(s, rl, cl, moved);
    CaptureAtCache(s, rl, cl, moved, 0, 1);
    CaptureAtCache(s1, rl, cl, moved, 0, -1);
    CaptureAtCache(s2, rl, cl, moved, 1, 0);
    CaptureAtCache(s3, rl, cl, moved, -1, 0);
  }

  /** The slide on the board: the origin is vacated, the piece lands, nothing else moves. */
  lemma SlideCells(s: State, m: Move)
    requires Straight(m)
    ensures var t, pawn := Slide(s, m), Get(s, m.fromRow, m.fromCol);
      && Get(t, m.fromRow, m.fromCol) == Vacated(m.fromRow, m.fromCol)
      && Get(t, m.toRow, m.toCol) == pawn
      && forall x, y :: (x, y) != (m.fromRow, m.fromCol) && (x, y) != (m.toRow, m.toCol) ==> Get(t, x, y) == Get(s, x, y)
  {
    var pawn := Get(s, m.fromRow, m.fromCol);
    var mid := s.(board := s.board[Index(m.fromRow, m.fromCol) := Vacated(m.fromRow, m.fromCol)]);
    var t := Slide(s, m);
    UpdateOneCell(s, m.fromRow, m.fromCol, Vacated(m.fromRow, m.fromCol), mid);
    UpdateOneCell(mid, m.toRow, m.toCol, pawn, t);
  }

  /** The slide keeps the number of each soldier colour and of kings. */
  lemma SlideCounts(s: State, m: Move, x: Cell)
    requires Straight(m) && Get(s, m.toRow, m.toCol) == E && x != T && x != E
    ensures CountOf(Slide(s, m).board, x) == CountOf(s.board, x)
  {
    var pawn := Get(s, m.fromRow, m.fromCol);
    var from, to := Index(m.fromRow, m.fromCol), Index(m.toRow, m.toCol);
    var b1 := s.board[from := Vacated(m.fromRow, m.fromCol)];
    assert from != to;
    CountAfterUpdate(s.board, from, Vacated(m.fromRow, m.fromCol), x);
    CountAfterUpdate(b1, to, pawn, x);
  }

  /** The board after the slide still satisfies the invariant. */
  lemma SlidePreservesInv(s: State, m: Move)
    requires Inv(s) && Legal(s, m)
    ensures Inv(Slide(s, m))
  {
    var t := Slide(s, m);
    SlideCounts(s, m, W);
    SlideCounts(s, m, B);
    SlideCounts(s, m, K);
    OccursIffCounted(t.board, K);
    OccursIffCounted(s.board, K);
    SlideCells(s, m);
  }

  /** One direction step keeps the counts and the king cache consistent. */
  lemma CaptureAtPreservesInv(s: State, rl: int, cl: int, moved: Cell, dr: int, dc: int)
    requires Inv(s)
    ensures Inv(CaptureAt(s, rl, cl, moved, dr, dc))
  {
    var t := CaptureAt(s, rl, cl, moved, dr, dc);
    var ro, co := rl + dr, cl + dc;
    if SoldierTaken(s, rl, cl, moved, dr, dc) {
      var i := Index(ro, co);
      assert multiset(t.board) == multiset(s.board) - multiset{s.board[i]} + multiset{E};
      assert CountOf(t.board, K) == CountOf(s.board, K);
      assert K in t.board <==> K in s.board by {
        assert K in t.board <==> multiset(t.board)[K] > 0;
        assert K in s.board <==> multiset(s.board)[K] > 0;
      }
      if s.kingRow != -1 {
        assert Index(s.kingRow, s.kingCol) != i;
      }
    } else if KingTaken(s, rl, cl, moved, dr, dc) {
      var i := Index(ro, co);
      assert multiset(t.board) == multiset(s.board) - multiset{K} + multiset{E};
      assert multiset(t.board)[K] == 0;
    }
  }

  lemma CheckCapturesPreservesInv(s: State, rl: int, cl: int, moved: Cell)
    requires Inv(s)
    ensures Inv(CheckCaptures(s, rl, cl, moved))
  {
    var s1 := CaptureAt(s, rl, cl, moved, 0, 1);
    var s2 := CaptureAt(s1, rl, cl, moved, 0, -1);
    var s3 := CaptureAt(s2, rl, cl, moved, 1, 0);
    CaptureAtPreservesInv(s, rl, cl, moved, 0, 1);
    CaptureAtPreservesInv(s1, rl, cl, moved, 0, -1);
    CaptureAtPreservesInv(s2, rl, cl, moved, 1, 0);
    CaptureAtPreservesInv(s3, rl, cl, moved, -1, 0);
  }

  /**
   * The cached-field invariant survives every call of `applyMove`: counts
   * equal the numbers of W and B cells, and the cached king row is -1
   * exactly when the king is gone, otherwise it points at the king.
   */
  lemma ApplyMovePreservesInv(s: State, m: Move)
    requires Inv(s)
    ensures Inv(ApplyMove(s, m).state)
  {
    if ApplyMove(s, m).ok {
      SlidePreservesInv(s, m);
      if !KingEscapes(s, m) {
        CheckCapturesPreservesInv(Slide(s, m), m.toRow, m.toCol, Get(s, m.fromRow, m.fromCol));
      }
    }
  }

  /** After an accepted move the moved piece stands on the destination: captures never touch it. */
  lemma ApplyMoveLands(s: State, m: Move)
    requires ApplyMove(s, m).ok
    ensures Get(ApplyMove(s, m).state, m.toRow, m.toCol) == Get(s, m.fromRow, m.fromCol)
  {
    assert ApplyMove(s, m).state == Perform(s, m) && Straight(m);
    PerformLands(s, m);
  }

  lemma PerformLands(s: State, m: Move)
    requires Straight(m)
    ensures Get(Perform(s, m), m.toRow, m.toCol) == Get(s, m.fromRow, m.fromCol)
  {
    var pawn := Get(s, m.fromRow, m.fromCol);
    var slid := Slide(s, m);
    SlideCells(s, m);
    if KingEscapes(s, m) {
      assert Perform(s, m).board == slid.board;
    } else {
      var captured := CheckCaptures(slid, m.toRow, m.toCol, pawn);
      CheckCapturesAt(slid, m.toRow, m.toCol, pawn, m.toRow, m.toCol);
      assert Perform(s, m).board == captured.board;
    }
  }

  /** A cell holding nothing capturable is never taken. */
  lemma EmptyNotTaken(s: State, rl: int, cl: int, moved: Cell, dr: int, dc: int)
    requires Get(s, rl + dr, cl + dc) == E || Get(s, rl + dr, cl + dc) == T
    ensures !Taken(s, rl, cl, moved, dr, dc)
  {
  }

  /** `checkCaptures` read at one cell: only a neighbour whose rule fires changes, and it becomes empty. */
  lemma CheckCapturesAt(s: State, rl: int, cl: int, moved: Cell, x: int, y: int)
    ensures Get(CheckCaptures(s, rl, cl, moved), x, y)
            == (if IsDirection(x - rl, y - cl) && Taken(s, rl, cl, moved, x - rl, y - cl) then E else Get(s, x, y))
  {
    if IsDirection(x - rl, y - cl) {
      CheckCapturesNeighbours(s, rl, cl, moved);
      assert (rl + (x - rl), cl + (y - cl)) == (x, y);
    } else {
      CheckCapturesFrame(s, rl, cl, moved);
    }
  }

  /** After an accepted move the origin holds T if it is the throne and E otherwise: an emptied cell is never captured. */
  lemma ApplyMoveVacates(s: State, m: Move)
    requires ApplyMove(s, m).ok
    ensures Get(ApplyMove(s, m).state, m.fromRow, m.fromCol) == Vacated(m.fromRow, m.fromCol)
  {
    assert ApplyMove(s, m).state == Perform(s, m) && Straight(m);
    PerformVacates(s, m);
  }

  lemma PerformVacates(s: State, m: Move)
    requires Straight(m)
    ensures Get(Perform(s, m), m.fromRow, m.fromCol) == Vacated(m.fromRow, m.fromCol)
  {
    var pawn := Get(s, m.fromRow, m.fromCol);
    var slid := Slide(s, m);
    SlideCells(s, m);
    if !KingEscapes(s, m) {
      CheckCapturesAt(slid, m.toRow, m.toCol, pawn, m.fromRow, m.fromCol);
      EmptyNotTaken(slid, m.toRow, m.toCol, pawn, m.fromRow - m.toRow, m.fromCol - m.toCol);
    }
  }

  /**
   * An accepted move around the destination: a king on an escape cell wins
   * at once with no capture, and otherwise each neighbour of the destination
   * is removed exactly by its capture rule, read on the board after the slide.
   */
  lemma ApplyMoveCaptures(s: State, m: Move)
    requires ApplyMove(s, m).ok
    ensures var r, pawn := ApplyMove(s, m).state, Get(s, m.fromRow, m.fromCol);
      && (KingEscapes(s, m) ==> r.turn == WhiteWin && r.board == Slide(s, m).board)
      && (!KingEscapes(s, m) ==>
            forall dr, dc :: IsDirection(dr, dc) ==>
              Get(r, m.toRow + dr, m.toCol + dc) ==
                (if Taken(Slide(s, m), m.toRow, m.toCol, pawn, dr, dc) then E
                 else Get(Slide(s, m), m.toRow + dr, m.toCol + dc)))
  {
    assert ApplyMove(s, m).state == Perform(s, m);
    PerformCaptures(s, m);
  }

  lemma PerformCaptures(s: State, m: Move)
    ensures var r, pawn := Perform(s, m), Get(s, m.fromRow, m.fromCol);
      && (KingEscapes(s, m) ==> r.turn == WhiteWin && r.board == Slide(s, m).board)
      && (!KingEscapes(s, m) ==>
            forall dr, dc :: IsDirection(dr, dc) ==>
              Get(r, m.toRow + dr, m.toCol + dc) ==
                (if Taken(Slide(s, m), m.toRow, m.toCol, pawn, dr, dc) then E
                 else Get(Slide(s, m), m.toRow + dr, m.toCol + dc)))
  {
    if !KingEscapes(s, m) {
      CheckCapturesNeighbours(Slide(s, m), m.toRow, m.toCol, Get(s, m.fromRow, m.fromCol));
    }
  }

  /**
   * Turn transitions of an accepted move made on WHITE's or BLACK's turn:
   * an escaping king wins for White; otherwise a missing king means Black
   * has won, no black soldiers left means White has won, and in every other
   * case the turn passes to the other side.
   */
  lemma TurnAfterMove(s: State, m: Move)
    requires ApplyMove(s, m).ok && (s.turn == White || s.turn == Black)
    ensures var r := ApplyMove(s, m).state;
      r.turn == (if KingEscapes(s, m) then WhiteWin
                 else if r.kingRow == -1 then BlackWin
                 else if r.blackCount == 0 then WhiteWin
                 else if s.turn == White then Black
                 else White)
  {
  }

  /**
   * The board edge closes a soldier capture: a neighbour of the
   * destination that lies on the edge, with nothing beyond it, is taken
   * exactly when it is a soldier of the other side.
   */
  lemma EdgeClosesSoldierCapture(s: State, rl: int, cl: int, moved: Cell, dr: int, dc: int)
    requires IsDirection(dr, dc)
    requires OnBoard(rl + dr, cl + dc) && !OnBoard(rl + 2 * dr, cl + 2 * dc)
    ensures SoldierTaken(s, rl, cl, moved, dr, dc) <==> Get(s, rl + dr, cl + dc) == Opponent(moved)
  {
  }

  /**
   * Three walls suffice on the throne itself: a king on the throne with
   * black soldiers north, south and west is taken by a black move even
   * though its east side is open.
   */
  lemma ThroneKingTakenByThree(s: State)
    requires Get(s, 4, 4) == K && Get(s, 3, 4) == B && Get(s, 5, 4) == B && Get(s, 4, 3) == B && Get(s, 4, 5) == E
    ensures KingTaken(s, 3, 4, B, 1, 0)
  {
  }
}
