/**
 * The position of an Ashton Tablut game as the fast state keeps it: a flat
 * 81-cell board, the side to move, and cached king position and soldier
 * counts (FastTablutState).
 */
module Board {
  import opened Common

  const SIZE: int := 9

  /** Cell contents; the byte codes 0..4 of `FastTablutState`, in that order. */
  datatype Cell = E | W | B | K | T

  /** The framework's turn values; the two WIN values and DRAW are terminal. */
  datatype Turn = White | Black | WhiteWin | BlackWin | Draw

  type Coord = i: int | 0 <= i < 9

  /** The board as a row-major sequence of 81 cells. */
  type Grid = g: seq<Cell> | |g| == 81 witness seq(81, _ => E)

  /** An action: origin and destination square. */
  datatype Move = Move(fromRow: Coord, fromCol: Coord, toRow: Coord, toCol: Coord)

  /**
   * `kingRow == -1` means the king is gone; `kingCol` is then stale, as in
   * `FastTablutState`. The counts are signed because `FastTablutState` keeps
   * them as ints.
   */
  datatype State = State(board: Grid, turn: Turn, kingRow: int, kingCol: int,
                         whiteCount: int, blackCount: int)

  predicate OnBoard(r: int, c: int) { 0 <= r < SIZE && 0 <= c < SIZE }

  function Index(r: Coord, c: Coord): (i: nat)
    ensures i < 81
  {
    r * SIZE + c
  }

  /** Writing one on-board cell leaves every other cell as it was. */
  lemma UpdateOneCell(s: State, r: Coord, c: Coord, v: Cell, t: State)
    requires t.board == s.board[Index(r, c) := v]
    ensures Get(t, r, c) == v
    ensures forall x, y :: (x, y) != (r, c) ==> Get(t, x, y) == Get(s, x, y)
  {
    forall x, y | (x, y) != (r, c)
      ensures Get(t, x, y) == Get(s, x, y)
    {
      if OnBoard(x, y) {
        assert Index(x, y) != Index(r, c);
      }
    }
  }

  /** Cell read; squares off the board read as empty. */
  function Get(s: State, r: int, c: int): Cell
  {
    if OnBoard(r, c) then s.board[Index(r, c)] else E
  }

  const CITADELS: seq<(int, int)> :=
    [(0, 3), (0, 4), (0, 5), (1, 4),
     (8, 3), (8, 4), (8, 5), (7, 4),
     (3, 8), (4, 8), (5, 8), (4, 7),
     (3, 0), (4, 0), (5, 0), (4, 1)]

  const ESCAPES: seq<(int, int)> :=
    [(0, 1), (0, 2), (0, 6), (0, 7),
     (8, 1), (8, 2), (8, 6), (8, 7),
     (1, 0), (2, 0), (6, 0), (7, 0),
     (1, 8), (2, 8), (6, 8), (7, 8)]

  predicate IsThrone(r: int, c: int) { r == 4 && c == 4 }

  /**
   * Citadel membership; the throne is explicitly not a citadel. Stated by
   * geometry (three cells in the middle of each edge plus the cell in front
   * of them); `CitadelsListed` ties it to the list.
   */
  predicate IsCitadel(r: int, c: int)
  {
    ((r == 0 || r == 8) && 3 <= c <= 5) || ((c == 0 || c == 8) && 3 <= r <= 5)
    || ((r == 1 || r == 7) && c == 4) || ((c == 1 || c == 7) && r == 4)
  }

  /** Escape cells: the two cells next to each corner along both edges, by geometry; `EscapesListed` ties it to the list. */
  predicate IsEscape(r: int, c: int)
  {
    ((r == 0 || r == 8) && (c == 1 || c == 2 || c == 6 || c == 7))
    || ((c == 0 || c == 8) && (r == 1 || r == 2 || r == 6 || r == 7))
  }

  lemma CitadelsListed(r: int, c: int)
    ensures IsCitadel(r, c) <==> !IsThrone(r, c) && (r, c) in CITADELS
  {
  }

  lemma EscapesListed(r: int, c: int)
    ensures IsEscape(r, c) <==> (r, c) in ESCAPES
  {
  }

  /** Number of cells holding `x`. */
  function CountOf(g: seq<Cell>, x: Cell): nat { multiset(g)[x] }

  /** Overwriting one cell moves one unit of count from the old content to the new. */
  lemma CountAfterUpdate(g: seq<Cell>, i: nat, v: Cell, x: Cell)
    requires i < |g|
    ensures CountOf(g[i := v], x) == CountOf(g, x) - (if g[i] == x then 1 else 0) + (if v == x then 1 else 0)
  {
    assert multiset(g[i := v]) == multiset(g) - multiset{g[i]} + multiset{v};
  }

  /** A cell kind occurs on the board exactly when its count is positive. */
  lemma OccursIffCounted(g: seq<Cell>, x: Cell)
    ensures x in g <==> CountOf(g, x) > 0
  {
  }

  /**
   * The cached-field invariant: the soldier counts are the numbers of W and
   * B cells, there is at most one king, and `kingRow` is -1 exactly when no
   * cell holds the king, otherwise `(kingRow, kingCol)` holds it.
   */
  predicate Inv(s: State)
  {
    && s.whiteCount == CountOf(s.board, W)
    && s.blackCount == CountOf(s.board, B)
    && CountOf(s.board, K) <= 1
    && (s.kingRow == -1 <==> K !in s.board)
    && (s.kingRow != -1 ==> OnBoard(s.kingRow, s.kingCol) && Get(s, s.kingRow, s.kingCol) == K)
  }

  /**
   * Construction from a framework snapshot (`fromState`): the cells are copied
   * in row-major order, white and black soldiers are counted, and the king
   * position is the last king cell met (-1, -1 when there is none).
   */
  method FromState(cells: Grid, turn: Turn) returns (s: State)
    ensures s.board == cells && s.turn == turn
    ensures s.whiteCount == CountOf(cells, W) && s.blackCount == CountOf(cells, B)
    ensures s.kingRow == -1 <==> K !in cells
    ensures s.kingRow != -1 ==> OnBoard(s.kingRow, s.kingCol) && Get(s, s.kingRow, s.kingCol) == K
    ensures CountOf(cells, K) <= 1 ==> Inv(s)
  {
    var white, black, kingRow, kingCol := 0, 0, -1, -1;
    var i := 0;
    while i < 81
      invariant 0 <= i <= 81
      invariant white == CountOf(cells[..i], W) && black == CountOf(cells[..i], B)
      invariant kingRow == -1 <==> K !in cells[..i]
      invariant kingRow != -1 ==> 0 <= kingRow < SIZE && 0 <= kingCol < SIZE
                                  && kingRow * SIZE + kingCol < i && cells[kingRow * SIZE + kingCol] == K
    {
      assert cells[..i + 1] == cells[..i] + [cells[i]];
      var r, c := i / SIZE, i % SIZE;
      if cells[i] == W {
        white := white + 1;
      } else if cells[i] == B {
        black := black + 1;
      } else if cells[i] == K {
        kingRow, kingCol := r, c;
      }
      i := i + 1;
    }
    assert cells[..81] == cells;
    s := State(cells, turn, kingRow, kingCol, white, black);
  }

  /** `equals`: same cells and same turn; the cached fields are not compared. */
  predicate SamePosition(a: State, b: State)
  {
    a.board == b.board && a.turn == b.turn
  }

  function CellCode(x: Cell): int
  {
    match x
    case E => 0
    case W => 1
    case B => 2
    case K => 3
    case T => 4
  }

  /** `Arrays.hashCode(byte[])`: h := 31 * h + b over the cells, from 1, in 32-bit arithmetic. */
  function ArraysHash(g: seq<Cell>): int
    decreases |g|
  {
    if |g| == 0 then 1 else Wrap32(31 * ArraysHash(g[..|g| - 1]) + CellCode(g[|g| - 1]))
  }

  /**
   * `hashCode`: combines the board hash with the turn's hash. The turn's hash
   * is the JVM identity hash of the enum constant, so it is a parameter.
   */
  function HashCode(s: State, turnHash: Turn -> int): (h: int)
    ensures -0x8000_0000 <= h <= INT_MAX
  {
    Wrap32(31 * Wrap32(31 * 1 + ArraysHash(s.board)) + turnHash(s.turn))
  }

  /** The `equals` / `hashCode` contract: positions equal under `equals` hash alike, whatever their caches hold. */
  lemma SamePositionSameHash(a: State, b: State, turnHash: Turn -> int)
    requires SamePosition(a, b)
    ensures HashCode(a, turnHash) == HashCode(b, turnHash)
  {
  }
}
