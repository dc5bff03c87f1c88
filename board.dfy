/** The Xiangqi board: a 10 x 9 grid of signed piece codes, the two sides,
    the palace and territory zones, and the starting layout. */
module BoardModel {

  /** Row count and column count of the grid. Row 0 is Black's back rank,
      row 9 is Red's back rank. */
  const Rows: int := 10
  const Cols: int := 9

  /** Piece kinds: the magnitude of a cell's value. */
  const General: int := 1
  const Advisor: int := 2
  const Elephant: int := 3
  const Horse: int := 4
  const Chariot: int := 5
  const Cannon: int := 6
  const Soldier: int := 7

  /** A grid of 10 rows of 9 cells. 0 is empty, a positive value is a Red
      piece and a negative value a Black piece of that magnitude. */
  type Board = b: seq<seq<int>> | |b| == Rows && forall r | 0 <= r < |b| :: |b[r]| == Cols
    witness seq(10, _ => seq(9, _ => 0))

  datatype Player = Red | Black

  /** The side that moves after `p`. */
  function Opponent(p: Player): (q: Player)
    ensures q != p
  {
    if p == Red then Black else Red
  }

  /** The multiplier the engine uses for a side: 1 for Red, -1 for Black. */
  type Sign = s: int | s == 1 || s == -1 witness 1

  function SignOf(p: Player): (s: Sign)
    ensures s == 1 <==> p == Red
  {
    if p == Red then 1 else -1
  }

  /** The product `v * sign` (`sign` is 1 or -1): positive exactly for the pieces of the side
      `sign`, negative exactly for its enemy's. */
  function Signed(v: int, sign: Sign): (r: int)
    ensures r > 0 <==> (if sign == 1 then v > 0 else v < 0)
    ensures r < 0 <==> (if sign == 1 then v < 0 else v > 0)
    ensures r == 0 <==> v == 0
  {
    if sign == 1 then v else -v
  }

  function Abs(v: int): (r: int)
    ensures r >= 0 && (r == v || r == -v)
  {
    if v < 0 then -v else v
  }

  predicate InBounds(x: int, y: int) {
    0 <= x < Rows && 0 <= y < Cols
  }

  /** The 3 x 3 palace of side `sign`: rows 7-9 for Red, rows 0-2 for Black,
      columns 3-5 for both. */
  function InPalace(x: int, y: int, sign: Sign): (r: bool)
    ensures r ==> InBounds(x, y)
  {
    (if sign == 1 then 7 <= x <= 9 else 0 <= x <= 2) && 3 <= y <= 5
  }

  /** The half of the board on the own side of the river: rows 5-9 for Red,
      rows 0-4 for Black. */
  function InTerritory(x: int, sign: Sign): (r: bool)
    ensures r ==> 0 <= x < Rows
  {
    if sign == 1 then 5 <= x <= 9 else 0 <= x <= 4
  }

  /** The two palaces are mirror images of each other across the river. */
  lemma PalacesMirror(x: int, y: int)
    ensures InPalace(x, y, 1) <==> InPalace(9 - x, y, -1)
  {
  }

  /** The river splits every column into the two territories. */
  lemma TerritoriesPartition(x: int)
    requires 0 <= x < Rows
    ensures InTerritory(x, 1) != InTerritory(x, -1)
    ensures InTerritory(x, 1) <==> InTerritory(9 - x, -1)
  {
  }

  /** Some cell of `b` holds the value `v`. */
  predicate HasPiece(b: Board, v: int) {
    exists r, c | 0 <= r < Rows && 0 <= c < Cols :: b[r][c] == v
  }

  /** The back-rank piece in column `c`: Chariot, Horse, Elephant, Advisor,
      General, Advisor, Elephant, Horse, Chariot. */
  function BackRank(c: int): (v: int)
    ensures 0 <= c < Cols ==> (v == General <==> c == 4)
    ensures 0 < v <= Chariot
  {
    if c == 0 || c == 8 then Chariot
    else if c == 1 || c == 7 then Horse
    else if c == 2 || c == 6 then Elephant
    else if c == 3 || c == 5 then Advisor
    else General
  }

  /** The value of cell (r, c) in the starting layout: Red's back rank on
      row 9, its Cannons on (7, 1) and (7, 7) and its Soldiers on the even
      columns of row 6; Black's pieces likewise on rows 0, 2 and 3 with
      negated codes; every other cell empty. */
  function InitialCell(r: int, c: int): (v: int)
    ensures Abs(v) <= Soldier
    ensures v != 0 ==> InTerritory(r, if v > 0 then 1 else -1)
  {
    if r == 9 then BackRank(c)
    else if r == 7 && (c == 1 || c == 7) then Cannon
    else if r == 6 && c % 2 == 0 then Soldier
    else if r == 0 then -BackRank(c)
    else if r == 2 && (c == 1 || c == 7) then -Cannon
    else if r == 3 && c % 2 == 0 then -Soldier
    else 0
  }

  /** The starting layout as a board. */
  function InitialBoard(): (b: Board)
    ensures forall r, c | 0 <= r < Rows && 0 <= c < Cols :: b[r][c] == InitialCell(r, c)
  {
    seq(Rows, r => seq(Cols, c => InitialCell(r, c)))
  }

  /** 1 if `v` is a piece of side `sign`, else 0. */
  function Own(v: int, sign: Sign): nat {
    if Signed(v, sign) > 0 then 1 else 0
  }

  /** The number of pieces of side `sign` in row `r` from column `c` on. */
  function RowPieces(b: Board, sign: Sign, r: int, c: int): (n: nat)
    requires 0 <= r < Rows && 0 <= c <= Cols
    decreases Cols - c
  {
    if c == Cols then 0 else Own(b[r][c], sign) + RowPieces(b, sign, r, c + 1)
  }

  /** The number of pieces of side `sign` in rows `r` to 9. */
  function PiecesFrom(b: Board, sign: Sign, r: int): (n: nat)
    requires 0 <= r <= Rows
    decreases Rows - r
  {
    if r == Rows then 0 else RowPieces(b, sign, r, 0) + PiecesFrom(b, sign, r + 1)
  }

  /** The number of pieces of side `sign` on the board. */
  function PieceCount(b: Board, sign: Sign): nat {
    PiecesFrom(b, sign, 0)
  }

  /** The starting layout holds exactly one General per side, Red's at (9, 4)
      and Black's at (0, 4). */
  lemma InitialGenerals()
    ensures forall r, c | 0 <= r < Rows && 0 <= c < Cols ::
      (InitialBoard()[r][c] == General <==> r == 9 && c == 4) &&
      (InitialBoard()[r][c] == -General <==> r == 0 && c == 4)
    ensures HasPiece(InitialBoard(), General) && HasPiece(InitialBoard(), -General)
  {
    assert InitialBoard()[9][4] == General && InitialBoard()[0][4] == -General;
  }

  /** The starting layout is sign-mirrored across the river: the cell facing
      (r, c) from the other side holds the same piece of the other side. */
  lemma InitialMirrored(r: int, c: int)
    requires 0 <= r < Rows && 0 <= c < Cols
    ensures InitialBoard()[9 - r][c] == -InitialBoard()[r][c]
  {
  }

  /** A row's count is the sum over its nine cells. */
  lemma RowPiecesUnrolled(b: Board, sign: Sign, r: int)
    requires 0 <= r < Rows
    ensures RowPieces(b, sign, r, 0) ==
      Own(b[r][0], sign) + Own(b[r][1], sign) + Own(b[r][2], sign) + Own(b[r][3], sign) + Own(b[r][4], sign) +
      Own(b[r][5], sign) + Own(b[r][6], sign) + Own(b[r][7], sign) + Own(b[r][8], sign)
  {
    assert RowPieces(b, sign, r, 7) == Own(b[r][7], sign) + Own(b[r][8], sign);
    assert RowPieces(b, sign, r, 5) == Own(b[r][5], sign) + Own(b[r][6], sign) + RowPieces(b, sign, r, 7);
    assert RowPieces(b, sign, r, 3) == Own(b[r][3], sign) + Own(b[r][4], sign) + RowPieces(b, sign, r, 5);
  }

  /** The board's count is the sum of the counts `n` of its ten rows. */
  lemma PieceCountOfRows(b: Board, sign: Sign, n: seq<nat>)
    requires |n| == Rows
    requires forall r | 0 <= r < Rows :: RowPieces(b, sign, r, 0) == n[r]
    ensures PieceCount(b, sign) == n[0] + n[1] + n[2] + n[3] + n[4] + n[5] + n[6] + n[7] + n[8] + n[9]
  {
    assert PiecesFrom(b, sign, 8) == n[8] + n[9];
    assert PiecesFrom(b, sign, 6) == n[6] + n[7] + PiecesFrom(b, sign, 8);
    assert PiecesFrom(b, sign, 4) == n[4] + n[5] + PiecesFrom(b, sign, 6);
    assert PiecesFrom(b, sign, 2) == n[2] + n[3] + PiecesFrom(b, sign, 4);
  }

  /** `b` holds the starting layout. */
  predicate IsInitial(b: Board) {
    forall r, c | 0 <= r < Rows && 0 <= c < Cols :: b[r][c] == InitialCell(r, c)
  }

  /** The per-row piece counts of the starting layout. */
  function InitialRowCounts(sign: Sign): seq<nat> {
    if sign == 1 then [0, 0, 0, 0, 0, 0, 5, 2, 0, 9] else [9, 0, 2, 5, 0, 0, 0, 0, 0, 0]
  }

  lemma InitialRowPieces(b: Board, sign: Sign, r: int)
    requires IsInitial(b) && 0 <= r < Rows
    ensures RowPieces(b, sign, r, 0) == InitialRowCounts(sign)[r]
  {
    RowPiecesUnrolled(b, sign, r);
    if r == 0 {} else if r == 1 {} else if r == 2 {} else if r == 3 {} else if r == 4 {}
    else if r == 5 {} else if r == 6 {} else if r == 7 {} else if r == 8 {} else {}
  }

  lemma InitialCount(b: Board, sign: Sign)
    requires IsInitial(b)
    ensures PieceCount(b, sign) == 16
  {
    var counts := InitialRowCounts(sign);
    forall r | 0 <= r < Rows
      ensures RowPieces(b, sign, r, 0) == counts[r]
    {
      InitialRowPieces(b, sign, r);
    }
    PieceCountOfRows(b, sign, counts);
    assert counts[0] + counts[1] + counts[2] + counts[3] + counts[4] +
      counts[5] + counts[6] + counts[7] + counts[8] + counts[9] == 16;
  }

  /** Each side starts with 16 pieces. */
  lemma InitialPieceCount(sign: Sign)
    ensures PieceCount(InitialBoard(), sign) == 16
  {
    InitialCount(InitialBoard(), sign);
  }
}
