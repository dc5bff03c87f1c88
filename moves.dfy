/** The pseudo-legal move rules of the engine, as pure functions over a board
    value: one generator per piece kind, the dispatch on the kind, and the
    row-major scan that collects every move of one side. Each function lists
    the moves in the order the engine's loops append them. The lemmas state
    each rule declaratively. There is no check-safety filter and no
    facing-Generals rule, as in the engine. */
module MoveRules {
  import opened BoardModel

  /** A move from (fromRow, fromCol) to (toRow, toCol). */
  datatype Move = Move(fromRow: int, fromCol: int, toRow: int, toCol: int)

  /** The direction lists of the generators, in the order the engine tries them. */
  const Orthogonal: seq<(int, int)> := [(0, 1), (1, 0), (0, -1), (-1, 0)]
  const Diagonal: seq<(int, int)> := [(1, 1), (1, -1), (-1, 1), (-1, -1)]
  const ElephantJumps: seq<(int, int)> := [(2, 2), (2, -2), (-2, 2), (-2, -2)]
  const HorseJumps: seq<(int, int)> :=
    [(1, 2), (2, 1), (1, -2), (2, -1), (-1, 2), (-2, 1), (-1, -2), (-2, -1)]

  /** Row `x` lies beyond the river for side `sign`: row 4 or lower-numbered
      for Red, row 5 or higher-numbered for Black. */
  predicate CrossedRiver(x: int, sign: Sign) {
    if sign == 1 then x <= 4 else x >= 5
  }

  /** A Soldier steps forward (toward row 0 for Red, toward row 9 for Black)
      and, once it has crossed the river, also sideways. */
  function SoldierSteps(x: int, sign: Sign): (r: seq<(int, int)>)
    ensures |r| == (if CrossedRiver(x, sign) then 3 else 1)
    ensures r[0].0 + sign == 0 && r[0].1 == 0
    ensures CrossedRiver(x, sign) ==> r[1] == (0, 1) && r[2] == (0, -1)
  {
    if sign == 1 then (if x <= 4 then [(-1, 0)] + [(0, 1), (0, -1)] else [(-1, 0)])
    else (if x >= 5 then [(1, 0)] + [(0, 1), (0, -1)] else [(1, 0)])
  }

  /** `m` starts at (x, y) and ends on the board on a cell that holds no
      piece of side `sign`: what every generator guarantees. */
  predicate Lands(b: Board, x: int, y: int, sign: Sign, m: Move) {
    m.fromRow == x && m.fromCol == y && InBounds(m.toRow, m.toCol) &&
    Signed(b[m.toRow][m.toCol], sign) <= 0
  }

  // ---------------------------------------------------------------------
  // Single-step pieces: General, Advisor, Elephant, Horse, Soldier
  // ---------------------------------------------------------------------

  /** Whether a piece of kind `kind` and side `sign` at (x, y) may step by
      offset `d`, as the generator of that kind tests it:
      - General and Advisor: the target is in the own palace;
      - Elephant: the target is on the board and in the own territory, and
        the cell half-way (the eye) is on the board and empty;
      - Horse: the target is on the board, and the cell (x + dx / 2, y + dy / 2)
        (the leg) is on the board and empty. The halving rounds toward minus
        infinity, as the engine's floor division does and as Dafny's `/` by 2 does;
      - Soldier (and any other kind): the target is on the board;
      and for every kind the target holds no piece of side `sign`. */
  predicate StepOk(b: Board, x: int, y: int, sign: Sign, kind: int, d: (int, int)) {
    var nx, ny := x + d.0, y + d.1;
    (if kind == General || kind == Advisor then InPalace(nx, ny, sign)
     else if kind == Elephant then
       InBounds(nx, ny) && InTerritory(nx, sign) &&
       InBounds(x + d.0 / 2, y + d.1 / 2) && b[x + d.0 / 2][y + d.1 / 2] == 0
     else if kind == Horse then
       InBounds(nx, ny) && InBounds(x + d.0 / 2, y + d.1 / 2) && b[x + d.0 / 2][y + d.1 / 2] == 0
     else InBounds(nx, ny)) &&
    Signed(b[nx][ny], sign) <= 0
  }

  /** The moves from (x, y) by each of the first `n` offsets of `dirs` that
      `StepOk` accepts, in the order of `dirs`. */
  function StepMoves(b: Board, x: int, y: int, sign: Sign, kind: int, dirs: seq<(int, int)>, n: nat): (r: seq<Move>)
    requires n <= |dirs|
    ensures |r| <= n
  {
    if n == 0 then []
    else
      var d := dirs[n - 1];
      StepMoves(b, x, y, sign, kind, dirs, n - 1) +
      (if StepOk(b, x, y, sign, kind, d) then [Move(x, y, x + d.0, y + d.1)] else [])
  }

  /** Every move `StepMoves` lists starts at (x, y) and takes a step that
      `StepOk` accepts. */
  lemma {:induction false} StepMovesSound(b: Board, x: int, y: int, sign: Sign, kind: int, dirs: seq<(int, int)>, n: nat)
    requires n <= |dirs|
    ensures forall m | m in StepMoves(b, x, y, sign, kind, dirs, n) ::
      m.fromRow == x && m.fromCol == y && StepOk(b, x, y, sign, kind, (m.toRow - x, m.toCol - y))
  {
    if n > 0 {
      StepMovesSound(b, x, y, sign, kind, dirs, n - 1);
    }
  }

  function GeneralMoves(b: Board, x: int, y: int, sign: Sign): (r: seq<Move>)
    ensures forall m | m in r :: Lands(b, x, y, sign, m) && InPalace(m.toRow, m.toCol, sign)
  {
    StepMovesSound(b, x, y, sign, General, Orthogonal, |Orthogonal|);
    StepMoves(b, x, y, sign, General, Orthogonal, |Orthogonal|)
  }

  function AdvisorMoves(b: Board, x: int, y: int, sign: Sign): (r: seq<Move>)
    ensures forall m | m in r :: Lands(b, x, y, sign, m) && InPalace(m.toRow, m.toCol, sign)
  {
    StepMovesSound(b, x, y, sign, Advisor, Diagonal, |Diagonal|);
    StepMoves(b, x, y, sign, Advisor, Diagonal, |Diagonal|)
  }

  function ElephantMoves(b: Board, x: int, y: int, sign: Sign): (r: seq<Move>)
    ensures forall m | m in r :: Lands(b, x, y, sign, m) && InTerritory(m.toRow, sign)
  {
    StepMovesSound(b, x, y, sign, Elephant, ElephantJumps, |ElephantJumps|);
    StepMoves(b, x, y, sign, Elephant, ElephantJumps, |ElephantJumps|)
  }

  function HorseMoves(b: Board, x: int, y: int, sign: Sign): (r: seq<Move>)
    ensures forall m | m in r :: Lands(b, x, y, sign, m)
  {
    StepMovesSound(b, x, y, sign, Horse, HorseJumps, |HorseJumps|);
    StepMoves(b, x, y, sign, Horse, HorseJumps, |HorseJumps|)
  }

  function SoldierMoves(b: Board, x: int, y: int, sign: Sign): (r: seq<Move>)
    ensures forall m | m in r :: Lands(b, x, y, sign, m)
  {
    var dirs := SoldierSteps(x, sign);
    StepMovesSound(b, x, y, sign, Soldier, dirs, |dirs|);
    StepMoves(b, x, y, sign, Soldier, dirs, |dirs|)
  }

  // ---------------------------------------------------------------------
  // Sliding pieces: Chariot and Cannon
  // ---------------------------------------------------------------------

  /** The coordinate `k` steps from `x` in direction `d`. */
  function Along(x: int, d: int, k: int): int {
    x + d * k
  }

  /** The moves `ray` gives along `dirs[0]`, ..., `dirs[n - 1]`, in that
      order: each one comes from the ray of some direction tried. */
  function Joined(ray: ((int, int)) -> seq<Move>, dirs: seq<(int, int)>, n: nat): (r: seq<Move>)
    requires n <= |dirs|
    ensures forall m | m in r :: exists i | 0 <= i < n :: m in ray(dirs[i])
  {
    if n == 0 then []
    else Joined(ray, dirs, n - 1) + ray(dirs[n - 1])
  }

  lemma {:induction false} JoinedMembers(ray: ((int, int)) -> seq<Move>, dirs: seq<(int, int)>, n: nat, m: Move)
    requires n <= |dirs|
    ensures m in Joined(ray, dirs, n) <==> exists i | 0 <= i < n :: m in ray(dirs[i])
  {
    if n > 0 {
      JoinedMembers(ray, dirs, n - 1, m);
    }
  }

  /** The Chariot's moves along (dx, dy) from step `step` on: every empty
      cell, then the first occupied cell if it holds an enemy piece. The
      engine tries steps 1 to 9 only. */
  function ChariotRay(b: Board, x: int, y: int, sign: Sign, dx: int, dy: int, step: nat): (r: seq<Move>)
    ensures forall m | m in r :: Lands(b, x, y, sign, m)
    decreases 10 - step
  {
    if step >= 10 then []
    else
      var nx, ny := Along(x, dx, step), Along(y, dy, step);
      if !InBounds(nx, ny) then []
      else if b[nx][ny] == 0 then [Move(x, y, nx, ny)] + ChariotRay(b, x, y, sign, dx, dy, step + 1)
      else if Signed(b[nx][ny], sign) < 0 then [Move(x, y, nx, ny)]
      else []
  }

  /** The Chariot's moves along a direction, as a function of the direction. */
  function ChariotRays(b: Board, x: int, y: int, sign: Sign): ((int, int)) -> seq<Move> {
    (d: (int, int)) => ChariotRay(b, x, y, sign, d.0, d.1, 1)
  }

  function ChariotMoves(b: Board, x: int, y: int, sign: Sign): (r: seq<Move>)
    ensures forall m | m in r :: Lands(b, x, y, sign, m)
  {
    Joined(ChariotRays(b, x, y, sign), Orthogonal, |Orthogonal|)
  }

  /** The Cannon's moves along (dx, dy) from step `step` on. Before the
      first occupied cell (`jumped` false) every empty cell is a move and the
      occupied cell becomes the screen; after it (`jumped` true) empty cells
      are skipped and the next occupied cell is a move if it holds an enemy
      piece, and ends the ray either way. Steps 1 to 9 only. */
  function CannonRay(b: Board, x: int, y: int, sign: Sign, dx: int, dy: int, step: nat, jumped: bool): (r: seq<Move>)
    ensures forall m | m in r :: Lands(b, x, y, sign, m)
    decreases 10 - step
  {
    if step >= 10 then []
    else
      var nx, ny := Along(x, dx, step), Along(y, dy, step);
      if !InBounds(nx, ny) then []
      else if !jumped then
        if b[nx][ny] == 0 then [Move(x, y, nx, ny)] + CannonRay(b, x, y, sign, dx, dy, step + 1, false)
        else CannonRay(b, x, y, sign, dx, dy, step + 1, true)
      else if b[nx][ny] != 0 then
        if Signed(b[nx][ny], sign) < 0 then [Move(x, y, nx, ny)] else []
      else CannonRay(b, x, y, sign, dx, dy, step + 1, true)
  }

  /** The Cannon's moves along a direction, as a function of the direction. */
  function CannonRays(b: Board, x: int, y: int, sign: Sign): ((int, int)) -> seq<Move> {
    (d: (int, int)) => CannonRay(b, x, y, sign, d.0, d.1, 1, false)
  }

  function CannonMoves(b: Board, x: int, y: int, sign: Sign): (r: seq<Move>)
    ensures forall m | m in r :: Lands(b, x, y, sign, m)
  {
    Joined(CannonRays(b, x, y, sign), Orthogonal, |Orthogonal|)
  }

  // ---------------------------------------------------------------------
  // Dispatch and the scan over the board
  // ---------------------------------------------------------------------

  /** The moves of a piece of kind `kind` at (x, y); none for an unknown kind. */
  function PieceMoves(b: Board, x: int, y: int, kind: int, sign: Sign): (r: seq<Move>)
    ensures forall m | m in r :: Lands(b, x, y, sign, m)
  {
    if kind == General then GeneralMoves(b, x, y, sign)
    else if kind == Advisor then AdvisorMoves(b, x, y, sign)
    else if kind == Elephant then ElephantMoves(b, x, y, sign)
    else if kind == Horse then HorseMoves(b, x, y, sign)
    else if kind == Chariot then ChariotMoves(b, x, y, sign)
    else if kind == Cannon then CannonMoves(b, x, y, sign)
    else if kind == Soldier then SoldierMoves(b, x, y, sign)
    else []
  }

  /** The moves contributed by cell (i, j) to side `sign`: those of its piece
      if it is a cell of the board holding a piece of that side, none otherwise. */
  function MovesAt(b: Board, sign: Sign, i: int, j: int): (r: seq<Move>)
    ensures forall m | m in r :: InBounds(i, j) && Signed(b[i][j], sign) > 0 && Lands(b, i, j, sign, m)
  {
    if InBounds(i, j) && Signed(b[i][j], sign) > 0 then PieceMoves(b, i, j, Abs(b[i][j]), sign) else []
  }

  /** Cell (r, c) comes before cell (i, j) in row-major order. */
  predicate Before(r: int, c: int, i: int, j: int) {
    r < i || (r == i && c < j)
  }

  /** What `cell` gives for each cell before (i, j) in row-major order,
      concatenated in the order of a row-by-row scan. (Rows, 0) is past the
      last cell. */
  function Scan(cell: (int, int) -> seq<Move>, i: int, j: int): seq<Move>
    requires 0 <= i <= Rows && 0 <= j <= Cols && (i < Rows || j == 0)
    decreases i, j
  {
    if j == 0 then (if i == 0 then [] else Scan(cell, i - 1, Cols))
    else Scan(cell, i, j - 1) + cell(i, j - 1)
  }

  /** The scan up to (i, j) lists `m` exactly when its source is a cell of
      the board before (i, j) for which `cell` lists it. */
  predicate ScanLists(cell: (int, int) -> seq<Move>, i: int, j: int, m: Move)
    requires 0 <= i <= Rows && 0 <= j <= Cols && (i < Rows || j == 0)
  {
    m in Scan(cell, i, j) <==>
      0 <= m.fromRow && 0 <= m.fromCol < Cols && Before(m.fromRow, m.fromCol, i, j) &&
      m in cell(m.fromRow, m.fromCol)
  }

  /** Moving the scan past cell (i, j - 1) keeps `ScanLists` when `cell`
      lists `m` for no cell other than its source. */
  lemma ScanCell(cell: (int, int) -> seq<Move>, i: int, j: int, m: Move)
    requires 0 <= i < Rows && 0 < j <= Cols
    requires forall r, c | m in cell(r, c) :: r == m.fromRow && c == m.fromCol
    requires ScanLists(cell, i, j - 1, m)
    ensures ScanLists(cell, i, j, m)
  {
    assert m in Scan(cell, i, j) <==> m in Scan(cell, i, j - 1) || m in cell(i, j - 1);
    if m in cell(i, j - 1) {
      assert i == m.fromRow && j - 1 == m.fromCol;
    }
  }

  /** The scan up to the start of row i is the scan up to the end of row i - 1. */
  lemma ScanRow(cell: (int, int) -> seq<Move>, i: int, m: Move)
    requires 0 < i <= Rows
    requires ScanLists(cell, i - 1, Cols, m)
    ensures ScanLists(cell, i, 0, m)
  {
    assert 0 <= m.fromCol < Cols ==> (Before(m.fromRow, m.fromCol, i, 0) <==> Before(m.fromRow, m.fromCol, i - 1, Cols));
  }

  /** When `cell` lists `m` for no cell other than its source, the scan up to
      (i, j) lists `m` exactly when its source is a cell of the board before
      (i, j) for which `cell` lists it. */
  lemma {:induction false} ScanMembers(cell: (int, int) -> seq<Move>, i: int, j: int, m: Move)
    requires 0 <= i <= Rows && 0 <= j <= Cols && (i < Rows || j == 0)
    requires forall r, c | m in cell(r, c) :: r == m.fromRow && c == m.fromCol
    ensures ScanLists(cell, i, j, m)
    decreases i, j
  {
    if j == 0 {
      if i > 0 {
        ScanMembers(cell, i - 1, Cols, m);
        ScanRow(cell, i, m);
      }
    } else {
      ScanMembers(cell, i, j - 1, m);
      ScanCell(cell, i, j, m);
    }
  }

  /** The moves of side `sign` from the cells before (i, j), in the order of
      a row-by-row scan. */
  function LegalMovesBefore(b: Board, sign: Sign, i: int, j: int): seq<Move>
    requires 0 <= i <= Rows && 0 <= j <= Cols && (i < Rows || j == 0)
  {
    Scan((r, c) => MovesAt(b, sign, r, c), i, j)
  }

  /** Scanning one more cell of row i appends that cell's moves. */
  lemma LegalMovesBeforeNext(b: Board, sign: Sign, i: int, j: int)
    requires 0 <= i < Rows && 0 <= j < Cols
    ensures LegalMovesBefore(b, sign, i, j + 1) == LegalMovesBefore(b, sign, i, j) + MovesAt(b, sign, i, j)
  {
  }

  /** The scan up to the start of row i + 1 is the scan up to the end of row i. */
  lemma LegalMovesBeforeRowEnd(b: Board, sign: Sign, i: int)
    requires 0 <= i < Rows
    ensures LegalMovesBefore(b, sign, i + 1, 0) == LegalMovesBefore(b, sign, i, Cols)
  {
  }

  /** Every pseudo-legal move of side `sign`. */
  function LegalMoves(b: Board, sign: Sign): seq<Move> {
    LegalMovesBefore(b, sign, Rows, 0)
  }

  /** Each pseudo-legal move of side `sign` starts on a piece of that side
      and ends on the board on a cell holding none of its pieces. */
  lemma LegalMovesSound(b: Board, sign: Sign)
    ensures forall m | m in LegalMoves(b, sign) ::
      InBounds(m.fromRow, m.fromCol) && Signed(b[m.fromRow][m.fromCol], sign) > 0 &&
      InBounds(m.toRow, m.toCol) && Signed(b[m.toRow][m.toCol], sign) <= 0
  {
    forall m | m in LegalMoves(b, sign)
      ensures InBounds(m.fromRow, m.fromCol) && Signed(b[m.fromRow][m.fromCol], sign) > 0 &&
        InBounds(m.toRow, m.toCol) && Signed(b[m.toRow][m.toCol], sign) <= 0
    {
      LegalMoveSound(b, sign, m);
    }
  }

  lemma LegalMoveSound(b: Board, sign: Sign, m: Move)
    requires m in LegalMoves(b, sign)
    ensures m in MovesAt(b, sign, m.fromRow, m.fromCol)
  {
    var cell := (r, c) => MovesAt(b, sign, r, c);
    forall r, c | m in cell(r, c)
      ensures r == m.fromRow && c == m.fromCol
    {
      assert m in MovesAt(b, sign, r, c);
    }
    ScanMembers(cell, Rows, 0, m);
  }
}
