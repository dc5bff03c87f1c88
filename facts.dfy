/** Declarative statements of the move rules: for each generator, exactly
    which moves it lists. */
module MoveFacts {
  import opened BoardModel
  import opened MoveRules

  /** The move `k` steps from (x, y) in direction (dx, dy). */
  function RayMove(x: int, y: int, dx: int, dy: int, k: int): Move {
    Move(x, y, Along(x, dx, k), Along(y, dy, k))
  }

  /** The cells `lo` to `hi - 1` steps from (x, y) in direction (dx, dy) are
      all on the board and empty. */
  predicate Clear(b: Board, x: int, y: int, dx: int, dy: int, lo: int, hi: int) {
    forall k | lo <= k < hi :: InBounds(Along(x, dx, k), Along(y, dy, k)) && b[Along(x, dx, k)][Along(y, dy, k)] == 0
  }

  // ---------------------------------------------------------------------
  // Single-step pieces
  // ---------------------------------------------------------------------

  lemma {:induction false} StepMovesMembers(b: Board, x: int, y: int, sign: Sign, kind: int, dirs: seq<(int, int)>, n: nat, m: Move)
    requires n <= |dirs|
    ensures m in StepMoves(b, x, y, sign, kind, dirs, n) <==>
      m.fromRow == x && m.fromCol == y && (m.toRow - x, m.toCol - y) in dirs[..n] &&
      StepOk(b, x, y, sign, kind, (m.toRow - x, m.toCol - y))
  {
    if n > 0 {
      StepMovesMembers(b, x, y, sign, kind, dirs, n - 1, m);
      var t, d := (m.toRow - x, m.toCol - y), dirs[n - 1];
      assert t in dirs[..n] <==> t in dirs[..n - 1] || t == d by {
        assert dirs[..n] == dirs[..n - 1] + [d];
      }
      assert m == Move(x, y, x + d.0, y + d.1) <==> m.fromRow == x && m.fromCol == y && t == d;
    }
  }

  /** The moves of all offsets of `dirs`. */
  lemma StepMovesAll(b: Board, x: int, y: int, sign: Sign, kind: int, dirs: seq<(int, int)>, m: Move)
    ensures m in StepMoves(b, x, y, sign, kind, dirs, |dirs|) <==>
      m.fromRow == x && m.fromCol == y && (m.toRow - x, m.toCol - y) in dirs &&
      StepOk(b, x, y, sign, kind, (m.toRow - x, m.toCol - y))
  {
    StepMovesMembers(b, x, y, sign, kind, dirs, |dirs|, m);
    assert dirs[..|dirs|] == dirs;
  }

  /** The Elephant's test for the jump from (x, y) to (tx, ty): the eye is
      the midpoint of the jump. */
  lemma ElephantStepOk(b: Board, x: int, y: int, sign: Sign, tx: int, ty: int)
    requires Abs(tx - x) == 2 && Abs(ty - y) == 2
    ensures StepOk(b, x, y, sign, Elephant, (tx - x, ty - y)) <==>
      InBounds(tx, ty) && InTerritory(tx, sign) &&
      InBounds((x + tx) / 2, (y + ty) / 2) && b[(x + tx) / 2][(y + ty) / 2] == 0 &&
      Signed(b[tx][ty], sign) <= 0
  {
    assert x + (tx - x) / 2 == (x + tx) / 2 && y + (ty - y) / 2 == (y + ty) / 2;
  }

  /** The Horse's test for the jump from (x, y) to (tx, ty). */
  lemma HorseStepOk(b: Board, x: int, y: int, sign: Sign, tx: int, ty: int)
    ensures StepOk(b, x, y, sign, Horse, (tx - x, ty - y)) <==>
      InBounds(tx, ty) && InBounds(x + (tx - x) / 2, y + (ty - y) / 2) &&
      b[x + (tx - x) / 2][y + (ty - y) / 2] == 0 && Signed(b[tx][ty], sign) <= 0
  {
  }

  /** A General moves one step along a row or column, into its own palace,
      onto a cell without a piece of its side. */
  lemma GeneralMoveRule(b: Board, x: int, y: int, sign: Sign, m: Move)
    ensures m in GeneralMoves(b, x, y, sign) <==>
      m.fromRow == x && m.fromCol == y && Abs(m.toRow - x) + Abs(m.toCol - y) == 1 &&
      InPalace(m.toRow, m.toCol, sign) && Signed(b[m.toRow][m.toCol], sign) <= 0
  {
    StepMovesAll(b, x, y, sign, General, Orthogonal, m);
  }

  /** An Advisor moves one step diagonally, into its own palace, onto a cell
      without a piece of its side. */
  lemma AdvisorMoveRule(b: Board, x: int, y: int, sign: Sign, m: Move)
    ensures m in AdvisorMoves(b, x, y, sign) <==>
      m.fromRow == x && m.fromCol == y && Abs(m.toRow - x) == 1 && Abs(m.toCol - y) == 1 &&
      InPalace(m.toRow, m.toCol, sign) && Signed(b[m.toRow][m.toCol], sign) <= 0
  {
    StepMovesAll(b, x, y, sign, Advisor, Diagonal, m);
  }

  /** An Elephant jumps two steps diagonally, staying in its own territory,
      over an empty midpoint, onto a cell without a piece of its side. */
  lemma ElephantMoveRule(b: Board, x: int, y: int, sign: Sign, m: Move)
    ensures m in ElephantMoves(b, x, y, sign) <==>
      m.fromRow == x && m.fromCol == y && Abs(m.toRow - x) == 2 && Abs(m.toCol - y) == 2 &&
      InBounds(m.toRow, m.toCol) && InTerritory(m.toRow, sign) &&
      InBounds((x + m.toRow) / 2, (y + m.toCol) / 2) && b[(x + m.toRow) / 2][(y + m.toCol) / 2] == 0 &&
      Signed(b[m.toRow][m.toCol], sign) <= 0
  {
    StepMovesAll(b, x, y, sign, Elephant, ElephantJumps, m);
    var dx, dy := m.toRow - x, m.toCol - y;
    assert (dx, dy) in ElephantJumps <==> Abs(dx) == 2 && Abs(dy) == 2;
    if Abs(dx) == 2 && Abs(dy) == 2 {
      ElephantStepOk(b, x, y, sign, m.toRow, m.toCol);
    }
  }

  /** A Horse jumps one step in one direction and two in the other, provided
      the cell (x + dx / 2, y + dy / 2) is on the board and empty, onto a cell
      on the board without a piece of its side. */
  lemma HorseMoveRule(b: Board, x: int, y: int, sign: Sign, m: Move)
    ensures m in HorseMoves(b, x, y, sign) <==>
      var dx, dy := m.toRow - x, m.toCol - y;
      m.fromRow == x && m.fromCol == y &&
      ((Abs(dx) == 1 && Abs(dy) == 2) || (Abs(dx) == 2 && Abs(dy) == 1)) &&
      InBounds(m.toRow, m.toCol) &&
      InBounds(x + dx / 2, y + dy / 2) && b[x + dx / 2][y + dy / 2] == 0 &&
      Signed(b[m.toRow][m.toCol], sign) <= 0
  {
    StepMovesAll(b, x, y, sign, Horse, HorseJumps, m);
    var dx, dy := m.toRow - x, m.toCol - y;
    assert (dx, dy) in HorseJumps <==> (Abs(dx) == 1 && Abs(dy) == 2) || (Abs(dx) == 2 && Abs(dy) == 1);
    HorseStepOk(b, x, y, sign, m.toRow, m.toCol);
  }

  /** The blocking test rounds the half-offset down, so for the jump (-1, +2)
      it looks at the diagonal neighbour (x - 1, y + 1) and not at the
      orthogonal neighbour (x, y + 1) that blocks a Horse in Xiangqi: the
      jump is listed even when (x, y + 1) is occupied. */
  lemma HorseLegIsDiagonal(b: Board, x: int, y: int, sign: Sign)
    requires InBounds(x, y + 1) && InBounds(x - 1, y + 2)
    requires b[x][y + 1] != 0 && b[x - 1][y + 1] == 0
    requires Signed(b[x - 1][y + 2], sign) <= 0
    ensures Move(x, y, x - 1, y + 2) in HorseMoves(b, x, y, sign)
  {
    HorseMoveRule(b, x, y, sign, Move(x, y, x - 1, y + 2));
  }

  /** ... and the same jump is refused when only the diagonal cell is occupied. */
  lemma HorseBlockedDiagonally(b: Board, x: int, y: int, sign: Sign)
    requires InBounds(x, y + 1) && InBounds(x - 1, y + 2)
    requires b[x][y + 1] == 0 && b[x - 1][y + 1] != 0
    ensures Move(x, y, x - 1, y + 2) !in HorseMoves(b, x, y, sign)
  {
    HorseMoveRule(b, x, y, sign, Move(x, y, x - 1, y + 2));
  }

  /** A Soldier moves one step forward and, once across the river, one step
      sideways, onto a cell on the board without a piece of its side. */
  lemma SoldierMoveRule(b: Board, x: int, y: int, sign: Sign, m: Move)
    ensures m in SoldierMoves(b, x, y, sign) <==>
      m.fromRow == x && m.fromCol == y && InBounds(m.toRow, m.toCol) &&
      ((m.toRow == x - sign && m.toCol == y) ||
       (m.toRow == x && Abs(m.toCol - y) == 1 && CrossedRiver(x, sign))) &&
      Signed(b[m.toRow][m.toCol], sign) <= 0
  {
    StepMovesAll(b, x, y, sign, Soldier, SoldierSteps(x, sign), m);
    var dx, dy := m.toRow - x, m.toCol - y;
    assert (dx, dy) in SoldierSteps(x, sign) <==>
      (dx + sign == 0 && dy == 0) || (dx == 0 && Abs(dy) == 1 && CrossedRiver(x, sign));
  }

  /** On the board, a row is across the river exactly when it is outside the
      side's territory. */
  lemma CrossedRiverOutsideTerritory(x: int, sign: Sign)
    requires 0 <= x < Rows
    ensures CrossedRiver(x, sign) <==> !InTerritory(x, sign)
  {
  }

  // ---------------------------------------------------------------------
  // Sliding pieces
  // ---------------------------------------------------------------------

  /** The Chariot's ray reaches step `k`: the cells from step `lo` up to
      `k` are empty and the cell at step `k` is on the board and holds no
      piece of side `sign`. */
  predicate Reaches(b: Board, x: int, y: int, sign: Sign, dx: int, dy: int, lo: int, k: int) {
    Clear(b, x, y, dx, dy, lo, k) &&
    InBounds(Along(x, dx, k), Along(y, dy, k)) && Signed(b[Along(x, dx, k)][Along(y, dy, k)], sign) <= 0
  }

  /** As `Reaches`, but the cell at step `k` holds an enemy piece. */
  predicate Captures(b: Board, x: int, y: int, sign: Sign, dx: int, dy: int, lo: int, k: int) {
    Clear(b, x, y, dx, dy, lo, k) &&
    InBounds(Along(x, dx, k), Along(y, dy, k)) && Signed(b[Along(x, dx, k)][Along(y, dy, k)], sign) < 0
  }

  /** The Cannon's capture at step `k` over the screen at step `p`: the cells
      from step `lo` to `p` are empty, the cell at `p` is occupied, and the
      cells after it are empty up to an enemy piece at step `k`. So exactly
      one occupied cell lies between step `lo` and step `k`. */
  predicate JumpCaptures(b: Board, x: int, y: int, sign: Sign, dx: int, dy: int, lo: int, p: int, k: int) {
    lo <= p < k && Clear(b, x, y, dx, dy, lo, p) &&
    InBounds(Along(x, dx, p), Along(y, dy, p)) && b[Along(x, dx, p)][Along(y, dy, p)] != 0 &&
    Captures(b, x, y, sign, dx, dy, p + 1, k)
  }

  /** From step `s` on, the Chariot's ray lists the move to step `k`
      exactly when it reaches that step: the ray runs over empty cells and
      ends on the first occupied one, which it includes when that cell holds
      an enemy piece. */
  lemma {:induction false} ChariotRayMembers(b: Board, x: int, y: int, sign: Sign, dx: int, dy: int, s: nat, m: Move)
    ensures m in ChariotRay(b, x, y, sign, dx, dy, s) <==>
      exists k | s <= k < 10 :: m == RayMove(x, y, dx, dy, k) && Reaches(b, x, y, sign, dx, dy, s, k)
    decreases 10 - s
  {
    if s < 10 {
      var nx, ny := Along(x, dx, s), Along(y, dy, s);
      forall k | s < k <= 10
        ensures Clear(b, x, y, dx, dy, s, k) <==> InBounds(nx, ny) && b[nx][ny] == 0 && Clear(b, x, y, dx, dy, s + 1, k)
      {
      }
      if InBounds(nx, ny) && b[nx][ny] == 0 {
        ChariotRayMembers(b, x, y, sign, dx, dy, s + 1, m);
        if m in ChariotRay(b, x, y, sign, dx, dy, s) && m != RayMove(x, y, dx, dy, s) {
          var k :| s + 1 <= k < 10 && m == RayMove(x, y, dx, dy, k) && Reaches(b, x, y, sign, dx, dy, s + 1, k);
          assert Reaches(b, x, y, sign, dx, dy, s, k);
        }
        if exists k | s <= k < 10 :: m == RayMove(x, y, dx, dy, k) && Reaches(b, x, y, sign, dx, dy, s, k) {
          var k :| s <= k < 10 && m == RayMove(x, y, dx, dy, k) && Reaches(b, x, y, sign, dx, dy, s, k);
          if k > s {
            assert Reaches(b, x, y, sign, dx, dy, s + 1, k);
          }
        }
      } else {
        forall k | s < k < 10
          ensures !Reaches(b, x, y, sign, dx, dy, s, k)
        {
        }
        if m == RayMove(x, y, dx, dy, s) && InBounds(nx, ny) {
          assert Clear(b, x, y, dx, dy, s, s);
        }
      }
    }
  }

  /** Once the Cannon has jumped, its ray from step `s` lists the move to step
      `k` exactly when the cells before it are empty and it holds an enemy. */
  lemma {:induction false} CannonRayJumpedMembers(b: Board, x: int, y: int, sign: Sign, dx: int, dy: int, s: nat, m: Move)
    ensures m in CannonRay(b, x, y, sign, dx, dy, s, true) <==>
      exists k | s <= k < 10 :: m == RayMove(x, y, dx, dy, k) && Captures(b, x, y, sign, dx, dy, s, k)
    decreases 10 - s
  {
    if s < 10 {
      var nx, ny := Along(x, dx, s), Along(y, dy, s);
      forall k | s < k <= 10
        ensures Clear(b, x, y, dx, dy, s, k) <==> InBounds(nx, ny) && b[nx][ny] == 0 && Clear(b, x, y, dx, dy, s + 1, k)
      {
      }
      if InBounds(nx, ny) && b[nx][ny] == 0 {
        CannonRayJumpedMembers(b, x, y, sign, dx, dy, s + 1, m);
        if m in CannonRay(b, x, y, sign, dx, dy, s, true) {
          var k :| s + 1 <= k < 10 && m == RayMove(x, y, dx, dy, k) && Captures(b, x, y, sign, dx, dy, s + 1, k);
          assert Captures(b, x, y, sign, dx, dy, s, k);
        }
        if exists k | s <= k < 10 :: m == RayMove(x, y, dx, dy, k) && Captures(b, x, y, sign, dx, dy, s, k) {
          var k :| s <= k < 10 && m == RayMove(x, y, dx, dy, k) && Captures(b, x, y, sign, dx, dy, s, k);
          assert Captures(b, x, y, sign, dx, dy, s + 1, k);
        }
      } else {
        forall k | s < k < 10
          ensures !Captures(b, x, y, sign, dx, dy, s, k)
        {
        }
        if m == RayMove(x, y, dx, dy, s) && InBounds(nx, ny) {
          assert Clear(b, x, y, dx, dy, s, s);
        }
      }
    }
  }

  /** The Cannon's ray from step `s` reaches `m` as a quiet move: every
      cell from step `s` up to and including the target is empty. */
  predicate QuietMove(b: Board, x: int, y: int, dx: int, dy: int, s: int, m: Move) {
    exists k | s <= k < 10 :: m == RayMove(x, y, dx, dy, k) && Clear(b, x, y, dx, dy, s, k + 1)
  }

  /** The Cannon's ray from step `s` reaches `m` as a capture over exactly one screen. */
  predicate ScreenCapture(b: Board, x: int, y: int, sign: Sign, dx: int, dy: int, s: int, m: Move) {
    exists p, k | s <= p < k < 10 :: m == RayMove(x, y, dx, dy, k) && JumpCaptures(b, x, y, sign, dx, dy, s, p, k)
  }

  /** A clear stretch that is not empty splits into its first cell and the rest. */
  lemma ClearFront(b: Board, x: int, y: int, dx: int, dy: int, lo: int, hi: int)
    requires lo < hi
    ensures Clear(b, x, y, dx, dy, lo, hi) <==>
      InBounds(Along(x, dx, lo), Along(y, dy, lo)) && b[Along(x, dx, lo)][Along(y, dy, lo)] == 0 &&
      Clear(b, x, y, dx, dy, lo + 1, hi)
  {
    if InBounds(Along(x, dx, lo), Along(y, dy, lo)) && b[Along(x, dx, lo)][Along(y, dy, lo)] == 0 &&
       Clear(b, x, y, dx, dy, lo + 1, hi) {
      forall k | lo <= k < hi
        ensures InBounds(Along(x, dx, k), Along(y, dy, k)) && b[Along(x, dx, k)][Along(y, dy, k)] == 0
      {
      }
    }
  }

  lemma QuietMoveStep(b: Board, x: int, y: int, dx: int, dy: int, s: int, m: Move)
    requires s < 10
    ensures QuietMove(b, x, y, dx, dy, s, m) <==>
      InBounds(Along(x, dx, s), Along(y, dy, s)) && b[Along(x, dx, s)][Along(y, dy, s)] == 0 &&
      (m == RayMove(x, y, dx, dy, s) || QuietMove(b, x, y, dx, dy, s + 1, m))
  {
    if QuietMove(b, x, y, dx, dy, s, m) {
      var k :| s <= k < 10 && m == RayMove(x, y, dx, dy, k) && Clear(b, x, y, dx, dy, s, k + 1);
      ClearFront(b, x, y, dx, dy, s, k + 1);
      if k > s {
        assert QuietMove(b, x, y, dx, dy, s + 1, m);
      }
    }
    if InBounds(Along(x, dx, s), Along(y, dy, s)) && b[Along(x, dx, s)][Along(y, dy, s)] == 0 {
      if QuietMove(b, x, y, dx, dy, s + 1, m) {
        var k :| s + 1 <= k < 10 && m == RayMove(x, y, dx, dy, k) && Clear(b, x, y, dx, dy, s + 1, k + 1);
        ClearFront(b, x, y, dx, dy, s, k + 1);
        assert QuietMove(b, x, y, dx, dy, s, m);
      }
      if m == RayMove(x, y, dx, dy, s) {
        ClearFront(b, x, y, dx, dy, s, s + 1);
        assert QuietMove(b, x, y, dx, dy, s, m);
      }
    }
  }

  /** A screen capture from step `s` over a first cell that is empty is a
      screen capture from step `s + 1`, and back. */
  lemma ScreenCaptureEmpty(b: Board, x: int, y: int, sign: Sign, dx: int, dy: int, s: int, m: Move)
    requires InBounds(Along(x, dx, s), Along(y, dy, s)) && b[Along(x, dx, s)][Along(y, dy, s)] == 0
    ensures ScreenCapture(b, x, y, sign, dx, dy, s, m) <==> ScreenCapture(b, x, y, sign, dx, dy, s + 1, m)
  {
    if ScreenCapture(b, x, y, sign, dx, dy, s, m) {
      var p, k :| s <= p < k < 10 && m == RayMove(x, y, dx, dy, k) && JumpCaptures(b, x, y, sign, dx, dy, s, p, k);
      ClearFront(b, x, y, dx, dy, s, p);
      assert JumpCaptures(b, x, y, sign, dx, dy, s + 1, p, k);
    }
    if ScreenCapture(b, x, y, sign, dx, dy, s + 1, m) {
      var p, k :| s + 1 <= p < k < 10 && m == RayMove(x, y, dx, dy, k) && JumpCaptures(b, x, y, sign, dx, dy, s + 1, p, k);
      ClearFront(b, x, y, dx, dy, s, p);
      assert JumpCaptures(b, x, y, sign, dx, dy, s, p, k);
    }
  }

  /** A screen capture from step `s` over an occupied first cell uses that
      cell as its screen, so it is a capture from step `s + 1`, and back. */
  lemma ScreenCaptureScreen(b: Board, x: int, y: int, sign: Sign, dx: int, dy: int, s: int, m: Move)
    requires InBounds(Along(x, dx, s), Along(y, dy, s)) && b[Along(x, dx, s)][Along(y, dy, s)] != 0
    ensures ScreenCapture(b, x, y, sign, dx, dy, s, m) <==>
      exists k | s + 1 <= k < 10 :: m == RayMove(x, y, dx, dy, k) && Captures(b, x, y, sign, dx, dy, s + 1, k)
  {
    if ScreenCapture(b, x, y, sign, dx, dy, s, m) {
      var p, k :| s <= p < k < 10 && m == RayMove(x, y, dx, dy, k) && JumpCaptures(b, x, y, sign, dx, dy, s, p, k);
      if p > s {
        ClearFront(b, x, y, dx, dy, s, p);
      }
      assert Captures(b, x, y, sign, dx, dy, s + 1, k);
    }
    if exists k | s + 1 <= k < 10 :: m == RayMove(x, y, dx, dy, k) && Captures(b, x, y, sign, dx, dy, s + 1, k) {
      var k :| s + 1 <= k < 10 && m == RayMove(x, y, dx, dy, k) && Captures(b, x, y, sign, dx, dy, s + 1, k);
      assert JumpCaptures(b, x, y, sign, dx, dy, s, s, k);
    }
  }

  lemma ScreenCaptureStep(b: Board, x: int, y: int, sign: Sign, dx: int, dy: int, s: int, m: Move)
    requires s < 10
    ensures InBounds(Along(x, dx, s), Along(y, dy, s)) && b[Along(x, dx, s)][Along(y, dy, s)] == 0 ==>
      (ScreenCapture(b, x, y, sign, dx, dy, s, m) <==> ScreenCapture(b, x, y, sign, dx, dy, s + 1, m))
    ensures InBounds(Along(x, dx, s), Along(y, dy, s)) && b[Along(x, dx, s)][Along(y, dy, s)] != 0 ==>
      (ScreenCapture(b, x, y, sign, dx, dy, s, m) <==>
       exists k | s + 1 <= k < 10 :: m == RayMove(x, y, dx, dy, k) && Captures(b, x, y, sign, dx, dy, s + 1, k))
    ensures !InBounds(Along(x, dx, s), Along(y, dy, s)) ==> !ScreenCapture(b, x, y, sign, dx, dy, s, m)
  {
    var nx, ny := Along(x, dx, s), Along(y, dy, s);
    if ScreenCapture(b, x, y, sign, dx, dy, s, m) {
      var p, k :| s <= p < k < 10 && m == RayMove(x, y, dx, dy, k) && JumpCaptures(b, x, y, sign, dx, dy, s, p, k);
      if p > s {
        ClearFront(b, x, y, dx, dy, s, p);
      }
      assert InBounds(nx, ny);
    }
    if !InBounds(nx, ny) {
    } else if b[nx][ny] == 0 {
      ScreenCaptureEmpty(b, x, y, sign, dx, dy, s, m);
    } else {
      ScreenCaptureScreen(b, x, y, sign, dx, dy, s, m);
    }
  }

  /** Before the jump, the Cannon's ray from step `s` lists exactly its quiet
      moves and its captures over one screen. */
  lemma {:induction false} CannonRayMembers(b: Board, x: int, y: int, sign: Sign, dx: int, dy: int, s: nat, m: Move)
    ensures m in CannonRay(b, x, y, sign, dx, dy, s, false) <==>
      QuietMove(b, x, y, dx, dy, s, m) || ScreenCapture(b, x, y, sign, dx, dy, s, m)
    decreases 10 - s
  {
    if s < 10 {
      QuietMoveStep(b, x, y, dx, dy, s, m);
      ScreenCaptureStep(b, x, y, sign, dx, dy, s, m);
      var nx, ny := Along(x, dx, s), Along(y, dy, s);
      if InBounds(nx, ny) && b[nx][ny] == 0 {
        CannonRayMembers(b, x, y, sign, dx, dy, s + 1, m);
      } else if InBounds(nx, ny) {
        CannonRayJumpedMembers(b, x, y, sign, dx, dy, s + 1, m);
      }
    } else {
      assert !QuietMove(b, x, y, dx, dy, s, m);
      assert !ScreenCapture(b, x, y, sign, dx, dy, s, m);
    }
  }

  /** A Chariot moves any number of steps along a row or column, over empty
      cells only, onto an empty cell or an enemy piece. */
  lemma ChariotMoveRule(b: Board, x: int, y: int, sign: Sign, m: Move)
    ensures m in ChariotMoves(b, x, y, sign) <==>
      exists d, k | d in Orthogonal && 1 <= k < 10 ::
        m == RayMove(x, y, d.0, d.1, k) && Reaches(b, x, y, sign, d.0, d.1, 1, k)
  {
    JoinedMembers(ChariotRays(b, x, y, sign), Orthogonal, |Orthogonal|, m);
    forall i | 0 <= i < 4 {
      ChariotRayMembers(b, x, y, sign, Orthogonal[i].0, Orthogonal[i].1, 1, m);
    }
  }

  /** A Cannon moves along a row or column either over empty cells onto an
      empty cell, or over exactly one occupied cell (the screen) and empty
      cells onto an enemy piece. */
  lemma CannonMoveRule(b: Board, x: int, y: int, sign: Sign, m: Move)
    ensures m in CannonMoves(b, x, y, sign) <==>
      exists d | d in Orthogonal ::
        QuietMove(b, x, y, d.0, d.1, 1, m) || ScreenCapture(b, x, y, sign, d.0, d.1, 1, m)
  {
    JoinedMembers(CannonRays(b, x, y, sign), Orthogonal, |Orthogonal|, m);
    forall i | 0 <= i < 4 {
      CannonRayMembers(b, x, y, sign, Orthogonal[i].0, Orthogonal[i].1, 1, m);
    }
  }

  /** A Cannon move onto an empty cell is a quiet move with nothing in its
      way, and one onto an occupied cell jumps exactly one screen and takes an
      enemy piece: an empty cell beyond the screen is never a target. */
  lemma CannonTargets(b: Board, x: int, y: int, sign: Sign, m: Move)
    requires m in CannonMoves(b, x, y, sign)
    ensures b[m.toRow][m.toCol] == 0 ==> exists d | d in Orthogonal :: QuietMove(b, x, y, d.0, d.1, 1, m)
    ensures b[m.toRow][m.toCol] != 0 ==>
      Signed(b[m.toRow][m.toCol], sign) < 0 && exists d | d in Orthogonal :: ScreenCapture(b, x, y, sign, d.0, d.1, 1, m)
  {
    CannonMoveRule(b, x, y, sign, m);
    var d :| d in Orthogonal && (QuietMove(b, x, y, d.0, d.1, 1, m) || ScreenCapture(b, x, y, sign, d.0, d.1, 1, m));
    if QuietMove(b, x, y, d.0, d.1, 1, m) {
      var k :| 1 <= k < 10 && m == RayMove(x, y, d.0, d.1, k) && Clear(b, x, y, d.0, d.1, 1, k + 1);
      assert InBounds(Along(x, d.0, k), Along(y, d.1, k)) && b[Along(x, d.0, k)][Along(y, d.1, k)] == 0;
    }
  }

  // ---------------------------------------------------------------------
  // The scan over the board
  // ---------------------------------------------------------------------

  /** `m` is a move that the generator of the piece of side `sign` on its
      source cell lists. */
  predicate PieceMove(b: Board, sign: Sign, m: Move) {
    InBounds(m.fromRow, m.fromCol) && Signed(b[m.fromRow][m.fromCol], sign) > 0 &&
    m in PieceMoves(b, m.fromRow, m.fromCol, Abs(b[m.fromRow][m.fromCol]), sign)
  }

  lemma MovesAtMembers(b: Board, sign: Sign, i: int, j: int, m: Move)
    ensures m in MovesAt(b, sign, i, j) <==> m.fromRow == i && m.fromCol == j && PieceMove(b, sign, m)
  {
  }

  /** The moves of side `sign` are exactly the moves that the generator of
      each of its pieces lists for that piece. */
  lemma LegalMoveRule(b: Board, sign: Sign, m: Move)
    ensures m in LegalMoves(b, sign) <==> PieceMove(b, sign, m)
  {
    forall r, c | m in MovesAt(b, sign, r, c)
      ensures r == m.fromRow && c == m.fromCol
    {
    }
    ScanMembers((r, c) => MovesAt(b, sign, r, c), Rows, 0, m);
    MovesAtMembers(b, sign, m.fromRow, m.fromCol, m);
  }
}
