/** The rules engine as the imperative object it is: a 10 x 9 array of piece
    codes updated in place, the side to move, the end-of-game flag, the winner
    and the move history. Each generator builds its list with the loops and
    early exits of the engine's generators and is proved to return exactly
    the list the corresponding function of `MoveRules` describes; `MakeMove`
    is proved to update the fields exactly as `GameRules.Play` says. */
module Engine {
  import opened BoardModel
  import opened MoveRules
  import opened GameRules

  /** The contents of a 10 x 9 array as a board value. */
  ghost function ContentsOf(a: array2<int>): (b: Board)
    requires a.Length0 == Rows && a.Length1 == Cols
    reads a
    ensures forall i, j | 0 <= i < Rows && 0 <= j < Cols :: b[i][j] == a[i, j]
  {
    seq(Rows, i reads a requires 0 <= i < Rows => seq(Cols, j reads a requires 0 <= j < Cols => a[i, j]))
  }

  /** Two boards with the same cells are the same board. */
  lemma SameCells(b: Board, c: Board)
    requires forall i, j | 0 <= i < Rows && 0 <= j < Cols :: b[i][j] == c[i][j]
    ensures b == c
  {
    forall i | 0 <= i < Rows
      ensures b[i] == c[i]
    {
      assert forall j | 0 <= j < Cols :: b[i][j] == c[i][j];
    }
  }

  /** One offset of the General's or the Advisor's generator, read off the
      array that holds the board: the move is added when the target is in
      the palace and holds no piece of the mover's side. */
  lemma PalaceStepOnArray(a: array2<int>, x: int, y: int, sign: Sign, kind: int, dirs: seq<(int, int)>, k: nat, nx: int, ny: int)
    requires a.Length0 == Rows && a.Length1 == Cols
    requires (kind == General || kind == Advisor) && k < |dirs|
    requires nx == x + dirs[k].0 && ny == y + dirs[k].1
    ensures StepMoves(ContentsOf(a), x, y, sign, kind, dirs, k + 1) ==
      StepMoves(ContentsOf(a), x, y, sign, kind, dirs, k) +
      (if InPalace(nx, ny, sign) && Signed(a[nx, ny], sign) <= 0 then [Move(x, y, nx, ny)] else [])
  {
  }

  /** One offset of the Elephant's generator, read off the array: the move is
      added when the target is on the board and in the own territory, the eye
      (eyeX, eyeY) is on the board and empty, and the target holds no piece of
      the mover's side. */
  lemma ElephantStepOnArray(a: array2<int>, x: int, y: int, sign: Sign, k: nat, nx: int, ny: int, eyeX: int, eyeY: int)
    requires a.Length0 == Rows && a.Length1 == Cols && k < |ElephantJumps|
    requires nx == x + ElephantJumps[k].0 && ny == y + ElephantJumps[k].1
    requires eyeX == x + ElephantJumps[k].0 / 2 && eyeY == y + ElephantJumps[k].1 / 2
    ensures StepMoves(ContentsOf(a), x, y, sign, Elephant, ElephantJumps, k + 1) ==
      StepMoves(ContentsOf(a), x, y, sign, Elephant, ElephantJumps, k) +
      (if 0 <= nx < Rows && 0 <= ny < Cols && InTerritory(nx, sign) &&
          0 <= eyeX < Rows && 0 <= eyeY < Cols && a[eyeX, eyeY] == 0 && Signed(a[nx, ny], sign) <= 0
       then [Move(x, y, nx, ny)] else [])
  {
  }

  /** One offset of the Horse's generator, read off the array: the move is
      added when the target and the leg (legX, legY) are on the board, the leg is
      empty, and the target holds no piece of the mover's side. */
  lemma HorseStepOnArray(a: array2<int>, x: int, y: int, sign: Sign, k: nat, nx: int, ny: int, legX: int, legY: int)
    requires a.Length0 == Rows && a.Length1 == Cols && k < |HorseJumps|
    requires nx == x + HorseJumps[k].0 && ny == y + HorseJumps[k].1
    requires legX == x + HorseJumps[k].0 / 2 && legY == y + HorseJumps[k].1 / 2
    ensures StepMoves(ContentsOf(a), x, y, sign, Horse, HorseJumps, k + 1) ==
      StepMoves(ContentsOf(a), x, y, sign, Horse, HorseJumps, k) +
      (if 0 <= nx < Rows && 0 <= ny < Cols &&
          0 <= legX < Rows && 0 <= legY < Cols && a[legX, legY] == 0 && Signed(a[nx, ny], sign) <= 0
       then [Move(x, y, nx, ny)] else [])
  {
  }

  /** One offset of the Soldier's generator, read off the array: the move is
      added when the target is on the board and holds no piece of the mover's
      side. */
  lemma SoldierStepOnArray(a: array2<int>, x: int, y: int, sign: Sign, dirs: seq<(int, int)>, k: nat, nx: int, ny: int)
    requires a.Length0 == Rows && a.Length1 == Cols && k < |dirs|
    requires nx == x + dirs[k].0 && ny == y + dirs[k].1
    ensures StepMoves(ContentsOf(a), x, y, sign, Soldier, dirs, k + 1) ==
      StepMoves(ContentsOf(a), x, y, sign, Soldier, dirs, k) +
      (if 0 <= nx < Rows && 0 <= ny < Cols && Signed(a[nx, ny], sign) <= 0 then [Move(x, y, nx, ny)] else [])
  {
  }

  /** One step of a Chariot ray, read off the array that holds the board. */
  lemma ChariotRayOnArray(a: array2<int>, x: int, y: int, sign: Sign, dx: int, dy: int, step: nat, nx: int, ny: int)
    requires a.Length0 == Rows && a.Length1 == Cols && step < 10
    requires nx == x + dx * step && ny == y + dy * step
    ensures ChariotRay(ContentsOf(a), x, y, sign, dx, dy, step) ==
        if !(0 <= nx < Rows && 0 <= ny < Cols) then []
        else if a[nx, ny] == 0 then [Move(x, y, nx, ny)] + ChariotRay(ContentsOf(a), x, y, sign, dx, dy, step + 1)
        else if Signed(a[nx, ny], sign) < 0 then [Move(x, y, nx, ny)]
        else []
  {
  }

  /** One step of a Cannon ray, read off the array that holds the board. */
  lemma CannonRayOnArray(a: array2<int>, x: int, y: int, sign: Sign, dx: int, dy: int, step: nat, jumped: bool, nx: int, ny: int)
    requires a.Length0 == Rows && a.Length1 == Cols && step < 10
    requires nx == x + dx * step && ny == y + dy * step
    ensures CannonRay(ContentsOf(a), x, y, sign, dx, dy, step, jumped) ==
        if !(0 <= nx < Rows && 0 <= ny < Cols) then []
        else if !jumped then
          if a[nx, ny] == 0 then [Move(x, y, nx, ny)] + CannonRay(ContentsOf(a), x, y, sign, dx, dy, step + 1, false)
          else CannonRay(ContentsOf(a), x, y, sign, dx, dy, step + 1, true)
        else if a[nx, ny] != 0 then
          if Signed(a[nx, ny], sign) < 0 then [Move(x, y, nx, ny)] else []
        else CannonRay(ContentsOf(a), x, y, sign, dx, dy, step + 1, true)
  {
  }

  /** The Chariot's moves after its ray along the `k`-th direction is added. */
  lemma ChariotDirection(b: Board, x: int, y: int, sign: Sign, k: nat, dx: int, dy: int)
    requires k < |Orthogonal| && dx == Orthogonal[k].0 && dy == Orthogonal[k].1
    ensures Joined(ChariotRays(b, x, y, sign), Orthogonal, k + 1) ==
      Joined(ChariotRays(b, x, y, sign), Orthogonal, k) + ChariotRay(b, x, y, sign, dx, dy, 1)
  {
  }

  /** The Cannon's moves after its ray along the `k`-th direction is added. */
  lemma CannonDirection(b: Board, x: int, y: int, sign: Sign, k: nat, dx: int, dy: int)
    requires k < |Orthogonal| && dx == Orthogonal[k].0 && dy == Orthogonal[k].1
    ensures Joined(CannonRays(b, x, y, sign), Orthogonal, k + 1) ==
      Joined(CannonRays(b, x, y, sign), Orthogonal, k) + CannonRay(b, x, y, sign, dx, dy, 1, false)
  {
  }

  /** One cell of the scan over the board, read off the array: the moves of
      the piece on (i, j) are added when it belongs to side `sign`. */
  lemma ScanCellOnArray(a: array2<int>, sign: Sign, i: int, j: int)
    requires a.Length0 == Rows && a.Length1 == Cols && 0 <= i < Rows && 0 <= j < Cols
    ensures LegalMovesBefore(ContentsOf(a), sign, i, j + 1) ==
      LegalMovesBefore(ContentsOf(a), sign, i, j) +
      (if Signed(a[i, j], sign) > 0 then PieceMoves(ContentsOf(a), i, j, Abs(a[i, j]), sign) else [])
  {
    LegalMovesBeforeNext(ContentsOf(a), sign, i, j);
  }

  /** Appending one move to the collected moves, then the rest of a ray.
      Stated apart from the ray loops so that their proofs stay small: the
      same step written as an assertion inside a loop costs far more. */
  lemma Emit(moves: seq<Move>, m: Move, rest: seq<Move>, goal: seq<Move>)
    requires moves + ([m] + rest) == goal
    ensures (moves + [m]) + rest == goal
  {
    assert moves + ([m] + rest) == (moves + [m]) + rest;
  }

  /** Nothing is left of a ray: the collected moves are complete. Stated
      apart from the ray loops for the same reason as `Emit`. */
  lemma Done(moves: seq<Move>, goal: seq<Move>)
    requires moves + [] == goal
    ensures moves == goal
  {
    assert moves + [] == moves;
  }

  class ChineseChess {
    var board: array2<int>
    var currentPlayer: Player
    var gameOver: bool
    var winner: Option<Player>
    var moveHistory: seq<HistoryEntry>

    ghost predicate Valid()
      reads this
    {
      board.Length0 == Rows && board.Length1 == Cols
    }

    /** The board as a value. */
    ghost function Cells(): Board
      requires Valid()
      reads this, board
    {
      ContentsOf(board)
    }

    /** All fields as a value. */
    ghost function State(): Game
      requires Valid()
      reads this, board
    {
      Game(Cells(), currentPlayer, gameOver, winner, moveHistory)
    }

    constructor ()
      ensures Valid() && fresh(board)
      ensures State() == InitialGame()
    {
      var a := InitBoard();
      board := a;
      currentPlayer := Red;
      gameOver := false;
      winner := None;
      moveHistory := [];
    }

    /** A new array holding the starting layout: empty cells, with each
        side's pieces on its back rank, Cannon row and Soldier row. */
    static method InitBoard() returns (a: array2<int>)
      ensures fresh(a) && a.Length0 == Rows && a.Length1 == Cols
      ensures ContentsOf(a) == InitialBoard()
    {
      a := new int[Rows, Cols]((i, j) => InitialCell(i, j));
      SameCells(ContentsOf(a), InitialBoard());
    }

    /** Restores the starting state on a new array. */
    method Reset()
      modifies this
      ensures Valid() && fresh(board)
      ensures State() == InitialGame()
    {
      board := InitBoard();
      currentPlayer := Red;
      gameOver := false;
      winner := None;
      moveHistory := [];
    }

    /** An independent copy of the board. */
    method GetBoardState() returns (copy: array2<int>)
      requires Valid()
      ensures fresh(copy) && copy.Length0 == Rows && copy.Length1 == Cols
      ensures ContentsOf(copy) == Cells()
    {
      var source := board;
      copy := new int[Rows, Cols]((i, j) reads source =>
        if 0 <= i < source.Length0 && 0 <= j < source.Length1 then source[i, j] else 0);
      SameCells(ContentsOf(copy), Cells());
    }
  
    /** Applies move `m` for the side to move: refused, with nothing changed,
        once the game is over or when `m` is not among that side's moves;
        otherwise the state advances as `Commit` does. */
    method MakeMove(m: Move) returns (ok: bool)
      requires Valid()
      modifies this, board
      ensures Valid() && board == old(board)
      ensures (State(), ok) == Play(old(State()), m)
    {
      if gameOver {
        return false;
      }
      var legal := GetLegalMoves(currentPlayer);
      if m !in legal {
        return false;
      }
      LegalMovesSound(Cells(), SignOf(currentPlayer));
      Commit(m);
      ok := true;
    }

    /** The accepted-move path of `MakeMove`: the piece on the source moves to
        the target and the source is emptied, the history records the mover,
        the move and the captured value, the turn passes and the end-of-game
        test runs. */
    method Commit(m: Move)
      requires Valid() && InBounds(m.fromRow, m.fromCol) && InBounds(m.toRow, m.toCol)
      modifies this, board
      ensures Valid() && board == old(board)
      ensures State() == Next(old(State()), m)
    {
      ghost var b0 := Cells();
      var captured := board[m.toRow, m.toCol];
      board[m.toRow, m.toCol] := board[m.fromRow, m.fromCol];
      board[m.fromRow, m.fromCol] := 0;
      forall i, j | 0 <= i < Rows && 0 <= j < Cols
        ensures Cells()[i][j] == Apply(b0, m)[i][j]
      {
      }
      SameCells(Cells(), Apply(b0, m));
      moveHistory := moveHistory + [HistoryEntry(currentPlayer, m, captured)];
      currentPlayer := if currentPlayer == Red then Black else Red;
      CheckGameOver();
    }

    /** The end-of-game test: the game ends with Black as the winner when no
        Red General is on the board, otherwise with Red as the winner when no
        Black General is; when both stand nothing changes. */
    method CheckGameOver()
      requires Valid()
      modifies this
      ensures Valid() && board == old(board) && Cells() == old(Cells())
      ensures currentPlayer == old(currentPlayer) && moveHistory == old(moveHistory)
      ensures Winner(Cells()).Some? ==> gameOver && winner == Winner(Cells())
      ensures Winner(Cells()).None? ==> gameOver == old(gameOver) && winner == old(winner)
    {
      var redHasGeneral := HasValue(General);
      var blackHasGeneral := HasValue(-General);
      if !redHasGeneral {
        gameOver := true;
        winner := Some(Black);
      } else if !blackHasGeneral {
        gameOver := true;
        winner := Some(Red);
      }
    }

    /** Whether some cell of the board holds `v`. */
    method HasValue(v: int) returns (found: bool)
      requires Valid()
      ensures found == HasPiece(Cells(), v)
    {
      found := false;
      for i := 0 to Rows
        invariant found <==> exists r, c | 0 <= r < i && 0 <= c < Cols :: board[r, c] == v
      {
        for j := 0 to Cols
          invariant found <==>
            (exists r, c | 0 <= r < i && 0 <= c < Cols :: board[r, c] == v) ||
            (exists c | 0 <= c < j :: board[i, c] == v)
        {
          if board[i, j] == v {
            found := true;
          }
        }
      }
    }

    /** The moves of side `player`: the moves of each of its pieces, scanning
        the board row by row. */
    method GetLegalMoves(player: Player) returns (moves: seq<Move>)
      requires Valid()
      ensures moves == LegalMoves(Cells(), SignOf(player))
    {
      moves := [];
      ghost var b := Cells();
      var sign: Sign := if player == Red then 1 else -1;
      for i := 0 to Rows
        invariant moves == LegalMovesBefore(b, sign, i, 0)
      {
        for j := 0 to Cols
          invariant moves == LegalMovesBefore(b, sign, i, j)
        {
          ScanCellOnArray(board, sign, i, j);
          var piece := board[i, j];
          if Signed(piece, sign) > 0 {
            var pieceMoves := GetPieceMoves(i, j, Abs(piece), sign);
            moves := moves + pieceMoves;
          }
        }
        LegalMovesBeforeRowEnd(b, sign, i);
      }
    }

    /** The moves of the piece of kind `kind` and side `sign` at (x, y). */
    method GetPieceMoves(x: int, y: int, kind: int, sign: Sign) returns (moves: seq<Move>)
      requires Valid()
      ensures moves == PieceMoves(Cells(), x, y, kind, sign)
    {
      if kind == General {
        moves := GeneralMoves(x, y, sign);
      } else if kind == Advisor {
        moves := AdvisorMoves(x, y, sign);
      } else if kind == Elephant {
        moves := ElephantMoves(x, y, sign);
      } else if kind == Horse {
        moves := HorseMoves(x, y, sign);
      } else if kind == Chariot {
        moves := ChariotMoves(x, y, sign);
      } else if kind == Cannon {
        moves := CannonMoves(x, y, sign);
      } else if kind == Soldier {
        moves := SoldierMoves(x, y, sign);
      } else {
        moves := [];
      }
    }

    method GeneralMoves(x: int, y: int, sign: Sign) returns (moves: seq<Move>)
      requires Valid()
      ensures moves == MoveRules.GeneralMoves(Cells(), x, y, sign)
    {
      moves := [];
      ghost var b := Cells();
      for k := 0 to |Orthogonal|
        invariant moves == StepMoves(b, x, y, sign, General, Orthogonal, k)
      {
        var (dx, dy) := Orthogonal[k];
        var nx, ny := x + dx, y + dy;
        PalaceStepOnArray(board, x, y, sign, General, Orthogonal, k, nx, ny);
        if InPalace(nx, ny, sign) && Signed(board[nx, ny], sign) <= 0 {
          moves := moves + [Move(x, y, nx, ny)];
        }
      }
    }

    method AdvisorMoves(x: int, y: int, sign: Sign) returns (moves: seq<Move>)
      requires Valid()
      ensures moves == MoveRules.AdvisorMoves(Cells(), x, y, sign)
    {
      moves := [];
      ghost var b := Cells();
      for k := 0 to |Diagonal|
        invariant moves == StepMoves(b, x, y, sign, Advisor, Diagonal, k)
      {
        var (dx, dy) := Diagonal[k];
        var nx, ny := x + dx, y + dy;
        PalaceStepOnArray(board, x, y, sign, Advisor, Diagonal, k, nx, ny);
        if InPalace(nx, ny, sign) && Signed(board[nx, ny], sign) <= 0 {
          moves := moves + [Move(x, y, nx, ny)];
        }
      }
    }

    method ElephantMoves(x: int, y: int, sign: Sign) returns (moves: seq<Move>)
      requires Valid()
      ensures moves == MoveRules.ElephantMoves(Cells(), x, y, sign)
    {
      moves := [];
      ghost var b := Cells();
      for k := 0 to |ElephantJumps|
        invariant moves == StepMoves(b, x, y, sign, Elephant, ElephantJumps, k)
      {
        var (dx, dy) := ElephantJumps[k];
        var nx, ny := x + dx, y + dy;
        var blockX, blockY := x + dx / 2, y + dy / 2;
        ElephantStepOnArray(board, x, y, sign, k, nx, ny, blockX, blockY);
        if 0 <= nx < Rows && 0 <= ny < Cols && InTerritory(nx, sign) &&
           0 <= blockX < Rows && 0 <= blockY < Cols &&
           board[blockX, blockY] == 0 &&
           Signed(board[nx, ny], sign) <= 0 {
          moves := moves + [Move(x, y, nx, ny)];
        }
      }
    }

    method HorseMoves(x: int, y: int, sign: Sign) returns (moves: seq<Move>)
      requires Valid()
      ensures moves == MoveRules.HorseMoves(Cells(), x, y, sign)
    {
      moves := [];
      ghost var b := Cells();
      for k := 0 to |HorseJumps|
        invariant moves == StepMoves(b, x, y, sign, Horse, HorseJumps, k)
      {
        var (dx, dy) := HorseJumps[k];
        var nx, ny := x + dx, y + dy;
        var blockX, blockY := x + dx / 2, y + dy / 2;
        HorseStepOnArray(board, x, y, sign, k, nx, ny, blockX, blockY);
        if 0 <= nx < Rows && 0 <= ny < Cols &&
           0 <= blockX < Rows && 0 <= blockY < Cols &&
           board[blockX, blockY] == 0 &&
           Signed(board[nx, ny], sign) <= 0 {
          moves := moves + [Move(x, y, nx, ny)];
        }
      }
    }

    method SoldierMoves(x: int, y: int, sign: Sign) returns (moves: seq<Move>)
      requires Valid()
      ensures moves == MoveRules.SoldierMoves(Cells(), x, y, sign)
    {
      moves := [];
      ghost var b := Cells();
      var directions: seq<(int, int)>;
      if sign == 1 {
        directions := [(-1, 0)];
        if x <= 4 {
          directions := directions + [(0, 1), (0, -1)];
        }
      } else {
        directions := [(1, 0)];
        if x >= 5 {
          directions := directions + [(0, 1), (0, -1)];
        }
      }
      assert directions == SoldierSteps(x, sign);
      for k := 0 to |directions|
        invariant moves == StepMoves(b, x, y, sign, Soldier, directions, k)
      {
        var (dx, dy) := directions[k];
        var nx, ny := x + dx, y + dy;
        SoldierStepOnArray(board, x, y, sign, directions, k, nx, ny);
        if 0 <= nx < Rows && 0 <= ny < Cols && Signed(board[nx, ny], sign) <= 0 {
          moves := moves + [Move(x, y, nx, ny)];
        }
      }
    }

    method ChariotMoves(x: int, y: int, sign: Sign) returns (moves: seq<Move>)
      requires Valid()
      ensures moves == MoveRules.ChariotMoves(Cells(), x, y, sign)
    {
      moves := [];
      ghost var b := Cells();
      for k := 0 to |Orthogonal|
        invariant moves == Joined(ChariotRays(b, x, y, sign), Orthogonal, k)
      {
        var (dx, dy) := Orthogonal[k];
        ChariotDirection(b, x, y, sign, k, dx, dy);
        var ray := ChariotRayMoves(x, y, sign, dx, dy);
        moves := moves + ray;
      }
    }

    /** The inner loop of the Chariot's generator: steps 1 to 9 along
        (dx, dy), stopping at the edge or at the first occupied cell. */
    method ChariotRayMoves(x: int, y: int, sign: Sign, dx: int, dy: int) returns (ray: seq<Move>)
      requires Valid()
      ensures ray == ChariotRay(Cells(), x, y, sign, dx, dy, 1)
    {
      ray := [];
      ghost var goal := ChariotRay(Cells(), x, y, sign, dx, dy, 1);
      for step := 1 to 10
        invariant ray + ChariotRay(Cells(), x, y, sign, dx, dy, step) == goal
      {
        var nx, ny := x + dx * step, y + dy * step;
        ChariotRayOnArray(board, x, y, sign, dx, dy, step, nx, ny);
        if !(0 <= nx < Rows && 0 <= ny < Cols) {
          Done(ray, goal);
          return;
        }
        var target := board[nx, ny];
        if target == 0 {
          Emit(ray, Move(x, y, nx, ny), ChariotRay(Cells(), x, y, sign, dx, dy, step + 1), goal);
          ray := ray + [Move(x, y, nx, ny)];
        } else if Signed(target, sign) < 0 {
          ray := ray + [Move(x, y, nx, ny)];
          return;
        } else {
          Done(ray, goal);
          return;
        }
      }
      Done(ray, goal);
    }

    method CannonMoves(x: int, y: int, sign: Sign) returns (moves: seq<Move>)
      requires Valid()
      ensures moves == MoveRules.CannonMoves(Cells(), x, y, sign)
    {
      moves := [];
      ghost var b := Cells();
      for k := 0 to |Orthogonal|
        invariant moves == Joined(CannonRays(b, x, y, sign), Orthogonal, k)
      {
        var (dx, dy) := Orthogonal[k];
        CannonDirection(b, x, y, sign, k, dx, dy);
        var ray := CannonRayMoves(x, y, sign, dx, dy);
        moves := moves + ray;
      }
    }

    /** The inner loop of the Cannon's generator: steps 1 to 9 along
        (dx, dy); `hasJumped` records that the screen has been passed. */
    method CannonRayMoves(x: int, y: int, sign: Sign, dx: int, dy: int) returns (ray: seq<Move>)
      requires Valid()
      ensures ray == CannonRay(Cells(), x, y, sign, dx, dy, 1, false)
    {
      ray := [];
      ghost var goal := CannonRay(Cells(), x, y, sign, dx, dy, 1, false);
      var hasJumped := false;
      for step := 1 to 10
        invariant ray + CannonRay(Cells(), x, y, sign, dx, dy, step, hasJumped) == goal
      {
        var nx, ny := x + dx * step, y + dy * step;
        CannonRayOnArray(board, x, y, sign, dx, dy, step, hasJumped, nx, ny);
        if !(0 <= nx < Rows && 0 <= ny < Cols) {
          Done(ray, goal);
          return;
        }
        var target := board[nx, ny];
        if !hasJumped {
          if target == 0 {
            Emit(ray, Move(x, y, nx, ny), CannonRay(Cells(), x, y, sign, dx, dy, step + 1, false), goal);
            ray := ray + [Move(x, y, nx, ny)];
          } else {
            hasJumped := true;
          }
        } else if target != 0 {
          if Signed(target, sign) < 0 {
            ray := ray + [Move(x, y, nx, ny)];
          } else {
            Done(ray, goal);
          }
          return;
        }
      }
      Done(ray, goal);
    }
  }
}
