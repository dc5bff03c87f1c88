/** The game as a value: the board, the side to move, the end-of-game flag,
    the winner and the move history, and the effect of one call of the
    engine's move operation on them. The engine's class is proved to update
    its fields exactly as `Play` says. */
module GameRules {
  import opened BoardModel
  import opened MoveRules

  datatype Option<T> = None | Some(value: T)

  /** One entry of the move history: the side that moved, its move, and the
      value that stood on the target before (0 when nothing was captured). */
  datatype HistoryEntry = HistoryEntry(player: Player, move: Move, captured: int)

  datatype Game = Game(board: Board, current: Player, over: bool, winner: Option<Player>, history: seq<HistoryEntry>)

  /** The state after construction or reset: the starting layout, Red to
      move, the game running, no winner and no history. */
  function InitialGame(): Game {
    Game(InitialBoard(), Red, false, None, [])
  }

  /** The code of side `p`'s General: 1 for Red, -1 for Black. */
  function GeneralOf(p: Player): (v: int)
    ensures Abs(v) == General && Signed(v, SignOf(p)) > 0
  {
    SignOf(p) * General
  }

  /** The board after the piece on the source of `m` moves to its target:
      the target takes the source's value, then the source is emptied. */
  function Apply(b: Board, m: Move): (r: Board)
    requires InBounds(m.fromRow, m.fromCol) && InBounds(m.toRow, m.toCol)
    ensures forall i, j | 0 <= i < Rows && 0 <= j < Cols ::
      r[i][j] ==
        if i == m.fromRow && j == m.fromCol then 0
        else if i == m.toRow && j == m.toCol then b[m.fromRow][m.fromCol]
        else b[i][j]
  {
    var b1 := b[m.toRow := b[m.toRow][m.toCol := b[m.fromRow][m.fromCol]]];
    b1[m.fromRow := b1[m.fromRow][m.fromCol := 0]]
  }

  /** The winner the end-of-game test declares for `b`, if any: Black when
      no Red General is left, otherwise Red when no Black General is left. */
  function Winner(b: Board): (w: Option<Player>)
    ensures w == None <==> HasPiece(b, GeneralOf(Red)) && HasPiece(b, GeneralOf(Black))
    ensures w.Some? ==> !HasPiece(b, GeneralOf(Opponent(w.value)))
    ensures !HasPiece(b, GeneralOf(Red)) ==> w == Some(Black)
    ensures HasPiece(b, GeneralOf(Red)) && !HasPiece(b, GeneralOf(Black)) ==> w == Some(Red)
  {
    if !HasPiece(b, General) then Some(Black)
    else if !HasPiece(b, -General) then Some(Red)
    else None
  }

  /** The state after side `g.current` plays the accepted move `m`: the piece
      moves, the turn passes, the history records the mover, the move and
      the value that stood on the target, and the game ends, naming the
      winner, when a General is missing; otherwise the end-of-game fields
      keep their values. */
  function Next(g: Game, m: Move): (h: Game)
    requires InBounds(m.fromRow, m.fromCol) && InBounds(m.toRow, m.toCol)
    ensures h.board == Apply(g.board, m) && h.current == Opponent(g.current)
    ensures h.history == g.history + [HistoryEntry(g.current, m, g.board[m.toRow][m.toCol])]
    ensures Winner(h.board).Some? ==> h.over && h.winner == Winner(h.board)
    ensures Winner(h.board).None? ==> h.over == g.over && h.winner == g.winner
  {
    var b := Apply(g.board, m);
    var w := Winner(b);
    Game(b, Opponent(g.current), if w.Some? then true else g.over, if w.Some? then w else g.winner,
      g.history + [HistoryEntry(g.current, m, g.board[m.toRow][m.toCol])])
  }

  /** One call of the move operation on `g`: the new state and whether the
      move was accepted. A move is refused, and nothing changes, once the game
      is over or when it is not among the side to move's moves; otherwise the
      state advances as `Next` says. */
  function Play(g: Game, m: Move): (r: (Game, bool))
    ensures !r.1 ==> r.0 == g
  {
    if g.over || m !in LegalMoves(g.board, SignOf(g.current)) then (g, false)
    else
      LegalMovesSound(g.board, SignOf(g.current));
      (Next(g, m), true)
  }

  /** The states reachable by play keep both Generals on the board while the
      game runs; once it is over, the side that made the last move is the
      winner, its General is on the board and the loser's is not. */
  predicate Consistent(g: Game) {
    (!g.over ==> g.winner == None && HasPiece(g.board, GeneralOf(Red)) && HasPiece(g.board, GeneralOf(Black))) &&
    (g.over ==>
      g.winner == Some(Opponent(g.current)) &&
      HasPiece(g.board, GeneralOf(Opponent(g.current))) && !HasPiece(g.board, GeneralOf(g.current)) &&
      |g.history| > 0 && g.history[|g.history| - 1].player == Opponent(g.current))
  }

  /** The state after playing `moves` one after another from `g`, ignoring refusals. */
  function PlayAll(g: Game, moves: seq<Move>): Game
    decreases |moves|
  {
    if moves == [] then g else PlayAll(Play(g, moves[0]).0, moves[1..])
  }

  /** A move is accepted exactly when the game is running and the move is one
      of the side to move's moves. Then the target holds the moved piece, the
      source is empty, every other cell is unchanged, the history grows by
      one entry naming the mover, the move and the captured value, and the
      other side is to move. */
  lemma PlayEffect(g: Game, m: Move)
    ensures Play(g, m).1 <==> !g.over && m in LegalMoves(g.board, SignOf(g.current))
    ensures Play(g, m).1 ==>
      var h := Play(g, m).0;
      InBounds(m.fromRow, m.fromCol) && InBounds(m.toRow, m.toCol) &&
      h.board[m.toRow][m.toCol] == g.board[m.fromRow][m.fromCol] && h.board[m.fromRow][m.fromCol] == 0 &&
      (forall i, j | 0 <= i < Rows && 0 <= j < Cols && (i, j) != (m.fromRow, m.fromCol) && (i, j) != (m.toRow, m.toCol) ::
        h.board[i][j] == g.board[i][j]) &&
      h.history == g.history + [HistoryEntry(g.current, m, g.board[m.toRow][m.toCol])] &&
      h.current == Opponent(g.current)
  {
    if Play(g, m).1 {
      var sign := SignOf(g.current);
      LegalMovesSound(g.board, sign);
      assert Signed(g.board[m.fromRow][m.fromCol], sign) > 0 && Signed(g.board[m.toRow][m.toCol], sign) <= 0;
    }
  }

  /** Moving a piece onto a cell that does not hold `v` keeps a piece of value
      `v` on the board. */
  lemma ApplyKeeps(b: Board, m: Move, v: int)
    requires InBounds(m.fromRow, m.fromCol) && InBounds(m.toRow, m.toCol)
    requires HasPiece(b, v) && b[m.toRow][m.toCol] != v
    ensures HasPiece(Apply(b, m), v)
  {
    var r, c :| 0 <= r < Rows && 0 <= c < Cols && b[r][c] == v;
    var after := Apply(b, m);
    if r == m.fromRow && c == m.fromCol {
      assert after[m.toRow][m.toCol] == v;
    } else {
      assert after[r][c] == v;
    }
  }

  /** A move never lands on a piece of the mover's side, so the mover's
      General is still on the board after it. */
  lemma MoveKeepsOwnGeneral(b: Board, p: Player, m: Move)
    requires m in LegalMoves(b, SignOf(p)) && HasPiece(b, GeneralOf(p))
    ensures InBounds(m.fromRow, m.fromCol) && InBounds(m.toRow, m.toCol) && HasPiece(Apply(b, m), GeneralOf(p))
  {
    LegalMovesSound(b, SignOf(p));
    ApplyKeeps(b, m, GeneralOf(p));
  }

  /** Play keeps the state consistent: while both Generals stand the game
      runs, and a move that takes a General ends it with the mover as the
      winner. */
  lemma PlayKeepsConsistent(g: Game, m: Move)
    requires Consistent(g)
    ensures Consistent(Play(g, m).0)
    ensures Play(g, m).1 && Play(g, m).0.over ==> Play(g, m).0.winner == Some(g.current)
  {
    if Play(g, m).1 {
      MoveKeepsOwnGeneral(g.board, g.current, m);
      assert HasPiece(Next(g, m).board, GeneralOf(g.current));
    }
  }

  /** The starting state is consistent. */
  lemma InitialGameConsistent()
    ensures Consistent(InitialGame())
  {
    InitialGenerals();
  }

  /** Every state reached by play from a consistent state is consistent. */
  lemma {:induction false} PlayAllConsistent(g: Game, moves: seq<Move>)
    requires Consistent(g)
    ensures Consistent(PlayAll(g, moves))
    decreases |moves|
  {
    if moves != [] {
      PlayKeepsConsistent(g, moves[0]);
      PlayAllConsistent(Play(g, moves[0]).0, moves[1..]);
    }
  }

  /** Once the game is over no move is accepted, so further play changes nothing. */
  lemma {:induction false} OverIsFinal(g: Game, moves: seq<Move>)
    requires g.over
    ensures PlayAll(g, moves) == g
    decreases |moves|
  {
    if moves != [] {
      OverIsFinal(g, moves[1..]);
    }
  }

  /** Play from the starting position never leaves a finished game without
      its winner: whenever it is over, the side that made the last move won
      by taking the other side's General. */
  lemma PlayFromStart(moves: seq<Move>)
    ensures var g := PlayAll(InitialGame(), moves);
      g.over ==>
        g.winner == Some(Opponent(g.current)) && !HasPiece(g.board, GeneralOf(g.current)) &&
        |g.history| > 0 && g.history[|g.history| - 1].player == Opponent(g.current)
  {
    InitialGameConsistent();
    PlayAllConsistent(InitialGame(), moves);
  }
}
