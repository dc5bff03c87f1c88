# Xiangqi rules engine

A Dafny model of the rules engine of a Xiangqi (Chinese Chess) self-play
project. The class `ChineseChess` (`chess_core/engine.py`) does three things:

- it holds a 10 x 9 board of signed piece codes (0 empty, positive Red,
  negative Black; magnitude 1 General, 2 Advisor, 3 Elephant, 4 Horse,
  5 Chariot, 6 Cannon, 7 Soldier);
- it lists the pseudo-legal moves of a side, with one generator per piece
  kind and a row-major scan over the board;
- it applies a move, passes the turn and ends the game once a General has
  been taken.

There is no check-safety filter and no facing-Generals rule, in the engine or
in the model.

The project has five modules:

- `BoardModel` (`board.dfy`) covers the grid, the two sides and their
  multiplier (`sign`, 1 for Red and -1 for Black), the palace and territory
  zones, and the starting layout with its piece counts.
- `MoveRules` (`moves.dfy`) defines each generator as a pure function over a
  board value. Each function lists the moves in the order the engine appends
  them. The same module defines the dispatch on the piece kind and the
  row-major scan (`LegalMoves`).
- `MoveFacts` (`facts.dfy`) states each generator declaratively, as an
  if-and-only-if between "the generator lists `m`" and a geometric rule. The
  rules cover the palace and river zones, the blocking leg and eye cells, the
  empty run of a Chariot and the single screen of a Cannon. It also states
  that a side's moves are exactly its pieces' moves.
- `GameRules` (`game.dfy`) holds the game state as a value and the effect of
  one call of the move operation (`Play`). It proves that play keeps the state
  consistent. From the starting position, a finished game always names the
  side that took the other General, and no move is accepted afterwards.
- `Engine` (`engine.dfy`) is the class itself, imperative as in the source.
  The board is an `array2<int>` updated in place. The side to move, the
  end-of-game flag, the winner and the history are fields.
  - Every generator is a method with the engine's loops, `break`s and the
    Cannon's `hasJumped` flag. It is proved to return exactly the list of
    the matching `MoveRules` function.
  - `MakeMove` is proved to change the fields exactly as `GameRules.Play`
    says.
  - The inner step loop of the Chariot and of the Cannon is its own method
    (`ChariotRayMoves`, `CannonRayMoves`), called once per direction.
  - The accepted-move path of `make_move` is the method `Commit`.

Horse leg. The generator tests the cell (x + dx // 2, y + dy // 2), and
Python's `//` rounds toward minus infinity. Dafny's `/` by 2 rounds the same
way on these offsets, and the model follows the code. For the offsets
(2, -1), (-1, 2), (-1, -2) and (-2, -1), the cell tested is therefore a
diagonal neighbour of the Horse, not the orthogonal leg of the Xiangqi rule.
`MoveFacts.HorseLegIsDiagonal` and
`MoveFacts.HorseBlockedDiagonally` state the consequence for the jump
(-1, +2).

## Model

| member | source | states |
|---|---|---|
| BoardModel.Opponent | chess_core/engine.py:232 | the side to move after `p` is never `p` |
| BoardModel.SignOf | chess_core/engine.py:55 | the multiplier is 1 exactly for Red (and -1 otherwise) |
| BoardModel.Signed | chess_core/engine.py:60 | `piece * sign` is positive exactly for a piece of that side, negative exactly for an enemy piece, zero exactly for an empty cell |
| BoardModel.Abs | chess_core/engine.py:61 | the piece kind `abs(piece)` is non-negative and equals the code or its negation |
| BoardModel.InBounds | chess_core/engine.py:129 | definition, no contract: the on-board test `0 <= x < 10 and 0 <= y < 9` the generators repeat |
| BoardModel.InPalace | chess_core/engine.py:202-204 | a cell in a palace is on the board |
| BoardModel.PalacesMirror | chess_core/engine.py:202-204 | Red's palace is Black's palace mirrored across the river |
| BoardModel.InTerritory | chess_core/engine.py:206-208 | a row in a territory is a row of the board |
| BoardModel.TerritoriesPartition | chess_core/engine.py:206-208 | every row of the board is in exactly one territory, and the two territories mirror each other |
| BoardModel.HasPiece | chess_core/engine.py:241-242 | definition, no contract: some cell holds the value, as `np.any(board == v)` |
| BoardModel.BackRank | chess_core/engine.py:21-25 | the back-rank pieces are all positive, at most a Chariot, and the General stands in column 4 only |
| BoardModel.InitialCell | chess_core/engine.py:16-38 | every starting value is a piece code of magnitude at most 7, and every starting piece stands in its own side's territory |
| BoardModel.InitialBoard | chess_core/engine.py:16-38 | the starting board holds `InitialCell(r, c)` in every cell (r, c); its properties are the lemmas below |
| BoardModel.InitialGenerals | chess_core/engine.py:16-38 | the starting board holds exactly one Red General, at (9, 4), and exactly one Black General, at (0, 4) |
| BoardModel.InitialMirrored | chess_core/engine.py:16-38 | the starting board is sign-mirrored: cell (9 - r, c) holds the negation of cell (r, c) |
| BoardModel.InitialPieceCount | chess_core/engine.py:16-38 | each side starts with 16 pieces |
| BoardModel.InitialCount | chess_core/engine.py:16-38 | any board equal to the starting layout holds 16 pieces per side |
| MoveRules.StepMovesSound | chess_core/engine.py:87-90 | every move built from an offset list starts at the piece and passes the piece's step test |
| MoveRules.StepOk | chess_core/engine.py:106-118 | definition, no contract: the per-offset test of each single-step generator (engine.py:89, 100, 110-117, 128-134, 196-198); `ElephantStepOk` and `HorseStepOk` restate it in target coordinates |
| MoveRules.StepMoves | chess_core/engine.py:87-90 | the offset loop lists at most one move per offset tried; `StepMovesMembers` gives its exact members (the same loop as engine.py:98-101, 109-118, 127-135, 194-199) |
| MoveRules.CrossedRiver | chess_core/engine.py:185-192 | definition, no contract: the Soldier's river test `x <= 4` for Red, `x >= 5` for Black; `CrossedRiverOutsideTerritory` relates it to the territories |
| MoveRules.SoldierSteps | chess_core/engine.py:185-192 | the Soldier's directions start with the forward step (-sign, 0), and hold the two sideways steps (0, 1), (0, -1) as well exactly when the river is crossed |
| MoveRules.GeneralMoves | chess_core/engine.py:82-91 | every General move lands in the mover's palace on a cell without a piece of its side |
| MoveRules.AdvisorMoves | chess_core/engine.py:93-102 | every Advisor move lands in the mover's palace on a cell without a piece of its side |
| MoveRules.ElephantMoves | chess_core/engine.py:104-119 | every Elephant move lands on the board in the mover's territory on a cell without a piece of its side |
| MoveRules.HorseMoves | chess_core/engine.py:121-136 | every Horse move lands on the board on a cell without a piece of its side |
| MoveRules.SoldierMoves | chess_core/engine.py:182-200 | every Soldier move lands on the board on a cell without a piece of its side |
| MoveRules.ChariotRay | chess_core/engine.py:144-155 | every move along one Chariot direction lands on the board on a cell without a piece of its side |
| MoveRules.ChariotMoves | chess_core/engine.py:138-156 | every Chariot move lands on the board on a cell without a piece of its side |
| MoveRules.CannonRay | chess_core/engine.py:164-179 | every move along one Cannon direction lands on the board on a cell without a piece of its side |
| MoveRules.CannonMoves | chess_core/engine.py:158-180 | every Cannon move lands on the board on a cell without a piece of its side |
| MoveRules.Joined | chess_core/engine.py:143 | each move of the per-direction concatenation comes from the ray of one of the directions tried |
| MoveRules.JoinedMembers | chess_core/engine.py:143 | a move is in the per-direction concatenation exactly when the ray of some direction tried lists it |
| MoveRules.PieceMoves | chess_core/engine.py:64-80 | the dispatched generator's moves start at the piece and land on the board on a cell without a piece of its side |
| MoveRules.MovesAt | chess_core/engine.py:59-61 | a cell contributes moves only if it is on the board and holds a piece of the side, and those moves start there |
| MoveRules.ScanMembers | chess_core/engine.py:57-61 | the row-major scan up to (i, j) lists a move exactly when a cell before (i, j) lists it for its own source |
| MoveRules.LegalMovesBefore | chess_core/engine.py:57-61 | definition, no contract: the moves of the cells before (i, j) in the nested loops' row-major order |
| MoveRules.LegalMoves | chess_core/engine.py:52-62 | definition, no contract: the full row-major scan; `LegalMoveRule` characterises its members and `Engine.ChineseChess.GetLegalMoves` is proved equal to it |
| MoveRules.LegalMovesSound | chess_core/engine.py:52-62 | every move of a side starts on the board on a piece of that side and ends on the board on a cell holding none of its pieces |
| MoveRules.LegalMoveSound | chess_core/engine.py:52-62 | every move of a side is among the moves of the cell it starts from |
| MoveFacts.StepMovesMembers | chess_core/engine.py:87-90 | a move is among those built from the first `n` offsets exactly when it starts at the piece, its offset is one of them and the step test accepts it |
| MoveFacts.StepMovesAll | chess_core/engine.py:87-90 | the same for the whole offset list |
| MoveFacts.ElephantStepOk | chess_core/engine.py:110-117 | the Elephant's test for a (±2, ±2) jump: target on the board and in own territory, midpoint on the board and empty, target without own piece |
| MoveFacts.HorseStepOk | chess_core/engine.py:128-134 | the Horse's test: target on the board, cell (x + dx / 2, y + dy / 2) on the board and empty, target without own piece |
| MoveFacts.GeneralMoveRule | chess_core/engine.py:82-91 | a General move is exactly one orthogonal step into the own palace onto a cell without a piece of its side |
| MoveFacts.AdvisorMoveRule | chess_core/engine.py:93-102 | an Advisor move is exactly one diagonal step into the own palace onto a cell without a piece of its side |
| MoveFacts.ElephantMoveRule | chess_core/engine.py:104-119 | an Elephant move is exactly a (±2, ±2) jump within the own territory over an empty midpoint onto a cell without a piece of its side |
| MoveFacts.HorseMoveRule | chess_core/engine.py:121-136 | a Horse move is exactly a (1, 2) or (2, 1) jump, in any signs, onto the board without a piece of its side, with cell (x + dx / 2, y + dy / 2) on the board and empty |
| MoveFacts.HorseLegIsDiagonal | chess_core/engine.py:130-134 | the jump (-1, +2) is listed when the orthogonal neighbour (x, y + 1) is occupied but the diagonal (x - 1, y + 1) is empty |
| MoveFacts.HorseBlockedDiagonally | chess_core/engine.py:130-134 | the jump (-1, +2) is refused when only the diagonal (x - 1, y + 1) is occupied |
| MoveFacts.SoldierMoveRule | chess_core/engine.py:182-200 | a Soldier move is exactly one step forward, or one step sideways once across the river, onto the board without a piece of its side |
| MoveFacts.CrossedRiverOutsideTerritory | chess_core/engine.py:185-192 | the Soldier's river test (x <= 4 for Red, x >= 5 for Black) holds exactly outside the own territory |
| MoveFacts.ChariotRayMembers | chess_core/engine.py:144-155 | along one direction, the ray lists the move to step k exactly when the cells before it are empty and step k is on the board without a piece of the mover's side |
| MoveFacts.CannonRayJumpedMembers | chess_core/engine.py:175-179 | after the screen, the ray lists the move to step k exactly when the cells between are empty and step k holds an enemy piece |
| MoveFacts.ClearFront | chess_core/engine.py:144-149 | a run of empty cells splits into its first cell and the rest |
| MoveFacts.QuietMoveStep | chess_core/engine.py:170-172 | a quiet Cannon move from step s is the move to step s or a quiet move from s + 1, with step s empty |
| MoveFacts.ScreenCaptureStep | chess_core/engine.py:169-179 | a capture over one screen from step s: with step s empty, it is one from s + 1; with step s occupied, step s is the screen; with step s off the board, there is none |
| MoveFacts.CannonRayMembers | chess_core/engine.py:164-179 | along one direction, the Cannon lists exactly its quiet moves and its captures over exactly one screen |
| MoveFacts.ChariotMoveRule | chess_core/engine.py:138-156 | a Chariot move is exactly an orthogonal move over empty cells onto an empty cell or an enemy piece |
| MoveFacts.CannonMoveRule | chess_core/engine.py:158-180 | a Cannon move is exactly an orthogonal quiet move over empty cells, or a capture over exactly one screen onto an enemy piece |
| MoveFacts.CannonTargets | chess_core/engine.py:158-180 | a Cannon move onto an empty cell is a quiet move, and one onto an occupied cell takes an enemy piece over one screen: empty cells beyond the screen are never targets |
| MoveFacts.MovesAtMembers | chess_core/engine.py:59-61 | a cell lists exactly the moves that start there and that the generator of the side's piece on it lists |
| MoveFacts.LegalMoveRule | chess_core/engine.py:52-62 | a move is among a side's moves exactly when it starts on a piece of that side and that piece's generator lists it |
| GameRules.GeneralOf | chess_core/engine.py:241-242 | the General's code is of magnitude 1 and belongs to the given side |
| GameRules.InitialGame | chess_core/engine.py:8-13 | definition, no contract: the starting layout, Red to move, running, no winner, no history (also the state `reset` restores); `InitialGameConsistent` is its property |
| GameRules.Apply | chess_core/engine.py:220-222 | after a move the target holds the source's piece, the source is empty and every other cell is unchanged |
| GameRules.Winner | chess_core/engine.py:239-249 | there is no winner exactly when both Generals are on the board; without a Red General the winner is Black whatever Black has; with the Red General and without the Black one it is Red |
| GameRules.Next | chess_core/engine.py:219-235 | an accepted move applies the move, passes the turn, appends one history entry (mover, move, captured value), and ends the game with the winner when a General is missing, leaving the end-of-game fields unchanged otherwise |
| GameRules.Play | chess_core/engine.py:210-237 | a refused move changes nothing |
| GameRules.PlayEffect | chess_core/engine.py:210-237 | a move is accepted exactly when the game runs and the move is one of the side to move's moves; then the source and target change as the move says, every other cell is kept, the history grows by one entry and the turn passes |
| GameRules.ApplyKeeps | chess_core/engine.py:220-222 | moving onto a cell that does not hold a value keeps that value on the board |
| GameRules.MoveKeepsOwnGeneral | chess_core/engine.py:216-222 | a move of a side never removes that side's own General |
| GameRules.PlayKeepsConsistent | chess_core/engine.py:210-249 | one call keeps the state consistent: while both Generals stand the game runs; a finished game names the side that moved last, whose General stands and whose opponent's does not |
| GameRules.InitialGameConsistent | chess_core/engine.py:8-13 | the starting state is consistent |
| GameRules.PlayAllConsistent | chess_core/engine.py:210-249 | any sequence of calls from a consistent state keeps it consistent |
| GameRules.OverIsFinal | chess_core/engine.py:212-213 | once the game is over, no sequence of calls changes the state |
| GameRules.PlayFromStart | chess_core/engine.py:210-249 | from the starting position, a finished game always names as winner the side that made the last move, and the loser's General is gone |
| Engine.ChineseChess.constructor | chess_core/engine.py:8-14 | a new engine has a fresh starting board, Red to move, the game running, no winner and no history |
| Engine.ChineseChess.InitBoard | chess_core/engine.py:16-38 | returns a fresh 10 x 9 array holding the starting layout |
| Engine.ChineseChess.Reset | chess_core/engine.py:40-46 | restores the starting state on a fresh board |
| Engine.ChineseChess.GetBoardState | chess_core/engine.py:48-50 | returns a fresh array with the same cells as the board |
| Engine.ChineseChess.MakeMove | chess_core/engine.py:210-237 | the result and the new fields are exactly what `GameRules.Play` gives for the old state; the board array is the same object |
| Engine.ChineseChess.Commit | chess_core/engine.py:219-236 | the new state is `GameRules.Next` of the old state |
| Engine.ChineseChess.CheckGameOver | chess_core/engine.py:239-249 | the board, side to move and history are unchanged; the game ends with the winner `GameRules.Winner` names when a General is missing, and nothing changes otherwise |
| Engine.ChineseChess.HasValue | chess_core/engine.py:241-242 | reports exactly whether some cell holds the value |
| Engine.ChineseChess.GetLegalMoves | chess_core/engine.py:52-62 | returns exactly `MoveRules.LegalMoves` of the board, in row-major order |
| Engine.ChineseChess.GetPieceMoves | chess_core/engine.py:64-80 | returns exactly the dispatched generator's list, and none for an unknown kind |
| Engine.ChineseChess.GeneralMoves | chess_core/engine.py:82-91 | returns exactly `MoveRules.GeneralMoves` of the board |
| Engine.ChineseChess.AdvisorMoves | chess_core/engine.py:93-102 | returns exactly `MoveRules.AdvisorMoves` of the board |
| Engine.ChineseChess.ElephantMoves | chess_core/engine.py:104-119 | returns exactly `MoveRules.ElephantMoves` of the board |
| Engine.ChineseChess.HorseMoves | chess_core/engine.py:121-136 | returns exactly `MoveRules.HorseMoves` of the board |
| Engine.ChineseChess.SoldierMoves | chess_core/engine.py:182-200 | returns exactly `MoveRules.SoldierMoves` of the board |
| Engine.ChineseChess.ChariotMoves | chess_core/engine.py:138-156 | returns exactly `MoveRules.ChariotMoves` of the board |
| Engine.ChineseChess.ChariotRayMoves | chess_core/engine.py:144-155 | returns exactly the Chariot's ray `MoveRules.ChariotRay` along one direction |
| Engine.ChineseChess.CannonMoves | chess_core/engine.py:158-180 | returns exactly `MoveRules.CannonMoves` of the board |
| Engine.ChineseChess.CannonRayMoves | chess_core/engine.py:164-179 | returns exactly the Cannon's ray `MoveRules.CannonRay` along one direction |

## Left out

- The search AI (`ChessAI`: minimax, alpha-beta, transposition table, statistics) is not part of this model; its source is not among the files modelled.
- The self-play driver, benchmark and telemetry scripts are I/O and scheduling glue and are left out.
- `_board_hash` is set in the constructor and never read; it is not modelled.
- numpy specifics are left out. The board is a 10 x 9 `array2<int>` with unbounded integers instead of `int8`. Every value is in -7..7, so no arithmetic can overflow. `np.any(board == v)` is the loop `HasValue`, and `.copy()` is a fresh array filled cell by cell.
- Players are the datatype `Red | Black` instead of the strings 'red' and 'black'. So `get_legal_moves` called with a string other than 'red' (which the engine treats as Black) has no counterpart.
- Moves are the datatype `Move(fromRow, fromCol, toRow, toCol)` instead of 4-tuples, so `make_move` on other values has no counterpart. In the engine, once the game is over every value is refused before it is looked at (engine.py:212-213). While the game runs:
  - a value that does not unpack into four parts raises at the unpacking (engine.py:215);
  - any other value that compares unequal to every listed move, such as the list `[9, 0, 8, 0]`, is refused (engine.py:216-217);
  - a value whose comparison with a tuple has no truth value, such as a four-element numpy array, raises at the membership test (engine.py:216) before any field changes, as soon as the side to move has a listed move;
  - a tuple equal to a listed move but with non-integer coordinates, such as `(9.0, 0, 8, 0)`, raises at the board indexing (engine.py:220-221) before any field changes.
- History entries are the datatype `HistoryEntry(player, move, captured)` instead of dictionaries.
- The generators' `continue` on an off-board target is folded into one combined test per offset. The order and the result of the tests are unchanged.
