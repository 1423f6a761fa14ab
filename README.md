# MultiAgentSBC4 tournaments and games, in Dafny

This project models the game and tournament core of two subsystems of the MultiAgentSBC4
repository, in which language-model agents play against each other.

**Tic-Tac-Toe agents.**
- The common game interface (`GameInterface`): the configuration record and its `to_dict`, and how an agent is labelled.
- The N×N, k-in-a-row, up-to-eight-player game (`GenericTicTacToeGame`).
- The gravity game Connect Four (`ConnectFourGame`).
- Both games share the board windows of `Grid`.
- The original 3×3 `Board` and its referee loop `play_game` (`GameEngine`).
- The tournament engine (`TournamentSystem`):
  - best-of-X matches;
  - standings of 3/1/2 points;
  - single elimination, round robin and Swiss pairing.
- The older single-elimination bracket with its statistics (`BracketTournament`).

**Rock Paper Scissors Royale.**
- The rules, move parsing, expected match counts and per-match streak statistics (`RpsRules`).
- The agents: how they are named, how a model's free-text reply is read, and the counter strategy (`RpsAgents`).
- The `TournamentScorer` (`RpsScoring`).
- The `TournamentAnalyzer` counters over a tournament log (`RpsAnalysis`).
- The `TournamentManager` with its round-robin, single-elimination and league runs (`RpsTournament`).

**Python semantics.** Small modules model the pieces of Python that the core relies on:
- `Py`: signed `%`, negative indices and slices, `lower`, `strip`, `str(n)`, `split`, `list.remove`, dictionary key order.
- `PowersOfTwo`: the exact `log2` and power-of-two arithmetic.
- `Ranking`: tuple keys, the stable `sorted(reverse=True)` and first-maximum `max`.
- `Shuffle`: `random.shuffle` as a Fisher–Yates walk over an oracle.
- `Combinations`: `itertools.combinations(_, 2)`.
- `Wrappers`: `Option` and `Result`.

**How the source's forms are modelled.**
- Objects whose fields the source updates become classes:
  - `GenericTicTacToe`, `ConnectFour`, `Board`, `TournamentEngine`, `TournamentBracket`, `TournamentScorer`, `TournamentAnalyzer` and `TournamentManager`.
  - Their methods state the new state and the invariant they keep (gravity, mark counts, counters equal to the recorded matches). Where a method states less than its whole new state, "## Left out" names it.
- Loops in the source are loops here, proved against specification functions. Examples:
  - `get_valid_moves` against the row-major list of empty cells;
  - the streak loop against the longest runs;
  - the Swiss `while unpaired` loop against a greedy pairing function.
- Pure code is functions and lemmas.

**Inputs from outside the program (parameters).**
- What an agent or a language model answers.
- Every `random.choice` and `random.shuffle`.
- For Rock Paper Scissors, whether a model query raises.

## Model

| member | source | states |
|---|---|---|
| GameInterface.NewGameConfig | TicTacToeAgent/game_interface.py:105-124 | each omitted argument takes its default (3, 3, 2, 50) and the keyword arguments become the extra parameters |
| GameInterface.ToDict | TicTacToeAgent/game_interface.py:126-138 | the dictionary holds exactly the four named keys and the extra keys, with the configuration's values |
| GameInterface.ToDictInjective | TicTacToeAgent/game_interface.py:126-138 | two configurations with the same dictionary are equal, so `to_dict` loses nothing |
| GameInterface.AgentLabel | TicTacToeAgent/game_interface.py:170-172 | `name(model)` when the model is set and non-empty, otherwise the bare name |
| GenericTicTacToeGame.RunOnRow | TicTacToeAgent/generic_tictactoe.py:174-177 | a run of `win_length` marks found by `_check_line` on row `r` is a horizontal window at that start |
| GenericTicTacToeGame.RunOnCol | TicTacToeAgent/generic_tictactoe.py:179-182 | a run found on column `c` is a vertical window |
| GenericTicTacToeGame.RunOnDiag | TicTacToeAgent/generic_tictactoe.py:185-187 | a run found on the main diagonal is a diagonal window |
| GenericTicTacToeGame.RunOnAnti | TicTacToeAgent/generic_tictactoe.py:189-191 | a run found on the anti-diagonal is an anti-diagonal window |
| GenericTicTacToeGame.LinesSound | TicTacToeAgent/generic_tictactoe.py:174-191 | whatever the row, column and diagonal checks report is a real window of `win_length` marks |
| GenericTicTacToeGame.FullLinesComplete | TicTacToeAgent/generic_tictactoe.py:193-197 | when `win_length` equals the board size every window is a full line, so skipping `_check_all_sequences` on a 3×3-like board misses no win |
| GenericTicTacToeGame.WinFormula | TicTacToeAgent/generic_tictactoe.py:165-197 | the line checks followed, when the size exceeds 3 or the window is shorter, by the window scan decide exactly "some window of `win_length` marks", including the degenerate sizes |
| GenericTicTacToeGame.FirstWinnerMeaning | TicTacToeAgent/generic_tictactoe.py:78-93 | `is_game_over` names the first symbol in turn order that has a window, and nobody exactly when no symbol has one |
| GenericTicTacToeGame.GenericTicTacToe.constructor | TicTacToeAgent/generic_tictactoe.py:11-32 | an empty `board_size`² board, zero moves, turn index 0, the first `num_players` symbols of X, O, A…F |
| GenericTicTacToeGame.GenericTicTacToe.IsValidMove | TicTacToeAgent/generic_tictactoe.py:56-76 | valid exactly when the move is a `(row, col)` pair inside the board naming an empty cell |
| GenericTicTacToeGame.GenericTicTacToe.MakeMove | TicTacToeAgent/generic_tictactoe.py:34-54 | succeeds exactly on a valid move; then only that cell is written and the counter grows by one, otherwise nothing changes; the symbol count stays equal to the move count |
| GenericTicTacToeGame.GenericTicTacToe.IsGameOver | TicTacToeAgent/generic_tictactoe.py:78-93 | the winner is the first symbol in turn order that has a window; with none, the game is over exactly when `move_count >= board_size²` |
| GenericTicTacToeGame.GenericTicTacToe.GetValidMoves | TicTacToeAgent/generic_tictactoe.py:103-117 | the list holds only valid moves, every valid move, each once, in row-major order |
| GenericTicTacToeGame.GenericTicTacToe.ScanRow | TicTacToeAgent/generic_tictactoe.py:114-116 | one inner pass appends exactly the valid cells of that row, keeping the list in row-major order |
| GenericTicTacToeGame.GenericTicTacToe.Copy | TicTacToeAgent/generic_tictactoe.py:119-129 | a fresh game with equal configuration, board, move count and turn index |
| GenericTicTacToeGame.GenericTicTacToe.CheckLine | TicTacToeAgent/generic_tictactoe.py:199-226 | true exactly when the positions hold a run of `win_length` consecutive marks (all of them when the line is exactly that long; never when it is shorter) |
| GenericTicTacToeGame.GenericTicTacToe.CheckAllSequences | TicTacToeAgent/generic_tictactoe.py:228-261 | true exactly when some horizontal, vertical, diagonal or anti-diagonal window of `win_length` cells holds only the player's marks |
| GenericTicTacToeGame.GenericTicTacToe.CheckWin | TicTacToeAgent/generic_tictactoe.py:165-197 | true exactly when the player wins by the formula of `WinFormula` |
| GenericTicTacToeGame.GenericTicTacToe.GetCurrentPlayer | TicTacToeAgent/generic_tictactoe.py:263-269 | a symbol exactly when the index is a valid Python index of the symbol list (negative ones included); otherwise the IndexError |
| GenericTicTacToeGame.GenericTicTacToe.AdvanceTurn | TicTacToeAgent/generic_tictactoe.py:271-278 | the index becomes `(index + 1) % num_players` with Python's modulo, the board and counter are unchanged, and the result is the new current player; no players is the ZeroDivisionError with the index untouched, an index past the symbols the IndexError |
| GenericTicTacToeGame.TurnStaysInRange | TicTacToeAgent/generic_tictactoe.py:277-278 | with one to eight players the advanced index always names a symbol, so `advance_turn` never raises |
| ConnectFourGame.DefaultConfig | TicTacToeAgent/connect_four.py:17-24 | the configuration built when none is given: 7 wide, 4 to win, 2 players, 42 moves, extra `height` 6 |
| ConnectFourGame.HeightValue | TicTacToeAgent/connect_four.py:11-39 | the height is 6 when absent, the given integer, or the TypeError of `range()` on a string |
| ConnectFourGame.StackHeight | TicTacToeAgent/connect_four.py:231-240 | the upward count of occupied cells never exceeds the column |
| ConnectFourGame.Column | TicTacToeAgent/connect_four.py:244-245 | column `c` read top to bottom, one entry per row |
| ConnectFourGame.StackHeightAt | TicTacToeAgent/connect_four.py:244-248 | the upward count stops at the first empty cell: with that cell at `row` and only pieces below it, the count is `height - 1 - row` |
| ConnectFourGame.StackHeightFull | TicTacToeAgent/connect_four.py:244-248 | a column with no empty cell counts all its cells |
| ConnectFourGame.StackHeightShape | TicTacToeAgent/connect_four.py:244-248 | the counted cells are all occupied, and the cell just above them is empty |
| ConnectFourGame.SettledBelow | TicTacToeAgent/connect_four.py:57-62 | under gravity every cell below an occupied one is occupied |
| ConnectFourGame.HeightIn | TicTacToeAgent/connect_four.py:231-249 | the number of pieces in a column is at most the height, and 0 for a column off the board |
| ConnectFourGame.DropLands | TicTacToeAgent/connect_four.py:57-62 | the lowest empty row the drop loop finds is just above the column's stack |
| ConnectFourGame.DropSettled | TicTacToeAgent/connect_four.py:57-62 | dropping into the lowest empty row keeps every column settled |
| ConnectFourGame.DropGrows | TicTacToeAgent/connect_four.py:57-62 | the column dropped into grows by exactly one piece |
| ConnectFourGame.DropKeepsOthers | TicTacToeAgent/connect_four.py:57-62 | every other column keeps its height |
| ConnectFourGame.DropFacts | TicTacToeAgent/connect_four.py:57-62 | one drop: the shape is kept, the piece lands on the stack, one more cell is filled, gravity is kept, that column grows by one and no other changes |
| ConnectFourGame.ConnectFour.constructor | TicTacToeAgent/connect_four.py:11-39 | an empty `height × width` board, height from the extra `height` parameter (default 6), zero moves, turn 0, symbols from R, Y, B, G; called only once the height is a number, as `NewConnectFour` checks |
| ConnectFourGame.NewConnectFour | TicTacToeAgent/connect_four.py:11-39 | the TypeError exactly when the height is a string; otherwise an empty `height × width` board with no moves and index 0 |
| ConnectFourGame.ConnectFour.IsValidMove | TicTacToeAgent/connect_four.py:66-84 | an in-range column on an empty board (height ≤ 0) is the IndexError; a valid move is an in-range column of a board with rows |
| ConnectFourGame.ConnectFour.Height | TicTacToeAgent/connect_four.py:231-249 | a column's piece count never exceeds the height |
| ConnectFourGame.ConnectFour.ValidIffRoom | TicTacToeAgent/connect_four.py:66-84 | under gravity, "top cell empty" is exactly "column on the board and not full" |
| ConnectFourGame.ConnectFour.MakeMove | TicTacToeAgent/connect_four.py:41-64 | succeeds exactly on a valid column; the piece then lands on top of that column's stack, the column grows by one, no other column or cell changes and the counter grows by one; gravity and the symbol count are kept; an invalid move changes nothing |
| ConnectFourGame.ConnectFour.GetColumnHeight | TicTacToeAgent/connect_four.py:231-249 | 0 off the board, otherwise the number of pieces counted upward from the bottom until the first gap |
| ConnectFourGame.ConnectFour.GetValidMoves | TicTacToeAgent/connect_four.py:111-124 | only valid columns, every valid column, in strictly ascending order |
| ConnectFourGame.ConnectFour.CheckWin | TicTacToeAgent/connect_four.py:179-212 | true exactly when some window of `win_length` cells in one of the four directions holds only the player's pieces |
| ConnectFourGame.ConnectFour.IsGameOver | TicTacToeAgent/connect_four.py:86-101 | the winner is the first symbol in turn order with a window; with none, the game is over exactly when `move_count >= width × height` |
| ConnectFourGame.ConnectFour.Copy | TicTacToeAgent/connect_four.py:126-136 | a fresh game with equal configuration, board, move count and turn index |
| ConnectFourGame.ConnectFour.GetCurrentPlayer | TicTacToeAgent/connect_four.py:214-220 | a symbol exactly when the index is a valid Python index of the symbol list; otherwise the IndexError |
| ConnectFourGame.ConnectFour.AdvanceTurn | TicTacToeAgent/connect_four.py:222-229 | the index becomes `(index + 1) % num_players` with Python's modulo; board and counter unchanged; the result is the new current player; no players is the ZeroDivisionError with the index untouched, an index past the symbols the IndexError |
| Grid.EmptyBoard | TicTacToeAgent/connect_four.py:33-34 | an `h × w` board of empty cells |
| Grid.Place | TicTacToeAgent/game_engine.py:30 | the board after writing one cell: that cell holds the value, every other cell and the shape are unchanged |
| Grid.PlaceKeepsShape | TicTacToeAgent/generic_tictactoe.py:52 | writing a cell keeps the board's dimensions |
| Grid.CountFilledUpdate | TicTacToeAgent/generic_tictactoe.py:52-53 | writing a mark into an empty cell of a row fills one more cell of it |
| Grid.FilledUpdate | TicTacToeAgent/generic_tictactoe.py:52 | replacing a row changes the filled count by the difference of the row counts |
| Grid.PlaceFills | TicTacToeAgent/generic_tictactoe.py:52-53 | writing a mark into an empty cell fills exactly one more cell, which is what keeps `move_count` equal to the number of marks |
| Grid.EmptyRowUnfilled | TicTacToeAgent/generic_tictactoe.py:26-28 | an all-empty row has no filled cell |
| Grid.EmptyBoardUnfilled | TicTacToeAgent/generic_tictactoe.py:26-28 | the initial board has no filled cell, matching `move_count = 0` |
| Grid.FilledBound | TicTacToeAgent/generic_tictactoe.py:89-91 | at most `h × w` cells are filled |
| Grid.CountFilledFull | TicTacToeAgent/generic_tictactoe.py:89-91 | a row without an empty cell is fully counted |
| Grid.CountFilledGap | TicTacToeAgent/generic_tictactoe.py:89-91 | a row with an empty cell counts fewer cells than its length |
| Grid.FilledFull | TicTacToeAgent/game_engine.py:75-81 | a board with no empty cell has all `h × w` cells filled |
| Grid.FilledGap | TicTacToeAgent/game_engine.py:75-81 | a board with an empty cell has fewer than `h × w` filled cells |
| Grid.WindowInside | TicTacToeAgent/connect_four.py:188-210 | every window the start ranges produce lies inside the board, so no index raises |
| Grid.CheckWindow | TicTacToeAgent/connect_four.py:191 | the `all(...)` test for one window: true exactly when its `k` cells all hold the player's mark |
| Grid.ScanDirection | TicTacToeAgent/connect_four.py:188-192 | one direction's nested start loops find a window exactly when some start in that direction holds one |
| Grid.ScanWindows | TicTacToeAgent/connect_four.py:179-212 | the four scans in order find a window exactly when some direction holds one |
| Grid.EmptyWindowWins | TicTacToeAgent/generic_tictactoe.py:238-241 | with a window length of 0 or less, `all` over an empty range is true, so the scan reports a win |
| Grid.NoRoomNoWindow | TicTacToeAgent/generic_tictactoe.py:237-261 | a window longer than both dimensions fits nowhere, so nobody can win |
| Grid.PlaceOtherKeepsWindows | TicTacToeAgent/generic_tictactoe.py:165-261 | writing one player's mark never creates a window of another player |
| Grid.EmptyBoardNoWindow | TicTacToeAgent/generic_tictactoe.py:165-261 | with `win_length >= 1` the empty board has no window of any player |
| GameEngine.ThreeInARowIsWindow | TicTacToeAgent/game_engine.py:48-73 | the fixed board's rows, columns and diagonals are exactly the generic game's windows of three on a 3×3 board |
| GameEngine.RowsAreWindows | TicTacToeAgent/game_engine.py:57-60 | a full row is exactly a horizontal window of three |
| GameEngine.ColumnsAreWindows | TicTacToeAgent/game_engine.py:62-65 | a full column is exactly a vertical window of three |
| GameEngine.DiagonalIsWindow | TicTacToeAgent/game_engine.py:68-69 | the main diagonal is exactly the one diagonal window of three |
| GameEngine.AntiDiagonalIsWindow | TicTacToeAgent/game_engine.py:70-71 | the anti-diagonal is exactly the one anti-diagonal window of three |
| GameEngine.PlaceOtherNoWin | TicTacToeAgent/game_engine.py:163-182 | a move by one symbol never completes a line for the other, so only the mover can have just won |
| GameEngine.PlaceOtherKeepsLines | TicTacToeAgent/game_engine.py:30 | every line of the other symbol after the write was already there before it |
| GameEngine.EmptyNoLine | TicTacToeAgent/game_engine.py:11-14 | nobody owns a line on the empty board |
| GameEngine.FirstEmptyFrom | TicTacToeAgent/game_engine.py:249-253 | the first empty cell at or after a position in row-major order; None exactly when there is none |
| GameEngine.Board.constructor | TicTacToeAgent/game_engine.py:11-14 | an empty 3×3 grid and zero moves |
| GameEngine.Board.MakeMove | TicTacToeAgent/game_engine.py:16-32 | succeeds exactly on an in-bounds empty cell; writes only that cell and counts the move, otherwise nothing changes |
| GameEngine.Board.CheckWin | TicTacToeAgent/game_engine.py:48-73 | true exactly when the symbol fills a row, a column or a diagonal |
| GameEngine.Board.CheckDraw | TicTacToeAgent/game_engine.py:75-81 | true exactly when nine moves were made and neither X nor O has a line |
| GameEngine.Board.IsGameOver | TicTacToeAgent/game_engine.py:83-96 | X's line is reported first, then O's, then a draw after nine moves, else the game goes on |
| GameEngine.FindValidMove | TicTacToeAgent/game_engine.py:240-253 | the first empty cell in row-major order, None on a full board |
| GameEngine.FullBoardCount | TicTacToeAgent/game_engine.py:171-173 | when `find_valid_move` finds nothing, nine marks are on the board |
| GameEngine.SymbolNext | TicTacToeAgent/game_engine.py:194-200 | the mover is always X or O and the two alternate |
| GameEngine.Replay | TicTacToeAgent/game_engine.py:144-202 | the board after a sequence of moves from the empty board, X first; it stays 3×3 |
| GameEngine.PlayedExtend | TicTacToeAgent/game_engine.py:157-176 | a turn whose cell is the agent's reply resolved on the current board extends the game's history, and the board becomes that cell written over the previous one |
| GameEngine.TurnExtends | TicTacToeAgent/game_engine.py:157-182 | a turn extends the history and leaves the other symbol still without a line |
| GameEngine.TakeTurn | TicTacToeAgent/game_engine.py:155-173 | the agent's pair when `make_move` accepts it, otherwise the cell `find_valid_move` offers (a raised or malformed reply goes the same way); the board gets exactly that cell and one more move |
| GameEngine.PlayTurn | TicTacToeAgent/game_engine.py:155-192 | one turn of the loop: history and board advance by the resolved cell; a reported winner is the mover and has a line; without a winner nobody has a line and the game is over exactly at nine moves |
| GameEngine.PlayGame | TicTacToeAgent/game_engine.py:129-237 | at most `max_moves` and at most nine moves, each the agent's own cell or the first empty one; ("win", w) exactly when the last mover `w` has a line; ("draw", None) only with no line and a full board or the move limit reached |
| PowersOfTwo.Pow2 | TicTacToeAgent/tournament.py:42 | `2 ** k` is at least 1 |
| PowersOfTwo.Pow2IsPow2 | TicTacToeAgent/tournament.py:42 | `2 ** k` is a power of two |
| PowersOfTwo.IsPow2Exponent | TicTacToeAgent/tournament.py:54 | every power of two is `2 ** k` for some `k` |
| PowersOfTwo.Pow2Monotone | TicTacToeAgent/tournament.py:42 | `2 ** k` grows with `k` |
| PowersOfTwo.BitAndSelf | TicTacToeAgent/tournament_system.py:140 | `n & n == n` |
| PowersOfTwo.LowBitTestZero | TicTacToeAgent/tournament_system.py:140 | `n & (n - 1) == 0` exactly when `n` is 0 or a power of two, which is when the padding loops stop |
| PowersOfTwo.CeilLog2Bounds | TicTacToeAgent/tournament_system.py:202 | `ceil(log2(n))` is the least `k` with `n <= 2 ** k` |
| PowersOfTwo.FloorLog2Bounds | TicTacToeAgent/tournament.py:54 | `int(log2(n))` is the `k` with `2 ** k <= n < 2 ** (k + 1)` |
| PowersOfTwo.LogOfPow2 | RockPaperScissors/tournament.py:140 | both logarithms of `2 ** k` are `k` |
| PowersOfTwo.LogsAgreeOnPow2 | RockPaperScissors/tournament.py:140 | on a padded bracket `int(log2(n))` and `ceil(log2(n))` agree and give back `n` |
| PowersOfTwo.NextPow2 | TicTacToeAgent/tournament.py:42 | `2 ** ceil(log2(n))` is at least 1 |
| PowersOfTwo.NextPow2Least | TicTacToeAgent/tournament.py:42 | `2 ** ceil(log2(n))` is the least power of two not below `n` |
| PowersOfTwo.NextPow2OfPow2 | RockPaperScissors/tournament.py:423 | a power of two is its own padded size, so padding a full bracket adds nothing |
| PowersOfTwo.Pow2Even | RockPaperScissors/tournament.py:148-178 | a power of two above 1 halves into a power of two with one round fewer, so each elimination round pairs everyone |
| Ranking.Whole | RockPaperScissors/utils.py:544 | an integer as an exact rational |
| Ranking.RateOf | RockPaperScissors/utils.py:544 | the win rate `a / b` as an exact rational, 0 when `b` is 0 |
| Ranking.NotLessTrans | RockPaperScissors/utils.py:569-575 | "not smaller" on rationals is transitive |
| Ranking.KeyLessIrreflexive | RockPaperScissors/utils.py:569-575 | a sort key is never smaller than itself |
| Ranking.KeyLessAsymmetric | RockPaperScissors/utils.py:569-575 | two keys are never each smaller than the other |
| Ranking.KeyNotLessTrans | RockPaperScissors/utils.py:569-575 | "not smaller" on tuple keys compared left to right is transitive |
| Ranking.InsertDesc | RockPaperScissors/utils.py:569-575 | inserting one element keeps every other element |
| Ranking.SortDesc | RockPaperScissors/utils.py:569-575 | `sorted(..., reverse=True)` returns a permutation of its input |
| Ranking.SortedCons | RockPaperScissors/utils.py:569-575 | a head no smaller than a descending tail gives a descending list |
| Ranking.InsertDescSorted | RockPaperScissors/utils.py:569-575 | inserting into a descending list keeps it descending |
| Ranking.SortDescSorted | RockPaperScissors/utils.py:569-575 | the sort's result is in descending key order |
| Ranking.MaxOf | TicTacToeAgent/tournament_system.py:195 | `max(..., key=...)` returns one of the elements |
| Ranking.MaxOfIsFirstMaximum | TicTacToeAgent/tournament_system.py:195 | `max` returns an element no other beats, and the first such in order, as Python's `max` does |
| Ranking.SortDescHeadIsMax | RockPaperScissors/utils.py:577-584 | the head of the stable descending sort is the first maximum, so the leaderboard's first entry is `max`'s choice |
| Shuffle.Swap | TicTacToeAgent/tournament_system.py:91 | one exchange of `random.shuffle`: the two entries trade places, every other stays |
| Shuffle.ShuffleDown | TicTacToeAgent/tournament_system.py:91 | the Fisher–Yates steps from `i` down leave the entries above `i` and the multiset unchanged |
| Shuffle.Shuffled | TicTacToeAgent/tournament_system.py:91 | `random.shuffle` permutes, and leaves a list of at most one entry as it is |
| Shuffle.ShuffledSameMembers | TicTacToeAgent/tournament_system.py:91 | the shuffled list has the same members |
| Shuffle.ShuffledDistinct | TicTacToeAgent/tournament_system.py:91 | shuffling a list without repeats gives a list without repeats |
| Combinations.PairsWith | TicTacToeAgent/tournament_system.py:181 | the pairs of one element with every later one, in order |
| Combinations.PairsCount | RockPaperScissors/tournament.py:41 | `combinations(xs, 2)` has `n (n - 1) / 2` pairs |
| Combinations.PairsMembers | RockPaperScissors/tournament.py:61 | a pair occurs exactly when its first element comes before its second in the input |
| Combinations.PairsOncePerCouple | RockPaperScissors/tournament.py:61 | with distinct inputs each couple occurs once, and never in reverse order |
| TournamentSystem.FormatValue | TicTacToeAgent/tournament_system.py:15-20 | each format's `value` string, never empty |
| TournamentSystem.NormalizeBestOf | TicTacToeAgent/tournament_system.py:45-50 | `best_of` becomes the least odd number that is at least 1 and at least the given value |
| TournamentSystem.NewTournamentConfig | TicTacToeAgent/tournament_system.py:35-50 | the dataclass keeps every field as given except `best_of`, which `__post_init__` normalises |
| TournamentSystem.WinsNeeded | TicTacToeAgent/tournament_system.py:248 | `(best_of + 1) // 2` is a strict majority of an odd `best_of`: `2n - 1 == best_of` |
| TournamentSystem.AfterMatch | TicTacToeAgent/tournament_system.py:397-434 | only the two players' entries change, each credited with its games won and lost, one match, the result and the opponent; a player against itself is credited twice |
| TournamentSystem.TotalUpdate | TicTacToeAgent/tournament_system.py:407-434 | replacing one listed entry changes a column's total by the difference |
| TournamentSystem.TotalOther | TicTacToeAgent/tournament_system.py:407-434 | replacing an unlisted entry leaves a column's total unchanged |
| TournamentSystem.MatchAddsFourPoints | TicTacToeAgent/tournament_system.py:416-430 | every match adds exactly 4 points in total (3 + 1 for a decided match, 2 + 2 for a drawn one) |
| TournamentSystem.MatchKeepsGameBalance | TicTacToeAgent/tournament_system.py:406-414 | every match adds as many games won as games lost over all players, and two matches played |
| TournamentSystem.InsertKeys | TicTacToeAgent/tournament_system.py:94-95 | the dictionary's key order after `add_players` extends the old one |
| TournamentSystem.WithFresh | TicTacToeAgent/tournament_system.py:94-103 | the standings after `add_players` keep every old key |
| TournamentSystem.AddedKeys | TicTacToeAgent/tournament_system.py:93-103 | the key order stays without repeats and lists exactly the dictionary's keys; the keys become the old ones plus the added names; every added name has a fresh all-zero standing and every other entry is unchanged |
| TournamentSystem.Counted | TicTacToeAgent/tournament_system.py:273-277 | a game won by player 1 raises its count, else one won by player 2 raises the other, else neither changes |
| TournamentSystem.Tally | TicTacToeAgent/tournament_system.py:273-277 | the two win counts of a game list never exceed its length |
| TournamentSystem.Replayed | TicTacToeAgent/tournament_system.py:328-347 | the board after a list of moves on the empty `n × n` board stays `n × n` |
| TournamentSystem.LastMoverWins | TicTacToeAgent/tournament_system.py:333-380 | in a game of alternating replies, any winner of the final position is the player who made the last move |
| TournamentSystem.PlayMove | TicTacToeAgent/tournament_system.py:337-347 | a reply is played on its own cell when that is free, otherwise on the first free cell; only that cell changes and one move is counted; no move means no free cell |
| TournamentSystem.GameTurn | TicTacToeAgent/tournament_system.py:333-353 | one loop turn: the reply of the player to move is resolved and played, extending the game played so far, and `is_game_over` reports on the new position; no move when the reply raised or no cell was free |
| TournamentSystem.OutcomeWinner | TicTacToeAgent/tournament_system.py:353-370 | the record of a finished game names nobody or one of the two players, and a named winner made the last move |
| TournamentSystem.TallyAppend | TicTacToeAgent/tournament_system.py:271-277 | appending a game updates the score exactly by that game's winner |
| TournamentSystem.PlaySingleGame | TicTacToeAgent/tournament_system.py:313-395 | the moves are the alternating players' replies from the empty board, an invalid reply replaced by the first free cell (`GamePlayed`); the game stops at its first finished position, whose winning symbol names the winner, or without a winner at `max_moves`, a raised reply or a full board (`GameOutcome`); a winner is the player who moved last |
| TournamentSystem.UndecidedSnoc | TicTacToeAgent/tournament_system.py:251 | a game played while both counts are below the majority keeps every earlier prefix undecided |
| TournamentSystem.NumberedSnoc | TicTacToeAgent/tournament_system.py:266-271 | a game with id `{match_id}G{n}` for the next `n` keeps the list numbered 1, 2, … |
| TournamentSystem.PlayNext | TicTacToeAgent/tournament_system.py:257-269 | odd-numbered games start with player 1 and even ones with player 2; the game is played out as `PlaySingleGame` states under id `{match_id}G{game_num}`, with a winner among the two |
| TournamentSystem.PlayGames | TicTacToeAgent/tournament_system.py:245-280 | every game is played out as `PlaySingleGame` states, with alternating starting players (`GamesPlayedOut`); when it ends, the games are numbered from 1 and stop at the first point where one score reaches the majority |
| TournamentSystem.MatchWinnerReachedMajority | TicTacToeAgent/tournament_system.py:251-283 | the winner is one of the two; between distinct players it is player 1 exactly when player 1 reached the majority; at most `best_of` games are decided and at least a majority are played |
| TournamentSystem.FirstUnmet | TicTacToeAgent/tournament_system.py:465-471 | the first index from `i` whose player `player1` has not met, or the end of the list |
| TournamentSystem.Partner | TicTacToeAgent/tournament_system.py:462-477 | the chosen opponent's index lies in the list after the first player |
| TournamentSystem.WithoutPair | TicTacToeAgent/tournament_system.py:469-477 | removing the pair leaves the other players, two fewer, as multisets |
| TournamentSystem.Greedy | TicTacToeAgent/tournament_system.py:458-477 | the greedy pairing makes `n // 2` pairs and leaves `n % 2` players |
| TournamentSystem.Flatten | TicTacToeAgent/tournament_system.py:458-477 | the players of a pairing list, in order, two per pair |
| TournamentSystem.GreedyStepKeepsPlayers | TicTacToeAgent/tournament_system.py:461-477 | one pairing step keeps every player exactly once |
| TournamentSystem.GreedyKeepsPlayers | TicTacToeAgent/tournament_system.py:458-477 | the pairs and the leftover together hold exactly the input players, as a multiset |
| TournamentSystem.GreedyPartitions | TicTacToeAgent/tournament_system.py:458-484 | with distinct players the pairs and the leftover partition the players and at most one is left for the bye |
| TournamentSystem.GreedyAvoidsRematch | TicTacToeAgent/tournament_system.py:461-477 | the first player is paired with the first lower-ranked player it has not met, or with the next one when it has met them all |
| TournamentSystem.GreedyHead | TicTacToeAgent/tournament_system.py:462-477 | the first pair is the top player and its chosen partner |
| TournamentSystem.FindOpponent | TicTacToeAgent/tournament_system.py:465-471 | the `for` loop stops at the first unmet opponent, or runs to the end |
| TournamentSystem.LoopPairIsPartner | TicTacToeAgent/tournament_system.py:465-477 | the loop's chosen player and the two `remove` calls give the greedy partner and the list without the pair |
| TournamentSystem.PairByPoints | TicTacToeAgent/tournament_system.py:458-477 | the `while` loop computes exactly the greedy pairing and leftover |
| TournamentSystem.WithBye | TicTacToeAgent/tournament_system.py:479-482 | the leftover player gets 2 points and nobody else changes |
| TournamentSystem.GreedyLeftoverIn | TicTacToeAgent/tournament_system.py:479-482 | the leftover player is one of the pairing's players, so the bye never raises KeyError |
| TournamentSystem.AdjacentPairs | TicTacToeAgent/tournament_system.py:449 | round one pairs positions 0–1, 2–3, …, dropping a last odd player |
| TournamentSystem.PointsGamesKey | TicTacToeAgent/tournament_system.py:195 | the key `(points, games_won)` is a well-formed two-part key |
| TournamentSystem.SwissChampionKey | TicTacToeAgent/tournament_system.py:218-219 | the key `(points, games_won, wins)` is a well-formed three-part key |
| TournamentSystem.BracketRounds | TicTacToeAgent/tournament_system.py:144-171 | a finished bracket started with `2 ** (rounds)` entrants and its champion is one of them |
| TournamentSystem.FieldsSnoc | TicTacToeAgent/tournament_system.py:147-169 | a round whose winners are drawn from its pairs extends the bracket |
| TournamentSystem.MatchesOfNext | TicTacToeAgent/tournament_system.py:186-192 | one more match played on the next pairing and id extends the list of matches played for the pairings so far |
| TournamentSystem.RoundRobinIds | TicTacToeAgent/tournament_system.py:185-192 | the round-robin match ids are `RR1`, `RR2`, … |
| TournamentSystem.SwissIds | TicTacToeAgent/tournament_system.py:213-214 | the Swiss match ids of round `r` are `S{r}M1`, `S{r}M2`, … |
| TournamentSystem.RoundLabelsBound | TicTacToeAgent/tournament_system.py:513-514 | there are never more round labels than matches |
| TournamentSystem.IdLabel | TicTacToeAgent/tournament_system.py:513 | `{prefix}{r}M{k}`.split('M')[0] is `{prefix}{r}` when the prefix has no `M` |
| TournamentSystem.NumberedLabelsDistinct | TicTacToeAgent/tournament_system.py:213-214 | the round labels `S1`, `S2`, … are all different |
| TournamentSystem.OneRoundEach | TicTacToeAgent/tournament_system.py:513-514 | matches with pairwise different labels count one round each |
| TournamentSystem.OneRoundPerBlock | TicTacToeAgent/tournament_system.py:513-514 | blocks of matches, each under its own label, count as many rounds as blocks that hold a match |
| TournamentSystem.RoundMatchLabel | TicTacToeAgent/tournament_system.py:160 | every match of knockout round `r` is labelled `R{r}` |
| TournamentSystem.KnockoutRoundCount | TicTacToeAgent/tournament_system.py:144-171 | a finished knockout from no matches counts one round label per round that held a match, at most the number of rounds; the field was `2 ** rounds` and the champion one of it |
| TournamentSystem.RoundRobinDistinctLabels | TicTacToeAgent/tournament_system.py:189 | the round-robin matches `RR1`, `RR2`, … have different labels |
| TournamentSystem.RoundRobinTotals | TicTacToeAgent/tournament_system.py:176-198 | a finished round robin from no matches plays `n(n - 1)/2` matches, each its own round, at least `(best_of + 1) // 2` games each, and hands out four points per match |
| TournamentSystem.SeedingFirst | TicTacToeAgent/tournament_system.py:445-449 | round one is paired by adjacent shuffled positions, with the standings unchanged |
| TournamentSystem.SeedingLater | TicTacToeAgent/tournament_system.py:451-482 | a later round is the greedy pairing of the points-sorted keys, with the leftover player's bye credited |
| TournamentSystem.SwissMatchLabels | TicTacToeAgent/tournament_system.py:214 | every match of Swiss round `r` is labelled `S{r}` |
| TournamentSystem.SwissRoundLabels | TicTacToeAgent/tournament_system.py:204-215 | the matches of Swiss round `r` are labelled by the `r`-th of `S1`, `S2`, … |
| TournamentSystem.SwissRoundCount | TicTacToeAgent/tournament_system.py:200-222 | a finished Swiss run counts one round label per round that held a match, at most `min(max_rounds, ceil(log2 n))` |
| TournamentSystem.RecordMatch | TicTacToeAgent/tournament_system.py:397-434 | the field-by-field increments give exactly `AfterMatch` |
| TournamentSystem.AfterMatches | TicTacToeAgent/tournament_system.py:397-434 | the standings after `_update_standings` for each match of a list, in order, over the same keys |
| TournamentSystem.AfterMatchesAppend | TicTacToeAgent/tournament_system.py:186-192 | recording two lists of matches one after the other is recording them together |
| TournamentSystem.AfterMatchesTotals | TicTacToeAgent/tournament_system.py:397-434 | over the distinct keys, every recorded match adds four points and two matches played, and keeps games won minus games lost |
| TournamentSystem.RoundAdvances | TicTacToeAgent/tournament_system.py:151-168 | a round played on an even field advances exactly one player from each pair |
| TournamentSystem.RoundRobinLabel | TicTacToeAgent/tournament_system.py:189 | `RR{n}` has no `M`, so the whole id is its round label |
| TournamentSystem.SumGamesAppend | TicTacToeAgent/tournament_system.py:515 | the game total of two lists of matches together is the sum of their totals |
| TournamentSystem.SumGamesAtLeast | TicTacToeAgent/tournament_system.py:515 | matches of at least `k` games each total at least `k` games per match |
| TournamentSystem.PlayedGamesAtLeast | TicTacToeAgent/tournament_system.py:245-283 | every played match lasts at least `(best_of + 1) // 2` games, so the total is at least that many per match |
| TournamentSystem.Summaries | TicTacToeAgent/tournament_system.py:518-527 | one summary per match with its id, players, winner, score and game count |
| TournamentSystem.TournamentEngine.constructor | TicTacToeAgent/tournament_system.py:56-81 | no players, matches, standings or Swiss pairings |
| TournamentSystem.TournamentEngine.AddPlayers | TicTacToeAgent/tournament_system.py:83-103 | the players are the given list, shuffled when `shuffle_players` is set; every player gets a fresh standing in key order; matches and pairings are unchanged |
| TournamentSystem.TournamentEngine.UpdateStandings | TicTacToeAgent/tournament_system.py:397-434 | the standings become `AfterMatch`; nothing else changes |
| TournamentSystem.TournamentEngine.PlayMatch | TicTacToeAgent/tournament_system.py:230-311 | a finished match is a played match between the two (see `MatchWinnerReachedMajority`), each of its games played out as `PlaySingleGame` states with alternating starting players; it is appended to the matches and updates the standings by its score; an unfinished one changes neither |
| TournamentSystem.TournamentEngine.PadPlayers | TicTacToeAgent/tournament_system.py:139-142 | players are appended, each a copy of an existing one, until their number is a power of two |
| TournamentSystem.TournamentEngine.PlayPair | TicTacToeAgent/tournament_system.py:155-166 | two different names play the one match `matchId`, which is appended to the matches and recorded in the standings, and its winner is the returned winner (`PairPlayed`); a name paired with itself advances on a bye with no match; an unfinished match returns no winner |
| TournamentSystem.TournamentEngine.PlayRoundPair | TicTacToeAgent/tournament_system.py:155-168 | pair `k` of the round plays as `PlayPair` states under id `R{r}M{k+1}` and extends the round played so far; an unfinished match leaves it as it was |
| TournamentSystem.TournamentEngine.PlayRound | TicTacToeAgent/tournament_system.py:151-168 | name `2k` meets its partner in match `R{r}M{k+1}` and `next[k]` is that match's winner, or the name itself on a bye (`RoundPlayed`); exactly those matches are appended and recorded in the standings; finished iff every pair was played; on an even field each player of `next` comes from its own pair |
| TournamentSystem.TournamentEngine.RunSingleElimination | TicTacToeAgent/tournament_system.py:137-174 | pads to a power of two; an empty field fails; a finished run is a bracket of halving rounds, each played as `PlayRound` states, with exactly those matches appended and recorded in the standings (`KnockoutRun`); the results are `_compile_results` of the champion; from no earlier matches the round count is the number of rounds that held a match and the field is `2 ** rounds` |
| TournamentSystem.TournamentEngine.PlayRounds | TicTacToeAgent/tournament_system.py:147-171 | on a power-of-two field a champion found ends a knockout run: the bracket, each round's matches and the winners they advance, the appended matches and the standings they give |
| TournamentSystem.TournamentEngine.RunDoubleElimination | TicTacToeAgent/tournament_system.py:224-228 | exactly single elimination, with the same knockout-run promise |
| TournamentSystem.TournamentEngine.PlayPairings | TicTacToeAgent/tournament_system.py:186-192 | the pairings are played in order under their ids, each played match being its pairing's match; the matches are appended and the standings are the old ones updated by exactly those matches (`PairingsSoFar`); it stops early only at an unfinished match or at the `StopIteration` of a name that is not a player |
| TournamentSystem.TournamentEngine.RunRoundRobin | TicTacToeAgent/tournament_system.py:176-198 | every pair of `combinations(names, 2)` is played once, in order, as `RR1`, …, and the standings record exactly those matches; the champion is the first key with the greatest `(points, games_won)`; from no earlier matches there are `n(n - 1)/2` matches, each a round of its own, with at least `(best_of + 1) // 2` games and four points each; no players is the empty `max()` |
| TournamentSystem.TournamentEngine.GenerateSwissPairings | TicTacToeAgent/tournament_system.py:436-484 | round 1 pairs the shuffled names by position; later rounds pair the points-sorted keys greedily, avoiding rematches, and give a leftover player a 2-point bye |
| TournamentSystem.TournamentEngine.PlaySwissRound | TicTacToeAgent/tournament_system.py:208-215 | the round is paired as `_generate_swiss_pairings` says from the standings before it, with a bye credited (`SwissSeeding`); the pairings are added to the history; matches `S{r}M1`, … are played in order from the seeded standings, appended and recorded, and a finished round is `SwissRoundPlayed` |
| TournamentSystem.TournamentEngine.PlaySwissRounds | TicTacToeAgent/tournament_system.py:204-215 | `max(num_rounds, 0)` rounds; round `r` is paired from the standings after round `r - 1`, shuffled with `pick(r)`, and plays its matches from the seeded standings (`SwissSeedings`, `SwissRounds`); the standings run from the old to the new ones, every round's matches are appended, and the pairing history grows by one list per round |
| TournamentSystem.TournamentEngine.RunSwiss | TicTacToeAgent/tournament_system.py:200-222 | `min(max_rounds, ceil(log2 n))` rounds, each paired and played as `PlaySwissRounds` states (`SwissRun`); no players is the math domain error; the champion is the first key with the greatest `(points, games_won, wins)`; the results are `_compile_results` of the champion |
| TournamentSystem.TournamentEngine.EstimateTotalRounds | TicTacToeAgent/tournament_system.py:486-499 | `ceil(log2 n)` for single elimination, `n - 1` for round robin, `min(max_rounds, ceil(log2 n))` for Swiss, `n` otherwise |
| TournamentSystem.TournamentEngine.CompileResults | TicTacToeAgent/tournament_system.py:501-533 | champion, participants and standings as they are; the match and game totals; the number of distinct round labels, at most the match count; one summary per match; the format, `best_of` and game configuration |
| TournamentSystem.TournamentEngine.RunTournament | TicTacToeAgent/tournament_system.py:105-135 | fewer than two players is the ValueError; otherwise the configured format is run: a finished knockout is a knockout run over the padded players, a round robin a round-robin run, Swiss a Swiss run, each with `_compile_results` of its champion; only Swiss can fail from there |
| BracketTournament.DrawnFromOriginal | TicTacToeAgent/tournament.py:44-46 | every entry of the padded list is one of the original models |
| BracketTournament.PaddedShape | TicTacToeAgent/tournament.py:31-46 | the padded list has at least two entries and a power-of-two length; a non-empty list is a prefix of it and supplies every entry; an empty one becomes `phi4` twice |
| BracketTournament.DrawnSnoc | TicTacToeAgent/tournament.py:46 | appending a choice from the first half of the list keeps the list drawn from the first half |
| BracketTournament.GrowToPow2 | TicTacToeAgent/tournament.py:41-46 | the loop reaches exactly `2 ** ceil(log2 n)` entries, each added one a choice from the first half, the original kept as prefix |
| BracketTournament.TournamentBracket.constructor | TicTacToeAgent/tournament.py:14-29 | the models are a padded copy of the argument and the seed is kept |
| BracketTournament.TournamentBracket.PadToPowerOfTwo | TicTacToeAgent/tournament.py:31-46 | no models become `["phi4", "phi4"]`; one model is duplicated; more are padded to the next power of two |
| BracketTournament.TournamentBracket.GetTotalRounds | TicTacToeAgent/tournament.py:48-54 | `int(log2 n)`: the largest `r` with `2 ** r <= n`, exact on a power of two |
| BracketTournament.ScheduleRound | TicTacToeAgent/tournament.py:100-110 | match `j` is `R{round}M{j+1}` between entries `2j` and `2j + 1`, a last lone entry playing itself |
| BracketTournament.PlayMatch | TicTacToeAgent/tournament.py:116-150 | the record keeps the round, id and models and is decided by the match's own game (`MatchGame`): the moves `play_game` made for the match's agents, at most 9 and stopping at the first line; a winner is the last mover, who completed a line, and advances as model 1 for X, model 2 for O; a draw is a full board without a line, with `result` "draw" and the coin's choice advancing |
| BracketTournament.PlayScheduled | TicTacToeAgent/tournament.py:115-152 | record `j` is scheduled match `j` decided by its own game `games[j]` as `PlayMatch` states, in order, and its advancing model goes to the next round |
| BracketTournament.PlayRound | TicTacToeAgent/tournament.py:97-154 | on an even field match `j` pits entries `2j` and `2j + 1` under `R{round}M{j+1}`, decided by its own game (`RoundRecorded`); the next round has that match's advancing model at `j`, drawn from its pair |
| BracketTournament.BracketRecordedSnoc | TicTacToeAgent/tournament.py:150-155 | a round played on the last field, decided game by game, extends the recorded bracket by one round |
| BracketTournament.PlayedRoundsAppend | TicTacToeAgent/tournament.py:150-155 | appending a round's records keeps the list of records in round order and their advancing models |
| BracketTournament.Pow2Halves | TicTacToeAgent/tournament.py:93-155 | half of a power of two above 1 is the previous power |
| BracketTournament.PlayBracket | TicTacToeAgent/tournament.py:89-158 | the rounds halve the field to one champion drawn from the entrants, in `log2 n` rounds and `n - 1` matches; the records are the rounds' records in round order, and round `r + 1` played field `r` pair by pair, each record decided by its game and its advancing model making field `r + 1` (`BracketRecorded`) |
| BracketTournament.RunTournament | TicTacToeAgent/tournament.py:57-174 | the result holds the padded bracket, its size, `log2` of it as rounds, its set of models, and the `n - 1` matches in round order, each the game of its pair of its round's field (`BracketRecorded`); the champion is the advancing model of the last match |
| BracketTournament.CreateSeededBracket | TicTacToeAgent/tournament.py:177-196 | the first entries are a permutation of the models (the models themselves without shuffling), followed by choices of the models up to the next power of two; no models give an empty bracket |
| BracketTournament.AddKey | TicTacToeAgent/tournament.py:222-226 | inserting a new key appends it to the dictionary's key order and an existing key changes nothing |
| BracketTournament.TallyUnfold | TicTacToeAgent/tournament.py:217-231 | one more match adds its two models to the keys and 1 game to each, and 1 win to the advancing model when it is a key |
| BracketTournament.UnseenZero | TicTacToeAgent/tournament.py:217-231 | a model in no match has no wins and no games |
| BracketTournament.CountModel | TicTacToeAgent/tournament.py:222-227 | the inner loop creates missing counters at 0 and adds one game |
| BracketTournament.CountWin | TicTacToeAgent/tournament.py:230-231 | the advancing model's win count grows by one when it has a counter |
| BracketTournament.CountsComposed | TicTacToeAgent/tournament.py:217-231 | the two inner steps and the win step give the keys, games and wins of one more match |
| BracketTournament.TallyAt | TicTacToeAgent/tournament.py:217-231 | a model's games and wins after one more match, from its counts before |
| BracketTournament.TalliedStep | TicTacToeAgent/tournament.py:217-231 | the counters after one more match tally the longer list |
| BracketTournament.CountMatch | TicTacToeAgent/tournament.py:217-231 | one pass of the outer loop keeps the counters equal to the tally of the matches so far |
| BracketTournament.CountAll | TicTacToeAgent/tournament.py:217-231 | the counters are the tally of all matches: keys in first-appearance order, games and wins per model |
| BracketTournament.WinRates | TicTacToeAgent/tournament.py:234-238 | one rate per counted model: wins over games, 0 for no games |
| BracketTournament.GetTournamentStats | TicTacToeAgent/tournament.py:199-240 | the number of matches, zero moves and length, the tallies and the win rate of every model |
| BracketTournament.ModelOrderDistinct | TicTacToeAgent/tournament.py:222-226 | the key order has no repeats and holds the last match's two models |
| BracketTournament.WinsSnoc | TicTacToeAgent/tournament.py:230-231 | a match adds one win to its advancing model, which is one of its models |
| BracketTournament.GamesSnoc | TicTacToeAgent/tournament.py:227 | a match adds one game to each of its models, two to a model playing itself |
| BracketTournament.StatsTotals | TicTacToeAgent/tournament.py:217-231 | over all models the wins add up to the number of matches and the games to twice that |
| RpsRules.BeatsIsCyclic | RockPaperScissors/utils.py:47-51 | the winning table is the cycle rock, paper, scissors: a move beats the one just before it |
| RpsRules.BeatsTrichotomy | RockPaperScissors/utils.py:44-56 | of two moves, either they are equal or exactly one beats the other; no move beats itself |
| RpsRules.DetermineWinner | RockPaperScissors/utils.py:34-56 | a draw exactly on equal moves, a win for a player exactly when its move beats the other's, and the two results are opposite |
| RpsRules.DetermineWinnerSwap | RockPaperScissors/utils.py:34-56 | swapping the moves swaps the two results |
| RpsRules.MappingsAreSpellings | RockPaperScissors/utils.py:74-83 | the `move_mappings` table maps exactly the accepted spellings, each to its move |
| RpsRules.ParseMove | RockPaperScissors/utils.py:59-88 | a lower-cased, stripped string that is an accepted spelling gives its move; anything else is the ValueError `Invalid move: ` followed by the cleaned string |
| RpsRules.LowerNoop | RockPaperScissors/utils.py:71 | `lower()` leaves a string without upper-case letters unchanged |
| RpsRules.CleanIdempotent | RockPaperScissors/utils.py:71 | `lower().strip()` applied twice is applied once |
| RpsRules.ParseMoveValue | RockPaperScissors/utils.py:59-88 | `parse_move(m.value) == m` for every move |
| RpsRules.ParseMoveClean | RockPaperScissors/utils.py:71 | parsing an already cleaned string gives the same result |
| RpsRules.ExpectedMatches | RockPaperScissors/utils.py:386-405 | round robin is `n (n - 1) / 2` exactly; single elimination is at least 1; any other type is `n` |
| RpsRules.ExpectedRoundRobin | RockPaperScissors/utils.py:396-398 | the round-robin count is the number of pairs `combinations` yields |
| RpsRules.ExpectedSingleElimination | RockPaperScissors/utils.py:399-403 | one more than the count is the least power of two that is at least 2 and at least `n` |
| RpsRules.RoundOutcome | RockPaperScissors/utils.py:421-430 | the per-round result in `_calculate_streaks` agrees with `determine_winner` |
| RpsRules.Outcomes | RockPaperScissors/utils.py:419-430 | one result per player move, each that of `determine_winner` on that round |
| RpsRules.TrailingRun | RockPaperScissors/utils.py:438-450 | the current run never exceeds the number of rounds |
| RpsRules.LongestRun | RockPaperScissors/utils.py:438-450 | the longest run lies between the current run and the number of rounds |
| RpsRules.TrailingRunIsRun | RockPaperScissors/utils.py:438-450 | the current run is a run ending at the last round |
| RpsRules.TrailingRunAtLeast | RockPaperScissors/utils.py:438-450 | no run ending at the last round is longer than the current run |
| RpsRules.LongestRunIsLongest | RockPaperScissors/utils.py:438-450 | no run anywhere is longer than the longest streak |
| RpsRules.LongestRunAttained | RockPaperScissors/utils.py:438-450 | some run is as long as the longest streak |
| RpsRules.StreaksOfBounds | RockPaperScissors/utils.py:452-470 | the current streak is positive exactly after a win and negative exactly after a loss, bounded by the longest streak of its kind, and the longest streaks fit in the match |
| RpsRules.StreakStep | RockPaperScissors/utils.py:438-450 | one loop step: a win extends the win run and resets the loss run, and the longest runs take the maximum |
| RpsRules.CalculateStreaks | RockPaperScissors/utils.py:407-470 | an empty history gives zeros without `streak_type`; an opponent history shorter than the player's is the IndexError; otherwise the longest runs of the per-round results and the signed current streak |
| RpsRules.MoveCountsSum | RockPaperScissors/utils.py:258-264 | the three move counts of a history add up to its length |
| RpsRules.MoveFrequency | RockPaperScissors/utils.py:258-264 | the frequency table has the three move names as keys and counts each move, summing to the length |
| RpsRules.MatchEndStatistics | RockPaperScissors/utils.py:254-283 | an IndexError exactly when player 2's history is shorter than player 1's (the round list reads it) or player 1's is non-empty and shorter than player 2's (player 2's streaks read it); otherwise `total_rounds` is player 1's history length, the draws make up the rounds neither player won, the two frequency tables count the two histories, round `i + 1` lists both moves of that round, and each player's streaks are those of its own results, all zero for empty histories |
| RpsAgents.NewAgent | RockPaperScissors/agents.py:13-23 | an agent built without a name is named after its model |
| RpsAgents.OrDefault | RockPaperScissors/agents.py:246-249 | `name or default` is the default exactly when the name is missing, empty or already the default |
| RpsAgents.CreateAgent | RockPaperScissors/agents.py:232-251 | `random` and `counter` build those agents named `Random`/`Counter` unless given a name; any other type is a language-model agent named by its model unless given a name |
| RpsAgents.FirstPattern | RockPaperScissors/agents.py:117-127 | the move of the first pattern, in table order, that the text contains, or none when it contains none |
| RpsAgents.LetterMove | RockPaperScissors/agents.py:129-135 | a move exactly when its letter is the only one of `r`, `p`, `s` in the text |
| RpsAgents.ParseMoveFromResponse | RockPaperScissors/agents.py:98-138 | `parse_move` wins when it succeeds; then the first contained pattern; then the single-letter rule; the random fallback only when all fail |
| RpsAgents.ParseMoveNameResponse | RockPaperScissors/agents.py:107-113 | a reply that is a move's name in any case and padding is read as that move |
| RpsAgents.MostFrequent | RockPaperScissors/agents.py:204-212 | the most frequent move, ties going to the earliest of rock, paper, scissors |
| RpsAgents.Counter | RockPaperScissors/agents.py:214-221 | the `counters` table maps each move to the move that beats it |
| RpsAgents.CounterMove | RockPaperScissors/agents.py:189-221 | a random move on an empty history, otherwise a move that wins against the opponent's most frequent move |
| RpsAgents.CounterIsOnlyWinner | RockPaperScissors/agents.py:214-221 | the counter move is the only move that beats a given move |
| RpsAgents.CounterBeatsRepeat | RockPaperScissors/agents.py:189-221 | the counter agent wins the round whenever the opponent repeats its most frequent move |
| RpsAgents.MakeMove | RockPaperScissors/agents.py:25-46 | a random agent plays its random choice, a counter agent its counter move, a language-model agent the parsed reply; only a failing model query is an error |
| RpsScoring.ResultsAddUp | RockPaperScissors/utils.py:514-527 | every side a model played ended in exactly one of win, loss and draw |
| RpsScoring.LogSnoc | RockPaperScissors/utils.py:501-527 | one more recorded match adds one appearance per side of the model and one result of each side's kind |
| RpsScoring.BumpIf | RockPaperScissors/utils.py:511-527 | `d[p] += 1` when the condition holds: same keys, only `p`'s count grows, by one |
| RpsScoring.Zeros | RockPaperScissors/utils.py:496-499 | `{model: 0 for model in models}`: a zero per registered model and no other key |
| RpsScoring.StandingKeyFn | RockPaperScissors/utils.py:569-573 | the leaderboard key `(points, win_rate, wins)` is a well-formed three-part key |
| RpsScoring.RecordCounts | RockPaperScissors/utils.py:510-527 | both players' match counts grow and each side's result adds to exactly one of its win, loss and draw counters |
| RpsScoring.CountsStep | RockPaperScissors/utils.py:501-527 | one recording keeps the counters equal to the counts of the recorded matches |
| RpsScoring.KeySet | RockPaperScissors/utils.py:496-499 | the keys of the counters are exactly the registered models |
| RpsScoring.RecordLogged | RockPaperScissors/utils.py:501-527 | after one recording the counters count the longer list of recorded matches |
| RpsScoring.Names | RockPaperScissors/utils.py:569-575 | the model names of the leaderboard, in order |
| RpsScoring.Rows | RockPaperScissors/utils.py:569-570 | one `(model, standing)` pair per model of the order, with that model's standing |
| RpsScoring.LeaderboardOf | RockPaperScissors/utils.py:560-575 | each registered model once, with its standing, in descending `(points, win_rate, wins)` order, its head the first maximum in registration order |
| RpsScoring.TournamentScorer.constructor | RockPaperScissors/utils.py:485-492 | the models are registered and every counter starts at zero |
| RpsScoring.TournamentScorer.ResetScores | RockPaperScissors/utils.py:494-499 | every counter is zero again; the models are unchanged |
| RpsScoring.TournamentScorer.RecordMatch | RockPaperScissors/utils.py:501-527 | both players' matches grow by one and each result is added to its own counter; the counters keep counting every match since the reset |
| RpsScoring.TournamentScorer.GetStandings | RockPaperScissors/utils.py:529-558 | one standing per model with its counters, win rate `wins / matches` (0 with no matches) and points `3 * wins + draws` |
| RpsScoring.TournamentScorer.StandingPoints | RockPaperScissors/utils.py:546-547 | a model's points are 3 per recorded win and 1 per recorded draw, between its matches not lost and three times its matches |
| RpsScoring.TournamentScorer.GetChampion | RockPaperScissors/utils.py:577-584 | "" with no models; otherwise a registered model that no other beats on `(points, win_rate, wins)`, the first registered among equals |
| RpsAnalysis.RoundsOf | RockPaperScissors/utils.py:618 | the `"match"` records of the log, in order |
| RpsAnalysis.MatchEndsOf | RockPaperScissors/utils.py:619 | the `"match_end"` records of the log, in order |
| RpsAnalysis.TallyAddsUp | RockPaperScissors/utils.py:736-753 | agent 1's wins, agent 2's wins and the draws add up to the head-to-head rounds |
| RpsAnalysis.TallySnoc | RockPaperScissors/utils.py:736-753 | one more round adds one to the count of its result |
| RpsAnalysis.H2HSnoc | RockPaperScissors/utils.py:726-753 | one more log round adds its oriented row when it is between the two agents |
| RpsAnalysis.H2HStep | RockPaperScissors/utils.py:727-753 | one loop pass appends the round seen from agent 1 and keeps the counters equal to the tallies |
| RpsAnalysis.Flip | RockPaperScissors/utils.py:743-747 | the rounds seen from the other agent: moves swapped, result reversed |
| RpsAnalysis.TallyFlip | RockPaperScissors/utils.py:736-753 | flipping swaps the win and loss counts and keeps the draws |
| RpsAnalysis.FlipAppend | RockPaperScissors/utils.py:726-753 | flipping distributes over concatenation |
| RpsAnalysis.OrientedFlip | RockPaperScissors/utils.py:727-747 | for consistent rounds between two different agents, one round seen with the agents swapped is the flip |
| RpsAnalysis.HeadToHeadSwap | RockPaperScissors/utils.py:710-767 | with consistent rounds, the analysis of `(b, a)` is the flip of that of `(a, b)`: `b`'s wins are `a`'s losses and the draws are the same |
| RpsAnalysis.HeadToHeadResults | RockPaperScissors/utils.py:726-747 | every head-to-head row's result is `determine_winner` on its two moves |
| RpsAnalysis.SideResults | RockPaperScissors/utils.py:657-674 | the agent's result in each of its rounds |
| RpsAnalysis.SideMoves | RockPaperScissors/utils.py:654-666 | the agent's move in each of its rounds |
| RpsAnalysis.SidesSnoc | RockPaperScissors/utils.py:651-674 | one more log round adds the agent's side of it, if it played |
| RpsAnalysis.OutcomesSnoc | RockPaperScissors/utils.py:677-691 | one more finished match adds its outcome for the agent, if it played |
| RpsAnalysis.SideStep | RockPaperScissors/utils.py:651-674 | the results, moves and opponents of a longer side list extend those of the shorter |
| RpsAnalysis.SideAdded | RockPaperScissors/utils.py:651-674 | one more side adds its result, its move and its opponent |
| RpsAnalysis.BumpMove | RockPaperScissors/utils.py:654-666 | `move_counts[move] += 1` counts one more move |
| RpsAnalysis.CountResult | RockPaperScissors/utils.py:657-674 | a result adds one to exactly its own counter |
| RpsAnalysis.CountRound | RockPaperScissors/utils.py:652-674 | one pass of the round loop keeps the counts, move table and opponent set equal to those of the agent's sides so far |
| RpsAnalysis.RoundCounts | RockPaperScissors/utils.py:650-674 | the agent's rounds, wins, losses, draws, moves per kind and opponents faced |
| RpsAnalysis.CountMatchEnd | RockPaperScissors/utils.py:678-691 | a finished match adds one to exactly the agent's outcome counter, nothing when it did not play |
| RpsAnalysis.MatchCounts | RockPaperScissors/utils.py:676-691 | the agent's match wins, draws and losses |
| RpsAnalysis.ResultCountsSum | RockPaperScissors/utils.py:657-691 | the win, loss and draw counts of a result list add up to its length |
| RpsAnalysis.TournamentAnalyzer.constructor | RockPaperScissors/utils.py:611-620 | keeps the data and its `"match"` and `"match_end"` records |
| RpsAnalysis.TournamentAnalyzer.GetHeadToHeadAnalysis | RockPaperScissors/utils.py:710-767 | the rounds between the two agents seen from agent 1, its wins, agent 2's wins and the draws adding up to them, and the two win rates |
| RpsAnalysis.TournamentAnalyzer.GetAgentStatistics | RockPaperScissors/utils.py:630-708 | the agent's round counts adding up to its rounds, its move frequencies, its opponents, its match outcomes and the two win rates |
| RpsTournament.ZeroPad4 | RockPaperScissors/tournament.py:369 | `f"{n:04d}"` is all digits, at least four long, and reads back as `n` |
| RpsTournament.WinnerResult | RockPaperScissors/tournament.py:91-97 | the winner's name gives agent 1 a win, agent 2's name a loss, anything else a draw |
| RpsTournament.MatchIdsDistinct | RockPaperScissors/tournament.py:368-369 | different counter values give different round ids |
| RpsTournament.PlayedSnoc | RockPaperScissors/tournament.py:300-313 | a round whose moves are the agents' choices on the histories so far extends the match played so far |
| RpsTournament.MatchLogSnoc | RockPaperScissors/tournament.py:300-313 | one more round appends its record, under the next counter value, to the log of the match so far |
| RpsTournament.OutcomesSnoc | RockPaperScissors/tournament.py:302-313 | one more round adds its `determine_winner` result for agent 1 |
| RpsTournament.ScoreStep | RockPaperScissors/tournament.py:305-309 | a round agent 1 wins adds a point to agent 1, one it loses adds a point to agent 2, a draw adds none |
| RpsTournament.AgentNames | RockPaperScissors/tournament.py:37 | `[agent.name for agent in agents]` |
| RpsTournament.NameRegistered | RockPaperScissors/tournament.py:37-38 | every agent's name is a key of the scorer built from the names |
| RpsTournament.Bye | RockPaperScissors/tournament.py:420-428 | `create_agent("random", "random", name=...)` is a random agent with that name and model `random` |
| RpsTournament.PadBracket | RockPaperScissors/tournament.py:408-431 | the agents stay first; at most one agent is padded with `Bye` agents to two; more are padded with `Bye{i}` at position `i` up to the next power of two, the least power of two that fits |
| RpsTournament.PairUp | RockPaperScissors/tournament.py:226-229 | neighbours `2k` and `2k + 1` are paired and a last odd agent sits out |
| RpsTournament.PairsDisjoint | RockPaperScissors/tournament.py:223-229 | with distinct agents, no agent is paired with itself or appears in two pairs |
| RpsTournament.RecordFor | RockPaperScissors/tournament.py:92-97 | a recorded match names the two agents and gives agent 2 the opposite of agent 1's result |
| RpsTournament.RecordsPairingsSnoc | RockPaperScissors/tournament.py:65-97 | recording the next pairing extends the records of the pairings so far |
| RpsTournament.RecordsMatchesSnoc | RockPaperScissors/tournament.py:65-97 | the next pairing's match, played from the next counter value and recorded by its winner, extends the records of the pairings so far |
| RpsTournament.LeagueRunSnoc | RockPaperScissors/tournament.py:220-245 | one more round, paired from the shuffle of its number and recorded pair by pair, extends the league run |
| RpsTournament.EvenRoundAdvances | RockPaperScissors/tournament.py:152-175 | on an even field each advancing agent comes from its own pair |
| RpsTournament.EliminationRoundAdvances | RockPaperScissors/tournament.py:164-174 | every pair of a played elimination round sends on one of its own two agents, its match's winner when that is one of them |
| RpsTournament.EliminationRoundSnoc | RockPaperScissors/tournament.py:154-174 | the next pair's match, played after the matches before it, extends the elimination round played so far |
| RpsTournament.EliminationLogSnoc | RockPaperScissors/tournament.py:154-174 | the next pair's match log, from the counter after the matches before it, extends the round's logs |
| RpsTournament.LeagueRecordsSnoc | RockPaperScissors/tournament.py:234-245 | recording the next league pair by its round's result extends the league records |
| RpsTournament.OppositeAppend | RockPaperScissors/tournament.py:239-245 | after league rounds every recorded match still gives the two sides opposite results |
| RpsTournament.RecordByWinner | RockPaperScissors/tournament.py:91-97 | the winner's name gives agent 1 a win, agent 2's name a loss, anything else a draw, recorded once in the scorer |
| RpsTournament.RecordByResult | RockPaperScissors/tournament.py:239-245 | agent 1's round result and its opposite are recorded once in the scorer |
| RpsTournament.TournamentManager.constructor | RockPaperScissors/tournament.py:13-20 | the match counter starts at zero and nothing is logged |
| RpsTournament.TournamentManager.PlaySingleRound | RockPaperScissors/tournament.py:347-406 | the counter goes up by one and names the round `M{counter:04d}`; the moves are the agents' choices, each seeing the other's history, random when a query raised; the results are `determine_winner`'s; the round is logged |
| RpsTournament.TournamentManager.PlayScoredRound | RockPaperScissors/tournament.py:300-313 | one loop turn plays a round on the histories so far: the moves are the agents' choices under the next counter value, each score stays equal to the rounds that side won, and the round's record extends the match's log (`MatchLog`) |
| RpsTournament.TournamentManager.PlayMatch | RockPaperScissors/tournament.py:271-345 | `max(num_rounds, 0)` rounds, one counter step each; the log grows by one record per round, round `i` under counter value `start + i + 1` with both moves and `determine_winner`'s results (`MatchLog`); each score counts the rounds its side won and the draws make up the rest; the winner is the side with more points or `Draw`; the score string is `a-b` |
| RpsTournament.TournamentManager.PlayRecordedMatch | RockPaperScissors/tournament.py:65-97 | pairing `i` is played from the counter after the `i` matches before it and recorded by its winner; the counter steps by `max(num_rounds, 0)` |
| RpsTournament.TournamentManager.PlayPairings | RockPaperScissors/tournament.py:65-100 | every pairing is played in order, match `k` starting after the counter values of the `k` matches before it (`MatchPlayed`: the agents' moves, the rounds each side won, the winner by score), and record `k` names the pair and scores it by that match's winner |
| RpsTournament.TournamentManager.RunRoundRobin | RockPaperScissors/tournament.py:22-118 | one match per pair of `combinations(agents, 2)`, `n (n - 1) / 2` in all, each played as `MatchPlayed` states and recorded by its winner; the standings and champion are the scorer's |
| RpsTournament.TournamentManager.PlayEliminationPair | RockPaperScissors/tournament.py:159-174 | the match is played from the current counter (`MatchPlayed`: the agents' moves, the rounds each side won, the winner by score); its winner advances when it is one of the two, otherwise the random choice made after the match picks one; the counter steps by `max(rounds_per_match, 0)` and the log grows by the match's records |
| RpsTournament.TournamentManager.PlayEliminationStep | RockPaperScissors/tournament.py:155-174 | pair `j = |next|` plays from the counter after the `j` matches before it, extending what the round has played by its result and advancing agent, and the log by its match's records |
| RpsTournament.TournamentManager.PlayEliminationRound | RockPaperScissors/tournament.py:152-175 | pair `j` (entries `2j` and `2j + 1`, a lone last agent playing itself) plays its match after the `j` matches before it and sends on its winner or the random pick (`EliminationRoundPlayed`); the log grows by the pairs' match logs in pair order (`EliminationRoundLogged`); the counter grows by one match's rounds per pair |
| RpsTournament.TournamentManager.PlayKnockoutRound | RockPaperScissors/tournament.py:147-178 | on a power-of-two field one round halves it: each advancing agent comes from its own pair and extends the fields so far; the counter grows by one match's rounds per pair and the log only grows |
| RpsTournament.TournamentManager.PlayKnockoutRounds | RockPaperScissors/tournament.py:145-178 | the `while` loop halves a power-of-two field to one champion in `log2 n` rounds and `n - 1` matches, each round advancing from the one before (a bracket from the entrants); the counter grows by `max(rounds_per_match, 0)` per match |
| RpsTournament.TournamentManager.RunSingleElimination | RockPaperScissors/tournament.py:120-196 | the padded names start with the agents' names; `log2` of the power-of-two field is the number of rounds; rounds halve the field to a champion who was an entrant, after `n - 1` matches; the counter grows by `n - 1` times `max(rounds_per_match, 0)` and the log only grows |
| RpsTournament.TournamentManager.PlayLeaguePair | RockPaperScissors/tournament.py:234-245 | one round with no history, logged and recorded by agent 1's result |
| RpsTournament.TournamentManager.PlayLeagueRound | RockPaperScissors/tournament.py:233-245 | every pair of the round plays one round and is recorded once, in order |
| RpsTournament.TournamentManager.PlayLeagueRoundNum | RockPaperScissors/tournament.py:220-245 | league round `r` pairs the agents as shuffled by `perm(r)` and plays and records each pair, extending the league run by one round and the log by `n // 2` records |
| RpsTournament.TournamentManager.RunLeague | RockPaperScissors/tournament.py:198-269 | `max(rounds, 0)` rounds; round `r` shuffles the agents by `perm(r)`, pairs neighbours and plays one round per pair (`ConsecutivePairs`); each pair's round is logged and recorded by agent 1's result (`LeagueRecords`); the scorer holds exactly those records, `n // 2` per round, with opposite results |
| RpsTournament.LoggedHeadToHead | RockPaperScissors/tournament.py:393-396 | the rounds the manager logs satisfy the analyzer's swap law: from either side the same rounds, wins exchanged, same draws |
| Py.Mod | TicTacToeAgent/generic_tictactoe.py:277 | Python's `%`: for a positive divisor the remainder lies in `[0, b)`, for a negative one in `(b, 0]` |
| Py.Index | TicTacToeAgent/generic_tictactoe.py:269 | list indexing: defined exactly for `-len <= i < len`, a negative index counting from the end |
| Py.Prefix | TicTacToeAgent/generic_tictactoe.py:31 | the slice `s[:k]` is a prefix of `s`, of length `k` in range, all of `s` above it and `len + k` for a negative `k` |
| Py.LowerChar | RockPaperScissors/utils.py:71 | a lower-cased character is not upper-case, and one that was not is unchanged |
| Py.Lower | RockPaperScissors/utils.py:71 | `str.lower()` keeps the length and lower-cases each character |
| Py.LowerIdempotent | RockPaperScissors/utils.py:71 | lower-casing twice is lower-casing once |
| Py.TrimLeft | RockPaperScissors/utils.py:71 | the leading white space removed: a suffix that starts with a non-space |
| Py.TrimRight | RockPaperScissors/utils.py:71 | the trailing white space removed: a prefix that ends with a non-space |
| Py.Strip | RockPaperScissors/utils.py:71 | `str.strip()` neither starts nor ends with white space |
| Py.StripIdempotent | RockPaperScissors/utils.py:71 | stripping twice is stripping once |
| Py.NatToString | TicTacToeAgent/tournament_system.py:160 | the decimal digits of `n`, at least one, without a leading zero |
| Py.NatToStringValue | TicTacToeAgent/tournament_system.py:160 | the digits read back as `n` |
| Py.NatToStringInjective | TicTacToeAgent/tournament_system.py:160 | different numbers have different decimal strings |
| Py.BeforeFirst | TicTacToeAgent/tournament_system.py:513 | `s.split(sep)[0]`: the longest prefix without `sep`, followed in `s` by `sep` when shorter |
| Py.BeforeFirstPrefix | TicTacToeAgent/tournament_system.py:513 | the part before the first separator of `a + sep + b` is `a` when `a` has no separator |
| Py.IndexOf | TicTacToeAgent/tournament_system.py:469-477 | the first position of `x` |
| Py.RemoveFirst | TicTacToeAgent/tournament_system.py:469-477 | `list.remove(x)` drops exactly the first occurrence of `x` |
| Py.FirstOccurrences | RockPaperScissors/utils.py:496 | a dictionary built from a list has each key once, the keys being exactly the list's entries |

## Left out
- Language-model calls and prompt text (`ollama_query`, `_create_move_prompt`, `get_strategy_description`, temperatures and seeds): an agent's reply is a parameter of the model.
- `random.choice`, `random.shuffle` and `random.seed`: each random draw is an oracle parameter, so every choice the real generator could make is covered, but no particular generator is modelled.
- Logging, JSONL writing, printing and display helpers (`RPSLogger` apart from its arithmetic, `GameLogger`, `_display_*`, `get_state`, `get_game_config`, `display`): these are I/O with no effect on results.
- `load_tournament_data`, `get_move_effectiveness_matrix`, `get_model_performance_summary` and `get_tournament_summary` of the analyzer: they are outside the modelled core (file I/O and float summaries).
- Floating point:
  - win rates are exact fractions (`Ranking.Ratio`), so the leaderboard compares them by cross-multiplication, as exact division would;
  - `move_distribution` is left out;
  - durations and `time.time()` are left out.
- `math.log2` and `math.ceil` are the exact integer logarithms (`PowersOfTwo`); floating-point rounding of `log2` on very large sizes is not modelled.
- Exception recovery:
  - in `_play_single_game` only an agent reply that raises is modelled: it ends the game without a winner, as the `except … break` does; exceptions raised by the game's own methods are not modelled;
  - the `max_moves` exit of the same loop is modelled, as is the `break` when no valid move is left.
- RpsTournament.TournamentManager.PlaySingleRound: when either query raises, both moves are random. The model does not distinguish that agent 2 is never asked when agent 1 raises, because no result depends on it.
- `TournamentAnalyzer._extract_agents` and the `agents` field: a sorted list of names, not read by the modelled counters.
- RpsAnalysis.TournamentAnalyzer.GetAgentStatistics: `opponents_faced` is returned as a set rather than a list in set order, because Python's set order is unspecified.
- RpsScoring.TournamentScorer.RecordMatch: the `KeyError` for an unregistered player is a precondition, not an error result. Every caller in the tournaments passes registered names, and the model proves this.
- The round-robin match id `RR{i:03d}_…` of the Rock Paper Scissors manager: it is only logged.
- The league's `round_results` list and its standings summary every fifth round: they are only logged and displayed.
- `str.lower` covers ASCII letters only; Unicode case mapping is not modelled. `str.strip` removes the characters `str.isspace` accepts, the Unicode spaces included.
- TournamentSystem.TournamentEngine.PlayMatch: a best-of-X match whose games are all drawn never ends in the source. The model takes a `fuel` bound on the number of games and reports an unfinished match when the bound is reached; no result is claimed for such a match. This also applies to `PlayRounds`, `RunSingleElimination`, `RunRoundRobin`, `RunSwiss` and `RunTournament`, which pass the bound on.
- Boards are lists of rows (`seq<seq<string>>`) reassigned by the methods. The source's `copy` copies each row, so no two games share a row, and the model's boards, being values, cannot share one either.
- `TournamentEngine` games are played on the generic N×N game: the `game_factory` of the source is fixed to `GenericTicTacToe`.
- `IGame` is an abstract interface: its abstract methods are modelled by the two game classes rather than by a trait.
- `run_double_elimination` is exactly single elimination in the source, and so it is here.
- TournamentSystem.TournamentEngine.RunSingleElimination, RunRoundRobin, RunSwiss and RunTournament: their run predicates state every match as a played match (its numbered games, score and winner), not how each game of it was played out move by move; that is stated by `PlayMatch` (`GamesPlayedOut`) and not carried further up.
- RpsTournament.TournamentManager.RunSingleElimination: states the bracket, the counter and that the log only grows. Each round's matches and their logged records are tied to the agents' moves by `PlayEliminationRound` (`EliminationRoundPlayed`, `EliminationRoundLogged`), but the run does not collect those facts round by round, so its log is not stated record by record.
- RpsTournament.TournamentManager.PlayKnockoutRounds: as for `RunSingleElimination`, the log is stated only to grow.
- RpsTournament.TournamentManager.PlayKnockoutRound: the log is stated only to grow, and the round's matches are not passed on; both are stated by the `PlayEliminationRound` it calls.
- BracketTournament.RunTournament: `unique_models` is `list(set(bracket.models))`, a list in Python's unspecified set order; the model keeps it as a `set<string>`.
- Ranking.SortDesc: stability among equal keys is stated only for the head, which is the first maximum; the other contracts give the descending order and the permutation.
