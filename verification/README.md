# Tic-tac-toe game logic in Dafny

This project models the game logic of an n-by-n tic-tac-toe played in the
browser. The model covers three parts:

- the **win search**. Every cell, taken in row-major order, is tried as the
  centre of a three-cell line along four axes: horizontal, vertical,
  diagonal and anti-diagonal. The first line found wins.
- the **move**. A click on a cell (`fillCell`) places the next player's
  mark, then `advanceTurn` swaps players and sets the winner if a line
  exists, then `addCurrentStateToHistory` appends a snapshot.
- the **history**. `resetToState` restores a recorded snapshot and drops
  every entry after it.

The primary version is `src/Game.js` with `src/BoardCell.js`. The entry
point loads another draft of the same logic, `src/game.js`. The module
`Draft` models it and proves that it ends in the same state after every
click. Its win search reports the same line with the centre moved from
first to last.

Modules, in dependency order:

| file | module | what it holds |
|---|---|---|
| `utils.dfy` | `Utils` | `Option` (JavaScript's `null`), `range`, `head`, `deepCopyArray`, `filter` |
| `matrix_utils.dfy` | `MatrixUtils` | the matrix helpers of `dist/utils.js`: `sum`, `transpose`, `diagonal`, `mirror` |
| `constants.dfy` | `Constants` | `Player`, `Cell` (`CELL_STATES`), `CELL_DISPLAY`, `GAME_PHASES` / `STATUS_MESSAGES`, `WINNING_LINES_DELTAS` |
| `board.dfy` | `Board` | the cell matrix, `maybeGetCellState`, `createCells`, `flatCells`, mark counts |
| `win_search.dfy` | `WinSearch` | `findWinningLine`, `findWinner` |
| `game_state.dfy` | `GameState` | the `Game` record and its snapshots, `fillCell`, `advanceTurn`, `endGame`, history and reset, and the invariant of reachable states |
| `draft.dfy` | `Draft` | `src/game.js`: `findWinningNeighbors`, `iterableCells`, `findWinner`, `switchPlayers`, `maybeEndGame`, `ReflectiveCell.fillCell` |
| `test_cases.dfy` | `GameExamples` | the cases of `spec/Game.test.js`, plus two whole games |

Encoding choices:

- A cell is `Empty` or `Mark(X)` / `Mark(O)`. The player type is also the
  type of `nextPlayer` and of a non-null `winner`.
- Coordinates are unbounded integers, so a neighbour of an edge cell is
  simply off the board.
- The reflective setters only update the page, so here they are plain
  record updates.
- A snapshot is `{cells, nextPlayer, winner, stepNumber}`. The draft names
  the last field `number`.

The win search is a function of an arbitrary square board, not only of
boards that moves can reach. The test file fills cells directly,
bypassing moves.

The class invariant is `GameState.Valid`. It holds for the initial state,
and it is preserved by moves and by jumps to a recorded snapshot. It says:

- every snapshot `i` has `stepNumber == i`;
- X and O alternate, starting with X;
- the winner is set exactly when the board holds a line, and it is the
  player who moved last and owns every line;
- the live state is the one the last snapshot records.

## Model

| member | source | states |
|---|---|---|
| Utils.Range | src/utils.js:6-9 | `range(n)` has length n and its element i is i |
| Utils.Head | src/utils.js:11-14 | `head` is null exactly for an empty array, otherwise it is the first element |
| Utils.DeepCopyArray | src/utils.js:1-4 | the copy has the same length and the same element at every index |
| Utils.Filter | src/Game.js:173-175 | the result holds exactly the elements of the input that pass the test, and is never longer than the input |
| Utils.FilterAppend | src/Game.js:173-175 | filtering a concatenation is the concatenation of the filtered parts, and one element is kept exactly when it passes, so the kept elements stay in input order |
| Utils.HeadOfFilter | src/Game.js:173-176 | `head(xs.filter(f))` is null exactly when no element passes `f`; otherwise it is the element at the first index that passes |
| Utils.FilterFirstIndex | src/Game.js:173-176 | when the test agrees with an index predicate `g`, the filter is empty exactly when `g` holds at no index, and otherwise its first element sits at the first index where `g` holds |
| MatrixUtils.SumAppend | dist/utils.js:1 | `sum([])` is 0, and appending x to the array adds x to its sum |
| MatrixUtils.Transpose | dist/utils.js:3 | for a rectangular matrix with at least one row, the transpose has `m[0].length` rows of `m.length` cells, and `r[i][j] == m[j][i]` |
| MatrixUtils.TransposeTwice | dist/utils.js:3 | transposing a non-empty rectangular matrix twice gives back the matrix |
| MatrixUtils.Diagonal | dist/utils.js:8-12 | the diagonal has one entry per row, and entry i is `m[i][i]` |
| MatrixUtils.Mirror | dist/utils.js:14-20 | `mirror` keeps the row count, and each row is reversed: entry j of row i is entry `len-1-j` of the original row |
| MatrixUtils.MirrorTwice | dist/utils.js:14-20 | mirroring twice gives back the matrix |
| Constants.Other | src/Game.js:158-160 | the player swap never returns the same player |
| Constants.OtherTwice | src/Game.js:158-160 | swapping players twice gives back the same player |
| Constants.Display | src/constants.js:7-11 | a cell is shown as the empty string exactly when it is EMPTY, and a mark as one character |
| Constants.DisplayInjective | src/constants.js:7-11 | different cell states are displayed differently |
| Constants.StatusMessage | src/constants.js:14-23 | every game phase has a non-empty status message |
| Constants.StatusMessagesDistinct | src/constants.js:14-23 | no two phases share a status message |
| Constants.WinningLinesDeltasShape | src/constants.js:24-33 | there are exactly four axes, in the order horizontal, vertical, diagonal, anti-diagonal; in each, the first neighbour is the negation of the second and both are non-zero unit steps; no two axes describe the same line |
| Board.MaybeGetCellState | src/Game.js:141-147 | null exactly when the row or the column is outside 0..size-1; otherwise the state of that cell |
| Board.EmptyGrid | src/Game.js:40-45 | `createCells` builds size rows of size cells, and every cell starts EMPTY |
| Board.Place | src/BoardCell.js:45 | setting a cell's state changes that cell to the new value and leaves every other cell as it was |
| Board.FlatCellsOrder | src/Game.js:129-139 | `flatCells` lists only on-board coordinates, lists every one of them, and lists them in strictly increasing row-major order |
| Board.PlaceCounts | src/BoardCell.js:43-45 | putting a player's mark on an EMPTY cell adds one mark of that player, leaves the other player's count alone, and removes one EMPTY cell |
| Board.EmptyGridCounts | src/Game.js:40-45 | the initial board holds no X and no O |
| WinSearch.AllMatchIsLine | src/Game.js:184-194 | for a marked centre, both neighbour values along an axis equal the centre exactly when both neighbours are on the board and hold the centre's mark; an off-board null never matches |
| WinSearch.FirstMatchingAxis | src/Game.js:190-200 | the matching neighbour records are empty exactly when no axis holds a line; otherwise the first one belongs to the first axis, in delta order, that holds one |
| WinSearch.FindWinningLine | src/Game.js:179-202 | null for an EMPTY centre and whenever no axis holds a line; otherwise the centre's player with the coordinates [centre, first neighbour, second neighbour] of the first axis that holds a line; every reported cell is on the board and holds that player's mark |
| WinSearch.LineInfos | src/Game.js:173-174 | one `findWinningLine` result per cell of `flatCells`, in the same order |
| WinSearch.FirstFoundInRowMajorOrder | src/Game.js:169-177 | the first non-null line result is missing exactly when the board holds no line |
| WinSearch.FindWinner | src/Game.js:169-177 | null exactly when no cell centres a line; otherwise the line of the first centre, in row-major order, that has one, with every cell on the board and holding the winner's mark |
| WinSearch.FirstCentreUnique | src/Game.js:169-177 | at most one cell is the first centre of a line in row-major order |
| WinSearch.FindWinnerAtFirstCentre | src/Game.js:169-177 | when a cell centres a line and no earlier cell does, `findWinner` reports that cell's line |
| WinSearch.LongRunIsFound | src/Game.js:169-202 | although only three-cell lines are searched for, a run of three or more equal marks along any of the four directions makes `findWinner` non-null |
| WinSearch.NewLinesPassThroughMove | src/Game.js:156-165 | on a board with no line, a mark placed on one cell only creates lines that pass through that cell and belong to its player |
| GameState.AddCurrentStateToHistory | src/Game.js:223-240 | exactly one snapshot is appended; earlier entries and the live state are unchanged; the new snapshot records the cells, next player and winner, with `stepNumber` equal to the previous history length |
| GameState.Init | src/Game.js:25-37 | a new game has size-by-size EMPTY cells, no winner, X to play, and one snapshot of that state with step 0 |
| GameState.IsGameOver | src/Game.js:149-152 | the game is over exactly when some player is the winner, i.e. `winner` is not null |
| GameState.EndGame | src/Game.js:204-208 | the line's player becomes the winner, so the game is over; nothing else changes |
| GameState.AdvanceTurn | src/Game.js:156-165 | the other player is next even after a winning move; with a line on the board the winner becomes the player of the line `findWinner` reports, who owns a line; without a line the winner is unchanged; nothing else changes |
| GameState.FillCell | src/BoardCell.js:38-53 | a click is ignored when the game is over or the cell is filled; otherwise the cell gets the next player's mark and no other cell changes, the players swap, the winner is set exactly when the board now holds a line, and exactly one snapshot of the new state, numbered by the old history length, is appended |
| GameState.ResetToState | src/Game.js:259-268 | the snapshot's cells, next player and winner become the live state; the history keeps its first `stepNumber + 1` entries, or all of them when it is shorter |
| GameState.Reset | src/Game.js:256-268 | clicking the k-th history board makes its cells, next player and winner the live state; when that snapshot's step number is k, the history becomes entries 0..k |
| GameState.InitValid | src/Game.js:25-37 | the initial state satisfies the invariant |
| GameState.MoveConsistent | src/BoardCell.js:40-52 | a successful move on a consistent state leaves a consistent state: the counts still alternate, the winner is set exactly when there is a line, and a new winner is the player who just moved |
| GameState.FillCellValid | src/BoardCell.js:38-53 | every click preserves the invariant |
| GameState.ResetValid | src/Game.js:259-268 | jumping to recorded snapshot k preserves the invariant and leaves history entries 0..k |
| GameState.WinnerIffLine | src/Game.js:149-165 | in a reachable state the game is over exactly when the board holds a line, and the winner owns every line on the board |
| GameState.WinnerIsMover | src/Game.js:156-165 | a winner set by a click is the player who clicked |
| GameState.TurnBalance | src/Game.js:33 | in a reachable state there are as many X's as O's when X is next, and one more X when O is next |
| GameState.FillCellCounts | src/BoardCell.js:43-45 | a successful click fills exactly one more cell, with the mover's mark |
| GameState.FullBoardIgnoresClicks | src/BoardCell.js:40-44 | on a full board every click is ignored, and a full board without a line is not game over: there is no draw |
| GameState.ResetToLastIsIdentity | src/Game.js:259-268 | jumping to the last snapshot of a reachable state changes nothing |
| GameState.ResetThenMove | src/Game.js:266-267 | after jumping back to snapshot k, a successful click leaves a history of k+2 entries whose first k+1 are the old ones |
| Draft.FindWinningNeighbors | src/game.js:167-192 | the draft's per-centre search reports the same player and cells as `findWinningLine`, in the order [first neighbour, second neighbour, centre] |
| Draft.IterableCells | src/game.js:254-265 | the two nested loops list exactly the coordinates `flatCells` lists, in the same order |
| Draft.NeighborsInfos | src/game.js:160-162 | one `findWinningNeighbors` result per cell, in `iterableCells` order |
| Draft.FindWinner | src/game.js:158-165 | null exactly when the board holds no line; otherwise the line `src/Game.js` reports, with the centre last |
| Draft.SwitchPlayers | src/game.js:138-143 | the next player changes to the other one and nothing else changes |
| Draft.MaybeEndGame | src/game.js:147-156 | with no line on the board nothing changes; with a line, only the winner changes, to a player who owns a line |
| Draft.FillCell | src/game.js:295-309 | a click in the draft ends in exactly the state a click in `src/Game.js` ends in |
| GameExamples.EmptyBoardHasNoWinner | spec/Game.test.js:40-45 | no line on the empty 3-by-3 board |
| GameExamples.VerticalLineWins | spec/Game.test.js:47-55 | a vertical line in the middle column is found |
| GameExamples.HorizontalLineWins | spec/Game.test.js:57-64 | a horizontal line in the top row is found |
| GameExamples.DiagonalWins | spec/Game.test.js:66-73 | the main diagonal is found |
| GameExamples.AntiDiagonalWins | spec/Game.test.js:75-82 | the anti-diagonal is found |
| GameExamples.TwoByTwoBlockDoesNotWin | spec/Game.test.js:84-91 | a two-by-two block of X's holds no line |
| GameExamples.InterspersedLineWins | spec/Game.test.js:93-100 | a diagonal among O's is found |
| GameExamples.BiggerBoardWins | spec/Game.test.js:102-111 | a three-cell run on a 5-by-5 board is found |
| GameExamples.LongerRunWins | spec/Game.test.js:113-122 | a five-cell run on a 5-by-5 board is found |
| GameExamples.FullRowWins | spec/Game.test.js:113-122 | on a board at least three wide, a row filled with one player's marks is found |
| GameExamples.NoDrawOnFullBoard | src/Game.js:149-152 | with X O X / X O O / O X X on the board, the game is not over and every click is ignored |
| GameExamples.TopRowGame | src/BoardCell.js:38-53 | after X (0,0), O (1,1), X (0,1), O (1,0), X (0,2), X has won, the reported line is [(0,1), (0,0), (0,2)], and the history holds six snapshots |

## Left out

- The page: building the DOM, showing cells and messages, highlighting the
  winning line, drawing and scrolling the history, and the class toggles
  inside the setters. Only the setters' field assignments are modelled.
- The `console.log` call in `findWinner`, a debug side effect.
- The ripple animation and the `setTimeout` that makes a cell
  non-interactive. These are timing and page geometry.
- `parseHtml` and `removeChildren` in src/utils.js, and the jQuery
  `$.extend` copy in dist/utils.js. They call into the browser and into a
  library.
- src/index.js (button wiring), webpack.config.js and dist/bundle.js (build
  output).
- The root game.js and dist/game.js. They are older drafts of the same
  logic. dist/game.js encodes players as +1/−1 and an empty cell as null,
  which maps onto the same three-valued cell.
- A draw. src/constants.js:14-23 defines `GAME_PHASES.DRAW` and the
  message 'Draw', but no game code ever sets it: `isGameOver` is `winner
  !== null`, so a full board without a line stays "not over". The model has
  no draw transition, and `GameState.FullBoardIgnoresClicks` states what
  the code does instead.
- Draft: the draft's `maybeGetCellState`, `addCurrentStateToHistory`,
  `resetToState` and constructor match those of src/Game.js. The draft
  names the step field `number` and takes the coordinate as a pair. These
  are modelled once, in `Board` and `GameState`, and not redefined.
- The `dist/utils.js` copy of `range` is the same function as
  `Utils.Range`, and is not modelled twice.
- MatrixUtils.Transpose: requires a rectangular matrix. On ragged rows,
  JavaScript reads `undefined` for missing cells, which has no
  counterpart here.
- MatrixUtils.TransposeTwice: also requires a non-empty first row. A
  matrix of empty rows transposes to `[]`, and `[][0]` is `undefined` in
  JavaScript.
- Board.MaybeGetCellState: only square boards are modelled, since
  `createCells` builds nothing else.
- Constants.Display and Constants.StatusMessage: the contracts state
  emptiness, length and injectivity. The exact strings are left to the
  bodies.
- The tests' board helper: spec/Game.test.js imports `CELL_STATES` from
  src/constants.js, while src/Game.js compares against the separate
  symbols of src/BoardCell.js. The tests also call
  `searchWinningCoordinates`, which src/Game.js does not define. The
  `GameExamples` lemmas state the tests' intent about `FindWinner`
  instead.
