# Sokoban, Aligner and Tower of Hanoi, modelled in Dafny

This project models the game and text logic of three Vim plugin demos:

- **Sokoban** (`toys/sokoban.py`):
  - the puzzle grid, with motion keys that move the player (`X`) and push packages (`$`) towards home cells (`.`);
  - the undo stack, whose records write back the rows a move overwrote;
  - the `finished` test and the rendering of rows with their highlights;
  - the level archive reader;
  - the saved state with its best-score table;
  - the key dispatch of the `Sokoban` command.
- **Aligner** (`align/src/vpe_align_demo.py`): the `Align` command pads the lines of a range so that a delimiter, or the text after it, starts in the same column on every line that contains it.
- **Tower of Hanoi** (`toys/hanoi.py`): the recursive mover, the tower setup, the height clamp and the text drawing of the towers.

Modules, one per file:

- `wrappers.dfy`: `Wrappers` (`Option`, `Result`, `Outcome`, and the Python exceptions that escape).
- `pystr.dfy`: `PyStr`, the parts of Python's `str` behaviour the code relies on.
- `align.dfy`: `Align`.
- `hanoi.dfy`: `Hanoi`.
- `sokoban_grid.dfy`: `SokobanGrid`, the pure rules of a move, of an undo record and of rendering.
- `sokoban_levels.dfy`: `SokobanLevels`, the level archive.
- `sokoban_scores.dfy`: `SokobanScores`, the `SavedState` class and its score rules.
- `sokoban_puzzle.dfy`: `SokobanPuzzle`, the `Puzzle` class.
- `sokoban_game.dfy`: `SokobanGame`, the `Sokoban` key dispatch.

How Python features are modelled:

- Objects whose fields the Python code updates are Dafny classes: `Puzzle`, `SavedState`, `Sokoban`, `Hanoi` and the tower lists (`Tower`).
- Pure rules are functions and lemmas.
- A Python exception that escapes to the caller is an `Err` result or a `Fail` outcome.
- A legal Sokoban move takes the state `s` to `AfterMove(s, ...)` and pushes the record `MoveRecord(s, ...)`. Applying that record gives back exactly `s`.
- The mover `generate_moves` is proved equal to the pure `Run`. From a full tower, `Run` makes the classic 2^n - 1 moves and never places a disc on a smaller one.

## Model

| member | source | states |
|---|---|---|
| PyStr.RStrip | align/src/vpe_align_demo.py:62-63 | `rstrip()` is a prefix of the string, ends in a non-blank (or is empty), and every character it drops is whitespace |
| PyStr.LStrip | align/src/vpe_align_demo.py:64 | `lstrip()` is a suffix of the string, starts with a non-blank (or is empty), and every character it drops is whitespace |
| PyStr.FindFrom | align/src/vpe_align_demo.py:49 | the search `partition` does: the first occurrence at or after `k`, or none at all |
| PyStr.Partition | align/src/vpe_align_demo.py:49 | `partition` gives three parts that concatenate back to the line; the separator is the delimiter or empty, and when it is empty the whole line is the left part |
| PyStr.PartitionAtFirst | align/src/vpe_align_demo.py:49 | `partition` finds a separator exactly when the delimiter occurs, and splits at its first occurrence |
| PyStr.PadRight | align/src/vpe_align_demo.py:82-84 | `f'{s:{w}}'` keeps `s`, pads with blanks to `w` columns and never truncates |
| PyStr.CenterLeft | toys/hanoi.py:114 | the left margin of `center` is at most the slack; an even slack is split evenly, and an odd slack puts the extra blank on the left when the width is odd and on the right when it is even (CPython's rule) |
| PyStr.Center | toys/hanoi.py:114 | `center(width)` returns the string unchanged when it is at least `width` long, else frames it with blanks to exactly `width` |
| PyStr.Join | toys/hanoi.py:115 | `sep.join` of no parts is empty and of a single part is that part |
| PyStr.JoinAppend | toys/hanoi.py:115 | joining one more part appends the separator and that part to the join of the others |
| PyStr.InBlankOrDot | toys/sokoban.py:280 | `c in ' .'` holds for a blank, a dot or the empty string, and for nothing else |
| PyStr.ReplaceCharEffect | toys/sokoban.py:125 | after `replace(a, b)` no `a` is left, every `b` in the result was an `a` or a `b`, and a string without `a` comes back unchanged |
| PyStr.Digits | toys/sokoban.py:123 | `str(n)` of a natural number is a non-empty run of decimal digits |
| PyStr.DigitsInjective | toys/sokoban.py:123 | different natural numbers have different digit strings |
| PyStr.SignFirst | toys/sokoban.py:123 | `str(n)` starts with `-` exactly when `n` is negative |
| PyStr.IntToStringInjective | toys/sokoban.py:123 | `str` is injective on integers, so `f'level{level}.sok'` and the `str(level)` score keys name one level each |
| PyStr.FindBreak | toys/sokoban.py:126 | the first line break at or after `k`, or none |
| PyStr.SplitLines | toys/sokoban.py:126 | `splitlines()` yields lines without line breaks, and no lines at all for empty text; with `FinalBreakEndsLastLine`, a final break starts no extra line |
| PyStr.SplitLinesRejoin | toys/sokoban.py:126 | the lines of `splitlines()`, each followed by the break it ended at, give back the text exactly: the lines are the pieces between the breaks |
| PyStr.LineEndsAreBreaks | toys/sokoban.py:126 | every piece removed between two lines is one line break (`\r\n` counting as one), and only the last line may end without one |
| PyStr.FinalBreakEndsLastLine | toys/sokoban.py:126 | a final line break does not start another line: a last line without an ending is never empty, so `"a\n"` gives one line |
| PyStr.CarriageReturnNewline | toys/sokoban.py:126 | a `\r` followed by `\n` is one break: no empty line is produced between them |
| PyStr.Index | toys/sokoban.py:249 | `row.index('X')` is the position of the first `X` |
| Align.MaxKept | align/src/vpe_align_demo.py:54-57 | `max(..., default=-1)` over the delimiter lines: -1 exactly when none is kept, otherwise a kept value that bounds every kept value |
| Align.MaxKeptFindsDelim | align/src/vpe_align_demo.py:58-59 | the maximum is non-negative exactly when some line holds the delimiter, so the early return fires exactly when none does |
| Align.RightStarts | align/src/vpe_align_demo.py:54-56 | right mode measures the column where the right text starts after its leading blanks, which is never before the end of the delimiter |
| Align.AlignedLine | align/src/vpe_align_demo.py:79-86 | a line without the delimiter comes out with only its trailing blanks removed |
| Align.ColumnCoversLine | align/src/vpe_align_demo.py:52-77 | every delimiter line's kept text fits within the common column, so padding never cuts it |
| Align.PartsShape | align/src/vpe_align_demo.py:82-84 | a realigned line is its kept text, then blanks up to the column, then the delimiter and right text (left mode) or the stripped right text (right mode) |
| Align.PaddedThen | align/src/vpe_align_demo.py:82-84 | text padded to `col` and followed by a tail has the tail starting at column `col` |
| Align.AlignedLineShape | align/src/vpe_align_demo.py:79-86 | the same shape, for a line given before partitioning |
| Align.AlignedAtColumn | align/src/vpe_align_demo.py:52-86 | on every delimiter line, the delimiter (left mode) or the right text (right mode) starts at the common column, preceded only by the line's stripped text and blanks |
| Align.Align | align/src/vpe_align_demo.py:35-89 | an empty range or an empty delimiter raises `ValueError`; a range without the delimiter is left as it was; otherwise every line is realigned to the common column |
| Align.AlignColumn | align/src/vpe_align_demo.py:52-77 | the column is -1 when no line holds the delimiter; otherwise it is non-negative and is the common column (right mode swaps to the joined width when `spaces >= 0`, then `spaces` is added) |
| Align.Assemble | align/src/vpe_align_demo.py:79-86 | delimiter lines are padded to `pos` and continued with the delimiter and the right text (or only the right text in right mode); other lines keep their new left text |
| Hanoi.FullTowerStacked | toys/hanoi.py:69 | `range(n, 0, -1)` is well stacked, holds exactly the discs 1 to `n`, and has disc 1 on top |
| Hanoi.ClampDiscs | toys/hanoi.py:62 | the number of discs is always between 2 and 20, and a height already in range is kept |
| Hanoi.MiddleMoveConserves | toys/hanoi.py:125-126 | `pc.append(pa.pop())` moves a disc without creating or destroying one |
| Hanoi.RunConservesDiscs | toys/hanoi.py:120-128 | whatever the towers, the mover keeps the multiset of all discs |
| Hanoi.SolutionLength | toys/hanoi.py:120-128 | the classic solution of `n` discs has 2^n - 1 moves |
| Hanoi.RunMovesAtMost | toys/hanoi.py:120-128 | whatever the towers, the mover makes at most 2^n - 1 moves (fewer when it finds `pa` empty) |
| Hanoi.RunCarries | toys/hanoi.py:120-128 | when `pa` has at least `n` discs, the mover never finds it empty: it carries the top `n` discs of `pa`, in order, onto `pc`, leaves `pb` as it was, and makes exactly the classic moves |
| Hanoi.FirstHalfFits | toys/hanoi.py:124 | the first recursive call starts from towers where its discs fit |
| Hanoi.SecondHalfFits | toys/hanoi.py:125-128 | after the first call, the middle disc fits on `pc` and the second call starts from well-stacked towers where its discs fit |
| Hanoi.SecondCallReady | toys/hanoi.py:124-128 | after the first recursive call, `pa` still holds a disc, it fits on `pc`, and the second call starts from well-stacked towers where its discs fit |
| Hanoi.RunKeepsStacked | toys/hanoi.py:120-128 | from well-stacked towers where the moved discs fit, all three towers are still well stacked at the end |
| Hanoi.RunPlacesLegally | toys/hanoi.py:120-128 | from such towers, no disc is ever placed on a smaller one |
| Hanoi.Solves | toys/hanoi.py:66-70 | from `([n..1], [], [])` the mover leaves the full tower on the third tower after exactly 2^n - 1 legal moves |
| Hanoi.CellOfDisc | toys/hanoi.py:109-114 | a disc of size `s` is drawn as `2s + 1` `=` characters centred in `2n + 1` columns |
| Hanoi.CellOfEmptySlot | toys/hanoi.py:111-114 | a height above the tower (the `IndexError` case) is drawn as a centred `:` |
| Hanoi.CellWidth | toys/hanoi.py:105-114 | every cell is exactly `2n + 1` columns wide |
| Hanoi.RowShape | toys/hanoi.py:106-115 | a row is the three cells joined by two blanks, `6n + 7` characters long |
| Hanoi.RowOfCells | toys/hanoi.py:115 | joining the three cells of a height gives that height's row |
| Hanoi.Tower.constructor | toys/hanoi.py:69 | a new tower list holds the given discs |
| Hanoi.Hanoi.constructor | toys/hanoi.py:34-41 | a new animation has five discs, all on the first tower |
| Hanoi.Hanoi.HandleCommand | toys/hanoi.py:56-64 | the height is clamped to 2..20 and the animation restarts with all discs on the first tower |
| Hanoi.Hanoi.Start | toys/hanoi.py:66-72 | three fresh, distinct tower lists: a full tower and two empty ones |
| Hanoi.Hanoi.GenerateMoves | toys/hanoi.py:120-128 | popping and appending in place on the three lists has exactly the effect and the moves of `Run` |
| Hanoi.Hanoi.Animate | toys/hanoi.py:88-100 | run to exhaustion after `start`, the mover ends with all discs on the third tower after 2^n - 1 legal moves |
| Hanoi.Hanoi.Draw | toys/hanoi.py:102-118 | one row per disc level, the bottom level last |
| Hanoi.Hanoi.DrawRow | toys/hanoi.py:106-115 | the row of one height is the three towers' cells joined by two blanks |
| SokobanGrid.MotionsAreUnit | toys/sokoban.py:43-48 | every motion key moves exactly one cell, horizontally or vertically |
| SokobanGrid.PyIndex | toys/sokoban.py:347-350 | Python's index rule for a length `n`: `i` itself when `0 <= i < n`, `i + n` when `-n <= i < 0`, and `IndexError` exactly outside those ranges |
| SokobanGrid.CharAt | toys/sokoban.py:345-350 | `_char_at` is at most one character, and is the cell itself inside the grid |
| SokobanGrid.BeyondTheGridIsFree | toys/sokoban.py:280 | past the end of a row or of the grid, `_char_at` gives `''`, which `in ' .'` accepts |
| SokobanGrid.NoHomesIsFinished | toys/sokoban.py:333-339 | a level without home cells is finished from the start |
| SokobanGrid.Put | toys/sokoban.py:292 | writing one cell keeps the number of rows and every row's length |
| SokobanGrid.Moved | toys/sokoban.py:291-310 | a move keeps the number of rows |
| SokobanGrid.MovedCells | toys/sokoban.py:291-310 | a legal move sets the old cell to `.` or blank, the destination to `X` and, on a push, the cell beyond to `$`; no other cell and no row length changes |
| SokobanGrid.Restore | toys/sokoban.py:327-330 | writing saved rows back keeps the number of rows |
| SokobanGrid.RestoreSnoc | toys/sokoban.py:328-329 | the saved rows are written back one after the other, in order |
| SokobanGrid.SavedMatchesChanged | toys/sokoban.py:284-310 | each saved line is its row's old text, the saved rows are the reported rows, and every row a move alters is reported |
| SokobanGrid.RestoreUndoesMove | toys/sokoban.py:320-331 | writing back the rows a legal move saved gives exactly the grid from before the move |
| SokobanGrid.RestoreSavedRows | toys/sokoban.py:328-329 | after the write-back, each saved row holds its saved text and every other row is untouched |
| SokobanGrid.HomesStep | toys/sokoban.py:250-254 | scanning a cell adds it to the home cells exactly when it holds `.` |
| SokobanGrid.HomesNextRow | toys/sokoban.py:247-250 | the scan of the home cells carries over from one row to the next |
| SokobanGrid.HighlightsStep | toys/sokoban.py:356-359 | each character adds one single-character highlight, with its group, exactly when it is in `char_to_highlight` |
| SokobanGrid.IndentNotHighlighted | toys/sokoban.py:354-359 | the indent of a rendered row carries no highlight |
| SokobanLevels.MemberNamesDistinct | toys/sokoban.py:123 | different levels live in different archive members |
| SokobanLevels.RetrieveContent | toys/sokoban.py:121-126 | a missing member raises `KeyError`; otherwise there is one row per line of the text, the same length, with every `@` replaced by `X` and nothing else changed |
| SokobanScores.InitialScores | toys/sokoban.py:381-383 | a fresh table holds exactly the levels 1 to `n_levels`, each with the `MAX_MOVES` sentinel |
| SokobanScores.Clamp | toys/sokoban.py:410 | the clamped level is at least 1, at most `n_levels` when there are levels, exactly 1 when there are none, and unchanged when already in range |
| SokobanScores.ImprovedKeepsBest | toys/sokoban.py:428-440 | each record keeps the smaller of its old measure and the new one, and changes only when the new score is strictly better in that measure |
| SokobanScores.ImprovedIdempotent | toys/sokoban.py:424-440 | storing the same score twice changes nothing the second time |
| SokobanScores.AfterPlaysIsBest | toys/sokoban.py:424-440 | after any series of solutions, each record has the smallest measure of all of them and is one of them or the starting record |
| SokobanScores.RetrieveAfterImproved | toys/sokoban.py:412-440 | after `store_score`, a mode retrieves the new score exactly when it beats that mode's record in the mode's own measure, and otherwise what it retrieved before |
| SokobanScores.FirstSolutionRecorded | toys/sokoban.py:412-440 | the first solution of a level becomes both of its records |
| SokobanScores.SavedState.constructor | toys/sokoban.py:374-388 | the saved document when there is one, else level 0 with every level unplayed, saved at once |
| SokobanScores.SavedState.SetLevel | toys/sokoban.py:400-405 | the level is set, and the state is saved only when the level changes |
| SokobanScores.SavedState.SelectNextLevel | toys/sokoban.py:407-410 | the level becomes the stepped level clamped to 1..`n_levels`, with the two setter saves at a boundary |
| SokobanScores.SavedState.StoreScore | toys/sokoban.py:424-440 | a missing level raises `KeyError`; otherwise the level's records become the improved records and nothing is saved |
| SokobanPuzzle.UndoAfterMove | toys/sokoban.py:284-331 | applying the undo record of a legal move to the state after it gives back exactly the state before it: grid, counters and position |
| SokobanPuzzle.Step | toys/sokoban.py:289-310 | the in-place writes of a legal move produce the moved grid, save exactly the rows it overwrites, and report the changed rows |
| SokobanPuzzle.WriteBack | toys/sokoban.py:328-331 | the undo loop writes the saved rows back in order and reports their indexes |
| SokobanPuzzle.MotionEffect | toys/sokoban.py:261-318 | an error is raised exactly for a non-motion key or a missing position before the level is finished; a motion without an undo record leaves the state unchanged; a motion with a record is a legal move (one more move, player one cell ahead on an `X`, row lengths kept) that reports rows, and applying its record restores the state |
| SokobanPuzzle.PushCounted | toys/sokoban.py:289-316 | the push counter rises, by exactly one, exactly when the destination held `$`, and the package then lands on the cell beyond |
| SokobanPuzzle.MakeMotion | toys/sokoban.py:261-318 | the decisions and writes of `handle_motion`, in Python's order, compute exactly `NextMotion` |
| SokobanPuzzle.LastXStep | toys/sokoban.py:248-252 | scanning a cell keeps the player on the last `X` seen so far |
| SokobanPuzzle.LastXNextRow | toys/sokoban.py:247-252 | the scan for the last `X` carries over from one row to the next |
| SokobanPuzzle.RowScanStep | toys/sokoban.py:248-252 | setting the start to the row's first `X` ahead of the scan still ends on the last `X` |
| SokobanPuzzle.Puzzle.constructor | toys/sokoban.py:238-254 | the level's rows; the home cells are exactly the `.` cells; the player is on the last `X` in row-major order, with no position when there is none; counters zero and no undo records |
| SokobanPuzzle.Puzzle.HandleMotion | toys/sokoban.py:261-318 | the puzzle takes the state and result `NextMotion` gives, and pushes its undo record when there is one |
| SokobanPuzzle.Puzzle.Undo | toys/sokoban.py:320-331 | nothing without records or once finished; otherwise the last record is popped and applied: rows written back, counters and position restored, saved rows reported |
| SokobanPuzzle.Puzzle.RenderRow | toys/sokoban.py:352-360 | an index outside the grid raises `IndexError`; otherwise the indented row, highlighting exactly its marked-up characters and never its indent |
| SokobanPuzzle.Puzzle.RenderAllRows | toys/sokoban.py:362-365 | every row rendered, top to bottom |
| SokobanGame.Sokoban.constructor | toys/sokoban.py:450-456 | a saved state sized by the archive, and no puzzle yet |
| SokobanGame.Sokoban.Start | toys/sokoban.py:468-477 | the level given, or the current level stepped and clamped, with the setter saves that change makes; then a fresh puzzle of it, whose home cells are exactly its `.` cells, whose player is on its last `X` and whose counters are zero; or `KeyError` with the old puzzle kept when the archive lacks the level |
| SokobanGame.Sokoban.HandleMotionKey | toys/sokoban.py:479-488 | the motion is made, and the puzzle keeps its home cells, height and saved state; its exceptions escape; a motion that changes rows and finishes the level stores its move and push counts as a score; nothing is saved to the file |
| SokobanGame.Sokoban.HandleKey | toys/sokoban.py:490-503 | `n`, `p` and `r` start the next, previous or same level, keeping the score table and making only the setter saves, with a fresh puzzle of that level on success; they never touch the old puzzle, so after a `KeyError` it is still playable as it was; `u` undoes one move and keeps the home cells, height and saved state; other keys change nothing; without a puzzle, `AttributeError` |

Some definitions only compute. They have no contract of their own, and the rows above state their properties:

- `PyStr.IsSpace` is stated by `PyStr.RStrip` and `PyStr.LStrip`. `PyStr.IsLineBreak` is stated by `PyStr.SplitLines` and `PyStr.LineEndsAreBreaks`.
- `PyStr.Repeat`, `PyStr.Spaces` and `PyStr.ReplaceChar` are stated by `PyStr.CenterLeft`, `PyStr.PadRight` and `PyStr.ReplaceCharEffect`.
- `PyStr.IntToString` is stated by `PyStr.SignFirst` and `PyStr.IntToStringInjective`.
- `Align.Column` is stated by `Align.AlignColumn` and `Align.AlignedAtColumn`.
- `Align.Kept`, `Align.LeftWidths`, `Align.JoinedWidths`, `Align.Splits`, `Align.StrippedLefts` and `Align.AdjustedRights` are stated by `Align.MaxKeptFindsDelim`, `Align.ColumnCoversLine` and `Align.AlignedAtColumn`.
- `Hanoi.Run` is stated by `Hanoi.RunCarries`, `Hanoi.RunConservesDiscs`, `Hanoi.RunMovesAtMost`, `Hanoi.RunKeepsStacked` and `Hanoi.RunPlacesLegally`.
- `Hanoi.MiddleMove` is stated by `Hanoi.MiddleMoveConserves`, `Hanoi.Solution` by `Hanoi.SolutionLength`, and `Hanoi.Placed` by `Hanoi.RunPlacesLegally`.
- `Hanoi.FullTower` is stated by `Hanoi.FullTowerStacked`.
- `Hanoi.DiscText` and `Hanoi.Cell` are stated by `Hanoi.CellOfDisc`, `Hanoi.CellOfEmptySlot` and `Hanoi.CellWidth`. `Hanoi.RowText` and `Hanoi.Reversed` are stated by `Hanoi.RowShape`, `Hanoi.RowOfCells` and `Hanoi.Hanoi.Draw`.
- `SokobanGrid.Finished` is stated by `SokobanGrid.NoHomesIsFinished` and `SokobanPuzzle.MotionEffect`. `SokobanGrid.Blocked` is stated by `SokobanPuzzle.MotionEffect` and `SokobanPuzzle.PushCounted`.
- `SokobanGrid.EmptyChar` is stated by `SokobanGrid.MovedCells`.
- `SokobanGrid.Saved`, `SokobanGrid.Changed` and `SokobanGrid.RowsOf` are stated by `SokobanGrid.SavedMatchesChanged`, `SokobanGrid.RestoreUndoesMove` and `SokobanPuzzle.Puzzle.Undo`.
- `SokobanGrid.RowLine` is stated by `SokobanGrid.IndentNotHighlighted` and `SokobanPuzzle.Puzzle.RenderRow`.
- `SokobanLevels.MemberName` is stated by `SokobanLevels.MemberNamesDistinct`, and `SokobanLevels.Len` by `SokobanGame.Sokoban.constructor`.
- `SokobanScores.Improved` is stated by `SokobanScores.ImprovedKeepsBest`, `SokobanScores.ImprovedIdempotent` and `SokobanScores.RetrieveAfterImproved`.
- `SokobanScores.Retrieve` and `SokobanScores.SavedState.RetrieveBestScore` are stated by `SokobanScores.RetrieveAfterImproved` and `SokobanScores.FirstSolutionRecorded`.
- `SokobanPuzzle.NextMotion` is stated by `SokobanPuzzle.MotionEffect` and `SokobanPuzzle.PushCounted`. `SokobanPuzzle.AfterMove` and `SokobanPuzzle.MoveRecord` are stated by `SokobanPuzzle.UndoAfterMove`.

## Left out

- Reading the level archive is not modelled: `LevelStore` is given the member texts already decoded from UTF-8. Locating the zip file and the save file is not modelled either.
- The JSON save file is not modelled: `SavedState` takes the decoded document as a parameter, and each `save()` appends the document to the ghost trace `saves`. The JSON keys are `str(level)` in the file and level numbers in the model; `IntToStringInjective` shows that this keys the same table.
- The `None in best_by_moves` branch of `store_score` is not modelled. The table only ever holds integer scores (the `MAX_MOVES` sentinel or stored counts), so the branch is unreachable unless the save file is edited by hand.
- The Vim side is left out: buffers, windows, highlight properties once computed, the `View` class, `render_layout`, `update_layout`, `render_end_of_level`, `update_stats`, `update_high_score`, `show`, and argument parsing.
- The Aligner's Vim range becomes a parameter, and the slice assignment `buf[a:b] = newlines` becomes the returned lines.
- `PyStr.PadRight` reads a width of 0 as no padding. Python parses `f'{left:0}'` as the zero-padding flag with no width, and since Python 3.10 that also leaves a string unpadded; older Pythons raise `ValueError` there.
- Hanoi's timer, the wall-clock pause before a restart (`update`, `resume_time`), the floating-point `delay_ms`, and the `--show` option with `show` are not modelled: they only drive the display.
- `Hanoi.Hanoi.Animate` runs the mover to exhaustion in one call instead of one `next()` per timer tick.
- `SokobanPuzzle.Puzzle.HandleMotion`, `SokobanPuzzle.NextMotion` and `SokobanPuzzle.MakeMotion` require `CanStep`: a motion that gets as far as reading the position only touches cells inside the grid.
  - Python lets a player at the edge of an open level step outside the grid.
  - A negative index wraps around to the other end of a row or of the grid.
  - A write past a row's end raises `IndexError` after the undo record was pushed and the old cell blanked.
  - The levels are walled in, so none of this happens in play. `CharAt` still models `_char_at`'s wrap-around and its `''` exactly.
- `SokobanPuzzle.MakeMotion` builds the undo record complete before pushing it. Python appends the record first and fills in its lines during the writes. The two differ only when a write raises, which `CanStep` excludes.
- `SokobanPuzzle.Puzzle.constructor` requires the level to be in the archive. The `KeyError` Python raises otherwise is modelled by `SokobanGame.Sokoban.Start`, which checks before constructing the puzzle.
- `SokobanPuzzle.Puzzle.Undo` is proved exact one record at a time: applying the record a move pushed restores the state before that move (`UndoAfterMove`, `MotionEffect`). The model does not state, across the whole undo stack, that repeated undos walk back through every earlier state.
- Grid rows are modelled as values the methods reassign. In Python each row is its own list and no two rows are the same list, so no write through one row is visible in another.
- `Hanoi.Hanoi.GenerateMoves` requires its three towers to be distinct objects. Python always passes three different lists.
- The generator's suspension at each `yield` is not modelled: the mover's moves are recorded in the ghost trace `trace` instead.
