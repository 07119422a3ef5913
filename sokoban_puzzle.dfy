/**
 * The Sokoban puzzle (`Puzzle` in `toys/sokoban.py`): the grid rows, which
 * the moves rewrite in place, the home cells, the player's position, the
 * move and push counters and the undo stack.
 *
 * Each row of the grid is its own Python list and no two rows are the same
 * list, so the grid is modelled as a sequence of row values that the
 * methods reassign. A legal move takes the puzzle from a state `s` to
 * `AfterMove(s, ...)` and pushes `MoveRecord(s, ...)`; `Undo` applies the
 * last record, and `UndoAfterMove` proves that applying the record a move
 * pushed gives back exactly the state before that move.
 */
module SokobanPuzzle {

  import opened Wrappers
  import opened PyStr
  import opened SokobanGrid
  import opened SokobanLevels
  import SokobanScores

  /** Everything an undo record restores: the grid, the counters and the position. */
  datatype PuzzleState = PuzzleState(grid: Grid, moves: int, pushes: int, pos: Option<Pos>)

  /** A state with an undo record applied: its rows written back, its counters and position restored. */
  function Undone(s: PuzzleState, r: UndoRecord): PuzzleState
    requires RowsIn(r.lines, |s.grid|)
  {
    PuzzleState(Restore(s.grid, r.lines), r.moves, r.pushes, Some(r.pos))
  }

  /** Every undo record names rows of a grid with `height` rows. */
  predicate RecordsFit(records: seq<UndoRecord>, height: int) {
    forall i :: 0 <= i < |records| ==> RowsIn(records[i].lines, height)
  }

  /** The state after a legal move from `s` in direction `d`: the grid moved, one more move, the player ahead. */
  function AfterMove(s: PuzzleState, homes: set<Pos>, d: Inc, push: bool): PuzzleState
    requires s.pos.Some? && Fits(s.grid, s.pos.value, d, push)
  {
    var p := s.pos.value;
    PuzzleState(Moved(s.grid, homes, p, d, push), s.moves + 1, s.pushes + (if push then 1 else 0), Some(Ahead(p, d, 1)))
  }

  /** The undo record a legal move from `s` pushes: the counters, the position and the rows it overwrites. */
  function MoveRecord(s: PuzzleState, d: Inc, push: bool): UndoRecord
    requires s.pos.Some? && Fits(s.grid, s.pos.value, d, push)
  {
    UndoRecord(s.moves, s.pushes, s.pos.value, Saved(s.grid, s.pos.value, d, push))
  }

  /** Undoing a legal move with the record it pushed gives back exactly the state before it. */
  lemma UndoAfterMove(s: PuzzleState, homes: set<Pos>, d: Inc, push: bool)
    requires s.pos.Some? && Fits(s.grid, s.pos.value, d, push) && Unit(d)
    ensures RowsIn(MoveRecord(s, d, push).lines, |AfterMove(s, homes, d, push).grid|)
    ensures Undone(AfterMove(s, homes, d, push), MoveRecord(s, d, push)) == s
  {
    RestoreUndoesMove(s.grid, homes, s.pos.value, d, push);
  }

  /**
   * The writes of a legal move in `handle_motion`, row by row: each row is
   * saved just before its first write, and its index reported as changed.
   */
  method Step(grid: Grid, homes: set<Pos>, p: Pos, d: Inc, push: bool) returns (g: Grid, lines: seq<Line>, changed: seq<int>)
    requires Fits(grid, p, d, push) && Unit(d)
    ensures g == Moved(grid, homes, p, d, push)
    ensures lines == Saved(grid, p, d, push) && RowsIn(lines, |grid|)
    ensures changed == Changed(p, d, push)
  {
    var x, y := p.x, p.y;
    var x2, y2 := x + d.dx, y + d.dy;
    var x3, y3 := x + d.dx * 2, y + d.dy * 2;
    g := grid;
    lines := [Line(y, g[y])];
    changed := [y];
    g := g[y := g[y][x := EmptyChar(homes, p)]];
    if y != y2 {
      lines := lines + [Line(y2, g[y2])];
      g := g[y2 := g[y2][x := 'X']];
      changed := changed + [y2];
      if push {
        lines := lines + [Line(y3, g[y3])];
        g := g[y3 := g[y3][x := '$']];
        changed := changed + [y3];
      }
    } else {
      g := g[y := g[y][x2 := 'X']];
      if push {
        g := g[y := g[y][x3 := '$']];
      }
      changed := changed + [y];
    }
  }

  /**
   * The loop of `undo()`: the saved rows written back one after the other,
   * and their indexes in the same order.
   */
  method WriteBack(grid: Grid, lines: seq<Line>) returns (rows: Grid, changed: seq<int>)
    requires RowsIn(lines, |grid|)
    ensures rows == Restore(grid, lines) && changed == RowsOf(lines)
  {
    rows, changed := grid, [];
    var i := 0;
    while i < |lines|
      invariant 0 <= i <= |lines|
      invariant RowsIn(lines[..i], |grid|)
      invariant rows == Restore(grid, lines[..i])
      invariant changed == RowsOf(lines[..i])
    {
      assert lines[..i + 1] == lines[..i] + [lines[i]];
      RestoreSnoc(grid, lines[..i], lines[i]);
      rows := rows[lines[i].y := lines[i].text];
      changed := changed + [lines[i].y];
      i := i + 1;
    }
    assert lines[..i] == lines;
  }

  /** A motion with `key` gets as far as reading the player's position. */
  predicate Attempts(grid: Grid, homes: set<Pos>, pos: Option<Pos>, key: string) {
    !Finished(grid, homes) && key in MotionToInc && pos.Some?
  }

  /**
   * The player is walled in: when a motion is attempted, the cells it may
   * write (the player's, the destination and, on a push, the one beyond)
   * are inside the grid, so Python's negative-index wrap-around and the
   * `IndexError` of a write past a row's end never arise.
   */
  predicate CanStep(grid: Grid, homes: set<Pos>, pos: Option<Pos>, key: string) {
    Attempts(grid, homes, pos, key) ==>
      var d := MotionToInc[key];
      Fits(grid, pos.value, d, Pushes(grid, pos.value, d))
  }

  /** What `handle_motion(key)` returns, the state it leaves and the undo record it pushes, if any. */
  datatype MotionResult = MotionResult(result: Result<seq<int>>, after: PuzzleState, record: Option<UndoRecord>)

  /**
   * `handle_motion(key)` on the state `s`: nothing once the level is
   * finished; `KeyError` for a key that is not a motion, `AttributeError`
   * when the player has no position; nothing for a refused move; otherwise
   * the move, its undo record and the rows it changed.
   */
  function NextMotion(s: PuzzleState, homes: set<Pos>, key: string): MotionResult
    requires CanStep(s.grid, homes, s.pos, key)
  {
    if Finished(s.grid, homes) then MotionResult(Ok([]), s, None)
    else if key !in MotionToInc then MotionResult(Err(KeyError), s, None)
    else if s.pos.None? then MotionResult(Err(AttributeError), s, None)
    else
      var p, d := s.pos.value, MotionToInc[key];
      if Blocked(s.grid, p, d) then MotionResult(Ok([]), s, None)
      else
        var push := Pushes(s.grid, p, d);
        MotionResult(Ok(Changed(p, d, push)), AfterMove(s, homes, d, push), Some(MoveRecord(s, d, push)))
  }

  /**
   * A motion that pushes no undo record leaves the state as it was, and one
   * that does is a legal move: the player one step ahead on an `X`, one
   * more move, the rows keep their lengths, the returned rows are not
   * empty, and applying the record gives back exactly the state before.
   */
  lemma MotionEffect(s: PuzzleState, homes: set<Pos>, key: string)
    requires CanStep(s.grid, homes, s.pos, key)
    ensures var m := NextMotion(s, homes, key);
      && (m.result.Err? <==> !Finished(s.grid, homes) && (key !in MotionToInc || s.pos.None?))
      && (m.record.None? ==> m.after == s)
      && (m.record.Some? <==> m.result.Ok? && m.result.value != [])
      && (m.record.Some? ==>
            && Attempts(s.grid, homes, s.pos, key) && !Blocked(s.grid, s.pos.value, MotionToInc[key])
            && m.after.moves == s.moves + 1
            && m.after.pos == Some(Ahead(s.pos.value, MotionToInc[key], 1))
            && |m.after.grid| == |s.grid|
            && (forall y :: 0 <= y < |s.grid| ==> |m.after.grid[y]| == |s.grid[y]|)
            && At(m.after.grid, m.after.pos.value) == 'X'
            && RowsIn(m.record.value.lines, |s.grid|)
            && Undone(m.after, m.record.value) == s)
  {
    if Attempts(s.grid, homes, s.pos, key) {
      var p, d := s.pos.value, MotionToInc[key];
      if !Blocked(s.grid, p, d) {
        var push := Pushes(s.grid, p, d);
        MovedCells(s.grid, homes, p, d, push);
        UndoAfterMove(s, homes, d, push);
      }
    }
  }

  /**
   * A move counts a push exactly when the cell the player steps onto held a
   * package, and then that package sits one cell further on.
   */
  lemma PushCounted(s: PuzzleState, homes: set<Pos>, key: string)
    requires CanStep(s.grid, homes, s.pos, key)
    ensures var m := NextMotion(s, homes, key);
      m.record.Some? ==>
        var p, d := s.pos.value, MotionToInc[key];
        && (m.after.pushes == s.pushes + 1 <==> CharAt(s.grid, Ahead(p, d, 1)) == "$")
        && (m.after.pushes == s.pushes + 1 || m.after.pushes == s.pushes)
        && (m.after.pushes == s.pushes + 1 ==> At(m.after.grid, Ahead(p, d, 2)) == '$')
  {
    if Attempts(s.grid, homes, s.pos, key) {
      var p, d := s.pos.value, MotionToInc[key];
      if !Blocked(s.grid, p, d) {
        MovedCells(s.grid, homes, p, d, Pushes(s.grid, p, d));
      }
    }
  }

  /**
   * The body of `handle_motion(key)` on the state `s`, in the order Python
   * takes its decisions: the finished check, the key lookup, the position,
   * the cell ahead and the one beyond, then the writes of the move.
   */
  method MakeMotion(s: PuzzleState, homes: set<Pos>, key: string) returns (m: MotionResult)
    requires CanStep(s.grid, homes, s.pos, key)
    ensures m == NextMotion(s, homes, key)
  {
    if Finished(s.grid, homes) {
      return MotionResult(Ok([]), s, None);
    }
    if key !in MotionToInc {
      return MotionResult(Err(KeyError), s, None);
    }
    var d := MotionToInc[key];
    if s.pos.None? {
      return MotionResult(Err(AttributeError), s, None);
    }
    var p := s.pos.value;
    var dest, beyond := Ahead(p, d, 1), Ahead(p, d, 2);
    var destChar := CharAt(s.grid, dest);
    if destChar == "#" {
      return MotionResult(Ok([]), s, None);
    }
    if destChar == "$" && !In(CharAt(s.grid, beyond), " .") {
      return MotionResult(Ok([]), s, None);
    }
    var push := destChar == "$";
    var g, lines, changed := Step(s.grid, homes, p, d, push);
    var record := UndoRecord(s.moves, s.pushes, p, lines);
    var after := PuzzleState(g, s.moves + 1, if push then s.pushes + 1 else s.pushes, Some(dest));
    m := MotionResult(Ok(changed), after, Some(record));
  }

  /** The player starts on the last `X` of the grid: scanning row `y` from column `x` on keeps that invariant. */
  lemma LastXStep(grid: Grid, pos: Option<Pos>, x: int, y: int)
    requires 0 <= y < |grid| && 0 <= x < |grid[y]|
    requires grid[y][x] == 'X' || LastXBefore(grid, pos, x, y)
    ensures LastXBefore(grid, if grid[y][x] == 'X' then Some(Pos(x, y)) else pos, x + 1, y)
  {
    if grid[y][x] != 'X' {
      forall q | InRange(grid, q) && Earlier(q, x + 1, y) && grid[q.y][q.x] == 'X'
        ensures Earlier(q, x, y)
      {
      }
    }
  }

  /** The end of one row is the start of the next. */
  lemma LastXNextRow(grid: Grid, pos: Option<Pos>, y: int)
    requires 0 <= y < |grid| && LastXBefore(grid, pos, |grid[y]|, y)
    ensures LastXBefore(grid, pos, 0, y + 1)
  {
    forall q | InRange(grid, q) && Earlier(q, 0, y + 1)
      ensures Earlier(q, |grid[y]|, y)
    {
    }
  }

  /**
   * Scanning row `y` up to column `x`, where the row's first `X` (when it
   * has one) was taken as the start ahead of the scan: either `start` is
   * already the last `X` before `(x, y)`, or it is that first `X`, not yet
   * reached, and `before` is the last `X` before `(x, y)`.
   */
  ghost predicate RowScan(grid: Grid, start: Option<Pos>, before: Option<Pos>, x: int, y: int)
    requires 0 <= y < |grid|
  {
    || LastXBefore(grid, start, x, y)
    || ('X' in grid[y] && start == Some(Pos(Index(grid[y], 'X'), y)) && x <= Index(grid[y], 'X')
        && LastXBefore(grid, before, x, y))
  }

  /** Scanning cell `(x, y)`, which becomes the start when it holds `X`, keeps `RowScan`. */
  lemma RowScanStep(grid: Grid, start: Option<Pos>, before: Option<Pos>, x: int, y: int)
    requires 0 <= y < |grid| && 0 <= x < |grid[y]| && RowScan(grid, start, before, x, y)
    ensures RowScan(grid, if grid[y][x] == 'X' then Some(Pos(x, y)) else start, before, x + 1, y)
  {
    if LastXBefore(grid, start, x, y) {
      LastXStep(grid, start, x, y);
    } else {
      LastXStep(grid, before, x, y);
    }
  }

  /** The puzzle of one level. */
  class Puzzle {
    var grid: Grid
    var state: SokobanScores.SavedState
    var height: int
    var homes: set<Pos>
    var moveCount: int
    var pushCount: int
    var undoBuffer: seq<UndoRecord>
    /** `self.pos`, which stays unassigned (`None`) when the level has no `X`. */
    var pos: Option<Pos>

    function Current(): PuzzleState
      reads this
    {
      PuzzleState(grid, moveCount, pushCount, pos)
    }

    ghost predicate Valid()
      reads this
    {
      height == |grid| && RecordsFit(undoBuffer, height)
    }

    /** `level`: the level of the saved state. */
    function Level(): int
      reads this, state
    {
      state.level
    }

    /**
     * `Puzzle(level_store, state)`: the rows of the state's level, its home
     * cells (every `.`), the player on the last `X` in row-major order (no
     * position at all when there is none), zero counters and no undo records.
     * Loading a level the archive lacks raises `KeyError` before any of this.
     */
    constructor(store: LevelStore, state: SokobanScores.SavedState)
      requires RetrieveContent(store, state.level).Ok?
      ensures grid == RetrieveContent(store, state.level).value
      ensures this.state == state && height == |grid|
      ensures forall p :: p in homes <==> InRange(grid, p) && grid[p.y][p.x] == '.'
      ensures IsLastX(grid, pos)
      ensures moveCount == 0 && pushCount == 0 && undoBuffer == []
      ensures Valid()
    {
      var rows := RetrieveContent(store, state.level).value;
      var found: set<Pos> := {};
      var start: Option<Pos> := None;
      var y := 0;
      while y < |rows|
        invariant 0 <= y <= |rows|
        invariant HomesBefore(rows, found, 0, y)
        invariant LastXBefore(rows, start, 0, y)
      {
        var row := rows[y];
        ghost var before := start;
        if 'X' in row {
          start := Some(Pos(Index(row, 'X'), y));
        }
        var x := 0;
        while x < |row|
          invariant 0 <= x <= |row|
          invariant HomesBefore(rows, found, x, y)
          invariant RowScan(rows, start, before, x, y)
        {
          HomesStep(rows, found, x, y);
          RowScanStep(rows, start, before, x, y);
          if row[x] == 'X' {
            start := Some(Pos(x, y));
          } else if row[x] == '.' {
            found := found + {Pos(x, y)};
          }
          x := x + 1;
        }
        HomesNextRow(rows, found, y);
        LastXNextRow(rows, start, y);
        y := y + 1;
      }
      grid := rows;
      this.state := state;
      height := |rows|;
      homes := found;
      moveCount := 0;
      pushCount := 0;
      undoBuffer := [];
      pos := start;
    }

    /**
     * `handle_motion(key)`: the state becomes the one `NextMotion` gives,
     * the undo record it makes (if any) is pushed, and its result returned.
     */
    method HandleMotion(key: string) returns (r: Result<seq<int>>)
      requires Valid() && CanStep(grid, homes, pos, key)
      modifies this
      ensures Valid()
      ensures homes == old(homes) && height == old(height) && state == old(state)
      ensures var m := NextMotion(old(Current()), homes, key);
        && r == m.result
        && Current() == m.after
        && undoBuffer == old(undoBuffer) + (if m.record.Some? then [m.record.value] else [])
    {
      var m := MakeMotion(Current(), homes, key);
      MotionEffect(Current(), homes, key);
      if m.record.Some? {
        undoBuffer := undoBuffer + [m.record.value];
      }
      grid, moveCount, pushCount, pos := m.after.grid, m.after.moves, m.after.pushes, m.after.pos;
      r := m.result;
    }

    /**
     * `undo()`: nothing when there is no record or the level is finished;
     * otherwise the last record is popped, its counters and position put back
     * and its rows written back in order, which returns the puzzle to exactly
     * the state before the move that pushed the record.
     */
    method Undo() returns (changed: seq<int>)
      requires Valid()
      modifies this
      ensures Valid()
      ensures old(undoBuffer) == [] || old(Finished(grid, homes)) ==> changed == [] && unchanged(this)
      ensures old(undoBuffer) != [] && !old(Finished(grid, homes)) ==>
        var n := |old(undoBuffer)|;
        var record := old(undoBuffer)[n - 1];
        && RowsIn(record.lines, |old(grid)|)
        && Current() == Undone(old(Current()), record)
        && changed == RowsOf(record.lines)
        && undoBuffer == old(undoBuffer)[..n - 1]
        && homes == old(homes) && height == old(height) && state == old(state)
    {
      changed := [];
      if undoBuffer == [] || Finished(grid, homes) {
        return;
      }
      var record := undoBuffer[|undoBuffer| - 1];
      undoBuffer := undoBuffer[..|undoBuffer| - 1];
      moveCount, pushCount, pos := record.moves, record.pushes, Some(record.pos);
      var rows;
      rows, changed := WriteBack(grid, record.lines);
      grid := rows;
    }

    /**
     * `render_row(index)`: the row (Python indexing, so negative indexes count
     * from the bottom) indented by `GridOffset` blanks, with a highlight for
     * each marked-up character; the indent itself is never highlighted. An
     * index outside the grid raises `IndexError`.
     */
    method RenderRow(index: int) returns (r: Result<RenderedRow>)
      ensures PyIndex(|grid|, index).None? <==> r == Err(IndexError)
      ensures PyIndex(|grid|, index).Some? ==>
        && r.Ok?
        && r.value.text == RowLine(grid[PyIndex(|grid|, index).value])
        && HighlightsExactly(r.value.text, r.value.props)
        && forall k :: 0 <= k < |r.value.props| ==> r.value.props[k].start >= GridOffset
    {
      var y := PyIndex(|grid|, index);
      if y.None? {
        return Err(IndexError);
      }
      var line := Spaces(GridOffset) + grid[y.value];
      var props: seq<Prop> := [];
      var i := 0;
      while i < |line|
        invariant 0 <= i <= |line|
        invariant HighlightsUpTo(line, props, i)
      {
        var c := line[i];
        HighlightsStep(line, props, i);
        if c in CharToHighlight {
          props := props + [Prop(i, i + 1, CharToHighlight[c])];
        }
        i := i + 1;
      }
      IndentNotHighlighted(grid[y.value], props);
      r := Ok(RenderedRow(line, props));
    }

    /** `render_all_rows()`: every row rendered, top to bottom. */
    method RenderAllRows() returns (rows: seq<RenderedRow>)
      ensures |rows| == |grid|
      ensures forall i :: 0 <= i < |grid| ==>
        rows[i].text == RowLine(grid[i]) && HighlightsExactly(rows[i].text, rows[i].props)
    {
      rows := [];
      var i := 0;
      while i < |grid|
        invariant 0 <= i <= |grid|
        invariant |rows| == i
        invariant forall j :: 0 <= j < i ==>
          rows[j].text == RowLine(grid[j]) && HighlightsExactly(rows[j].text, rows[j].props)
      {
        var row := RenderRow(i);
        rows := rows + [row.value];
        i := i + 1;
      }
    }
  }
}
