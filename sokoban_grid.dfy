/**
 * The pure rules of the Sokoban puzzle (`toys/sokoban.py`): the grid of
 * characters, how a motion key moves the player ("soko", drawn `X`) and
 * pushes a package (`$`) towards a home cell (`.`), what an undo record
 * saves and how it restores the grid, when a level is finished, and how a
 * row is rendered with its highlighted characters.
 */
module SokobanGrid {

  import opened Wrappers
  import opened PyStr

  /** The game grid is indented by this many blanks when rendered. */
  const GridOffset: nat := 10

  /** A cell coordinate: column `x`, row `y`. */
  datatype Pos = Pos(x: int, y: int)

  /** The column and row increments of one motion. */
  datatype Inc = Inc(dx: int, dy: int)

  /** The puzzle grid: one list of characters per row; rows may differ in length. */
  type Grid = seq<seq<char>>

  /** `motion_to_inc`: the Vim keys that move the player, and the step each one makes. */
  const MotionToInc: map<string, Inc> := map[
    "h" := Inc(-1, 0), "<Left>" := Inc(-1, 0),
    "j" := Inc(0, 1), "<Down>" := Inc(0, 1),
    "k" := Inc(0, -1), "<Up>" := Inc(0, -1),
    "l" := Inc(1, 0), "<Right>" := Inc(1, 0)]

  /** `char_to_highlight`: the highlight group of each marked-up grid character. */
  const CharToHighlight: map<char, string> := map[
    'X' := "Error", '#' := "Number", '$' := "Comment", '.' := "Keyword"]

  /** One step along a row or along a column. */
  predicate Unit(d: Inc) {
    || (d.dx == 0 && (d.dy == 1 || d.dy == -1))
    || (d.dy == 0 && (d.dx == 1 || d.dx == -1))
  }

  /** Every motion key moves exactly one cell, horizontally or vertically. */
  lemma MotionsAreUnit(key: string)
    requires key in MotionToInc
    ensures Unit(MotionToInc[key])
  {
  }

  /** The cell `k` steps from `p` in direction `d`. */
  function Ahead(p: Pos, d: Inc, k: int): Pos {
    Pos(p.x + d.dx * k, p.y + d.dy * k)
  }

  /** `(x, y)` names a cell of the grid without Python's negative-index wrap-around. */
  predicate InRange(grid: Grid, p: Pos) {
    0 <= p.y < |grid| && 0 <= p.x < |grid[p.y]|
  }

  /** Python's indexing rule for a list of length `n`: negative indexes count from the end; `None` is the `IndexError`. */
  function PyIndex(n: nat, i: int): (r: Option<nat>)
    ensures r.Some? ==> r.value < n
    ensures 0 <= i < n ==> r == Some(i)
    ensures i < 0 && 0 <= i + n ==> r == Some(i + n)
    ensures r.None? <==> (i >= n || i + n < 0)
  {
    if 0 <= i < n then Some(i) else if 0 <= i + n < n then Some(i + n) else None
  }

  /**
   * `_char_at`: `grid[y][x]` with Python's indexing, and the empty string when
   * either index raises `IndexError`.
   */
  function CharAt(grid: Grid, p: Pos): (r: string)
    ensures |r| <= 1
    ensures InRange(grid, p) ==> r == [grid[p.y][p.x]]
  {
    match PyIndex(|grid|, p.y)
    case None => ""
    case Some(row) =>
      match PyIndex(|grid[row]|, p.x)
      case None => ""
      case Some(col) => [grid[row][col]]
  }

  /**
   * A cell past the end of a row or of the grid reads as the empty string,
   * and `'' in ' .'` holds: such a cell does not stop a push.
   */
  lemma BeyondTheGridIsFree(grid: Grid, p: Pos)
    requires p.y >= |grid| || (0 <= p.y < |grid| && p.x >= |grid[p.y]|)
    ensures CharAt(grid, p) == ""
    ensures In(CharAt(grid, p), " .")
  {
    InBlankOrDot("");
  }

  /** `_empty_char`: what a cell shows once the player leaves it. */
  function EmptyChar(homes: set<Pos>, p: Pos): (c: char)
    ensures c == '.' <==> p in homes
    ensures c == ' ' <==> p !in homes
  {
    if p in homes then '.' else ' '
  }

  /** `finished`: every home cell holds a package; vacuously true without home cells. */
  predicate Finished(grid: Grid, homes: set<Pos>) {
    forall p | p in homes :: CharAt(grid, p) == "$"
  }

  /** A level without home cells counts as finished from the start. */
  lemma NoHomesIsFinished(grid: Grid)
    ensures Finished(grid, {})
  {
  }

  /** The move pushes a package: the destination holds `$`. */
  predicate Pushes(grid: Grid, p: Pos, d: Inc) {
    CharAt(grid, Ahead(p, d, 1)) == "$"
  }

  /** The move is refused: a wall ahead, or a package ahead whose next cell is neither blank nor home. */
  predicate Blocked(grid: Grid, p: Pos, d: Inc) {
    var dest := CharAt(grid, Ahead(p, d, 1));
    dest == "#" || (dest == "$" && !In(CharAt(grid, Ahead(p, d, 2)), " ."))
  }

  /** The cells a move from `p` in direction `d` writes (the one beyond only on a push) are inside the grid. */
  predicate Fits(grid: Grid, p: Pos, d: Inc, push: bool) {
    InRange(grid, p) && InRange(grid, Ahead(p, d, 1)) && (push ==> InRange(grid, Ahead(p, d, 2)))
  }

  /** The grid with cell `p` set to `c`. */
  function Put(grid: Grid, p: Pos, c: char): (g: Grid)
    requires InRange(grid, p)
    ensures |g| == |grid| && forall y :: 0 <= y < |grid| ==> |g[y]| == |grid[y]|
  {
    grid[p.y := grid[p.y][p.x := c]]
  }

  /**
   * The grid after a legal move: the player's cell shows its empty
   * character, the destination shows the player and, on a push, the cell
   * beyond shows the package.
   */
  function Moved(grid: Grid, homes: set<Pos>, p: Pos, d: Inc, push: bool): (g: Grid)
    requires Fits(grid, p, d, push)
    ensures |g| == |grid|
  {
    var left := Put(grid, p, EmptyChar(homes, p));
    var entered := Put(left, Ahead(p, d, 1), 'X');
    if push then Put(entered, Ahead(p, d, 2), '$') else entered
  }

  /** The character in cell `q`. */
  function At(grid: Grid, q: Pos): char
    requires InRange(grid, q)
  {
    grid[q.y][q.x]
  }

  /**
   * A legal move changes exactly the cells it is about: the old cell becomes
   * `.` or a blank, the new one `X`, on a push the one beyond `$`; every other
   * cell, and every row's length, stays as it was.
   */
  lemma MovedCells(grid: Grid, homes: set<Pos>, p: Pos, d: Inc, push: bool)
    requires Fits(grid, p, d, push) && Unit(d)
    ensures var g := Moved(grid, homes, p, d, push);
      && |g| == |grid| && (forall y :: 0 <= y < |grid| ==> |g[y]| == |grid[y]|)
      && At(g, p) == EmptyChar(homes, p)
      && At(g, Ahead(p, d, 1)) == 'X'
      && (push ==> At(g, Ahead(p, d, 2)) == '$')
      && (forall q :: InRange(grid, q) && q != p && q != Ahead(p, d, 1) && (push ==> q != Ahead(p, d, 2)) ==>
            At(g, q) == At(grid, q))
  {
    var q1 := Ahead(p, d, 1);
    var q2 := Ahead(p, d, 2);
    assert q1 != p && q2 != p && q2 != q1;
    ThreePuts(grid, p, q1, q2, EmptyChar(homes, p), push);
  }

  /** The three writes of a move, to three distinct cells, each leave the others alone. */
  lemma ThreePuts(grid: Grid, p: Pos, q1: Pos, q2: Pos, c: char, push: bool)
    requires InRange(grid, p) && InRange(grid, q1) && (push ==> InRange(grid, q2))
    requires q1 != p && q2 != p && q2 != q1
    ensures var entered := Put(Put(grid, p, c), q1, 'X');
      var g := if push then Put(entered, q2, '$') else entered;
      && |g| == |grid| && (forall y :: 0 <= y < |grid| ==> |g[y]| == |grid[y]|)
      && At(g, p) == c && At(g, q1) == 'X' && (push ==> At(g, q2) == '$')
      && (forall q :: InRange(grid, q) && q != p && q != q1 && (push ==> q != q2) ==> At(g, q) == At(grid, q))
  {
  }

  /** A row saved in an undo record: its index and its text before the move. */
  datatype Line = Line(y: int, text: seq<char>)

  /** An undo record: the counters and position before a move, and the rows it overwrote. */
  datatype UndoRecord = UndoRecord(moves: int, pushes: int, pos: Pos, lines: seq<Line>)

  /**
   * The rows a legal move saves before writing: the player's row, and for a
   * vertical move also the destination row and, on a push, the row beyond.
   */
  function Saved(grid: Grid, p: Pos, d: Inc, push: bool): seq<Line>
    requires Fits(grid, p, d, push)
  {
    var first := [Line(p.y, grid[p.y])];
    if d.dy == 0 then first
    else
      var next := first + [Line(p.y + d.dy, grid[p.y + d.dy])];
      if push then next + [Line(p.y + 2 * d.dy, grid[p.y + 2 * d.dy])] else next
  }

  /**
   * The rows a legal move reports as changed. A horizontal move reports its
   * row twice, once for the cell left and once for the cells entered.
   */
  function Changed(p: Pos, d: Inc, push: bool): seq<int> {
    if d.dy == 0 then [p.y, p.y]
    else [p.y, p.y + d.dy] + (if push then [p.y + 2 * d.dy] else [])
  }

  /** Every line index is a row of a grid with `height` rows. */
  predicate RowsIn(lines: seq<Line>, height: int) {
    forall i :: 0 <= i < |lines| ==> 0 <= lines[i].y < height
  }

  /** The grid with the saved rows written back, in order (the loop of `undo`). */
  function Restore(grid: Grid, lines: seq<Line>): (g: Grid)
    requires RowsIn(lines, |grid|)
    ensures |g| == |grid|
    decreases |lines|
  {
    if |lines| == 0 then grid
    else
      var last := lines[|lines| - 1];
      Restore(grid, lines[..|lines| - 1])[last.y := last.text]
  }

  /** `Restore` writes the lines one after the other. */
  lemma RestoreSnoc(grid: Grid, lines: seq<Line>, l: Line)
    requires RowsIn(lines, |grid|) && 0 <= l.y < |grid|
    ensures RowsIn(lines + [l], |grid|)
    ensures Restore(grid, lines + [l]) == Restore(grid, lines)[l.y := l.text]
  {
    assert (lines + [l])[..|lines|] == lines;
  }

  /** The row indexes of saved lines, in order (what `undo` reports as changed). */
  function RowsOf(lines: seq<Line>): (r: seq<int>)
    ensures |r| == |lines| && forall i :: 0 <= i < |lines| ==> r[i] == lines[i].y
  {
    seq(|lines|, i requires 0 <= i < |lines| => lines[i].y)
  }

  /**
   * What a move saves and reports fits what it writes: every saved line is
   * the row's old text, the saved rows are the reported ones, and every row
   * the move alters is reported.
   */
  lemma SavedMatchesChanged(grid: Grid, homes: set<Pos>, p: Pos, d: Inc, push: bool)
    requires Fits(grid, p, d, push) && Unit(d)
    ensures var lines := Saved(grid, p, d, push);
      && RowsIn(lines, |grid|)
      && (forall i :: 0 <= i < |lines| ==> lines[i].text == grid[lines[i].y])
      && (forall y :: y in RowsOf(lines) <==> y in Changed(p, d, push))
      && (forall y :: 0 <= y < |grid| && Moved(grid, homes, p, d, push)[y] != grid[y] ==> y in Changed(p, d, push))
  {
    var lines := Saved(grid, p, d, push);
    if d.dy == 0 {
      assert RowsOf(lines) == [p.y];
    } else {
      assert RowsOf(lines) == Changed(p, d, push);
    }
  }

  /**
   * Writing back the rows a legal move saved gives exactly the grid from
   * before the move: this is what makes `undo` right after a move exact.
   */
  lemma RestoreUndoesMove(grid: Grid, homes: set<Pos>, p: Pos, d: Inc, push: bool)
    requires Fits(grid, p, d, push) && Unit(d)
    ensures RowsIn(Saved(grid, p, d, push), |grid|)
    ensures Restore(Moved(grid, homes, p, d, push), Saved(grid, p, d, push)) == grid
  {
    var g := Moved(grid, homes, p, d, push);
    var lines := Saved(grid, p, d, push);
    SavedMatchesChanged(grid, homes, p, d, push);
    MovedCells(grid, homes, p, d, push);
    RestoreSavedRows(grid, g, lines);
    var r := Restore(g, lines);
    forall y | 0 <= y < |grid|
      ensures r[y] == grid[y]
    {
      if y !in RowsOf(lines) {
        assert y !in Changed(p, d, push);
      }
    }
  }

  /**
   * Writing back lines that hold rows of `grid` gives, in every row, the
   * row of `grid` when a line saved it and the row of `g` otherwise.
   */
  lemma {:induction false} RestoreSavedRows(grid: Grid, g: Grid, lines: seq<Line>)
    requires |g| == |grid| && RowsIn(lines, |grid|)
    requires forall i :: 0 <= i < |lines| ==> lines[i].text == grid[lines[i].y]
    ensures forall y :: 0 <= y < |grid| ==>
      Restore(g, lines)[y] == (if y in RowsOf(lines) then grid[y] else g[y])
    decreases |lines|
  {
    if |lines| > 0 {
      var init := lines[..|lines| - 1];
      RestoreSavedRows(grid, g, init);
      assert RowsOf(lines) == RowsOf(init) + [lines[|lines| - 1].y];
    }
  }

  /** `p` comes before the cell `(x, y)` in row-major order. */
  predicate Earlier(p: Pos, x: int, y: int) {
    p.y < y || (p.y == y && p.x < x)
  }

  /**
   * Among the cells before `(x, y)` in row-major order, `pos` is the last one
   * holding `X`, or `None` when none of them does.
   */
  ghost predicate LastXBefore(grid: Grid, pos: Option<Pos>, x: int, y: int) {
    match pos
    case None =>
      forall q :: InRange(grid, q) && Earlier(q, x, y) ==> grid[q.y][q.x] != 'X'
    case Some(p) =>
      && InRange(grid, p) && Earlier(p, x, y) && grid[p.y][p.x] == 'X'
      && forall q :: InRange(grid, q) && Earlier(q, x, y) && grid[q.y][q.x] == 'X' ==> !Earlier(p, q.x, q.y)
  }

  /** `pos` is the last `X` of the whole grid in row-major order, `None` when the grid has none. */
  ghost predicate IsLastX(grid: Grid, pos: Option<Pos>) {
    LastXBefore(grid, pos, 0, |grid|)
  }

  /** `found` holds exactly the home cells (`.`) before `(x, y)` in row-major order. */
  ghost predicate HomesBefore(grid: Grid, found: set<Pos>, x: int, y: int) {
    forall p :: p in found <==> InRange(grid, p) && Earlier(p, x, y) && grid[p.y][p.x] == '.'
  }

  /** Scanning cell `(x, y)` adds it to the home cells exactly when it holds `.`. */
  lemma HomesStep(grid: Grid, found: set<Pos>, x: int, y: int)
    requires 0 <= y < |grid| && 0 <= x < |grid[y]| && HomesBefore(grid, found, x, y)
    ensures HomesBefore(grid, if grid[y][x] == '.' then found + {Pos(x, y)} else found, x + 1, y)
  {
  }

  /** The end of one row is the start of the next. */
  lemma HomesNextRow(grid: Grid, found: set<Pos>, y: int)
    requires 0 <= y < |grid| && HomesBefore(grid, found, |grid[y]|, y)
    ensures HomesBefore(grid, found, 0, y + 1)
  {
  }

  /** A highlight: the character at `start` (up to `end`) is shown with the group. */
  datatype Prop = Prop(start: int, end: int, group: string)

  /** A rendered row: its text and its highlights. */
  datatype RenderedRow = RenderedRow(text: string, props: seq<Prop>)

  /** The text of a rendered row: the grid row indented by `GridOffset` blanks. */
  function RowLine(row: seq<char>): (line: string)
    ensures |line| == GridOffset + |row|
    ensures line[..GridOffset] == Spaces(GridOffset) && line[GridOffset..] == row
  {
    Spaces(GridOffset) + row
  }

  /**
   * `props` highlights exactly the marked-up characters among the first `n`
   * of `line`, one single-character property each, from left to right.
   */
  ghost predicate HighlightsUpTo(line: string, props: seq<Prop>, n: int) {
    && (forall k :: 0 <= k < |props| ==>
          && 0 <= props[k].start < n && props[k].start < |line|
          && props[k].end == props[k].start + 1
          && line[props[k].start] in CharToHighlight
          && props[k].group == CharToHighlight[line[props[k].start]])
    && (forall k, m :: 0 <= k < m < |props| ==> props[k].start < props[m].start)
    && (forall i :: 0 <= i < n && i < |line| && line[i] in CharToHighlight ==>
          exists k :: 0 <= k < |props| && props[k].start == i)
  }

  /** `props` highlights exactly the marked-up characters of `line`, from left to right. */
  ghost predicate HighlightsExactly(line: string, props: seq<Prop>) {
    HighlightsUpTo(line, props, |line|)
  }

  /** One more character looked at: a highlight is added when it is marked up. */
  lemma HighlightsStep(line: string, props: seq<Prop>, i: int)
    requires 0 <= i < |line| && HighlightsUpTo(line, props, i)
    ensures line[i] in CharToHighlight ==>
      HighlightsUpTo(line, props + [Prop(i, i + 1, CharToHighlight[line[i]])], i + 1)
    ensures line[i] !in CharToHighlight ==> HighlightsUpTo(line, props, i + 1)
  {
    if line[i] in CharToHighlight {
      var next := props + [Prop(i, i + 1, CharToHighlight[line[i]])];
      forall j | 0 <= j < i + 1 && j < |line| && line[j] in CharToHighlight
        ensures exists k :: 0 <= k < |next| && next[k].start == j
      {
        if j == i {
          assert next[|props|].start == j;
        } else {
          var k :| 0 <= k < |props| && props[k].start == j;
          assert next[k].start == j;
        }
      }
    }
  }

  /** Blanks are never highlighted, so the indent of a rendered row carries no highlight. */
  lemma IndentNotHighlighted(row: seq<char>, props: seq<Prop>)
    requires HighlightsExactly(RowLine(row), props)
    ensures forall k :: 0 <= k < |props| ==> props[k].start >= GridOffset
  {
    var line := RowLine(row);
    assert forall i :: 0 <= i < GridOffset ==> line[i] == ' ';
    forall k | 0 <= k < |props|
      ensures props[k].start >= GridOffset
    {
      assert line[props[k].start] != ' ';
    }
  }
}
