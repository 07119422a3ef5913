/**
 * The `Align` command of the aligner plugin (`Aligner.handle_command`): lines
 * of a buffer range are padded so that a delimiter, or the text after it,
 * starts in the same column on every line that contains the delimiter.
 *
 * The Vim buffer range becomes the `lines` parameter and the slice assignment
 * that writes the result back becomes the returned sequence.
 */
module Align {

  import opened Wrappers
  import opened PyStr

  /** The line contains the delimiter (its `partition` found a separator). */
  predicate HasDelim(line: string, delim: string)
    requires |delim| > 0
  {
    Partition(line, delim).sep != []
  }

  /** Some line of the range contains the delimiter. */
  predicate AnyDelim(lines: seq<string>, delim: string)
    requires |delim| > 0
  {
    exists i :: 0 <= i < |lines| && HasDelim(lines[i], delim)
  }

  /**
   * Python's `max(generator, default=-1)` over the values whose `kept` flag is
   * set: -1 when none is kept, otherwise the largest kept value.
   */
  function MaxKept(values: seq<nat>, kept: seq<bool>): (m: int)
    requires |values| == |kept|
    ensures m >= -1
    ensures forall i :: 0 <= i < |values| && kept[i] ==> values[i] <= m
    ensures m == -1 <==> forall i :: 0 <= i < |kept| ==> !kept[i]
    ensures m >= 0 ==> exists i :: 0 <= i < |values| && kept[i] && values[i] == m
  {
    if |values| == 0 then -1
    else
      var rest := MaxKept(values[..|values| - 1], kept[..|kept| - 1]);
      var last := |values| - 1;
      if kept[last] && values[last] > rest then values[last] else rest
  }

  /** A kept maximum exists exactly when some line holds the delimiter. */
  lemma MaxKeptFindsDelim(lines: seq<string>, delim: string, values: seq<nat>)
    requires |delim| > 0 && |values| == |lines|
    ensures MaxKept(values, Kept(lines, delim)) >= 0 <==> AnyDelim(lines, delim)
  {
    var kept := Kept(lines, delim);
    if AnyDelim(lines, delim) {
      var i :| 0 <= i < |lines| && HasDelim(lines[i], delim);
      assert kept[i];
    }
    if MaxKept(values, kept) >= 0 {
      var i :| 0 <= i < |values| && kept[i] && values[i] == MaxKept(values, kept);
      assert HasDelim(lines[i], delim);
    }
  }

  /** Which lines contain the delimiter. */
  function Kept(lines: seq<string>, delim: string): (k: seq<bool>)
    requires |delim| > 0
    ensures |k| == |lines|
    ensures forall i :: 0 <= i < |lines| ==> k[i] == HasDelim(lines[i], delim)
  {
    seq(|lines|, i requires 0 <= i < |lines| => HasDelim(lines[i], delim))
  }

  /** Left mode: the width of each line's text before the delimiter, trailing blanks removed. */
  function LeftWidths(lines: seq<string>, delim: string): (w: seq<nat>)
    requires |delim| > 0
    ensures |w| == |lines|
    ensures forall i :: 0 <= i < |lines| ==> w[i] == |RStrip(Partition(lines[i], delim).left)|
  {
    seq(|lines|, i requires 0 <= i < |lines| => |RStrip(Partition(lines[i], delim).left)|)
  }

  /** Right mode: the column at which each line's text after the delimiter (blanks skipped) starts. */
  function RightStarts(lines: seq<string>, delim: string): (w: seq<nat>)
    requires |delim| > 0
    ensures |w| == |lines|
    ensures forall i :: 0 <= i < |lines| ==>
      var p := Partition(lines[i], delim);
      w[i] == |lines[i]| - |LStrip(p.right)| && w[i] >= |p.left| + |p.sep|
  {
    seq(|lines|, i requires 0 <= i < |lines| =>
      var p := Partition(lines[i], delim);
      |p.right| - |LStrip(p.right)| + |p.left| + |p.sep|)
  }

  /** Right mode: the width of each line's text up to and including the delimiter, trailing blanks removed. */
  function JoinedWidths(lines: seq<string>, delim: string): (w: seq<nat>)
    requires |delim| > 0
    ensures |w| == |lines|
    ensures forall i :: 0 <= i < |lines| ==>
      var p := Partition(lines[i], delim);
      w[i] == |RStrip(p.left + p.sep)|
  {
    seq(|lines|, i requires 0 <= i < |lines| =>
      var p := Partition(lines[i], delim);
      |RStrip(p.left + p.sep)|)
  }

  /**
   * The column the command aligns to, when some line holds the delimiter:
   * the widest stripped left text (left mode), the furthest start of the
   * right text (right mode), or the widest stripped `left + delim` (right
   * mode with `spaces >= 0`); plus `spaces` when that is not negative.
   */
  function Column(lines: seq<string>, delim: string, right: bool, spaces: int): int
    requires |delim| > 0
  {
    var base :=
      if !right then MaxKept(LeftWidths(lines, delim), Kept(lines, delim))
      else if spaces >= 0 then MaxKept(JoinedWidths(lines, delim), Kept(lines, delim))
      else MaxKept(RightStarts(lines, delim), Kept(lines, delim));
    if spaces >= 0 then base + spaces else base
  }

  /** `[line.partition(delim) for line in lines]`. */
  function Splits(lines: seq<string>, delim: string): (r: seq<Parts>)
    requires |delim| > 0
    ensures |r| == |lines|
    ensures forall i :: 0 <= i < |lines| ==> r[i] == Partition(lines[i], delim)
  {
    seq(|lines|, i requires 0 <= i < |lines| => Partition(lines[i], delim))
  }

  /** The left texts with trailing blanks removed; in right mode the delimiter is part of the left text. */
  function StrippedLefts(splits: seq<Parts>, right: bool): (r: seq<string>)
    ensures |r| == |splits|
    ensures forall i :: 0 <= i < |splits| ==>
      r[i] == if right then RStrip(splits[i].left + splits[i].sep) else RStrip(splits[i].left)
  {
    seq(|splits|, i requires 0 <= i < |splits| =>
      if right then RStrip(splits[i].left + splits[i].sep) else RStrip(splits[i].left))
  }

  /** The right texts; in right mode with their leading blanks removed. */
  function AdjustedRights(splits: seq<Parts>, right: bool): (r: seq<string>)
    ensures |r| == |splits|
    ensures forall i :: 0 <= i < |splits| ==>
      r[i] == if right then LStrip(splits[i].right) else splits[i].right
  {
    seq(|splits|, i requires 0 <= i < |splits| =>
      if right then LStrip(splits[i].right) else splits[i].right)
  }

  /**
   * One output line once the column `col` is known: a line without the
   * delimiter loses its trailing blanks; a line with it is padded (never cut)
   * to `col` and then continued with the delimiter and the unchanged right text
   * (left mode), or with the right text stripped of its leading blanks (right
   * mode, where the delimiter joins the padded left text).
   */
  function AlignedLine(line: string, delim: string, right: bool, col: nat): (r: string)
    requires |delim| > 0
    ensures !HasDelim(line, delim) ==> r == RStrip(line)
  {
    AlignedParts(Partition(line, delim), right, col)
  }

  /** `AlignedLine` on a line already partitioned. */
  function AlignedParts(p: Parts, right: bool, col: nat): string {
    if p.sep == [] then RStrip(p.left)
    else if right then PadRight(RStrip(p.left + p.sep), col) + LStrip(p.right)
    else PadRight(RStrip(p.left), col) + p.sep + p.right
  }

  /** Every delimiter line's stripped text fits within the column, so padding never has to cut. */
  lemma ColumnCoversLine(lines: seq<string>, delim: string, right: bool, spaces: int, i: int)
    requires |delim| > 0 && 0 <= i < |lines| && HasDelim(lines[i], delim)
    ensures var p := Partition(lines[i], delim);
      if right then |RStrip(p.left + p.sep)| <= Column(lines, delim, right, spaces)
      else |RStrip(p.left)| <= Column(lines, delim, right, spaces)
  {
    var p := Partition(lines[i], delim);
    var k := Kept(lines, delim);
    assert k[i];
    if right && spaces < 0 {
      var starts := RightStarts(lines, delim);
      assert |RStrip(p.left + p.sep)| <= |p.left + p.sep| <= starts[i];
    }
  }

  /** The text a delimiter line keeps in front of the column, before padding. */
  function Before(line: string, delim: string, right: bool): string
    requires |delim| > 0
  {
    BeforeParts(Partition(line, delim), right)
  }

  /** `Before` on a line already partitioned. */
  function BeforeParts(p: Parts, right: bool): string {
    if right then RStrip(p.left + p.sep) else RStrip(p.left)
  }

  /** The shape of one realigned partitioned line that holds a separator and whose kept text fits within `col`. */
  lemma PartsShape(p: Parts, right: bool, col: nat)
    requires p.sep != [] && |BeforeParts(p, right)| <= col
    ensures var r := AlignedParts(p, right, col);
      var before := BeforeParts(p, right);
      && |r| >= col + (if right then 0 else |p.sep|)
      && r[..|before|] == before
      && (forall j :: |before| <= j < col ==> r[j] == ' ')
      && (if right then r[col..] == LStrip(p.right)
          else r[col..col + |p.sep|] == p.sep && r[col + |p.sep|..] == p.right)
  {
    var before := BeforeParts(p, right);
    if right {
      PaddedThen(before, col, LStrip(p.right));
    } else {
      PaddedThen(before, col, p.sep + p.right);
      assert (p.sep + p.right)[..|p.sep|] == p.sep;
    }
  }

  /** Text padded to `col` and followed by `tail`: the text, then blanks up to `col`, then `tail`. */
  lemma PaddedThen(before: string, col: nat, tail: string)
    requires |before| <= col
    ensures var r := PadRight(before, col) + tail;
      && r[..|before|] == before
      && (forall j :: |before| <= j < col ==> r[j] == ' ')
      && r[col..] == tail
  {
    var padded := PadRight(before, col);
    var r := padded + tail;
    assert r[..col] == padded;
    assert r[..|before|] == padded[..|before|];
  }

  /** The shape of one realigned delimiter line whose kept text fits within `col`. */
  lemma AlignedLineShape(line: string, delim: string, right: bool, col: nat)
    requires |delim| > 0 && HasDelim(line, delim)
    requires |Before(line, delim, right)| <= col
    ensures var p := Partition(line, delim);
      var r := AlignedLine(line, delim, right, col);
      var before := Before(line, delim, right);
      && |r| >= col + (if right then 0 else |delim|)
      && r[..|before|] == before
      && (forall j :: |before| <= j < col ==> r[j] == ' ')
      && (if right then r[col..] == LStrip(p.right)
          else r[col..col + |delim|] == delim && r[col + |delim|..] == p.right)
  {
    PartsShape(Partition(line, delim), right, col);
  }

  /**
   * What the alignment achieves: on every line holding the delimiter, the
   * delimiter itself (left mode) or the text after it (right mode) starts at
   * the common column, and what precedes that column is the line's stripped
   * text followed only by blanks.
   */
  lemma AlignedAtColumn(lines: seq<string>, delim: string, right: bool, spaces: int, i: int)
    requires |delim| > 0 && 0 <= i < |lines| && HasDelim(lines[i], delim)
    ensures var col := Column(lines, delim, right, spaces);
      var p := Partition(lines[i], delim);
      var r := AlignedLine(lines[i], delim, right, col);
      var before := Before(lines[i], delim, right);
      && col >= |before|
      && |r| >= col + (if right then 0 else |delim|)
      && r[..|before|] == before
      && (forall j :: |before| <= j < col ==> r[j] == ' ')
      && (if right then r[col..] == LStrip(p.right)
          else r[col..col + |delim|] == delim && r[col + |delim|..] == p.right)
  {
    ColumnCoversLine(lines, delim, right, spaces, i);
    AlignedLineShape(lines[i], delim, right, Column(lines, delim, right, spaces));
  }

  /**
   * `Aligner.handle_command` with the buffer range `lines`, the delimiter and
   * the `--right` and `--spaces` options. An empty range makes the unpacking
   * of `zip(*splits)` raise `ValueError`; otherwise an empty delimiter makes
   * `partition` raise it.
   */
  method Align(lines: seq<string>, delim: string, right: bool, spaces: int) returns (r: Result<seq<string>>)
    ensures |lines| == 0 || |delim| == 0 <==> r == Err(ValueError)
    // With no delimiter anywhere, the range is left exactly as it was.
    ensures |lines| > 0 && |delim| > 0 && !AnyDelim(lines, delim) ==> r == Ok(lines)
    // Otherwise line i of the result is line i realigned to the common column.
    ensures |lines| > 0 && |delim| > 0 && AnyDelim(lines, delim) ==>
      && Column(lines, delim, right, spaces) >= 0
      && r.Ok? && |r.value| == |lines|
      && forall i :: 0 <= i < |lines| ==>
           r.value[i] == AlignedLine(lines[i], delim, right, Column(lines, delim, right, spaces))
  {
    if |lines| == 0 || |delim| == 0 {
      return Err(ValueError);
    }
    var pos := AlignColumn(lines, delim, right, spaces);
    if pos < 0 {
      return Ok(lines);
    }
    var splits := Splits(lines, delim);
    var lefts := StrippedLefts(splits, right);
    var rights := AdjustedRights(splits, right);
    var out := Assemble(splits, lefts, rights, right, pos);
    forall j | 0 <= j < |lines|
      ensures out[j] == AlignedLine(lines[j], delim, right, pos)
    {
      var p := Partition(lines[j], delim);
      assert splits[j] == p;
      assert p.sep == [] ==> p.left + p.sep == p.left;
    }
    r := Ok(out);
  }

  /**
   * The column computation of `Aligner.handle_command`: -1 when no line holds
   * the delimiter (the command then leaves the range alone), otherwise the
   * common column. In right mode the start column of the right-hand text is
   * computed first and only then replaced by the joined width when
   * `spaces >= 0`.
   */
  method AlignColumn(lines: seq<string>, delim: string, right: bool, spaces: int) returns (pos: int)
    requires |delim| > 0
    ensures !AnyDelim(lines, delim) ==> pos == -1
    ensures AnyDelim(lines, delim) ==> pos == Column(lines, delim, right, spaces) && pos >= 0
  {
    var kept := Kept(lines, delim);
    var starts, joined, lefts := RightStarts(lines, delim), JoinedWidths(lines, delim), LeftWidths(lines, delim);
    var found := AnyDelim(lines, delim);
    MaxKeptFindsDelim(lines, delim, starts);
    MaxKeptFindsDelim(lines, delim, joined);
    MaxKeptFindsDelim(lines, delim, lefts);
    if right {
      pos := MaxKept(starts, kept);
      if pos >= 0 && spaces >= 0 {
        pos := MaxKept(joined, kept);
      }
    } else {
      pos := MaxKept(lefts, kept);
    }
    assert pos >= 0 <==> found;
    if pos >= 0 && spaces >= 0 {
      pos := pos + spaces;
    }
  }

  /**
   * The loop that builds the new lines from the parts, the adjusted left and
   * right texts and the column: delimiter lines are padded to `pos`, other
   * lines keep their adjusted left text only.
   */
  method Assemble(splits: seq<Parts>, lefts: seq<string>, rights: seq<string>, right: bool, pos: nat)
    returns (out: seq<string>)
    requires |lefts| == |splits| && |rights| == |splits|
    ensures |out| == |splits|
    ensures forall j :: 0 <= j < |splits| && splits[j].sep == [] ==> out[j] == lefts[j]
    ensures forall j :: 0 <= j < |splits| && splits[j].sep != [] ==>
      out[j] == if right then PadRight(lefts[j], pos) + rights[j]
                else PadRight(lefts[j], pos) + splits[j].sep + rights[j]
  {
    out := [];
    var i := 0;
    while i < |splits|
      invariant 0 <= i <= |splits|
      invariant |out| == i
      invariant forall j :: 0 <= j < i && splits[j].sep == [] ==> out[j] == lefts[j]
      invariant forall j :: 0 <= j < i && splits[j].sep != [] ==>
        out[j] == if right then PadRight(lefts[j], pos) + rights[j]
                  else PadRight(lefts[j], pos) + splits[j].sep + rights[j]
    {
      if splits[i].sep != [] {
        if right {
          out := out + [PadRight(lefts[i], pos) + rights[i]];
        } else {
          out := out + [PadRight(lefts[i], pos) + splits[i].sep + rights[i]];
        }
      } else {
        out := out + [lefts[i]];
      }
      i := i + 1;
    }
  }
}
