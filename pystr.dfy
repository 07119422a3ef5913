/**
 * The few pieces of Python's `str` behaviour the modelled code relies on:
 * whitespace, `strip`, `partition`, `center` and `format` with a width.
 */
module PyStr {

  import opened Wrappers

  /** `c.isspace()`: the characters CPython treats as whitespace. */
  predicate IsSpace(c: char) {
    || c == ' '
    || ('\t' <= c <= '\r')
    || ('\U{1c}' <= c <= '\U{1f}')
    || c == '\U{85}' || c == '\U{a0}' || c == '\U{1680}'
    || ('\U{2000}' <= c <= '\U{200a}')
    || c == '\U{2028}' || c == '\U{2029}' || c == '\U{202f}' || c == '\U{205f}' || c == '\U{3000}'
  }

  /** `n` copies of the character `c` (Python `c * n`). */
  function Repeat(c: char, n: nat): (r: string)
    ensures |r| == n
    ensures forall i :: 0 <= i < n ==> r[i] == c
  {
    seq(n, _ => c)
  }

  function Spaces(n: nat): (r: string)
    ensures |r| == n && forall i :: 0 <= i < n ==> r[i] == ' '
  {
    Repeat(' ', n)
  }

  /** `s.rstrip()`: drops the trailing whitespace and nothing else. */
  function RStrip(s: string): (r: string)
    ensures |r| <= |s| && r == s[..|r|]
    ensures r == [] || !IsSpace(r[|r| - 1])
    ensures forall i :: |r| <= i < |s| ==> IsSpace(s[i])
  {
    if |s| > 0 && IsSpace(s[|s| - 1]) then RStrip(s[..|s| - 1]) else s
  }

  /** `s.lstrip()`: drops the leading whitespace and nothing else. */
  function LStrip(s: string): (r: string)
    ensures |r| <= |s| && r == s[|s| - |r|..]
    ensures r == [] || !IsSpace(r[0])
    ensures forall i :: 0 <= i < |s| - |r| ==> IsSpace(s[i])
  {
    if |s| > 0 && IsSpace(s[0]) then LStrip(s[1..]) else s
  }

  /** `d` occurs in `s` starting at index `i`. */
  predicate OccursAt(s: string, d: string, i: int) {
    0 <= i && i + |d| <= |s| && s[i..i + |d|] == d
  }

  /** The first index at or after `k` where `d` occurs in `s`. */
  function FindFrom(s: string, d: string, k: nat): (r: Option<nat>)
    requires k <= |s|
    decreases |s| - k
    ensures r.Some? ==> k <= r.value && OccursAt(s, d, r.value)
    ensures r.Some? ==> forall i :: k <= i < r.value ==> !OccursAt(s, d, i)
    ensures r.None? ==> forall i :: k <= i ==> !OccursAt(s, d, i)
  {
    if k + |d| > |s| then None
    else if s[k..k + |d|] == d then Some(k)
    else FindFrom(s, d, k + 1)
  }

  /** The three parts `str.partition` returns. */
  datatype Parts = Parts(left: string, sep: string, right: string)

  /**
   * `s.partition(d)`: split at the first occurrence of `d` (see
   * `PartitionAtFirst`); without one, the whole of `s` is the left part and
   * the other two are empty. Python raises ValueError for an empty separator,
   * hence the precondition.
   */
  function Partition(s: string, d: string): (p: Parts)
    requires |d| > 0
    ensures p.left + p.sep + p.right == s
    ensures p.sep == d || p.sep == []
    ensures p.sep == [] ==> p.left == s && p.right == []
  {
    match FindFrom(s, d, 0)
    case Some(i) =>
      assert s == s[..i] + d + s[i + |d|..];
      Parts(s[..i], d, s[i + |d|..])
    case None =>
      Parts(s, [], [])
  }

  /**
   * `partition` splits at the FIRST occurrence: the separator is found exactly
   * when `d` occurs in `s`, it starts where the left part ends, and `d` does
   * not start anywhere inside the left part (later occurrences stay in the
   * right part).
   */
  lemma PartitionAtFirst(s: string, d: string)
    requires |d| > 0
    ensures var p := Partition(s, d);
      && (p.sep == [] <==> forall i :: !OccursAt(s, d, i))
      && (p.sep == d ==> OccursAt(s, d, |p.left|))
      && (forall i :: 0 <= i < |p.left| ==> !OccursAt(s, d, i))
  {
    var p := Partition(s, d);
    match FindFrom(s, d, 0)
    case Some(i) =>
      assert |p.left| == i;
    case None =>
      forall i ensures !OccursAt(s, d, i) {
        if i < 0 {} else {}
      }
  }

  /** `f'{s:{w}}'` for a string: left-justified in a field of at least `w` columns; never truncates. */
  function PadRight(s: string, w: nat): (r: string)
    ensures |r| == if w <= |s| then |s| else w
    ensures r[..|s|] == s
    ensures forall i :: |s| <= i < |r| ==> r[i] == ' '
  {
    if w <= |s| then s else s + Spaces(w - |s|)
  }

  /** The left margin CPython's `str.center` uses: half the slack, plus one when slack and width are both odd. */
  function CenterLeft(len: nat, width: int): (k: nat)
    requires len < width
    ensures k <= width - len
    // An even slack is split evenly.
    ensures (width - len) % 2 == 0 ==> 2 * k == width - len
    // An odd slack puts the extra blank on the left when the width is odd, on the right when it is even.
    ensures (width - len) % 2 == 1 && width % 2 == 1 ==> 2 * k == width - len + 1
    ensures (width - len) % 2 == 1 && width % 2 == 0 ==> 2 * k == width - len - 1
  {
    var marg := width - len;
    marg / 2 + (if marg % 2 == 1 && width % 2 == 1 then 1 else 0)
  }

  /** `s.center(width)`: `s` itself when it is at least `width` long, else `s` framed by spaces to exactly `width`. */
  function Center(s: string, width: int): (r: string)
    ensures width <= |s| ==> r == s
    ensures width > |s| ==> |r| == width
    ensures width > |s| ==> r == Spaces(CenterLeft(|s|, width)) + s + Spaces(width - |s| - CenterLeft(|s|, width))
  {
    if width <= |s| then s
    else
      var k := CenterLeft(|s|, width);
      Spaces(k) + s + Spaces(width - |s| - k)
  }

  /** `sep.join(parts)`. */
  function Join(sep: string, parts: seq<string>): (r: string)
    ensures |parts| == 0 ==> r == []
    ensures |parts| == 1 ==> r == parts[0]
  {
    if |parts| == 0 then []
    else if |parts| == 1 then parts[0]
    else parts[0] + sep + Join(sep, parts[1..])
  }

  /**
   * One more part is joined on with the separator in front of it; with the
   * one-part case this fixes `Join` completely: the parts in order, one
   * separator between each two consecutive parts and none at either end.
   */
  lemma {:induction false} JoinAppend(sep: string, parts: seq<string>, p: string)
    requires |parts| > 0
    ensures Join(sep, parts + [p]) == Join(sep, parts) + sep + p
    decreases |parts|
  {
    if |parts| > 1 {
      assert (parts + [p])[1..] == parts[1..] + [p];
      JoinAppend(sep, parts[1..], p);
    } else {
      assert parts + [p] == [parts[0], p];
    }
  }
  /** `s in t` for strings: `s` occurs somewhere in `t` (the empty string occurs everywhere). */
  predicate In(s: string, t: string) {
    exists i | 0 <= i <= |t| - |s| :: OccursAt(t, s, i)
  }

  /**
   * What `c in ' .'` means for a one-character (or empty) string: a blank, a
   * dot, or the empty string, which Python finds in every string.
   */
  lemma InBlankOrDot(s: string)
    requires |s| <= 1
    ensures In(s, " .") <==> s == "" || s == " " || s == "."
  {
    if s == "" {
      assert OccursAt(" .", s, 0);
    } else if s == " " {
      assert OccursAt(" .", s, 0);
    } else if s == "." {
      assert OccursAt(" .", s, 1);
    }
  }

  /** `s.replace(a, b)` for single characters: every `a` becomes `b`, nothing else changes. */
  function ReplaceChar(s: string, a: char, b: char): (r: string)
    ensures |r| == |s|
    ensures forall i :: 0 <= i < |s| ==> r[i] == if s[i] == a then b else s[i]
  {
    seq(|s|, i requires 0 <= i < |s| => if s[i] == a then b else s[i])
  }

  /**
   * What the replacement achieves: no `a` is left, a string without `a`
   * comes back unchanged, and a `b` in the result was an `a` or a `b`.
   */
  lemma ReplaceCharEffect(s: string, a: char, b: char)
    requires a != b
    ensures a !in ReplaceChar(s, a, b)
    ensures a !in s ==> ReplaceChar(s, a, b) == s
    ensures forall i :: 0 <= i < |s| && ReplaceChar(s, a, b)[i] == b ==> s[i] == a || s[i] == b
  {
    var r := ReplaceChar(s, a, b);
    if a in s {
    } else {
      assert forall i :: 0 <= i < |s| ==> r[i] == s[i];
    }
  }

  function DigitChar(d: nat): (c: char)
    requires d < 10
    ensures '0' <= c <= '9'
  {
    ('0' as int + d) as char
  }

  /** The decimal digits of `n`, without leading zeros. */
  function Digits(n: nat): (r: string)
    ensures |r| >= 1 && (forall i :: 0 <= i < |r| ==> '0' <= r[i] <= '9')
    decreases n
  {
    if n < 10 then [DigitChar(n)] else Digits(n / 10) + [DigitChar(n % 10)]
  }

  /** `str(n)` for an integer. */
  function IntToString(n: int): string {
    if n < 0 then "-" + Digits(-n) else Digits(n)
  }

  /** The last digit of `n` is `n % 10`, and the ones before it are the digits of `n / 10`. */
  lemma DigitsLast(n: nat)
    ensures var r := Digits(n);
      && ('0' as int + n % 10) as char == r[|r| - 1]
      && (n >= 10 ==> Digits(n / 10) == r[..|r| - 1])
  {
    var r := Digits(n);
    if n >= 10 {
      assert r == Digits(n / 10) + [DigitChar(n % 10)];
    }
  }

  /** Distinct numbers print differently, so a table keyed by `str(n)` is a table keyed by `n`. */
  lemma {:induction false} DigitsInjective(a: nat, b: nat)
    requires Digits(a) == Digits(b)
    ensures a == b
    decreases a
  {
    DigitsLast(a);
    DigitsLast(b);
    if a >= 10 {
      DigitsInjective(a / 10, b / 10);
      assert a == 10 * (a / 10) + a % 10 && b == 10 * (b / 10) + b % 10;
    }
  }

  /** `str(n)` starts with a minus sign exactly when `n` is negative. */
  lemma SignFirst(n: int)
    ensures |IntToString(n)| > 0 && (IntToString(n)[0] == '-' <==> n < 0)
  {
    if n >= 0 {
      assert '0' <= Digits(n)[0] <= '9';
    }
  }

  /** `str(n)` of a negative `n` is the digits of `-n` after the minus sign. */
  lemma NegativeDigits(n: int)
    requires n < 0
    ensures IntToString(n)[1..] == Digits(-n)
  {
    assert IntToString(n) == "-" + Digits(-n);
  }

  /** `str` is injective on integers. */
  lemma IntToStringInjective(a: int, b: int)
    requires IntToString(a) == IntToString(b)
    ensures a == b
  {
    SignFirst(a);
    SignFirst(b);
    if a < 0 {
      NegativeDigits(a);
      NegativeDigits(b);
      DigitsInjective(-a, -b);
    } else {
      DigitsInjective(a, b);
    }
  }

  /** The characters `str.splitlines` breaks lines at (`\r\n` counts as one break). */
  predicate IsLineBreak(c: char) {
    || c == '\n' || c == '\r' || c == '\U{b}' || c == '\U{c}'
    || c == '\U{1c}' || c == '\U{1d}' || c == '\U{1e}'
    || c == '\U{85}' || c == '\U{2028}' || c == '\U{2029}'
  }

  /** The index of the first line break at or after `k`. */
  function FindBreak(s: string, k: nat): (r: Option<nat>)
    requires k <= |s|
    decreases |s| - k
    ensures r.Some? ==> k <= r.value < |s| && IsLineBreak(s[r.value])
    ensures r.Some? ==> forall i :: k <= i < r.value ==> !IsLineBreak(s[i])
    ensures r.None? ==> forall i :: k <= i < |s| ==> !IsLineBreak(s[i])
  {
    if k == |s| then None
    else if IsLineBreak(s[k]) then Some(k)
    else FindBreak(s, k + 1)
  }

  /**
   * `s.splitlines()`: the lines of `s` without their line breaks; a final
   * break does not start another line, and the empty string has no lines.
   */
  function SplitLines(s: string): (r: seq<string>)
    ensures forall i, j :: 0 <= i < |r| && 0 <= j < |r[i]| ==> !IsLineBreak(r[i][j])
    ensures s == [] <==> r == []
    decreases |s|
  {
    if |s| == 0 then []
    else
      match FindBreak(s, 0)
      case None => [s]
      case Some(i) => [s[..i]] + SplitLines(s[AfterBreak(s, i)..])
  }
  /** Where the text resumes after the line break at `i`: `\r\n` is one break of two characters. */
  function AfterBreak(s: string, i: nat): (k: nat)
    requires i < |s|
    ensures i < k <= |s|
  {
    if s[i] == '\r' && i + 1 < |s| && s[i + 1] == '\n' then i + 2 else i + 1
  }

  /** A line ending `splitlines` recognises: one line-break character, or `\r\n`. */
  predicate IsBreakText(t: string) {
    t == "\r\n" || (|t| == 1 && IsLineBreak(t[0]))
  }

  /** The line ending that follows each line of `SplitLines(s)`; empty after a last line with none. */
  function LineEnds(s: string): seq<string>
    decreases |s|
  {
    if |s| == 0 then []
    else
      match FindBreak(s, 0)
      case None => [""]
      case Some(i) => [s[i..AfterBreak(s, i)]] + LineEnds(s[AfterBreak(s, i)..])
  }

  /** Each line followed by its line ending. */
  function Rejoin(lines: seq<string>, ends: seq<string>): string
    requires |lines| == |ends|
  {
    if |lines| == 0 then [] else lines[0] + ends[0] + Rejoin(lines[1..], ends[1..])
  }

  /** The first line and its ending, then the lines of the rest. */
  lemma SplitFirst(s: string, i: nat)
    requires |s| > 0 && FindBreak(s, 0) == Some(i)
    ensures SplitLines(s) == [s[..i]] + SplitLines(s[AfterBreak(s, i)..])
    ensures LineEnds(s) == [s[i..AfterBreak(s, i)]] + LineEnds(s[AfterBreak(s, i)..])
  {
  }

  /**
   * `splitlines` cuts the text at its line endings and nowhere else: putting
   * each line's ending back gives the text again.
   */
  lemma {:induction false} SplitLinesRejoin(s: string)
    ensures |LineEnds(s)| == |SplitLines(s)|
    ensures Rejoin(SplitLines(s), LineEnds(s)) == s
    decreases |s|
  {
    if |s| > 0 {
      match FindBreak(s, 0)
      case None =>
        assert Rejoin([s], [""]) == s + "" + Rejoin([], []);
      case Some(i) =>
        var k := AfterBreak(s, i);
        var t := s[k..];
        SplitFirst(s, i);
        SplitLinesRejoin(t);
        var r, e := SplitLines(s), LineEnds(s);
        assert r[1..] == SplitLines(t) && e[1..] == LineEnds(t);
        calc {
          Rejoin(r, e);
          r[0] + e[0] + Rejoin(SplitLines(t), LineEnds(t));
          s[..i] + s[i..k] + t;
          { assert s[..i] + s[i..k] == s[..k]; }
          s[..k] + s[k..];
          s;
        }
    }
  }

  /**
   * A final line break does not start another line: a last line without an
   * ending is never empty (`"a\n"` splits into `["a"]`, not `["a", ""]`).
   */
  lemma {:induction false} FinalBreakEndsLastLine(s: string)
    ensures |LineEnds(s)| == |SplitLines(s)|
    ensures var r, e := SplitLines(s), LineEnds(s);
      |r| > 0 && e[|r| - 1] == "" ==> r[|r| - 1] != ""
    decreases |s|
  {
    SplitLinesRejoin(s);
    if |s| > 0 {
      match FindBreak(s, 0)
      case None =>
      case Some(i) =>
        var k := AfterBreak(s, i);
        var t := s[k..];
        SplitFirst(s, i);
        FinalBreakEndsLastLine(t);
        var r, e := SplitLines(s), LineEnds(s);
        if |t| == 0 {
          assert e == [s[i..k]];
        } else {
          assert r[|r| - 1] == SplitLines(t)[|SplitLines(t)| - 1];
          assert e[|r| - 1] == LineEnds(t)[|LineEnds(t)| - 1];
        }
    }
  }

  /** Every line but the last ends in a line ending; the last one may have none. */
  lemma {:induction false} LineEndsAreBreaks(s: string)
    ensures var e := LineEnds(s);
      forall i :: 0 <= i < |e| ==> IsBreakText(e[i]) || (i == |e| - 1 && e[i] == "")
    decreases |s|
  {
    if |s| > 0 {
      match FindBreak(s, 0)
      case None =>
      case Some(i) =>
        var k := AfterBreak(s, i);
        SplitFirst(s, i);
        var et := LineEnds(s[k..]);
        LineEndsAreBreaks(s[k..]);
        var e := [s[i..k]] + et;
        forall j | 0 <= j < |e|
          ensures IsBreakText(e[j]) || (j == |e| - 1 && e[j] == "")
        {
          if j == 0 {
            if k == i + 2 {
              assert s[i..k] == "\r\n";
            } else {
              assert s[i..k] == [s[i]];
            }
          } else {
            assert e[j] == et[j - 1];
          }
        }
    }
  }

  /** A `\r` directly followed by `\n` is one line ending, never two. */
  lemma {:induction false} CarriageReturnNewline(s: string)
    ensures |LineEnds(s)| == |SplitLines(s)|
    ensures var r, e := SplitLines(s), LineEnds(s);
      forall i :: 0 <= i < |e| - 1 && e[i] == "\r" ==> !(r[i + 1] == "" && e[i + 1] == "\n")
    decreases |s|
  {
    SplitLinesRejoin(s);
    if |s| > 0 {
      match FindBreak(s, 0)
      case None =>
      case Some(i) =>
        var k := AfterBreak(s, i);
        var t := s[k..];
        SplitFirst(s, i);
        CarriageReturnNewline(t);
        var r, e := SplitLines(s), LineEnds(s);
        assert forall j :: 1 <= j < |e| ==> e[j] == LineEnds(t)[j - 1] && r[j] == SplitLines(t)[j - 1];
        if |e| > 1 && e[0] == "\r" && r[1] == "" {
          assert k == i + 1 && |t| > 0 && t[0] != '\n';
          var j :| FindBreak(t, 0) == Some(j);
          SplitFirst(t, j);
          assert j == 0;
          assert e[1] == t[0..AfterBreak(t, 0)];
        }
    }
  }

  /** `s.index(c)`: the position of the first `c` in `s` (Python raises `ValueError` when there is none). */
  function Index(s: seq<char>, c: char): (i: nat)
    requires c in s
    ensures i < |s| && s[i] == c
    ensures forall j :: 0 <= j < i ==> s[j] != c
  {
    if s[0] == c then 0 else 1 + Index(s[1..], c)
  }
}
