/**
 * The Tower of Hanoi animation: three towers of discs, a recursive mover that
 * pops the top disc of one tower and appends it to another, and the text
 * rendering of the towers.
 *
 * Each tower is a sequence of disc sizes listed from the bottom up, so
 * `[5, 4, 3, 2, 1]` is a full tower of five discs and `[5, 3]` a disc of size 3
 * on a disc of size 5.
 *
 * The mover receives the three tower lists themselves, in the order of its
 * parameters `pa`, `pb`, `pc`; the pure model `Run` therefore works on three
 * sequences in that order and never looks a tower up by position. Moves are
 * recorded with a label per tower (`L`), which the class instantiates with the
 * tower objects.
 */
module Hanoi {

  import opened PyStr

  /** One step of the mover: the top disc of `from` goes on top of `to`. */
  datatype Move<L> = Move(from: L, to: L)

  /** The three towers handed to the mover as `pa`, `pb`, `pc`, after it ran, and the moves it made in order. */
  datatype Towers<L> = Towers(pa: seq<int>, pb: seq<int>, pc: seq<int>, moves: seq<Move<L>>)

  function Pow2(n: nat): (r: nat)
    ensures r >= 1
  {
    if n == 0 then 1 else 2 * Pow2(n - 1)
  }

  /** `list(range(n, 0, -1))`: a full tower of `n` discs, the largest at the bottom. */
  function FullTower(n: nat): (s: seq<int>)
    ensures |s| == n
    ensures forall i :: 0 <= i < n ==> s[i] == n - i
  {
    seq(n, i requires 0 <= i < n => n - i)
  }

  /** `max(2, min(20, height))`: the number of discs is always between 2 and 20. */
  function ClampDiscs(height: int): (n: int)
    ensures 2 <= n <= 20
    ensures 2 <= height <= 20 ==> n == height
    ensures height < 2 ==> n == 2
    ensures height > 20 ==> n == 20
  {
    if height < 2 then 2 else if height > 20 then 20 else height
  }

  function Top(s: seq<int>): int
    requires |s| > 0
  {
    s[|s| - 1]
  }

  /** A tower is well stacked when its discs shrink strictly from the bottom up. */
  ghost predicate Decreasing(s: seq<int>) {
    forall i, j :: 0 <= i < j < |s| ==> s[i] > s[j]
  }

  /** The start tower is well stacked, holds exactly the discs 1 to `n`, and has the smallest on top. */
  lemma FullTowerStacked(n: nat)
    ensures Decreasing(FullTower(n))
    ensures forall d :: d in FullTower(n) <==> 1 <= d <= n
    ensures n > 0 ==> Top(FullTower(n)) == 1
  {
    var s := FullTower(n);
    forall d | 1 <= d <= n ensures d in s {
      assert s[n - d] == d;
    }
  }

  /** The discs on three towers, counted with multiplicity. */
  function Discs(a: seq<int>, b: seq<int>, c: seq<int>): multiset<int> {
    multiset(a) + multiset(b) + multiset(c)
  }

  /** The order in which the towers are listed does not change their discs. */
  lemma DiscsSwap(a: seq<int>, b: seq<int>, c: seq<int>)
    ensures Discs(b, a, c) == Discs(a, b, c)
  {
  }

  lemma DiscsRotate(a: seq<int>, b: seq<int>, c: seq<int>)
    ensures Discs(a, c, b) == Discs(a, b, c)
  {
  }

  /** The middle step of `generate_moves`: `if pa: pc.append(pa.pop())`; `b` is the tower not involved. */
  function MiddleMove<L>(la: L, lc: L, a: seq<int>, b: seq<int>, c: seq<int>): Towers<L> {
    if |a| > 0 then Towers(a[..|a| - 1], b, c + [Top(a)], [Move(la, lc)]) else Towers(a, b, c, [])
  }

  /**
   * `generate_moves(n, pa, pb, pc)` run to exhaustion: move `n - 1` discs
   * from `a` to `b` (using `c`), then, if `a` still has a disc, its top disc
   * to `c`, then `n - 1` discs from `b` to `c` (using `a`).
   */
  function Run<L>(n: nat, la: L, lb: L, lc: L, a: seq<int>, b: seq<int>, c: seq<int>): Towers<L>
    decreases n
  {
    if n == 0 then Towers(a, b, c, [])
    else
      var first := Run(n - 1, la, lc, lb, a, c, b);
      var mid := MiddleMove(la, lc, first.pa, first.pc, first.pb);
      var last := Run(n - 1, lb, la, lc, mid.pb, mid.pa, mid.pc);
      Towers(last.pb, last.pa, last.pc, first.moves + mid.moves + last.moves)
  }

  /** The middle step never creates or destroys a disc. */
  lemma MiddleMoveConserves<L>(la: L, lc: L, a: seq<int>, b: seq<int>, c: seq<int>)
    ensures var m := MiddleMove(la, lc, a, b, c); Discs(m.pa, m.pb, m.pc) == Discs(a, b, c)
  {
    if |a| > 0 {
      assert a == a[..|a| - 1] + [Top(a)];
    }
  }

  /** The three steps of one level of the mover, each conserving the discs, conserve them together. */
  lemma ConservesInThreeSteps<L>(la: L, lc: L, a: seq<int>, b: seq<int>, c: seq<int>, first: Towers<L>, last: Towers<L>)
    requires Discs(first.pa, first.pb, first.pc) == Discs(a, c, b)
    requires var mid := MiddleMove(la, lc, first.pa, first.pc, first.pb);
      Discs(last.pa, last.pb, last.pc) == Discs(mid.pb, mid.pa, mid.pc)
    ensures Discs(last.pb, last.pa, last.pc) == Discs(a, b, c)
  {
    var mid := MiddleMove(la, lc, first.pa, first.pc, first.pb);
    MiddleMoveConserves(la, lc, first.pa, first.pc, first.pb);
    DiscsSwap(last.pa, last.pb, last.pc);
    DiscsSwap(mid.pa, mid.pb, mid.pc);
    DiscsRotate(first.pa, first.pb, first.pc);
    DiscsRotate(a, b, c);
  }

  /** The mover never creates or destroys a disc, whatever `n` and the towers: the multiset of all discs is conserved. */
  lemma {:induction false} RunConservesDiscs<L>(n: nat, la: L, lb: L, lc: L, a: seq<int>, b: seq<int>, c: seq<int>)
    ensures var r := Run(n, la, lb, lc, a, b, c); Discs(r.pa, r.pb, r.pc) == Discs(a, b, c)
    decreases n
  {
    if n > 0 {
      var first := Run(n - 1, la, lc, lb, a, c, b);
      var mid := MiddleMove(la, lc, first.pa, first.pc, first.pb);
      RunConservesDiscs(n - 1, la, lc, lb, a, c, b);
      RunConservesDiscs(n - 1, lb, la, lc, mid.pb, mid.pa, mid.pc);
      ConservesInThreeSteps(la, lc, a, b, c, first, Run(n - 1, lb, la, lc, mid.pb, mid.pa, mid.pc));
    }
  }

  /**
   * The classic solution, independent of the discs: move `n - 1` discs from
   * `a` to `b`, one from `a` to `c`, then `n - 1` from `b` to `c`.
   */
  function Solution<L>(n: nat, la: L, lb: L, lc: L): seq<Move<L>> {
    if n == 0 then [] else Solution(n - 1, la, lc, lb) + [Move(la, lc)] + Solution(n - 1, lb, la, lc)
  }

  /** The classic solution of `n` discs has 2^n - 1 moves. */
  lemma {:induction false} SolutionLength<L>(n: nat, la: L, lb: L, lc: L)
    ensures |Solution(n, la, lb, lc)| == Pow2(n) - 1
  {
    if n > 0 {
      SolutionLength(n - 1, la, lc, lb);
      SolutionLength(n - 1, lb, la, lc);
    }
  }

  /**
   * Whatever the towers, the mover makes at most 2^n - 1 moves: the middle
   * step is skipped, and nothing else, when `pa` is empty at that point.
   */
  lemma {:induction false} RunMovesAtMost<L>(n: nat, la: L, lb: L, lc: L, a: seq<int>, b: seq<int>, c: seq<int>)
    ensures |Run(n, la, lb, lc, a, b, c).moves| <= Pow2(n) - 1
    decreases n
  {
    if n > 0 {
      var first := Run(n - 1, la, lc, lb, a, c, b);
      var mid := MiddleMove(la, lc, first.pa, first.pc, first.pb);
      RunMovesAtMost(n - 1, la, lc, lb, a, c, b);
      RunMovesAtMost(n - 1, lb, la, lc, mid.pb, mid.pa, mid.pc);
    }
  }

  /**
   * Whenever `a` holds at least `n` discs, the mover never finds an empty
   * tower: it carries the top `n` discs of `a`, in order, onto `c`, leaves `b`
   * as it was, and makes exactly the classic moves, whatever the disc sizes.
   */
  lemma {:induction false} RunCarries<L>(n: nat, la: L, lb: L, lc: L, a: seq<int>, b: seq<int>, c: seq<int>)
    requires n <= |a|
    ensures Run(n, la, lb, lc, a, b, c) == Towers(a[..|a| - n], b, c + a[|a| - n..], Solution(n, la, lb, lc))
    decreases n
  {
    var k := |a|;
    if n == 0 {
      assert a[..k] == a && c + a[k..] == c;
    } else {
      var a1 := a[..k - (n - 1)];
      var b1 := b + a[k - (n - 1)..];
      RunCarries(n - 1, la, lc, lb, a, c, b);
      CarryInThreeSteps(n, a, b, c);
      assert MiddleMove(la, lc, a1, b1, c) == Towers(a[..k - n], b1, c + [a[k - n]], [Move(la, lc)]);
      RunCarries(n - 1, lb, la, lc, b1, a[..k - n], c + [a[k - n]]);
    }
  }

  /**
   * The sequence facts behind one level of the mover: after the top `n - 1`
   * discs of `a` went to `b`, the next disc of `a` is its new top, and
   * carrying the `n - 1` discs from `b` to `c` on top of it gives `c` the top
   * `n` discs of `a` in order.
   */
  lemma CarryInThreeSteps(n: nat, a: seq<int>, b: seq<int>, c: seq<int>)
    requires 0 < n <= |a|
    ensures var a1 := a[..|a| - (n - 1)];
      |a1| > 0 && Top(a1) == a[|a| - n] && a1[..|a1| - 1] == a[..|a| - n]
    ensures var b1 := b + a[|a| - (n - 1)..];
      |b1| >= n - 1 && b1[..|b1| - (n - 1)] == b && c + [a[|a| - n]] + b1[|b1| - (n - 1)..] == c + a[|a| - n..]
  {
    var k := |a|;
    var b1 := b + a[k - (n - 1)..];
    assert b1[|b1| - (n - 1)..] == a[k - n + 1..];
    assert a[k - n..] == [a[k - n]] + a[k - n + 1..];
    assert c + [a[k - n]] + a[k - n + 1..] == c + ([a[k - n]] + a[k - n + 1..]);
  }

  /**
   * The precondition of the classic argument: `a` holds at least `n` discs,
   * and the lowest of its top `n` discs is smaller than the top disc of `b`
   * and of `c`.
   */
  ghost predicate CanMove(n: nat, a: seq<int>, b: seq<int>, c: seq<int>) {
    && n <= |a|
    && (n > 0 && |b| > 0 ==> a[|a| - n] < Top(b))
    && (n > 0 && |c| > 0 ==> a[|a| - n] < Top(c))
  }

  /**
   * Every disc the mover places lands on an empty tower or on a larger disc:
   * the middle move of every level of the recursion is checked against the
   * towers as they are at that moment.
   */
  ghost predicate Placed<L>(n: nat, la: L, lb: L, lc: L, a: seq<int>, b: seq<int>, c: seq<int>)
    decreases n
  {
    n == 0 ||
    var first := Run(n - 1, la, lc, lb, a, c, b);
    var mid := MiddleMove(la, lc, first.pa, first.pc, first.pb);
    && Placed(n - 1, la, lc, lb, a, c, b)
    && (|first.pa| > 0 && |first.pb| > 0 ==> Top(first.pa) < Top(first.pb))
    && Placed(n - 1, lb, la, lc, mid.pb, mid.pa, mid.pc)
  }

  /** One level of the recursion places legally when its two recursive calls and its middle move do. */
  lemma PlacedIntro<L>(n: nat, la: L, lb: L, lc: L, a: seq<int>, b: seq<int>, c: seq<int>, first: Towers<L>)
    requires n > 0 && first == Run(n - 1, la, lc, lb, a, c, b) && |first.pa| > 0
    requires |first.pb| > 0 ==> Top(first.pa) < Top(first.pb)
    requires Placed(n - 1, la, lc, lb, a, c, b)
    requires Placed(n - 1, lb, la, lc, first.pc, first.pa[..|first.pa| - 1], first.pb + [Top(first.pa)])
    ensures Placed(n, la, lb, lc, a, b, c)
  {
  }

  /** Appending a decreasing run whose largest element is below the top keeps a tower decreasing. */
  lemma StackOnto(s: seq<int>, u: seq<int>)
    requires Decreasing(s) && Decreasing(u)
    requires |s| > 0 && |u| > 0 ==> u[0] < Top(s)
    ensures Decreasing(s + u)
  {
    var r := s + u;
    forall i, j | 0 <= i < j < |r| ensures r[i] > r[j] {
      if i < |s| && j >= |s| {
        assert s[i] >= Top(s);
        assert u[0] >= u[j - |s|];
      }
    }
  }

  /** Both halves of a decreasing tower are decreasing. */
  lemma SplitDecreasing(s: seq<int>, k: nat)
    requires Decreasing(s) && k <= |s|
    ensures Decreasing(s[..k]) && Decreasing(s[k..])
  {
    var u := s[k..];
    forall i, j | 0 <= i < j < |u| ensures u[i] > u[j] {
      assert u[i] == s[k + i] && u[j] == s[k + j];
    }
  }

  /** The first recursive call may go ahead: the top `n - 1` discs of `a` fit on `c` and on `b`. */
  lemma FirstHalfFits(n: nat, a: seq<int>, b: seq<int>, c: seq<int>)
    requires Decreasing(a) && CanMove(n, a, b, c) && n > 0
    ensures CanMove(n - 1, a, c, b)
  {
    var k := |a|;
    if n - 1 > 0 {
      assert a[k - n] > a[k - n + 1];
    }
  }

  /**
   * The middle move and the second recursive call may go ahead: once the top
   * `n - 1` discs of `a` sit on `b`, the next disc of `a` fits on `c`, and
   * afterwards the `n - 1` discs on `b` fit on `a` and on `c`, all towers
   * well stacked.
   */
  lemma SecondHalfFits(n: nat, a: seq<int>, b: seq<int>, c: seq<int>)
    requires Decreasing(a) && Decreasing(b) && Decreasing(c) && CanMove(n, a, b, c) && n > 0
    ensures var a1 := a[..|a| - (n - 1)]; var b1 := b + a[|a| - (n - 1)..];
      && |a1| > 0
      && (|c| > 0 ==> Top(a1) < Top(c))
      && Decreasing(b1) && Decreasing(a1[..|a1| - 1]) && Decreasing(c + [Top(a1)])
      && CanMove(n - 1, b1, a1[..|a1| - 1], c + [Top(a1)])
  {
    var k := |a|;
    var a1 := a[..k - (n - 1)];
    assert Top(a1) == a[k - n];
    assert a1[..|a1| - 1] == a[..k - n];
    SecondHalfStacked(n, a, b, c);
    SecondHalfMoves(n, a, b, c);
  }

  /** After the first recursive call and the middle move, all three towers are well stacked. */
  lemma SecondHalfStacked(n: nat, a: seq<int>, b: seq<int>, c: seq<int>)
    requires Decreasing(a) && Decreasing(b) && Decreasing(c) && CanMove(n, a, b, c) && n > 0
    ensures Decreasing(b + a[|a| - (n - 1)..]) && Decreasing(a[..|a| - n]) && Decreasing(c + [a[|a| - n]])
  {
    FirstHalfFits(n, a, b, c);
    CarriedStacked(n - 1, a, c, b);
    SplitDecreasing(a, |a| - n);
    StackOnto(c, [a[|a| - n]]);
  }

  /** After the first recursive call and the middle move, the `n - 1` discs on `b` fit on `a` and on `c`. */
  lemma SecondHalfMoves(n: nat, a: seq<int>, b: seq<int>, c: seq<int>)
    requires Decreasing(a) && CanMove(n, a, b, c) && n > 0
    ensures CanMove(n - 1, b + a[|a| - (n - 1)..], a[..|a| - n], c + [a[|a| - n]])
  {
    var k := |a|;
    var b1 := b + a[k - (n - 1)..];
    if n - 1 > 0 {
      assert b1[|b1| - (n - 1)] == a[k - n + 1];
      assert a[k - n] > a[k - n + 1];
      if k - n > 0 {
        assert a[k - n - 1] > a[k - n + 1];
      }
    }
  }

  /** Carrying the top `n` discs of `a` onto `c` leaves both towers well stacked when the lowest of them fits on `c`. */
  lemma CarriedStacked(n: nat, a: seq<int>, b: seq<int>, c: seq<int>)
    requires Decreasing(a) && Decreasing(c) && CanMove(n, a, b, c)
    ensures Decreasing(a[..|a| - n]) && Decreasing(c + a[|a| - n..])
  {
    var u := a[|a| - n..];
    SplitDecreasing(a, |a| - n);
    assert n > 0 ==> u[0] == a[|a| - n];
    StackOnto(c, u);
  }

  /**
   * From well-stacked towers where the top `n` discs of `a` fit on `b` and on
   * `c`, all three towers are still well stacked when the mover is done.
   */
  lemma RunKeepsStacked<L>(n: nat, la: L, lb: L, lc: L, a: seq<int>, b: seq<int>, c: seq<int>)
    requires Decreasing(a) && Decreasing(b) && Decreasing(c) && CanMove(n, a, b, c)
    ensures var r := Run(n, la, lb, lc, a, b, c); Decreasing(r.pa) && Decreasing(r.pb) && Decreasing(r.pc)
  {
    RunCarries(n, la, lb, lc, a, b, c);
    CarriedStacked(n, a, b, c);
  }

  /**
   * After the first recursive call, the middle disc fits on the target
   * tower, and the second recursive call starts from well-stacked towers
   * where its discs fit.
   */
  lemma SecondCallReady<L>(n: nat, la: L, lb: L, lc: L, a: seq<int>, b: seq<int>, c: seq<int>)
    requires Decreasing(a) && Decreasing(b) && Decreasing(c) && CanMove(n, a, b, c) && n > 0
    ensures |Run(n - 1, la, lc, lb, a, c, b).pa| > 0
    ensures var first := Run(n - 1, la, lc, lb, a, c, b);
      var rest := first.pa[..|first.pa| - 1];
      && (|first.pb| > 0 ==> Top(first.pa) < Top(first.pb))
      && Decreasing(first.pc) && Decreasing(rest) && Decreasing(first.pb + [Top(first.pa)])
      && CanMove(n - 1, first.pc, rest, first.pb + [Top(first.pa)])
  {
    var first := Run(n - 1, la, lc, lb, a, c, b);
    RunCarries(n - 1, la, lc, lb, a, c, b);
    assert first.pa == a[..|a| - (n - 1)] && first.pb == c && first.pc == b + a[|a| - (n - 1)..];
    SecondHalfFits(n, a, b, c);
  }

  /**
   * From well-stacked towers where the top `n` discs of `a` fit on `b` and on
   * `c`, the mover never places a disc on a smaller one.
   */
  lemma {:induction false} RunPlacesLegally<L>(n: nat, la: L, lb: L, lc: L, a: seq<int>, b: seq<int>, c: seq<int>)
    requires Decreasing(a) && Decreasing(b) && Decreasing(c) && CanMove(n, a, b, c)
    ensures Placed(n, la, lb, lc, a, b, c)
    decreases n
  {
    if n > 0 {
      FirstHalfFits(n, a, b, c);
      RunPlacesLegally(n - 1, la, lc, lb, a, c, b);
      SecondCallReady(n, la, lb, lc, a, b, c);
      var first := Run(n - 1, la, lc, lb, a, c, b);
      RunPlacesLegally(n - 1, lb, la, lc, first.pc, first.pa[..|first.pa| - 1], first.pb + [Top(first.pa)]);
      PlacedIntro(n, la, lb, lc, a, b, c, first);
    }
  }

  /**
   * From `([n, ..., 1], [], [])` the mover ends with the full tower on the
   * third tower and the other two empty, after exactly 2^n - 1 moves, never
   * placing a disc on a smaller one.
   */
  lemma Solves<L>(n: nat, la: L, lb: L, lc: L)
    ensures Run(n, la, lb, lc, FullTower(n), [], []) == Towers([], [], FullTower(n), Solution(n, la, lb, lc))
    ensures |Run(n, la, lb, lc, FullTower(n), [], []).moves| == Pow2(n) - 1
    ensures Placed(n, la, lb, lc, FullTower(n), [], [])
  {
    var a := FullTower(n);
    RunCarries(n, la, lb, lc, a, [], []);
    assert a[..0] == [] && [] + a[0..] == a;
    SolutionLength(n, la, lb, lc);
    RunPlacesLegally(n, la, lb, lc, a, [], []);
  }

  /** The text of one disc of the given size: `2 * size + 1` `=` characters, or `:` for an empty slot. */
  function DiscText(size: int): string {
    if size != 0 then Repeat('=', if size * 2 + 1 > 0 then size * 2 + 1 else 0) else ":"
  }

  /** The size of the disc at height `row` of a tower, 0 when the tower is lower than that (the `IndexError` case). */
  function SizeAt(tower: seq<int>, row: nat): int {
    if row < |tower| then tower[row] else 0
  }

  /** One tower's slot in a row: the disc text centred in `2 * n + 1` columns. */
  function Cell(tower: seq<int>, row: nat, n: nat): string {
    Center(DiscText(SizeAt(tower, row)), n * 2 + 1)
  }

  /** One row of the drawing: the three cells joined by two spaces. */
  function RowText(a: seq<int>, b: seq<int>, c: seq<int>, row: nat, n: nat): string {
    Join("  ", [Cell(a, row, n), Cell(b, row, n), Cell(c, row, n)])
  }

  /** A disc of size `s` is drawn as `2 * s + 1` `=` characters with `n - s` blanks on either side. */
  lemma CellOfDisc(tower: seq<int>, row: nat, n: nat)
    requires row < |tower| && 0 < tower[row] <= n
    ensures Cell(tower, row, n) == Spaces(n - tower[row]) + Repeat('=', 2 * tower[row] + 1) + Spaces(n - tower[row])
  {
  }

  /** An empty slot is drawn as `:` in the middle of `2 * n + 1` columns. */
  lemma CellOfEmptySlot(tower: seq<int>, row: nat, n: nat)
    requires row >= |tower|
    ensures Cell(tower, row, n) == Spaces(n) + ":" + Spaces(n)
  {
  }

  /** A cell is `2 * n + 1` columns wide when its disc is at most `n` wide. */
  lemma CellWidth(tower: seq<int>, row: nat, n: nat)
    requires forall i :: 0 <= i < |tower| ==> 0 < tower[i] <= n
    ensures |Cell(tower, row, n)| == 2 * n + 1
  {
    if row < |tower| {
      CellOfDisc(tower, row, n);
    } else {
      CellOfEmptySlot(tower, row, n);
    }
  }

  /** Three strings joined by two blanks. */
  lemma JoinThree(x: string, y: string, z: string)
    ensures Join("  ", [x, y, z]) == x + "  " + y + "  " + z
  {
    var parts := [x, y, z];
    assert parts[1..] == [y, z] && parts[1..][1..] == [z];
    assert x + "  " + (y + "  " + z) == x + "  " + y + "  " + z;
  }

  /**
   * A row is the three cells separated by two blanks; when every disc is at
   * most `n` wide it is exactly `3 * (2 * n + 1) + 4` characters long.
   */
  lemma RowShape(a: seq<int>, b: seq<int>, c: seq<int>, row: nat, n: nat)
    requires forall i :: 0 <= i < |a| ==> 0 < a[i] <= n
    requires forall i :: 0 <= i < |b| ==> 0 < b[i] <= n
    requires forall i :: 0 <= i < |c| ==> 0 < c[i] <= n
    ensures RowText(a, b, c, row, n) == Cell(a, row, n) + "  " + Cell(b, row, n) + "  " + Cell(c, row, n)
    ensures |RowText(a, b, c, row, n)| == 6 * n + 7
  {
    JoinThree(Cell(a, row, n), Cell(b, row, n), Cell(c, row, n));
    CellWidth(a, row, n);
    CellWidth(b, row, n);
    CellWidth(c, row, n);
  }

  /** Joining the cells of three towers gives their row. */
  lemma RowOfCells(line: seq<string>, towers: seq<seq<int>>, row: nat, n: nat)
    requires |line| == 3 && |towers| == 3
    requires forall j :: 0 <= j < 3 ==> line[j] == Cell(towers[j], row, n)
    ensures Join("  ", line) == RowText(towers[0], towers[1], towers[2], row, n)
  {
    assert line == [Cell(towers[0], row, n), Cell(towers[1], row, n), Cell(towers[2], row, n)];
  }

  lemma AppendThree<T>(s: seq<T>, x: seq<T>, y: seq<T>, z: seq<T>)
    ensures s + x + y + z == s + (x + y + z)
  {
  }

  /** `list(reversed(s))`. */
  function Reversed<T>(s: seq<T>): (r: seq<T>)
    ensures |r| == |s|
    ensures forall i :: 0 <= i < |s| ==> r[i] == s[|s| - 1 - i]
  {
    seq(|s|, i requires 0 <= i < |s| => s[|s| - 1 - i])
  }

  /** One tower list; the mover pops from and appends to it in place. */
  class Tower {
    var discs: seq<int>

    constructor (d: seq<int>)
      ensures discs == d
    {
      discs := d;
    }
  }

  class Hanoi {
    var nDiscs: int
    /** The `towers` tuple. */
    var first: Tower
    var second: Tower
    var third: Tower
    /** The moves the current mover has made since the animation (re)started. */
    ghost var trace: seq<Move<Tower>>

    ghost predicate Valid()
      reads this
    {
      2 <= nDiscs <= 20 && first != second && second != third && first != third
    }

    /** `Hanoi.__init__`: five discs, then `start`. */
    constructor ()
      ensures Valid()
      ensures nDiscs == 5 && trace == []
      ensures first.discs == FullTower(5) && second.discs == [] && third.discs == []
    {
      nDiscs := 5;
      first := new Tower(FullTower(5));
      second := new Tower([]);
      third := new Tower([]);
      trace := [];
    }

    /** `handle_command` without `--show`: clamp the height and restart. */
    method HandleCommand(height: int)
      modifies this
      ensures Valid()
      ensures nDiscs == ClampDiscs(height) && trace == []
      ensures first.discs == FullTower(nDiscs) && second.discs == [] && third.discs == []
    {
      nDiscs := ClampDiscs(height);
      Start();
    }

    /** `start`: three fresh tower lists, all discs on the first, and a fresh mover. */
    method Start()
      modifies this
      ensures nDiscs == old(nDiscs) && trace == []
      ensures fresh(first) && fresh(second) && fresh(third)
      ensures first != second && second != third && first != third
      ensures first.discs == FullTower(if nDiscs < 0 then 0 else nDiscs) && second.discs == [] && third.discs == []
    {
      first := new Tower(FullTower(if nDiscs < 0 then 0 else nDiscs));
      second := new Tower([]);
      third := new Tower([]);
      trace := [];
    }

    /** `generate_moves(n, pa, pb, pc)`, each move recorded in `trace`. */
    method GenerateMoves(n: nat, pa: Tower, pb: Tower, pc: Tower)
      requires pa != pb && pb != pc && pa != pc
      modifies pa, pb, pc, this`trace
      decreases n
      ensures var r := Run(n, pa, pb, pc, old(pa.discs), old(pb.discs), old(pc.discs));
        pa.discs == r.pa && pb.discs == r.pb && pc.discs == r.pc && trace == old(trace) + r.moves
    {
      if n == 0 {
        return;
      }
      ghost var a0, b0, c0, trace0 := pa.discs, pb.discs, pc.discs, trace;
      GenerateMoves(n - 1, pa, pc, pb);
      ghost var first := Run(n - 1, pa, pc, pb, a0, c0, b0);
      ghost var mid := MiddleMove(pa, pc, first.pa, first.pc, first.pb);
      if |pa.discs| > 0 {
        var disc := pa.discs[|pa.discs| - 1];
        pa.discs := pa.discs[..|pa.discs| - 1];
        pc.discs := pc.discs + [disc];
        trace := trace + [Move(pa, pc)];
      }
      assert pa.discs == mid.pa && pb.discs == mid.pb && pc.discs == mid.pc;
      assert trace == trace0 + first.moves + mid.moves;
      GenerateMoves(n - 1, pb, pa, pc);
      ghost var last := Run(n - 1, pb, pa, pc, mid.pb, mid.pa, mid.pc);
      AppendThree(trace0, first.moves, mid.moves, last.moves);
    }

    /** `start` followed by the timer's calls of `next(mover)` until the mover is exhausted. */
    method Animate()
      requires Valid()
      modifies this
      ensures Valid() && nDiscs == old(nDiscs)
      ensures first.discs == [] && second.discs == [] && third.discs == FullTower(nDiscs)
      ensures trace == Solution(nDiscs, first, second, third)
      ensures |trace| == Pow2(nDiscs) - 1
      ensures Placed(nDiscs, first, second, third, FullTower(nDiscs), [], [])
    {
      Start();
      GenerateMoves(nDiscs, first, second, third);
      Solves(nDiscs, first, second, third);
    }

    /** `draw`: one row of text per disc level, the bottom level last. */
    method Draw() returns (lines: seq<string>)
      requires Valid()
      ensures |lines| == nDiscs
      ensures forall r :: 0 <= r < nDiscs ==> lines[nDiscs - 1 - r] == RowText(first.discs, second.discs, third.discs, r, nDiscs)
    {
      var rows: seq<string> := [];
      var row := 0;
      while row < nDiscs
        invariant 0 <= row <= nDiscs
        invariant |rows| == row
        invariant forall r :: 0 <= r < row ==> rows[r] == RowText(first.discs, second.discs, third.discs, r, nDiscs)
      {
        var text := DrawRow(row);
        rows := rows + [text];
        row := row + 1;
      }
      lines := Reversed(rows);
    }

    /** The body of the outer loop of `draw`: the cells of the three towers at height `row`, joined by two spaces. */
    method DrawRow(row: nat) returns (text: string)
      requires Valid()
      ensures text == RowText(first.discs, second.discs, third.discs, row, nDiscs)
    {
      var width := nDiscs * 2 + 1;
      var towers := [first.discs, second.discs, third.discs];
      var line: seq<string> := [];
      var k := 0;
      while k < 3
        invariant 0 <= k <= 3
        invariant |line| == k
        invariant forall j :: 0 <= j < k ==> line[j] == Cell(towers[j], row, nDiscs)
      {
        var size := SizeAt(towers[k], row);
        var disc := DiscText(size);
        line := line + [Center(disc, width)];
        assert line[k] == Cell(towers[k], row, nDiscs);
        k := k + 1;
      }
      text := Join("  ", line);
      RowOfCells(line, towers, row, nDiscs);
    }
  }
}
