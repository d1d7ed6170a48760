/** Splitting invoice lines over pages, and filling each page's table. */
module Pagination {
  datatype Line = Line(tag: string, height: real)

  // Lengths in points; A4 is 297 mm high and an inch is 25.4 mm.
  const PAGE_HEIGHT: real := 297.0 * 72.0 / 25.4
  const TABLE_HEIGHT: real := PAGE_HEIGHT - 163.0 - 220.0
  const HEADER_HEIGHT: real := 22.0
  const FOOTER_HEIGHT: real := 22.0
  const ITEM_AREA_HEIGHT: real := TABLE_HEIGHT - HEADER_HEIGHT - FOOTER_HEIGHT
  const ITEMS_PER_PAGE: nat := 16
  const STANDARD_HEIGHT: real := ITEM_AREA_HEIGHT / 16.0
  const TOLERANCE: real := 0.001

  function Height(lines: seq<Line>): real {
    if lines == [] then 0.0 else Height(lines[..|lines| - 1]) + lines[|lines| - 1].height
  }

  predicate Positive(lines: seq<Line>) {
    forall i :: 0 <= i < |lines| ==> lines[i].height > 0.0
  }

  /** A page may hold these lines: at most sixteen, within the area unless there is just one. */
  predicate Fits(page: seq<Line>) {
    && 1 <= |page| <= ITEMS_PER_PAGE
    && (|page| == 1 || Height(page) <= ITEM_AREA_HEIGHT + TOLERANCE)
  }

  /** The limits in figures: sixteen lines on what an A4 page leaves below 163, above 220 and between two rows of 22 points. */
  lemma PageLimits(page: seq<Line>)
    ensures Fits(page) <==> page != [] && |page| <= 16 && (|page| == 1 || 25.4 * (Height(page) - 0.001 + 427.0) <= 297.0 * 72.0)
    ensures STANDARD_HEIGHT * 16.0 == ITEM_AREA_HEIGHT && TABLE_HEIGHT == ITEM_AREA_HEIGHT + 44.0
    ensures Height([Line("a", 20.0), Line("b", 30.0)]) == 50.0
  {
    var two := [Line("a", 20.0), Line("b", 30.0)];
    assert two[..1] == [two[0]] && two[..1][..0] == [];
  }

  function Flatten(pages: seq<seq<Line>>): seq<Line> {
    if pages == [] then [] else pages[0] + Flatten(pages[1..])
  }

  /** The pages are a contiguous split of the lines, each page within its limits. */
  predicate Splits(pages: seq<seq<Line>>, lines: seq<Line>) {
    && Flatten(pages) == lines
    && forall i :: 0 <= i < |pages| ==> Fits(pages[i])
  }

  /** A split within the limits that no other such split beats in its number of pages. */
  ghost predicate OptimalSplit(pages: seq<seq<Line>>, lines: seq<Line>) {
    && Splits(pages, lines)
    && forall other :: Splits(other, lines) ==> |pages| <= |other|
  }

  // ---- heights ----

  lemma {:induction false} HeightConcat(a: seq<Line>, b: seq<Line>)
    ensures Height(a + b) == Height(a) + Height(b)
  {
    if b == [] {
      assert a + b == a;
    } else {
      HeightConcat(a, b[..|b| - 1]);
      assert (a + b)[..|a + b| - 1] == a + b[..|b| - 1];
    }
  }

  lemma {:induction false} HeightPositive(a: seq<Line>)
    requires Positive(a)
    ensures Height(a) >= 0.0
  {
    if a != [] { HeightPositive(a[..|a| - 1]); }
  }

  lemma ThreeParts(page: seq<Line>, i: nat, j: nat)
    requires i <= j <= |page|
    ensures page == (page[..i] + page[i..j]) + page[j..]
  {
  }

  lemma SliceHeight(page: seq<Line>, i: nat, j: nat)
    requires Positive(page) && i <= j <= |page|
    ensures Height(page[i..j]) <= Height(page)
  {
    var head, middle, tail := page[..i], page[i..j], page[j..];
    ThreeParts(page, i, j);
    HeightConcat(head + middle, tail);
    HeightConcat(head, middle);
    HeightPositive(head);
    HeightPositive(tail);
  }

  /** Any non-empty slice of a page fits a page. */
  lemma SliceFits(page: seq<Line>, i: nat, j: nat)
    requires Positive(page) && Fits(page) && i < j <= |page|
    ensures Fits(page[i..j])
  {
    SliceHeight(page, i, j);
  }

  // ---- the greedy split as a function ----

  /** How far the first page reaches, once it holds the first k lines. */
  function FirstPage(lines: seq<Line>, k: nat): (n: nat)
    requires 1 <= k <= |lines|
    ensures k <= n <= |lines|
    decreases |lines| - k
  {
    if k < |lines| && Fits(lines[..k + 1]) then FirstPage(lines, k + 1) else k
  }

  function Greedy(lines: seq<Line>): (pages: seq<seq<Line>>) {
    if lines == [] then []
    else var n := FirstPage(lines, 1); [lines[..n]] + Greedy(lines[n..])
  }

  /** The first page holds a prefix exactly when that prefix fits. */
  lemma {:induction false} FirstPageMaximal(lines: seq<Line>, k: nat, m: nat)
    requires Positive(lines) && 1 <= k <= |lines| && Fits(lines[..k]) && 1 <= m <= |lines|
    ensures Fits(lines[..m]) <==> m <= FirstPage(lines, k)
    decreases |lines| - k
  {
    if k < |lines| && Fits(lines[..k + 1]) {
      FirstPageMaximal(lines, k + 1, m);
    } else if m <= k {
      assert lines[..k][0..m] == lines[..m];
      SliceFits(lines[..k], 0, m);
    } else if Fits(lines[..m]) {
      assert lines[..m][0..k + 1] == lines[..k + 1];
      SliceFits(lines[..m], 0, k + 1);
    }
  }

  lemma SplitsCons(page: seq<Line>, pages: seq<seq<Line>>, rest: seq<Line>)
    requires Fits(page) && Splits(pages, rest)
    ensures Splits([page] + pages, page + rest)
  {
    assert ([page] + pages)[1..] == pages;
  }

  /** The greedy split opens with the longest prefix that fits. */
  lemma GreedyOpens(lines: seq<Line>) returns (n: nat)
    requires Positive(lines) && lines != []
    ensures 1 <= n <= |lines| && n == FirstPage(lines, 1) && Fits(lines[..n])
    ensures Greedy(lines) == [lines[..n]] + Greedy(lines[n..]) && lines == lines[..n] + lines[n..]
  {
    n := FirstPage(lines, 1);
    FirstPageMaximal(lines, 1, n);
  }

  lemma {:induction false} GreedySplits(lines: seq<Line>)
    requires Positive(lines)
    ensures Splits(Greedy(lines), lines)
    decreases |lines|
  {
    if lines != [] {
      var n := GreedyOpens(lines);
      GreedySplits(lines[n..]);
      SplitsCons(lines[..n], Greedy(lines[n..]), lines[n..]);
    }
  }

  lemma DropTwice(lines: seq<Line>, n: nat, j: nat)
    requires n <= j <= |lines|
    ensures lines[n..][j - n..] == lines[j..]
    ensures n < j ==> lines[n..][0] == lines[n]
  {
  }

  lemma DropEither(lines: seq<Line>, j: nat, m: nat, n: nat, k: nat)
    requires j + m == n + k <= |lines|
    ensures lines[j..][m..] == lines[n..][k..]
  {
    DropTwice(lines, j, j + m);
    DropTwice(lines, n, n + k);
  }

  /** Starting later within the first page, the first page reaches at least as far. */
  lemma LaterStartReaches(lines: seq<Line>, j: nat, n: nat)
    requires Positive(lines) && 0 <= j < n <= |lines| && Fits(lines[..n])
    ensures n - j <= FirstPage(lines[j..], 1)
  {
    assert lines[..n][j..n] == lines[j..][..n - j];
    SliceFits(lines[..n], j, n);
    FirstPageMaximal(lines[j..], 1, n - j);
  }

  /** Starting within the first page, the split's second page starts at or after the old one. */
  lemma LaterSecondPage(lines: seq<Line>, j: nat, n: nat) returns (k: nat)
    requires Positive(lines) && 0 <= j < n <= |lines| && Fits(lines[..n])
    ensures k <= |lines| - n && |Greedy(lines[j..])| == 1 + |Greedy(lines[n..][k..])|
  {
    var m := GreedyOpens(lines[j..]);
    LaterStartReaches(lines, j, n);
    k := j + m - n;
    DropEither(lines, j, m, n, k);
  }

  /** Dropping lines from the front never costs a page. */
  lemma {:induction false} GreedyOfSuffix(lines: seq<Line>, j: nat)
    requires Positive(lines) && j <= |lines|
    ensures |Greedy(lines[j..])| <= |Greedy(lines)|
    decreases |lines|
  {
    if j < |lines| {
      var n := GreedyOpens(lines);
      assert |Greedy(lines)| == 1 + |Greedy(lines[n..])|;
      if n <= j {
        DropTwice(lines, n, j);
        GreedyOfSuffix(lines[n..], j - n);
      } else {
        var k := LaterSecondPage(lines, j, n);
        GreedyOfSuffix(lines[n..], k);
      }
    }
  }

  /** Any split within the limits opens with a prefix that the first page holds. */
  lemma SplitOpens(lines: seq<Line>, other: seq<seq<Line>>) returns (k: nat)
    requires Positive(lines) && Splits(other, lines) && other != []
    ensures 1 <= k <= |lines| && k <= FirstPage(lines, 1) && Splits(other[1..], lines[k..])
  {
    k := |other[0]|;
    assert lines[..k] == other[0] && lines[k..] == Flatten(other[1..]);
    FirstPageMaximal(lines, 1, k);
  }

  /** No split within the limits uses fewer pages than the greedy one. */
  lemma {:induction false} GreedyIsOptimal(lines: seq<Line>, other: seq<seq<Line>>)
    requires Positive(lines) && Splits(other, lines)
    ensures |Greedy(lines)| <= |other|
    decreases |other|
  {
    if other == [] {
    } else {
      var k := SplitOpens(lines, other);
      GreedyIsOptimal(lines[k..], other[1..]);
      var n := GreedyOpens(lines);
      DropTwice(lines, k, n);
      GreedyOfSuffix(lines[k..], n - k);
    }
  }

  lemma GreedyMeetsLimits(lines: seq<Line>)
    requires Positive(lines)
    ensures OptimalSplit(Greedy(lines), lines)
  {
    GreedySplits(lines);
    forall other | Splits(other, lines) ensures |Greedy(lines)| <= |other| {
      GreedyIsOptimal(lines, other);
    }
  }

  predicate Overflows(page: seq<Line>, line: Line) {
    |page| >= ITEMS_PER_PAGE || (page != [] && Height(page) + line.height > ITEM_AREA_HEIGHT + TOLERANCE)
  }

  lemma AppendLine(page: seq<Line>, line: Line)
    ensures Height(page + [line]) == Height(page) + line.height
    ensures page == [] || (Fits(page) && !Overflows(page, line)) ==> Fits(page + [line])
  {
    HeightConcat(page, [line]);
    assert [line][..0] == [];
  }

  /** A page that the next line overflows, or that no line follows, is the greedy first page. */
  lemma GreedyClosesPage(page: seq<Line>, rest: seq<Line>)
    requires Positive(page + rest) && Fits(page)
    requires rest == [] || Overflows(page, rest[0])
    ensures Greedy(page + rest) == [page] + Greedy(rest)
  {
    var lines := page + rest;
    FirstPageMaximal(lines, 1, |page|);
    assert lines[..|page|] == page && lines[|page|..] == rest;
    if rest != [] {
      assert lines[..|page| + 1] == page + [rest[0]];
      AppendLine(page, rest[0]);
      FirstPageMaximal(lines, 1, |page| + 1);
    }
  }

  /** Closed pages, the page being filled and the lines left over are on the way to the greedy split. */
  ghost predicate Underway(lines: seq<Line>, pages: seq<seq<Line>>, page: seq<Line>, rest: seq<Line>) {
    && Positive(page + rest)
    && Greedy(lines) == pages + Greedy(page + rest)
  }

  lemma ClosePage(lines: seq<Line>, pages: seq<seq<Line>>, page: seq<Line>, rest: seq<Line>)
    requires Underway(lines, pages, page, rest) && Fits(page)
    requires rest == [] || Overflows(page, rest[0])
    ensures Underway(lines, pages + [page], [], rest)
  {
    GreedyClosesPage(page, rest);
    PositiveTail(page, rest);
    assert [] + rest == rest;
    assert pages + ([page] + Greedy(rest)) == pages + [page] + Greedy(rest);
  }

  lemma PositiveTail(page: seq<Line>, rest: seq<Line>)
    requires Positive(page + rest)
    ensures Positive(rest)
  {
    assert forall i :: 0 <= i < |rest| ==> rest[i] == (page + rest)[|page| + i];
  }

  lemma NothingLeft(lines: seq<Line>, pages: seq<seq<Line>>)
    requires Positive(lines) && Underway(lines, pages, [], [])
    ensures OptimalSplit(pages, lines)
  {
    var none: seq<Line> := [];
    assert none + none == none && pages + Greedy(none) == pages;
    GreedyMeetsLimits(lines);
  }

  lemma MoveLine(lines: seq<Line>, pages: seq<seq<Line>>, page: seq<Line>, rest: seq<Line>)
    requires Underway(lines, pages, page, rest) && rest != []
    requires page == [] || (Fits(page) && !Overflows(page, rest[0]))
    ensures Underway(lines, pages, page + [rest[0]], rest[1..])
    ensures Fits(page + [rest[0]])
    ensures Height(page + [rest[0]]) == Height(page) + rest[0].height
  {
    AppendLine(page, rest[0]);
    assert page + rest == (page + [rest[0]]) + rest[1..];
  }

  /** One turn of the loop: close the page if the line does not fit it, then place the line. */
  lemma PlaceLine(lines: seq<Line>, pages: seq<seq<Line>>, page: seq<Line>, rest: seq<Line>)
    requires Underway(lines, pages, page, rest) && rest != [] && (page == [] || Fits(page))
    ensures var full := page != [] && Overflows(page, rest[0]);
      var placed := (if full then [] else page) + [rest[0]];
      && Underway(lines, if full then pages + [page] else pages, placed, rest[1..])
      && Fits(placed) && Height(placed) == (if full then 0.0 else Height(page)) + rest[0].height
  {
    if page != [] && Overflows(page, rest[0]) {
      ClosePage(lines, pages, page, rest);
      MoveLine(lines, pages + [page], [], rest);
    } else {
      MoveLine(lines, pages, page, rest);
    }
  }

  /** Before line i the loop's page has this height, and pages, page and the lines from i are underway. */
  ghost predicate Filling(lines: seq<Line>, pages: seq<seq<Line>>, page: seq<Line>, height: real, i: nat) {
    && i <= |lines| && height == Height(page)
    && (if i == 0 then page == [] else Fits(page))
    && Underway(lines, pages, page, lines[i..])
  }

  lemma NothingPlaced(lines: seq<Line>)
    requires Positive(lines)
    ensures Filling(lines, [], [], 0.0, 0)
  {
    assert [] + lines[0..] == lines;
  }

  lemma OneMorePlaced(lines: seq<Line>, pages: seq<seq<Line>>, page: seq<Line>, height: real, i: nat)
    requires Filling(lines, pages, page, height, i) && i < |lines|
    ensures if |page| >= ITEMS_PER_PAGE || (page != [] && height + lines[i].height > ITEM_AREA_HEIGHT + TOLERANCE)
      then Filling(lines, pages + [page], [lines[i]], lines[i].height, i + 1)
      else Filling(lines, pages, page + [lines[i]], height + lines[i].height, i + 1)
  {
    PlaceLine(lines, pages, page, lines[i..]);
    DropTwice(lines, i, i + 1);
    assert [] + [lines[i]] == [lines[i]];
  }

  lemma AllPlaced(lines: seq<Line>, pages: seq<seq<Line>>, page: seq<Line>, height: real)
    requires Positive(lines) && lines != [] && Filling(lines, pages, page, height, |lines|)
    ensures OptimalSplit(pages + [page], lines)
  {
    ClosePage(lines, pages, page, []);
    NothingLeft(lines, pages + [page]);
  }

  /** _paginate_lines: open a new page when the current one is full or the line overflows it. */
  method PaginateLines(lines: seq<Line>) returns (pages: seq<seq<Line>>)
    requires Positive(lines)
    ensures lines == [] ==> pages == [[]]
    ensures lines != [] ==> OptimalSplit(pages, lines)
  {
    if lines == [] {
      return [[]];
    }
    pages := [];
    var current: seq<Line> := [];
    var currentHeight := 0.0;
    NothingPlaced(lines);
    for i := 0 to |lines|
      invariant Filling(lines, pages, current, currentHeight, i)
    {
      var line := lines[i];
      OneMorePlaced(lines, pages, current, currentHeight, i);
      var pageIsFull := |current| >= ITEMS_PER_PAGE;
      var lineOverflows := current != [] && currentHeight + line.height > ITEM_AREA_HEIGHT + TOLERANCE;
      if pageIsFull || lineOverflows {
        pages := pages + [current];
        current := [];
        currentHeight := 0.0;
      }
      current := current + [line];
      currentHeight := currentHeight + line.height;
      assert [] + [line] == [line];
    }
    AllPlaced(lines, pages, current, currentHeight);
    pages := pages + [current];
  }

  // ---- the table drawn on one page ----

  function RealSum(s: seq<real>): real {
    if s == [] then 0.0 else RealSum(s[..|s| - 1]) + s[|s| - 1]
  }

  function Heights(lines: seq<Line>): (s: seq<real>)
    ensures |s| == |lines|
  {
    seq(|lines|, i requires 0 <= i < |lines| => lines[i].height)
  }

  function Repeat(n: nat, h: real): (s: seq<real>)
    ensures |s| == n
    ensures forall i :: 0 <= i < n ==> s[i] == h
  {
    if n == 0 then [] else Repeat(n - 1, h) + [h]
  }

  /** The height the lines of a page leave free. */
  function Remaining(used: real): real { if used < ITEM_AREA_HEIGHT then ITEM_AREA_HEIGHT - used else 0.0 }

  /** How many standard rows fit what remains. */
  function RowsThatFit(remaining: real): int { (remaining / STANDARD_HEIGHT).Floor }

  /** How many padding rows a page gets: as many standard rows as fit, up to sixteen rows in all. */
  function Blanks(lines: seq<Line>): nat {
    var slots := if |lines| < ITEMS_PER_PAGE then ITEMS_PER_PAGE - |lines| else 0;
    var rows := RowsThatFit(Remaining(Height(lines)));
    if rows < 0 then 0 else if rows < slots then rows else slots
  }

  /** The padding rows under the item rows, which share what remains. */
  function BlankHeights(lines: seq<Line>): (blanks: seq<real>)
    ensures |blanks| == Blanks(lines)
  {
    var count := Blanks(lines);
    if count == 0 then [] else Repeat(count, Remaining(Height(lines)) / count as real)
  }

  /** Header, items, blanks and footer. */
  function Rows(page: seq<Line>): seq<real> {
    [HEADER_HEIGHT] + Heights(page) + BlankHeights(page) + [FOOTER_HEIGHT]
  }

  /** The rows, with any difference from the table absorbed by the row above the footer. */
  function RowHeights(lines: seq<Line>): seq<real> {
    var rows := Rows(lines);
    var difference := TABLE_HEIGHT - RealSum(rows);
    if -TOLERANCE <= difference <= TOLERANCE then rows
    else if |rows| > 2 then rows[|rows| - 2 := rows[|rows| - 2] + difference]
    else rows[0 := rows[0] + difference]
  }

  lemma {:induction false} RealSumConcat(a: seq<real>, b: seq<real>)
    ensures RealSum(a + b) == RealSum(a) + RealSum(b)
  {
    if b == [] {
      assert a + b == a;
    } else {
      RealSumConcat(a, b[..|b| - 1]);
      assert (a + b)[..|a + b| - 1] == a + b[..|b| - 1];
    }
  }

  lemma {:induction false} HeightIsSum(lines: seq<Line>)
    ensures RealSum(Heights(lines)) == Height(lines)
  {
    if lines != [] {
      HeightIsSum(lines[..|lines| - 1]);
      assert Heights(lines)[..|lines| - 1] == Heights(lines[..|lines| - 1]);
    }
  }

  lemma {:induction false} ConstantSum(n: nat, h: real)
    ensures RealSum(Repeat(n, h)) == n as real * h
  {
    if n > 0 {
      ConstantSum(n - 1, h);
      assert Repeat(n, h)[..n - 1] == Repeat(n - 1, h);
      assert (n - 1) as real * h + h == n as real * h;
    }
  }

  lemma EqualShares(n: nat, total: real, least: real, share: real)
    requires n > 0 && least > 0.0 && n as real <= total / least && share == total / n as real
    ensures share >= least
    ensures n as real * share == total
  {
    var m := n as real;
    assert m * least <= total by {
      assert (total / least) * least == total;
    }
    assert m * share == total;
    assert share < least ==> m * share < m * least;
  }

  lemma NoMoreRowsFit(remaining: real)
    requires remaining >= 0.0
    ensures 0 <= RowsThatFit(remaining) && remaining < (RowsThatFit(remaining) + 1) as real * STANDARD_HEIGHT
  {
    var share := remaining / STANDARD_HEIGHT;
    assert remaining == share * STANDARD_HEIGHT;
  }

  lemma BlanksCounted(lines: seq<Line>)
    ensures |lines| + Blanks(lines) < 16 ==> RowsThatFit(Remaining(Height(lines))) <= Blanks(lines)
  {
  }

  lemma RemainingCovers(used: real)
    ensures Remaining(used) >= 0.0 && ITEM_AREA_HEIGHT - used <= Remaining(used)
  {
  }

  lemma MoreRowsAreHigher(m: int, n: int, height: real)
    requires m <= n && height >= 0.0
    ensures (m + 1) as real * height <= (n + 1) as real * height
  {
  }

  /** While there is a free slot, the area has no room for another standard row. */
  lemma NoMoreBlanks(lines: seq<Line>)
    ensures |lines| + Blanks(lines) < 16 ==> ITEM_AREA_HEIGHT - Height(lines) < (Blanks(lines) + 1) as real * STANDARD_HEIGHT
  {
    RemainingCovers(Height(lines));
    BlanksCounted(lines);
    if |lines| + Blanks(lines) < 16 { FilledBy(Remaining(Height(lines)), Blanks(lines)); }
  }

  lemma FilledBy(remaining: real, n: nat)
    requires remaining >= 0.0 && RowsThatFit(remaining) <= n
    ensures remaining < (n + 1) as real * STANDARD_HEIGHT
  {
    NoMoreRowsFit(remaining);
    MoreRowsAreHigher(RowsThatFit(remaining), n, STANDARD_HEIGHT);
  }

  /** Blank rows are at least a standard row high and, when there are any, use up the page exactly. */
  lemma BlanksFillTheArea(lines: seq<Line>)
    requires Positive(lines)
    ensures var blanks := BlankHeights(lines);
      && |lines| + |blanks| <= (if |lines| < ITEMS_PER_PAGE then ITEMS_PER_PAGE else |lines|)
      && (forall i :: 0 <= i < |blanks| ==> blanks[i] >= STANDARD_HEIGHT)
      && (blanks != [] ==> Height(lines) + RealSum(blanks) == ITEM_AREA_HEIGHT)
  {
    HeightPositive(lines);
    var n := |BlankHeights(lines)|;
    if n > 0 {
      var remaining := ITEM_AREA_HEIGHT - Height(lines);
      BlankCount(lines, remaining);
      var share := remaining / n as real;
      EqualShares(n, remaining, STANDARD_HEIGHT, share);
      ConstantSum(n, share);
    }
  }

  lemma BlankCount(lines: seq<Line>, remaining: real)
    requires Height(lines) >= 0.0 && remaining == ITEM_AREA_HEIGHT - Height(lines)
    requires BlankHeights(lines) != []
    ensures var n := |BlankHeights(lines)|;
      && remaining > 0.0
      && BlankHeights(lines) == Repeat(n, remaining / n as real)
      && n as real <= remaining / STANDARD_HEIGHT
      && n + |lines| <= ITEMS_PER_PAGE
  {
    assert (0.0 / STANDARD_HEIGHT).Floor == 0;
  }

  lemma {:induction false} RealSumUpdate(a: seq<real>, k: nat, x: real)
    requires k < |a|
    ensures RealSum(a[k := x]) == RealSum(a) - a[k] + x
  {
    assert a == a[..k] + [a[k]] + a[k + 1..];
    assert a[k := x] == a[..k] + [x] + a[k + 1..];
    RealSumConcat(a[..k] + [a[k]], a[k + 1..]);
    RealSumConcat(a[..k] + [x], a[k + 1..]);
    RealSumConcat(a[..k], [a[k]]);
    RealSumConcat(a[..k], [x]);
    assert [a[k]][..0] == [] && [x][..0] == [];
  }

  lemma RowsAddUp(page: seq<Line>)
    ensures RealSum(Rows(page)) == HEADER_HEIGHT + Height(page) + RealSum(BlankHeights(page)) + FOOTER_HEIGHT
  {
    var items := [HEADER_HEIGHT] + Heights(page);
    HeightIsSum(page);
    RealSumConcat(items + BlankHeights(page), [FOOTER_HEIGHT]);
    RealSumConcat(items, BlankHeights(page));
    RealSumConcat([HEADER_HEIGHT], Heights(page));
    assert [HEADER_HEIGHT][..0] == [] && [FOOTER_HEIGHT][..0] == [];
  }

  lemma RowsArePositive(page: seq<Line>)
    requires Positive(page)
    ensures forall i :: 0 <= i < |Rows(page)| ==> Rows(page)[i] > 0.0
  {
    BlanksFillTheArea(page);
    assert forall i :: 0 <= i < |page| ==> Heights(page)[i] == page[i].height;
  }

  /** Without blank rows the last line absorbs what the table lacks, and stays positive. */
  lemma LastLineAbsorbs(page: seq<Line>, difference: real)
    requires Positive(page) && Fits(page) && difference == ITEM_AREA_HEIGHT - Height(page)
    requires difference < -TOLERANCE || difference > TOLERANCE
    ensures page[|page| - 1].height + difference > 0.0
  {
    var last := |page| - 1;
    HeightPositive(page[..last]);
    assert Height(page) == Height(page[..last]) + page[last].height;
    assert |page| == 1 ==> Height(page[..last]) == 0.0;
  }

  lemma EmptyPageHasBlanks(page: seq<Line>)
    requires page == []
    ensures BlankHeights(page) != []
  {
    assert (ITEM_AREA_HEIGHT / STANDARD_HEIGHT).Floor == 16;
  }

  /**
   * The table of every page the paginator can produce is filled to within the tolerance,
   * and every row keeps a positive height, a line too tall for the area included.
   */
  lemma TableIsFilled(page: seq<Line>)
    requires Positive(page) && (page == [] || Fits(page))
    ensures TABLE_HEIGHT - TOLERANCE <= RealSum(RowHeights(page)) <= TABLE_HEIGHT + TOLERANCE
    ensures forall i :: 0 <= i < |RowHeights(page)| ==> RowHeights(page)[i] > 0.0
  {
    var rows := Rows(page);
    var difference := TABLE_HEIGHT - RealSum(rows);
    RowsAddUp(page);
    RowsArePositive(page);
    BlanksFillTheArea(page);
    if !(-TOLERANCE <= difference <= TOLERANCE) {
      assert BlankHeights(page) == [];
      if page == [] { EmptyPageHasBlanks(page); }
      var k := |rows| - 2;
      assert rows[k] == page[|page| - 1].height;
      LastLineAbsorbs(page, difference);
      RealSumUpdate(rows, k, rows[k] + difference);
    }
  }
  lemma RowsStand(page: seq<Line>)
    ensures var rows := Rows(page);
      && |rows| == 1 + |page| + Blanks(page) + 1 && rows[0] == HEADER_HEIGHT && rows[|rows| - 1] == FOOTER_HEIGHT
      && (forall i :: 0 <= i < |page| ==> rows[i + 1] == page[i].height)
  {
    var rows := Rows(page);
    assert forall i :: 0 <= i < |page| ==> rows[i + 1] == Heights(page)[i];
  }

  lemma OnlyOneRowStretches(page: seq<Line>, k: nat)
    requires |Rows(page)| > 2 && k < |Rows(page)| && k != |Rows(page)| - 2
    ensures |RowHeights(page)| == |Rows(page)| && RowHeights(page)[k] == Rows(page)[k]
  {
  }

  /** Under the header and over the footer stand the lines at their own heights, then the blanks; the row over the footer may stretch. */
  lemma RowsInOrder(page: seq<Line>)
    requires page == [] || Fits(page)
    ensures var rows := RowHeights(page);
      && |rows| == 1 + |page| + Blanks(page) + 1 && rows[0] == 22.0 && rows[|rows| - 1] == 22.0
      && (forall i :: 0 <= i < |page| && (i < |page| - 1 || Blanks(page) > 0) ==> rows[i + 1] == page[i].height)
  {
    if page == [] { EmptyPageHasBlanks(page); }
    RowsStand(page);
    OnlyOneRowStretches(page, 0);
    OnlyOneRowStretches(page, |Rows(page)| - 1);
    forall i | 0 <= i < |page| && (i < |page| - 1 || Blanks(page) > 0) ensures RowHeights(page)[i + 1] == page[i].height {
      OnlyOneRowStretches(page, i + 1);
    }
  }
}
