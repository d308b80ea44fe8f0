/**
 The dashboard's paging (script.js): the number of pages, the slice of
 the filtered list a page shows, the "showing a-b / n" line, and the row
 of pagination controls with at most seven numbered buttons around the
 current page, the first and last page always reachable and "..." where
 pages are skipped.
 */
module Pagination {
  import opened Outcomes
  import opened Seqs

  const MaxButtons: int := 7

  function Min(a: int, b: int): int {
    if a <= b then a else b
  }

  function Max(a: int, b: int): int {
    if a >= b then a else b
  }

  /** `Math.ceil(count / perPage)`. */
  function TotalPages(count: nat, perPage: nat): (pages: nat)
    requires perPage >= 1
    ensures pages == 0 <==> count == 0
    ensures count <= pages * perPage
    ensures pages > 0 ==> (pages - 1) * perPage < count
  {
    var pages := (count + perPage - 1) / perPage;
    DivBounds(count + perPage - 1, perPage);
    pages
  }

  /** The quotient of Euclidean division brackets the dividend. */
  lemma DivBounds(a: nat, b: nat)
    requires b >= 1
    ensures (a / b) * b <= a < (a / b) * b + b
  {
  }

  /** The first and last numbered button. */
  datatype Span = Span(start: int, end: int)

  /**
   Up to seven consecutive pages centred on the current one, shifted
   left when the current page is close to the last.
   */
  function Window(current: int, total: int): (w: Span)
    ensures 1 <= current <= total ==>
              && 1 <= w.start <= current <= w.end <= total
              && w.end - w.start + 1 == Min(MaxButtons, total)
  {
    var start := Max(1, current - MaxButtons / 2);
    var end := Min(total, start + MaxButtons - 1);
    if end - start < MaxButtons - 1 then Span(Max(1, end - MaxButtons + 1), end)
    else Span(start, end)
  }

  /** One pagination control, as the page renders it. */
  datatype Control =
    | Prev(disabled: bool)
    | PageButton(n: int, active: bool)
    | Dots
    | Next(disabled: bool)

  /** The numbered buttons from `start` to `end`; the current page's is active. */
  function PageRange(start: int, end: int, current: int): (r: seq<Control>)
    ensures |r| == if start <= end then end - start + 1 else 0
    ensures forall i :: 0 <= i < |r| ==> r[i] == PageButton(start + i, start + i == current)
    decreases end - start
  {
    if start <= end then [PageButton(start, start == current)] + PageRange(start + 1, end, current) else []
  }

  /** `updatePagination`: nothing for a single page; otherwise the full control row. */
  function Controls(current: int, total: int): (r: seq<Control>)
    ensures r == [] <==> total <= 1
  {
    if total <= 1 then []
    else
      var w := Window(current, total);
      [Prev(current == 1)]
      + Leading(w, current)
      + PageRange(w.start, w.end, current)
      + Trailing(w, current, total)
      + [Next(current == total)]
  }

  /** The first page and "..." before the window, when the window does not start there. */
  function Leading(w: Span, current: int): (r: seq<Control>)
    ensures w.start <= 1 ==> r == []
    ensures w.start == 2 ==> r == [PageButton(1, current == 1)]
    ensures w.start > 2 ==> r == [PageButton(1, current == 1), Dots]
  {
    if w.start > 1 then [PageButton(1, current == 1)] + (if w.start > 2 then [Dots] else []) else []
  }

  /** "..." and the last page after the window, when the window does not end there. */
  function Trailing(w: Span, current: int, total: int): (r: seq<Control>)
    ensures w.end >= total ==> r == []
    ensures w.end == total - 1 ==> r == [PageButton(total, current == total)]
    ensures w.end < total - 1 ==> r == [Dots, PageButton(total, current == total)]
  {
    if w.end < total then (if w.end < total - 1 then [Dots] else []) + [PageButton(total, current == total)] else []
  }

  /** The page a control leads to, if it is a numbered button. */
  function PageOf(c: Control): Option<int> {
    if c.PageButton? then Some(c.n) else None
  }

  /** The page numbers of a control row, left to right. */
  function PageNumbers(r: seq<Control>): seq<int> {
    Collect(r, PageOf)
  }

  function Range(start: int, end: int): (r: seq<int>)
    ensures |r| == if start <= end then end - start + 1 else 0
    ensures forall i :: 0 <= i < |r| ==> r[i] == start + i
    decreases end - start
  {
    if start <= end then [start] + Range(start + 1, end) else []
  }

  predicate Increasing(xs: seq<int>) {
    forall i, j :: 0 <= i < j < |xs| ==> xs[i] < xs[j]
  }

  /** The numbered buttons of a window are exactly its pages. */
  lemma {:induction false} PageRangeNumbers(start: int, end: int, current: int)
    ensures PageNumbers(PageRange(start, end, current)) == Range(start, end)
    decreases end - start
  {
    if start <= end {
      CollectAppend([PageButton(start, start == current)], PageRange(start + 1, end, current), PageOf);
      PageRangeNumbers(start + 1, end, current);
    }
  }

  /**
   The pages offered, left to right: page 1 unless the window starts
   there, the window, and the last page unless the window ends there.
   */
  lemma ControlPages(current: int, total: int)
    requires 2 <= total && 1 <= current <= total
    ensures var w := Window(current, total);
            PageNumbers(Controls(current, total))
            == (if w.start > 1 then [1] else []) + Range(w.start, w.end) + (if w.end < total then [total] else [])
  {
    var w := Window(current, total);
    var prev := [Prev(current == 1)];
    var lead := Leading(w, current);
    var range := PageRange(w.start, w.end, current);
    var trail := Trailing(w, current, total);
    var next := [Next(current == total)];
    var a, b, c := PageNumbers(lead), PageNumbers(range), PageNumbers(trail);
    assert Controls(current, total) == prev + lead + range + trail + next;
    CollectAppend(prev, lead, PageOf);
    assert PageNumbers(prev + lead) == a;
    CollectAppend(prev + lead, range, PageOf);
    assert PageNumbers(prev + lead + range) == a + b;
    CollectAppend(prev + lead + range, trail, PageOf);
    assert PageNumbers(prev + lead + range + trail) == a + b + c;
    CollectAppend(prev + lead + range + trail, next, PageOf);
    assert PageNumbers(Controls(current, total)) == a + b + c;
    PageRangeNumbers(w.start, w.end, current);
    LeadingPages(w, current);
    TrailingPages(w, current, total);
  }

  lemma LeadingPages(w: Span, current: int)
    ensures PageNumbers(Leading(w, current)) == if w.start > 1 then [1] else []
  {
    if w.start > 2 {
      CollectAppend([PageButton(1, current == 1)], [Dots], PageOf);
    }
  }

  lemma TrailingPages(w: Span, current: int, total: int)
    ensures PageNumbers(Trailing(w, current, total)) == if w.end < total then [total] else []
  {
    if w.end < total - 1 {
      CollectAppend([Dots], [PageButton(total, current == total)], PageOf);
    }
  }

  /**
   The pages offered start at 1, end at the last page, increase strictly
   (no page twice) and include the current page.
   */
  lemma ControlPagesOrdered(current: int, total: int)
    requires 2 <= total && 1 <= current <= total
    ensures var pages := PageNumbers(Controls(current, total));
            && |pages| >= 2
            && pages[0] == 1 && pages[|pages| - 1] == total
            && Increasing(pages)
            && current in pages
  {
    ControlPages(current, total);
    var w := Window(current, total);
    OfferedOrdered(w, current, total);
  }

  /** Every page a numbered button offers is a page of the list. */
  lemma OfferedWithin(current: int, total: int, n: int)
    requires 2 <= total && 1 <= current <= total
    requires n in PageNumbers(Controls(current, total))
    ensures 1 <= n <= total
  {
    ControlPagesOrdered(current, total);
    IncreasingBetween(PageNumbers(Controls(current, total)), n);
  }

  /** A member of an increasing run lies between its first and its last element. */
  lemma IncreasingBetween(pages: seq<int>, n: int)
    requires Increasing(pages) && n in pages
    ensures pages[0] <= n <= pages[|pages| - 1]
  {
    var k :| 0 <= k < |pages| && pages[k] == n;
    assert k == 0 || pages[0] < pages[k];
    assert k == |pages| - 1 || pages[k] < pages[|pages| - 1];
  }

  /** The page list of `ControlPages` for a window that holds the current page. */
  lemma OfferedOrdered(w: Span, current: int, total: int)
    requires 2 <= total && 1 <= w.start <= current <= w.end <= total && w.start < w.end
    ensures var pages := (if w.start > 1 then [1] else []) + Range(w.start, w.end) + (if w.end < total then [total] else []);
            && |pages| >= 2
            && pages[0] == 1 && pages[|pages| - 1] == total
            && Increasing(pages)
            && current in pages
  {
    var lead: seq<int> := if w.start > 1 then [1] else [];
    var mid := Range(w.start, w.end);
    var trail: seq<int> := if w.end < total then [total] else [];
    IncreasingConcat(lead, mid);
    IncreasingConcat(lead + mid, trail);
    assert mid[current - w.start] == current;
    assert (lead + mid + trail)[|lead| + (current - w.start)] == current;
  }

  /** Two increasing runs, the first ending below the start of the second, make one. */
  lemma IncreasingConcat(a: seq<int>, b: seq<int>)
    requires Increasing(a) && Increasing(b)
    requires |a| > 0 && |b| > 0 ==> a[|a| - 1] < b[0]
    ensures Increasing(a + b)
  {
    forall i, j | 0 <= i < j < |a + b| ensures (a + b)[i] < (a + b)[j] {
      if i < |a| && j >= |a| {
        assert a[i] <= a[|a| - 1];
        assert b[0] <= b[j - |a|];
      }
    }
  }

  /**
   The shape of the row: "previous" first, disabled exactly on page 1;
   "next" last, disabled exactly on the last page; "..." right after page 1
   exactly when the window starts after page 2, and right before the last
   page exactly when the window ends before the last page but one.
   */
  lemma ControlShape(current: int, total: int)
    requires 2 <= total && 1 <= current <= total
    ensures var r := Controls(current, total);
            var w := Window(current, total);
            && |r| >= 4
            && r[0] == Prev(current == 1)
            && r[|r| - 1] == Next(current == total)
            && (r[2] == Dots <==> w.start > 2)
            && (r[|r| - 3] == Dots <==> w.end < total - 1)
  {
    var w := Window(current, total);
    var lead := Leading(w, current);
    var range := PageRange(w.start, w.end, current);
    var trail := Trailing(w, current, total);
    var r := [Prev(current == 1)] + lead + range + trail + [Next(current == total)];
    assert Controls(current, total) == r;
    assert |range| >= 2;
    if w.start <= 1 {
      assert r[2] == range[1];
    } else if w.start == 2 {
      assert r[2] == range[0];
    } else {
      assert r[2] == lead[1];
    }
    if w.end >= total {
      assert r[|r| - 3] == range[|range| - 2];
    } else if w.end == total - 1 {
      assert r[|r| - 3] == range[|range| - 1];
    } else {
      assert r[|r| - 3] == trail[0];
    }
  }

  /** A numbered button is active exactly for the current page. */
  lemma ControlsActive(current: int, total: int)
    ensures var r := Controls(current, total);
            forall i :: 0 <= i < |r| && r[i].PageButton? ==> (r[i].active <==> r[i].n == current)
  {
    if total >= 2 {
      var w := Window(current, total);
      var lead := Leading(w, current);
      var range := PageRange(w.start, w.end, current);
      var trail := Trailing(w, current, total);
      var front := [Prev(current == 1)] + lead;
      var r := front + range + trail + [Next(current == total)];
      assert Controls(current, total) == r;
      forall i | 0 <= i < |r| && r[i].PageButton?
        ensures r[i].active <==> r[i].n == current
      {
        if i < |front| {
          assert r[i] == front[i];
        } else if i < |front| + |range| {
          assert r[i] == range[i - |front|];
        } else if i < |front| + |range| + |trail| {
          assert r[i] == trail[i - |front| - |range|];
        }
      }
    }
  }

  /** JavaScript `Array.prototype.slice(start, end)`: negative positions count from the end, both are clamped. */
  function Slice<T>(s: seq<T>, start: int, end: int): (r: seq<T>)
    ensures 0 <= start <= end <= |s| ==> r == s[start..end]
    ensures |r| <= |s|
  {
    var from := Clamp(start, |s|);
    var to := Clamp(end, |s|);
    if from < to then s[from..to] else []
  }

  function Clamp(k: int, n: nat): (r: nat)
    ensures r <= n
    ensures 0 <= k <= n ==> r == k
  {
    if k < 0 then Max(0, n + k) else Min(k, n)
  }

  /** The first index a page shows. */
  function PageStart(page: int, perPage: nat): (start: int)
    ensures page >= 1 ==> start >= 0
  {
    MulNonNegative(page - 1, perPage);
    (page - 1) * perPage
  }

  /** `updateView`: the items of the current page. */
  function PageItems<T>(items: seq<T>, page: int, perPage: nat): (r: seq<T>)
    ensures page >= 1 ==> |r| <= perPage
    ensures page >= 1 && PageStart(page, perPage) <= |items| ==>
              r == items[PageStart(page, perPage)..Min(PageStart(page, perPage) + perPage, |items|)]
    ensures page >= 1 && PageStart(page, perPage) >= |items| ==> r == []
  {
    var start := PageStart(page, perPage);
    Slice(items, start, start + perPage)
  }

  /** A product with a non-negative factor has the sign of the other. */
  lemma MulNonNegative(a: int, b: nat)
    ensures a >= 0 ==> a * b >= 0
  {
  }

  /** Every item is on exactly the page its index divided by the page size points to, at the remainder. */
  lemma ItemPage<T>(items: seq<T>, perPage: nat, k: nat)
    requires perPage >= 1 && k < |items|
    ensures var page := k / perPage + 1;
            && page <= TotalPages(|items|, perPage)
            && k % perPage < |PageItems(items, page, perPage)|
            && PageItems(items, page, perPage)[k % perPage] == items[k]
  {
    DivMod(k, perPage);
    PageAt(items, perPage, k / perPage, k % perPage);
    PageWithin(|items|, perPage, k / perPage);
  }

  lemma DivMod(k: nat, p: nat)
    requires p >= 1
    ensures k == (k / p) * p + k % p && 0 <= k % p < p
  {
  }

  /** Position `m` of page `q + 1` is item `q * perPage + m`. */
  lemma PageAt<T>(items: seq<T>, perPage: nat, q: nat, m: nat)
    requires m < perPage && q * perPage + m < |items|
    ensures m < |PageItems(items, q + 1, perPage)|
    ensures PageItems(items, q + 1, perPage)[m] == items[q * perPage + m]
  {
    assert PageStart(q + 1, perPage) == q * perPage;
  }

  /** A page that starts before the end of the list is one of the pages. */
  lemma PageWithin(count: nat, perPage: nat, q: nat)
    requires perPage >= 1 && q * perPage < count
    ensures q + 1 <= TotalPages(count, perPage)
  {
    var total := TotalPages(count, perPage);
    if total <= q {
      MulMonotone(total, q, perPage);
    }
  }

  lemma MulMonotone(a: nat, b: nat, c: nat)
    requires a <= b
    ensures a * c <= b * c
  {
  }

  /** The "showing first-last / count" line. */
  datatype Showing = Showing(first: int, last: int, count: nat)

  /** `updateShowingInfo`: positions start + 1 to min(end, count). */
  function ShowingInfo(start: int, end: int, count: nat): (s: Showing)
    ensures s.count == count
    ensures s.last <= count && s.last <= end
    ensures s.last == count || s.last == end
  {
    Showing(start + 1, Min(end, count), count)
  }

  /**
   On a page that has items, the line names exactly the items shown: as
   many positions as the page holds, starting right after the earlier pages.
   */
  lemma ShowingMatchesPage<T>(items: seq<T>, page: int, perPage: nat)
    requires page >= 1 && perPage >= 1
    requires PageStart(page, perPage) < |items|
    ensures var start := PageStart(page, perPage);
            var info := ShowingInfo(start, start + perPage, |items|);
            && info.last - info.first + 1 == |PageItems(items, page, perPage)|
            && info.first == start + 1
  {
  }
}
