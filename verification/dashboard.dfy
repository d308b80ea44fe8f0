/**
 The dashboard's list logic (script.js): the state behind the page, the
 search and tier filters, the sort, the paging handlers, and what one
 view shows. The DOM is reduced to the values the handlers read from it
 (the search box, the sort select) and to what they render.

 Items are the JSON objects of data.json; a missing key reads as
 `undefined`. `String(number)` is the oracle `numText` and
 `localeCompare` the oracle `collate`.
 */
module Dashboard {
  import opened Outcomes
  import opened Strings
  import opened Seqs
  import opened Pagination

  /** A JSON value as JavaScript sees it. */
  datatype Js = JNull | JBool(b: bool) | JNum(x: real) | JStr(s: string)

  type Item = map<string, Js>

  datatype Order = Desc | Asc

  /** The page's globals: `allData`, `filteredData`, `currentPage`, `itemsPerPage`, `sortField`, `sortOrder`, `currentTierFilter`. */
  datatype State = State(
    all: seq<Item>,
    filtered: seq<Item>,
    page: int,
    perPage: nat,
    sortField: string,
    order: Order,
    tier: string)

  /** After `loadData`: every item shown, first page, twenty per page, no sort field, descending, no tier. */
  function Loaded(items: seq<Item>): (st: State)
    ensures st.filtered == st.all == items && st.page == 1 && st.perPage == 20
    ensures st.sortField == "" && st.order == Desc && st.tier == ""
  {
    State(items, items, 1, 20, "", Desc, "")
  }

  const AuthorName: string := "author_name"
  const AccountId: string := "account_id"
  const VideoCaption: string := "video_caption"
  const FollowerTier: string := "follower_tier"

  /** The search box's value as `applyFilters` uses it: lower-cased and trimmed. */
  function SearchTerm(input: string): string {
    Strip(Lower(input), IsJsWhitespace)
  }

  /**
   `item.f && item.f.toLowerCase().includes(term)`: a missing, null, false,
   zero or empty value does not match; a text matches when its lower-cased
   form contains the term; any other truthy value has no `toLowerCase`, and
   calling it throws a TypeError (`None`).
   */
  function FieldMatches(item: Item, f: string, term: string): (r: Option<bool>)
    ensures r == Some(true) ==> f in item && item[f].JStr? && Contains(Lower(item[f].s), term)
    ensures r.None? <==> f in item && (item[f] == JBool(true) || (item[f].JNum? && item[f].x != 0.0))
    ensures f in item && item[f].JStr? && item[f].s != "" ==> r == Some(Contains(Lower(item[f].s), term))
  {
    if f !in item then Some(false)
    else match item[f]
      case JNull => Some(false)
      case JBool(b) => if b then None else Some(false)
      case JNum(x) => if x != 0.0 then None else Some(false)
      case JStr(s) => if s == "" then Some(false) else Some(Contains(Lower(s), term))
  }

  /** The search callback: author name, then account id, then caption, stopping at the first match. */
  function SearchTest(term: string): Item -> Option<bool> {
    item =>
      match FieldMatches(item, AuthorName, term)
      case None => None
      case Some(true) => Some(true)
      case Some(false) =>
        match FieldMatches(item, AccountId, term)
        case None => None
        case Some(true) => Some(true)
        case Some(false) => FieldMatches(item, VideoCaption, term)
  }

  /** A text field of the item contains the term. */
  predicate Mentions(item: Item, term: string) {
    exists f :: f in [AuthorName, AccountId, VideoCaption] && f in item && item[f].JStr? && Contains(Lower(item[f].s), term)
  }

  /** An item the search keeps mentions the term in one of its three fields. */
  lemma SearchHit(term: string, item: Item)
    requires SearchTest(term)(item) == Some(true)
    ensures Mentions(item, term)
  {
    if FieldMatches(item, AuthorName, term) == Some(true) {
      assert AuthorName in [AuthorName, AccountId, VideoCaption];
    } else if FieldMatches(item, AccountId, term) == Some(true) {
      assert AccountId in [AuthorName, AccountId, VideoCaption];
    } else {
      assert VideoCaption in [AuthorName, AccountId, VideoCaption];
    }
  }

  /**
   For a non-empty term, a search that does not throw keeps an item exactly
   when its author name, account id or caption contains the term.
   */
  lemma SearchFound(term: string, item: Item)
    requires term != "" && SearchTest(term)(item).Some?
    ensures SearchTest(term)(item) == Some(true) <==> Mentions(item, term)
  {
    if SearchTest(term)(item) == Some(true) {
      SearchHit(term, item);
    }
  }

  /** `item.follower_tier === currentTierFilter`. */
  function TierTest(tier: string): Item -> bool {
    item => FollowerTier in item && item[FollowerTier] == JStr(tier)
  }

  /** Both filters as one test. */
  function Keeps(term: string, tier: string): Item -> bool {
    item => (term == "" || SearchTest(term)(item) == Some(true)) && (tier == "" || TierTest(tier)(item))
  }

  /**
   `applyFilters`: start from every item, keep those the search accepts
   (when there is a term) and those of the chosen tier (when there is one),
   and go back to page 1. A search that throws leaves the state as it was
   (`None`).
   */
  function ApplyFilters(st: State, input: string): (r: Option<State>)
    ensures var term := SearchTerm(input);
            r.None? <==> term != "" && exists i :: 0 <= i < |st.all| && SearchTest(term)(st.all[i]).None?
    ensures r.Some? ==> r.value == st.(filtered := r.value.filtered, page := 1)
    ensures r.Some? ==> r.value.filtered == Filter(st.all, Keeps(SearchTerm(input), st.tier))
  {
    var term := SearchTerm(input);
    var searched :=
      if term != "" then FilterOrThrow(st.all, SearchTest(term)) else Some(st.all);
    match searched
    case None => None
    case Some(found) =>
      var kept := if st.tier != "" then Filter(found, TierTest(st.tier)) else found;
      FiltersCombine(st.all, term, st.tier);
      Some(st.(filtered := kept, page := 1))
  }

  /** The search pass followed by the tier pass is the single filter `Keeps`. */
  lemma FiltersCombine(all: seq<Item>, term: string, tier: string)
    requires term != "" ==> FilterOrThrow(all, SearchTest(term)).Some?
    ensures var found := if term != "" then FilterOrThrow(all, SearchTest(term)).value else all;
            (if tier != "" then Filter(found, TierTest(tier)) else found) == Filter(all, Keeps(term, tier))
  {
    var keepAll := (item: Item) => true;
    var search := if term != "" then Accepts(SearchTest(term)) else keepAll;
    var tierOk := if tier != "" then TierTest(tier) else keepAll;
    FilterTwice(all, search, tierOk, Keeps(term, tier));
    FilterAllKept(all, keepAll);
    var found := Filter(all, search);
    if tier == "" {
      FilterAllKept(found, keepAll);
    }
  }

  /**
   What a successful `applyFilters` shows: an order-preserving selection
   of all items, containing exactly the items that mention the term (when
   there is one) and carry the tier (when there is one).
   */
  lemma ApplyFiltersSelects(st: State, input: string, item: Item)
    requires ApplyFilters(st, input).Some?
    ensures var r := ApplyFilters(st, input).value;
            var term := SearchTerm(input);
            && IsSubseq(r.filtered, st.all)
            && (item in r.filtered <==>
                  item in st.all
                  && (term == "" || SearchTest(term)(item) == Some(true))
                  && (st.tier == "" || (FollowerTier in item && item[FollowerTier] == JStr(st.tier))))
            && (item in r.filtered && term != "" ==> Mentions(item, term))
  {
    var term := SearchTerm(input);
    FilterIsSubseq(st.all, Keeps(term, st.tier));
    FilterMembership(st.all, Keeps(term, st.tier), item);
    if item in ApplyFilters(st, input).value.filtered && term != "" {
      SearchHit(term, item);
    }
  }

  /** With no search term and no tier every item is shown again. */
  lemma NoFilterShowsAll(st: State, input: string)
    requires SearchTerm(input) == "" && st.tier == ""
    ensures ApplyFilters(st, input) == Some(st.(filtered := st.all, page := 1))
  {
    FilterAllKept(st.all, Keeps("", ""));
  }

  /**
   Choosing a tier in the select: the handler stores the tier, then applies
   the filters. When the search throws, the stored tier stays and nothing
   else changes.
   */
  function ChooseTier(st: State, tier: string, input: string): (r: State)
    ensures r.tier == tier && r.all == st.all && r.perPage == st.perPage
    ensures r.sortField == st.sortField && r.order == st.order
    ensures ApplyFilters(st.(tier := tier), input).Some? ==>
              r.page == 1 && r.filtered == Filter(st.all, Keeps(SearchTerm(input), tier))
    ensures ApplyFilters(st.(tier := tier), input).None? ==>
              r.filtered == st.filtered && r.page == st.page
  {
    var chosen := st.(tier := tier);
    match ApplyFilters(chosen, input)
    case Some(next) => next
    case None => chosen
  }

  /** `clearSearch`: no tier, every item, first page. */
  function ClearSearch(st: State): (r: State)
    ensures r.tier == "" && r.page == 1
    ensures r == st.(filtered := st.all, tier := "", page := 1)
  {
    st.(filtered := st.all, tier := "", page := 1)
  }

  /** Clearing is what filtering with an empty box and no tier does. */
  lemma ClearIsEmptyFilter(st: State)
    ensures ApplyFilters(st.(tier := ""), "") == Some(ClearSearch(st))
  {
    assert SearchTerm("") == "";
    NoFilterShowsAll(st.(tier := ""), "");
  }

  /** JavaScript `String(v)` of a value that is not null. */
  function JsString(v: Js, numText: real -> string): string {
    match v
    case JNull => "null"
    case JBool(b) => if b then "true" else "false"
    case JNum(x) => numText(x)
    case JStr(s) => s
  }

  /** `item[field] == null`: a missing key or null. */
  predicate IsNull(item: Item, field: string) {
    field !in item || item[field] == JNull
  }

  /**
   The sort comparator: an item without a value goes after the other; two
   numbers compare by difference, larger first when descending; anything
   else compares the lower-cased texts with `localeCompare`.
   */
  function Compare(a: Item, b: Item, field: string, order: Order, numText: real -> string, collate: (string, string) -> int): (c: real)
    ensures IsNull(a, field) ==> c > 0.0
    ensures !IsNull(a, field) && IsNull(b, field) ==> c < 0.0
    ensures !IsNull(a, field) && !IsNull(b, field) && a[field].JNum? && b[field].JNum? ==>
              c == (if order == Desc then b[field].x - a[field].x else a[field].x - b[field].x)
  {
    if IsNull(a, field) then 1.0
    else if IsNull(b, field) then -1.0
    else if a[field].JNum? && b[field].JNum? then
      if order == Desc then b[field].x - a[field].x else a[field].x - b[field].x
    else
      var sa := Lower(JsString(a[field], numText));
      var sb := Lower(JsString(b[field], numText));
      if order == Desc then collate(sb, sa) as real else collate(sa, sb) as real
  }

  /** Two numbers compare in opposite ways when swapped, and by their order. */
  lemma NumbersCompare(a: Item, b: Item, field: string, order: Order, numText: real -> string, collate: (string, string) -> int)
    requires field in a && field in b && a[field].JNum? && b[field].JNum?
    ensures Compare(a, b, field, order, numText, collate) == -Compare(b, a, field, order, numText, collate)
    ensures order == Desc ==> (Compare(a, b, field, order, numText, collate) > 0.0 <==> a[field].x < b[field].x)
    ensures order == Asc ==> (Compare(a, b, field, order, numText, collate) > 0.0 <==> a[field].x > b[field].x)
  {
  }

  /** Inserting into a sorted list: before the first element that compares after it, so equal items keep their order. */
  function Insert(x: Item, s: seq<Item>, cmp: (Item, Item) -> real): (r: seq<Item>)
    ensures |r| == |s| + 1
    ensures multiset(r) == multiset(s) + multiset{x}
  {
    if |s| == 0 then [x]
    else if cmp(s[0], x) > 0.0 then [x] + s
    else
      assert s == [s[0]] + s[1..];
      [s[0]] + Insert(x, s[1..], cmp)
  }

  /** A stable insertion sort by the comparator: each item in turn inserted into the sorted earlier ones. */
  function Sort(s: seq<Item>, cmp: (Item, Item) -> real): (r: seq<Item>)
    ensures |r| == |s|
    ensures multiset(r) == multiset(s)
  {
    if |s| == 0 then []
    else
      assert s == s[..|s| - 1] + [s[|s| - 1]];
      Insert(s[|s| - 1], Sort(s[..|s| - 1], cmp), cmp)
  }

  /** The comparator of `performSort` for a field and order. */
  function Comparator(field: string, order: Order, numText: real -> string, collate: (string, string) -> int): (Item, Item) -> real {
    (a, b) => Compare(a, b, field, order, numText, collate)
  }

  /** Items without a value for the field come after every item with one. */
  predicate NullsLast(r: seq<Item>, field: string) {
    forall i, j :: 0 <= i < j < |r| && IsNull(r[i], field) ==> IsNull(r[j], field)
  }

  lemma {:induction false} InsertNullsLast(x: Item, s: seq<Item>, field: string, order: Order, numText: real -> string, collate: (string, string) -> int)
    requires NullsLast(s, field)
    ensures NullsLast(Insert(x, s, Comparator(field, order, numText, collate)), field)
  {
    var cmp := Comparator(field, order, numText, collate);
    if |s| > 0 {
      if cmp(s[0], x) > 0.0 {
        if IsNull(x, field) {
          assert IsNull(s[0], field);
        }
        NullsLastCons(x, s, field);
      } else {
        assert NullsLast(s[1..], field) by {
          forall i, j | 0 <= i < j < |s[1..]| && IsNull(s[1..][i], field) ensures IsNull(s[1..][j], field) {
            assert s[1..][i] == s[i + 1] && s[1..][j] == s[j + 1];
          }
        }
        InsertNullsLast(x, s[1..], field, order, numText, collate);
        var rest := Insert(x, s[1..], cmp);
        if IsNull(s[0], field) {
          assert false;
        }
        NullsLastCons(s[0], rest, field);
      }
    }
  }

  /** Putting an item in front keeps nulls last when it is not null, or when everything after it is null. */
  lemma NullsLastCons(x: Item, s: seq<Item>, field: string)
    requires NullsLast(s, field)
    requires IsNull(x, field) ==> |s| == 0 || IsNull(s[0], field)
    ensures NullsLast([x] + s, field)
  {
    var r := [x] + s;
    forall i, j | 0 <= i < j < |r| && IsNull(r[i], field) ensures IsNull(r[j], field) {
      if i == 0 {
        assert r[j] == s[j - 1];
        if j > 1 {
          assert IsNull(s[0], field);
        }
      } else {
        assert r[i] == s[i - 1] && r[j] == s[j - 1];
      }
    }
  }

  /** Sorting by a field puts every item without a value for it after every item with one. */
  lemma {:induction false} SortNullsLast(s: seq<Item>, field: string, order: Order, numText: real -> string, collate: (string, string) -> int)
    ensures NullsLast(Sort(s, Comparator(field, order, numText, collate)), field)
  {
    if |s| > 0 {
      SortNullsLast(s[..|s| - 1], field, order, numText, collate);
      InsertNullsLast(s[|s| - 1], Sort(s[..|s| - 1], Comparator(field, order, numText, collate)), field, order, numText, collate);
    }
  }

  /** The field holds a number. */
  predicate HasNumber(a: Item, field: string) {
    field in a && a[field].JNum?
  }

  /** Every item holds a number in the field or no value for it. */
  predicate NumbersOrNull(s: seq<Item>, field: string) {
    forall i :: 0 <= i < |s| ==> IsNull(s[i], field) || HasNumber(s[i], field)
  }

  /**
   The items holding a number in the field run in the order of those
   numbers: non-increasing when descending, non-decreasing when ascending.
   */
  predicate Ordered(r: seq<Item>, field: string, order: Order) {
    forall i, j :: 0 <= i < j < |r| && HasNumber(r[i], field) && HasNumber(r[j], field) ==>
      InOrder(r[i], r[j], field, order)
  }

  /** `a` may come before `b`: its number is at least `b`'s when descending, at most when ascending. */
  predicate InOrder(a: Item, b: Item, field: string, order: Order)
    requires HasNumber(a, field) && HasNumber(b, field)
  {
    if order == Desc then a[field].x >= b[field].x else a[field].x <= b[field].x
  }

  lemma {:induction false} InsertOrdered(x: Item, s: seq<Item>, field: string, order: Order, numText: real -> string, collate: (string, string) -> int)
    requires IsNull(x, field) || HasNumber(x, field)
    requires NumbersOrNull(s, field) && NullsLast(s, field) && Ordered(s, field, order)
    ensures NumbersOrNull(Insert(x, s, Comparator(field, order, numText, collate)), field)
    ensures Ordered(Insert(x, s, Comparator(field, order, numText, collate)), field, order)
  {
    var cmp := Comparator(field, order, numText, collate);
    if |s| > 0 {
      if cmp(s[0], x) > 0.0 {
        if HasNumber(x, field) {
          forall k | 0 <= k < |s| && HasNumber(s[k], field) ensures InOrder(x, s[k], field, order) {
            // a null first item would leave no number after it
            assert HasNumber(s[0], field);
            NumbersCompare(s[0], x, field, order, numText, collate);
            assert k == 0 || InOrder(s[0], s[k], field, order);
          }
        }
        ConsOrdered(x, s, field, order);
      } else {
        // a null first item compares after everything
        assert HasNumber(s[0], field);
        var tail := s[1..];
        assert NumbersOrNull(tail, field) && NullsLast(tail, field) && Ordered(tail, field, order) by {
          forall i | 0 <= i < |tail| ensures tail[i] == s[i + 1] {}
        }
        InsertOrdered(x, tail, field, order, numText, collate);
        var rest: seq<Item> := Insert(x, tail, cmp);
        if HasNumber(x, field) {
          NumbersCompare(s[0], x, field, order, numText, collate);
        }
        forall m | 0 <= m < |tail| && HasNumber(tail[m], field) ensures InOrder(s[0], tail[m], field, order) {
          assert tail[m] == s[m + 1];
        }
        PermutedBound(s[0], x, tail, rest, field, order);
        ConsOrdered(s[0], rest, field, order);
      }
    }
  }

  /** An item that may come before `x` and before every numbered item of `tail` may come before every numbered item of a permutation of them. */
  lemma PermutedBound(y: Item, x: Item, tail: seq<Item>, rest: seq<Item>, field: string, order: Order)
    requires HasNumber(y, field)
    requires multiset(rest) == multiset(tail) + multiset{x}
    requires HasNumber(x, field) ==> InOrder(y, x, field, order)
    requires forall m :: 0 <= m < |tail| && HasNumber(tail[m], field) ==> InOrder(y, tail[m], field, order)
    ensures forall k :: 0 <= k < |rest| && HasNumber(rest[k], field) ==> InOrder(y, rest[k], field, order)
  {
    forall k | 0 <= k < |rest| && HasNumber(rest[k], field) ensures InOrder(y, rest[k], field, order) {
      assert rest[k] in multiset(rest);
      if rest[k] != x {
        assert rest[k] in multiset(tail);
        var m :| 0 <= m < |tail| && tail[m] == rest[k];
      }
    }
  }

  /** An item that is null, or may come before every numbered item of an ordered list, extends it. */
  lemma ConsOrdered(y: Item, rest: seq<Item>, field: string, order: Order)
    requires IsNull(y, field) || HasNumber(y, field)
    requires NumbersOrNull(rest, field) && Ordered(rest, field, order)
    requires HasNumber(y, field) ==>
               forall k :: 0 <= k < |rest| && HasNumber(rest[k], field) ==> InOrder(y, rest[k], field, order)
    ensures NumbersOrNull([y] + rest, field) && Ordered([y] + rest, field, order)
  {
    var r: seq<Item> := [y] + rest;
    forall i | 0 <= i < |r| ensures IsNull(r[i], field) || HasNumber(r[i], field) {
      if i > 0 {
        assert r[i] == rest[i - 1];
      }
    }
    forall i, j | 0 <= i < j < |r| && HasNumber(r[i], field) && HasNumber(r[j], field)
      ensures InOrder(r[i], r[j], field, order)
    {
      assert r[j] == rest[j - 1];
      if i > 0 {
        assert r[i] == rest[i - 1];
      }
    }
  }

  /**
   Sorting a field that holds a number or nothing in every item puts the
   items with a number first, ordered by it, and the others after them.
   */
  lemma {:induction false} SortOrdered(s: seq<Item>, field: string, order: Order, numText: real -> string, collate: (string, string) -> int)
    requires NumbersOrNull(s, field)
    ensures NumbersOrNull(Sort(s, Comparator(field, order, numText, collate)), field)
    ensures NullsLast(Sort(s, Comparator(field, order, numText, collate)), field)
    ensures Ordered(Sort(s, Comparator(field, order, numText, collate)), field, order)
  {
    SortNullsLast(s, field, order, numText, collate);
    if |s| > 0 {
      var init := s[..|s| - 1];
      assert NumbersOrNull(init, field) by {
        forall i | 0 <= i < |init| ensures init[i] == s[i] {}
      }
      SortOrdered(init, field, order, numText, collate);
      InsertOrdered(s[|s| - 1], Sort(init, Comparator(field, order, numText, collate)), field, order, numText, collate);
    }
  }

  /**
   `performSort`: the select's value, or else the remembered field; with
   neither nothing happens. Otherwise the field is remembered, the
   filtered items are sorted by it and the first page is shown.
   */
  function PerformSort(st: State, selected: string, numText: real -> string, collate: (string, string) -> int): (r: State)
    ensures selected == "" && st.sortField == "" ==> r == st
    ensures selected != "" || st.sortField != "" ==>
              && r.sortField == (if selected != "" then selected else st.sortField)
              && r.page == 1
              && multiset(r.filtered) == multiset(st.filtered)
              && r == st.(filtered := r.filtered, sortField := r.sortField, page := 1)
  {
    var field := if selected != "" then selected else st.sortField;
    if field == "" then st
    else st.(sortField := field, filtered := Sort(st.filtered, Comparator(field, st.order, numText, collate)), page := 1)
  }

  /** A click on a sortable column header: remember its field, then sort; a value in the sort select still wins. */
  function HeaderSort(st: State, field: string, selected: string, numText: real -> string, collate: (string, string) -> int): (r: State)
    ensures field != "" && selected == "" ==> r.sortField == field
    ensures selected != "" ==> r.sortField == selected
  {
    PerformSort(st.(sortField := field), selected, numText, collate)
  }

  function Flip(o: Order): (r: Order)
    ensures r != o
  {
    if o == Desc then Asc else Desc
  }

  /** `toggleSortOrder`: flip the order and sort again when a field is remembered. */
  function ToggleSortOrder(st: State, selected: string, numText: real -> string, collate: (string, string) -> int): (r: State)
    ensures r.order != st.order
    ensures st.sortField == "" ==> r == st.(order := r.order)
    ensures st.sortField != "" ==> r == PerformSort(st.(order := r.order), selected, numText, collate)
    ensures st.sortField != "" ==> r.page == 1 && multiset(r.filtered) == multiset(st.filtered)
  {
    var flipped := st.(order := Flip(st.order));
    if flipped.sortField != "" then PerformSort(flipped, selected, numText, collate) else flipped
  }

  /** Toggling twice restores the sort order. */
  lemma ToggleTwice(st: State, selected: string, numText: real -> string, collate: (string, string) -> int)
    ensures ToggleSortOrder(ToggleSortOrder(st, selected, numText, collate), selected, numText, collate).order == st.order
  {
  }

  /** The page-size select: a number, or every filtered item. */
  datatype PageSize = Count(n: nat) | All

  function SetPageSize(st: State, size: PageSize): (r: State)
    ensures r.page == 1
    ensures size.All? ==> r.perPage == |st.filtered|
    ensures size.Count? ==> r.perPage == size.n
  {
    st.(perPage := if size.All? then |st.filtered| else size.n, page := 1)
  }

  /** The number of pages of the filtered items. */
  function Pages(st: State): nat
    requires st.perPage >= 1
  {
    TotalPages(|st.filtered|, st.perPage)
  }

  /** The "previous" button: one page back, unless on the first. */
  function PrevPage(st: State): (r: State)
    ensures st.page > 1 ==> r == st.(page := st.page - 1)
    ensures st.page <= 1 ==> r == st
  {
    if st.page > 1 then st.(page := st.page - 1) else st
  }

  /** The "next" button: one page on, unless on the last. */
  function NextPage(st: State): (r: State)
    requires st.perPage >= 1
    ensures st.page < Pages(st) ==> r == st.(page := st.page + 1)
    ensures st.page >= Pages(st) ==> r == st
  {
    if st.page < Pages(st) then st.(page := st.page + 1) else st
  }

  /** A numbered button: go to its page. */
  function GoToPage(st: State, n: int): (r: State)
    ensures r == st.(page := n)
  {
    st.(page := n)
  }

  /** The current page is a page of the list (page 1 when the list is empty). */
  predicate PageValid(st: State) {
    st.perPage >= 1 && 1 <= st.page <= Max(1, TotalPages(|st.filtered|, st.perPage))
  }

  /** Filtering, choosing a tier and clearing all go to page 1, which is always valid. */
  lemma FiltersKeepPageValid(st: State, input: string, tier: string)
    requires PageValid(st)
    ensures ApplyFilters(st, input).Some? ==> PageValid(ApplyFilters(st, input).value)
    ensures PageValid(ChooseTier(st, tier, input))
    ensures PageValid(ClearSearch(st))
  {
  }

  /** Sorting keeps the number of items and goes to page 1. */
  lemma SortKeepsPageValid(st: State, selected: string, numText: real -> string, collate: (string, string) -> int)
    requires PageValid(st)
    ensures PageValid(PerformSort(st, selected, numText, collate))
    ensures PageValid(ToggleSortOrder(st, selected, numText, collate))
  {
    var sorted := PerformSort(st, selected, numText, collate);
    assert |sorted.filtered| == |st.filtered| by {
      assert multiset(sorted.filtered) == multiset(st.filtered);
    }
    var toggled := ToggleSortOrder(st, selected, numText, collate);
    assert |toggled.filtered| == |st.filtered| by {
      assert multiset(toggled.filtered) == multiset(st.filtered);
    }
  }

  /**
   The arrows stop at the ends and a numbered button leads to a page it
   offers, so the current page stays a page of the list.
   */
  lemma NavigationKeepsPageValid(st: State, n: int)
    requires PageValid(st)
    ensures PageValid(PrevPage(st))
    ensures PageValid(NextPage(st))
    ensures n in PageNumbers(Controls(st.page, Pages(st))) ==> PageValid(GoToPage(st, n))
  {
    var total := Pages(st);
    if n in PageNumbers(Controls(st.page, total)) {
      assert total >= 2;
      OfferedWithin(st.page, total, n);
    }
  }

  /** A page size of at least one resets to page 1, which is valid. */
  lemma PageSizeKeepsPageValid(st: State, size: PageSize)
    requires PageValid(st)
    requires (size.Count? && size.n >= 1) || (size.All? && |st.filtered| >= 1)
    ensures PageValid(SetPageSize(st, size))
  {
  }

  /** What one render shows: the page's items, the pagination controls and the "showing" line. */
  datatype Screen = Screen(items: seq<Item>, controls: seq<Control>, showing: Showing)

  /** `updateView`. */
  function Render(st: State): (v: Screen)
    requires st.perPage >= 1
    ensures st.page >= 1 ==> |v.items| <= st.perPage
    ensures v.controls == [] <==> Pages(st) <= 1
    ensures v.showing.count == |st.filtered|
  {
    var start := PageStart(st.page, st.perPage);
    Screen(
      PageItems(st.filtered, st.page, st.perPage),
      Controls(st.page, Pages(st)),
      ShowingInfo(start, start + st.perPage, |st.filtered|))
  }

  /**
   Right after filtering, the screen shows the first items of the
   selection, "previous" is disabled, and the line starts at position 1.
   */
  lemma FilteredScreen(st: State, input: string)
    requires st.perPage >= 1 && ApplyFilters(st, input).Some?
    ensures var after := ApplyFilters(st, input).value;
            var v := Render(after);
            && v.items == after.filtered[..Min(st.perPage, |after.filtered|)]
            && v.showing.first == 1
            && (v.controls != [] ==> v.controls[0] == Prev(true))
  {
    var after := ApplyFilters(st, input).value;
    assert PageStart(1, st.perPage) == 0;
    if Pages(after) >= 2 {
      ControlShape(1, Pages(after));
    }
  }
}
