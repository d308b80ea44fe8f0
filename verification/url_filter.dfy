/**
 The two filter scripts, `filter_excel.py` and `filter_disney_all_fields.py`:
 choose the column of the spreadsheet that holds post URLs, keep the rows
 whose URL is one read from reels.txt, and, when no row matches exactly,
 keep instead the rows whose URL text contains a post id taken from the
 reels URLs. They differ only in how they choose the column.

 `str()` of a number cell is left to an oracle `numText`: its decimal
 digits are not modelled.
 */
module UrlFilter {
  import opened Outcomes
  import opened Strings
  import opened Seqs
  import opened Cells
  import opened Sheets
  import opened Reels

  /** `str(cell)` of a non-NA cell. */
  function CellText(c: Cell, numText: real -> string): string {
    match c
    case Text(s) => s
    case Stamp(t) => t
    case Num(x) => numText(x)
    case Inf(negative) => if negative then "-inf" else "inf"
    case Empty => "None"
    case NaN => "nan"
  }

  /**
   A pandas column has dtype `object` when it holds text, or date-times
   mixed with numbers; columns of only numbers, only date-times or only
   blanks get a numeric or date-time dtype.
   */
  predicate ObjectDtype(cells: seq<Cell>) {
    (exists i :: 0 <= i < |cells| && cells[i].Text?)
    || ((exists i :: 0 <= i < |cells| && cells[i].Stamp?)
        && (exists i :: 0 <= i < |cells| && (cells[i].Num? || cells[i].Inf?)))
  }

  predicate Present(c: Cell) {
    !IsNA(c)
  }

  /** `dropna().head(5).astype(str)`: the text of the first five non-NA cells. */
  function Sample(cells: seq<Cell>, numText: real -> string): (r: seq<string>)
    ensures |r| <= 5
    ensures |r| == if |Filter(cells, Present)| < 5 then |Filter(cells, Present)| else 5
    ensures forall i :: 0 <= i < |r| ==> r[i] == CellText(Filter(cells, Present)[i], numText)
  {
    var present := Filter(cells, Present);
    var head := if |present| <= 5 then present else present[..5];
    seq(|head|, i requires 0 <= i < |head| => CellText(head[i], numText))
  }

  /** One character of a regular expression without special characters except `.`. */
  predicate PatternCharMatches(p: char, c: char) {
    if p == '.' then c != '\n' else LowerChar(c) == LowerChar(p)
  }

  predicate MatchesAt(s: string, pattern: string, k: nat) {
    k + |pattern| <= |s| && forall j :: 0 <= j < |pattern| ==> PatternCharMatches(pattern[j], s[k + j])
  }

  /**
   `Series.str.contains(pattern, case=False)`: the pattern is a regular
   expression, here one whose only special character is `.` (any character
   but a line break), matched ignoring ASCII case.
   */
  predicate RegexContains(s: string, pattern: string) {
    exists k: nat :: k + |pattern| <= |s| && MatchesAt(s, pattern, k)
  }

  /** `sample.str.contains(pattern, case=False).any()` on an object column. */
  predicate LooksLikeUrls(cells: seq<Cell>, pattern: string, numText: real -> string) {
    ObjectDtype(cells) && exists t :: t in Sample(cells, numText) && RegexContains(t, pattern)
  }

  /** Every matching text matches the pattern read literally, ignoring ASCII case. */
  lemma LiteralMatchIsRegexMatch(s: string, pattern: string, k: nat)
    requires OccursAt(Lower(s), Lower(pattern), k)
    requires forall j :: 0 <= j < |pattern| ==> pattern[j] != '.'
    ensures MatchesAt(s, pattern, k)
  {
    forall j | 0 <= j < |pattern| ensures PatternCharMatches(pattern[j], s[k + j]) {
      assert Lower(s)[k..k + |pattern|][j] == Lower(s)[k + j];
    }
  }

  /** The column's cells; the column exists. */
  function Column(sh: Frame, col: string): seq<Cell>
    requires col in sh.columns
  {
    ColumnCells(sh, col).value
  }

  /** filter_excel.py: every column whose sample mentions "instagram.com", in column order. */
  function DetectedColumns(sh: Frame, numText: real -> string): (r: seq<string>)
    ensures forall c :: c in r <==> c in sh.columns && LooksLikeUrls(Column(sh, c), Instagram, numText)
    ensures IsSubseq(r, sh.columns)
  {
    var detect := (c: string) => c in sh.columns && LooksLikeUrls(Column(sh, c), Instagram, numText);
    forall c ensures c in Filter(sh.columns, detect) <==> c in sh.columns && detect(c) {
      FilterMembership(sh.columns, detect, c);
    }
    FilterIsSubseq(sh.columns, detect);
    Filter(sh.columns, detect)
  }

  /**
   filter_excel.py: the column named "url" when it is among the detected
   ones, otherwise the first detected column; none when nothing is detected.
   */
  function ChooseColumnExcel(sh: Frame, numText: real -> string): (r: Option<string>)
    ensures r.None? <==> DetectedColumns(sh, numText) == []
    ensures "url" in DetectedColumns(sh, numText) ==> r == Some("url")
    ensures "url" !in DetectedColumns(sh, numText) && r.Some? ==> r == Some(DetectedColumns(sh, numText)[0])
    ensures r.Some? ==> r.value in sh.columns
  {
    var detected := DetectedColumns(sh, numText);
    if |detected| == 0 then None
    else if "url" in detected then Some("url")
    else Some(detected[0])
  }

  /** filter_disney_all_fields.py: the column names tried first, in this order. */
  const UrlColumnNames: seq<string> := ["url", "URL", "link", "Link", "post_url", "postUrl", "instagram_url", "ig_url"]

  const PostPattern: string := "instagram.com/p/"

  /** The first of `names` that is a column, if any. */
  function FirstNamed(names: seq<string>, columns: seq<string>): (r: Option<nat>)
    ensures r.Some? ==> r.value < |names| && names[r.value] in columns
                        && forall j :: 0 <= j < r.value ==> names[j] !in columns
    ensures r.None? ==> forall j :: 0 <= j < |names| ==> names[j] !in columns
  {
    if |names| == 0 then None
    else if names[0] in columns then Some(0)
    else
      var rest := FirstNamed(names[1..], columns);
      if rest.Some? then Some(rest.value + 1) else None
  }

  /** The first column, in column order, whose sample holds a post URL. */
  function FirstByContent(columns: seq<string>, sh: Frame, numText: real -> string): (r: Option<nat>)
    requires forall c :: c in columns ==> c in sh.columns
    ensures r.Some? ==> r.value < |columns| && LooksLikeUrls(Column(sh, columns[r.value]), PostPattern, numText)
                        && forall j :: 0 <= j < r.value ==> !LooksLikeUrls(Column(sh, columns[j]), PostPattern, numText)
    ensures r.None? ==> forall j :: 0 <= j < |columns| ==> !LooksLikeUrls(Column(sh, columns[j]), PostPattern, numText)
  {
    if |columns| == 0 then None
    else if LooksLikeUrls(Column(sh, columns[0]), PostPattern, numText) then Some(0)
    else
      var rest := FirstByContent(columns[1..], sh, numText);
      if rest.Some? then Some(rest.value + 1) else None
  }

  /**
   filter_disney_all_fields.py: the first name of the priority list that
   is a column; only when there is none, the first column whose sample
   contains "instagram.com/p/"; otherwise no column.
   */
  function ChooseColumnDisney(sh: Frame, numText: real -> string): (r: Option<string>)
    ensures r.Some? ==> r.value in sh.columns
    ensures FirstNamed(UrlColumnNames, sh.columns).Some? ==>
              r == Some(UrlColumnNames[FirstNamed(UrlColumnNames, sh.columns).value])
    ensures FirstNamed(UrlColumnNames, sh.columns).None? ==>
              (r.Some? <==> exists c :: c in sh.columns && LooksLikeUrls(Column(sh, c), PostPattern, numText))
    ensures FirstNamed(UrlColumnNames, sh.columns).None? && r.Some? ==>
              exists j :: 0 <= j < |sh.columns| && r.value == sh.columns[j]
                          && LooksLikeUrls(Column(sh, sh.columns[j]), PostPattern, numText)
                          && forall k :: 0 <= k < j ==> !LooksLikeUrls(Column(sh, sh.columns[k]), PostPattern, numText)
  {
    match FirstNamed(UrlColumnNames, sh.columns)
    case Some(i) => Some(UrlColumnNames[i])
    case None =>
      match FirstByContent(sh.columns, sh, numText)
      case Some(j) => Some(sh.columns[j])
      case None =>
        assert forall c :: c in sh.columns ==> !LooksLikeUrls(Column(sh, c), PostPattern, numText) by {
          forall c | c in sh.columns ensures !LooksLikeUrls(Column(sh, c), PostPattern, numText) {
            var j :| 0 <= j < |sh.columns| && sh.columns[j] == c;
          }
        }
        None
  }

  /** `df[col].isin(urls)`: the cell is a text equal to one of the URLs. */
  predicate InUrlSet(c: Cell, urls: set<string>) {
    c.Text? && c.s in urls
  }

  /** The exact filter, `df[df[col].isin(set(reel_urls))]`. */
  function ExactFilter(rows: seq<Row>, col: string, urls: set<string>): (r: seq<Row>)
    ensures IsSubseq(r, rows)
    ensures forall row :: row in r <==> row in rows && col in row && InUrlSet(row[col], urls)
    ensures forall row :: multiset(r)[row] == if col in row && InUrlSet(row[col], urls) then multiset(rows)[row] else 0
  {
    var keep := (row: Row) => col in row && InUrlSet(row[col], urls);
    FilterIsSubseq(rows, keep);
    forall row ensures row in Filter(rows, keep) <==> row in rows && keep(row) {
      FilterMembership(rows, keep, row);
    }
    forall row ensures multiset(Filter(rows, keep))[row] == if keep(row) then multiset(rows)[row] else 0 {
      FilterCount(rows, keep, row);
    }
    Filter(rows, keep)
  }

  const PostMarker: string := "/p/"

  /** The text of `s` before the first occurrence of `pat`, or all of `s` without one. */
  function UpToFirst(s: string, pat: string): string {
    if Find(s, pat).Some? then s[..Find(s, pat).value] else s
  }

  /**
   `url.split('/p/')[1].rstrip('/')` for a URL that contains "/p/": the text
   after the first "/p/" up to the next "/p/", if any, without its trailing
   slashes.
   */
  function PostId(url: string): (id: string)
    requires Contains(url, PostMarker)
    ensures id == RStripChar(UpToFirst(url[Find(url, PostMarker).value + |PostMarker|..], PostMarker), '/')
    ensures !Contains(id, PostMarker)
    ensures |id| == 0 || id[|id| - 1] != '/'
  {
    var pieces := Split(url, PostMarker);
    var i := Find(url, PostMarker).value;
    assert pieces[1] == Split(url[i + |PostMarker|..], PostMarker)[0];
    var id := RStripChar(pieces[1], '/');
    assert !Contains(pieces[1], PostMarker);
    PrefixKeepsAbsence(pieces[1], |id|, PostMarker);
    id
  }

  /** A trailing slash is dropped: "/p/C1x/" gives "C1x". */
  lemma PostIdTrailingSlash()
    ensures PostId("/p/C1x/") == "C1x"
  {
    var u := "/p/C1x/";
    assert u[0..3] == PostMarker;
    assert Find(u, PostMarker) == Some(0);
    var rest := u[3..];
    assert rest == "C1x/";
    assert rest[0..3] != PostMarker by { assert rest[0..3][0] == 'C'; }
    assert rest[1..4] != PostMarker by { assert rest[1..4][0] == '1'; }
    assert Find(rest, PostMarker) == FindFrom(rest, PostMarker, 2) == None;
    assert RStripChar(rest, '/') == RStripChar(rest[..3], '/');
    assert rest[..3] == "C1x";
  }

  /** The id ends before a second "/p/": "/p/b//p/c" gives "b". */
  lemma PostIdSecondMarker()
    ensures PostId("/p/b//p/c") == "b"
  {
    var u := "/p/b//p/c";
    assert u[0..3] == PostMarker;
    assert Find(u, PostMarker) == Some(0);
    var rest := u[3..];
    assert rest == "b//p/c";
    assert rest[0..3] != PostMarker by { assert rest[0..3][0] == 'b'; }
    assert rest[1..4] != PostMarker by { assert rest[1..4][1] == '/'; }
    assert rest[2..5] == PostMarker;
    assert Find(rest, PostMarker) == FindFrom(rest, PostMarker, 2) == Some(2);
    var piece := rest[..2];
    assert RStripChar(piece, '/') == RStripChar(piece[..1], '/');
    assert piece[..1] == "b";
  }

  /** A prefix of a text without `pat` is without `pat`. */
  lemma PrefixKeepsAbsence(s: string, n: nat, pat: string)
    requires n <= |s|
    requires !Contains(s, pat)
    ensures !Contains(s[..n], pat)
  {
    ContainsIff(s, pat);
    ContainsIff(s[..n], pat);
    forall k: nat | OccursAt(s[..n], pat, k) ensures OccursAt(s, pat, k) {
      OccursInPrefix(s, n, pat, k);
    }
  }

  /** The post id of a URL: it is a prefix of the text after the first "/p/". */
  lemma PostIdLocation(url: string)
    requires Contains(url, PostMarker)
    ensures PostId(url) <= url[Find(url, PostMarker).value + |PostMarker|..]
  {
    SplitSecond(url, PostMarker);
  }

  /** The post ids of the reels URLs: one for each URL that contains "/p/". */
  function PostIds(urls: seq<string>): (ids: set<string>)
    ensures forall id :: id in ids <==> exists u :: u in urls && Contains(u, PostMarker) && id == PostId(u)
  {
    set u | u in urls && Contains(u, PostMarker) :: PostId(u)
  }

  /** The fallback test: a non-NA cell whose text contains some post id. */
  predicate MentionsPost(c: Cell, ids: set<string>, numText: real -> string) {
    !IsNA(c) && exists id :: id in ids && Contains(CellText(c, numText), id)
  }

  /** The fallback filter by post id. */
  function FallbackFilter(rows: seq<Row>, col: string, ids: set<string>, numText: real -> string): (r: seq<Row>)
    ensures IsSubseq(r, rows)
    ensures forall row :: row in r <==> row in rows && col in row && MentionsPost(row[col], ids, numText)
    ensures forall row :: multiset(r)[row] == if col in row && MentionsPost(row[col], ids, numText) then multiset(rows)[row] else 0
  {
    var keep := (row: Row) => col in row && MentionsPost(row[col], ids, numText);
    FilterIsSubseq(rows, keep);
    forall row ensures row in Filter(rows, keep) <==> row in rows && keep(row) {
      FilterMembership(rows, keep, row);
    }
    forall row ensures multiset(Filter(rows, keep))[row] == if keep(row) then multiset(rows)[row] else 0 {
      FilterCount(rows, keep, row);
    }
    Filter(rows, keep)
  }

  /** An empty post id ("/p/" at the very end of a URL) lets every non-NA cell through. */
  lemma EmptyPostIdKeepsAll(c: Cell, ids: set<string>, numText: real -> string)
    requires "" in ids && !IsNA(c)
    ensures MentionsPost(c, ids, numText)
  {
    assert OccursAt(CellText(c, numText), "", 0);
    ContainsIff(CellText(c, numText), "");
  }

  /**
   The rows written out for a chosen column: the exact matches, or, when
   there are none, the post-id matches.
   */
  function FilterRows(rows: seq<Row>, col: string, urls: seq<string>, numText: real -> string): (r: seq<Row>)
    ensures IsSubseq(r, rows)
    ensures ExactFilter(rows, col, set u | u in urls) != [] ==> r == ExactFilter(rows, col, set u | u in urls)
    ensures ExactFilter(rows, col, set u | u in urls) == [] ==> r == FallbackFilter(rows, col, PostIds(urls), numText)
  {
    var exact := ExactFilter(rows, col, set u | u in urls);
    if exact != [] then exact else FallbackFilter(rows, col, PostIds(urls), numText)
  }

  /**
   filter_excel.py end to end: nothing is written when no column is
   detected; otherwise the filtered rows of the chosen column.
   */
  function FilterExcel(lines: seq<string>, sh: Frame, numText: real -> string): (r: Option<seq<Row>>)
    ensures r.None? <==> ChooseColumnExcel(sh, numText).None?
    ensures r.Some? ==> r.value == FilterRows(sh.rows, ChooseColumnExcel(sh, numText).value, ParseReels(lines), numText)
  {
    match ChooseColumnExcel(sh, numText)
    case None => None
    case Some(col) => Some(FilterRows(sh.rows, col, ParseReels(lines), numText))
  }

  /** filter_disney_all_fields.py end to end, with its own column choice. */
  function FilterDisneyAllFields(lines: seq<string>, sh: Frame, numText: real -> string): (r: Option<seq<Row>>)
    ensures r.None? <==> ChooseColumnDisney(sh, numText).None?
    ensures r.Some? ==> r.value == FilterRows(sh.rows, ChooseColumnDisney(sh, numText).value, ParseReels(lines), numText)
  {
    match ChooseColumnDisney(sh, numText)
    case None => None
    case Some(col) => Some(FilterRows(sh.rows, col, ParseReels(lines), numText))
  }
}
