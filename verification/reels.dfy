/**
 Reading `reels.txt`, as both filter scripts do: each line is stripped;
 a line that mentions "instagram.com" gives the second tab-separated
 field when it has a tab, otherwise the text from its first "https://"
 on, otherwise nothing.

 The file is given as its lines, in order, each with or without its line
 break (stripping removes it either way).
 */
module Reels {
  import opened Outcomes
  import opened Strings
  import opened Seqs

  const Instagram: string := "instagram.com"
  const Https: string := "https://"
  const Tab: string := "\t"

  /** The URL one line of reels.txt contributes, if any. */
  function LineUrl(raw: string): (r: Option<string>)
    ensures r.Some? ==> Contains(Strip(raw, IsPyWhitespace), Instagram)
  {
    var line := Strip(raw, IsPyWhitespace);
    if line != "" && Contains(line, Instagram) then
      var parts := Split(line, Tab);
      if |parts| > 1 then Some(parts[1])
      else if Contains(line, Https) then Some(line[Find(line, Https).value..])
      else None
    else None
  }

  /**
   A line that mentions Instagram and has a tab gives the text between the
   first and the second tab, or everything after the first tab when there
   is no second one.
   */
  lemma LineUrlTab(raw: string)
    requires Contains(Strip(raw, IsPyWhitespace), Instagram) && Contains(Strip(raw, IsPyWhitespace), Tab)
    ensures var line := Strip(raw, IsPyWhitespace);
            var rest := line[Find(line, Tab).value + 1..];
            LineUrl(raw) == Some(if Contains(rest, Tab) then rest[..Find(rest, Tab).value] else rest)
  {
    var line := Strip(raw, IsPyWhitespace);
    assert Find(line, Instagram).value + |Instagram| <= |line|;
    assert |Split(line, Tab)| > 1;
    SplitSecond(line, Tab);
  }

  /**
   A line that mentions Instagram, has no tab and has "https://" gives its
   suffix from the first "https://".
   */
  lemma LineUrlHttps(raw: string)
    requires var line := Strip(raw, IsPyWhitespace);
             Contains(line, Instagram) && !Contains(line, Tab) && Contains(line, Https)
    ensures var line := Strip(raw, IsPyWhitespace);
            && LineUrl(raw) == Some(line[Find(line, Https).value..])
            && Https <= LineUrl(raw).value
  {
    var line := Strip(raw, IsPyWhitespace);
    assert Find(line, Instagram).value + |Instagram| <= |line|;
    var k := Find(line, Https).value;
    assert line[k..][..|Https|] == line[k..k + |Https|];
  }

  /** A line with neither a tab nor "https://" gives nothing. */
  lemma LineUrlNeither(raw: string)
    requires var line := Strip(raw, IsPyWhitespace);
             !Contains(line, Tab) && !Contains(line, Https)
    ensures LineUrl(raw).None?
  {
  }

  /**
   The second piece of a split is the text between the first and the second
   separator, or everything after the first separator when there is no second.
   */
  lemma SplitSecond(s: string, sep: string)
    requires |sep| > 0
    requires Contains(s, sep)
    ensures var rest := s[Find(s, sep).value + |sep|..];
            && |Split(s, sep)| > 1
            && Split(s, sep)[1] == if Contains(rest, sep) then rest[..Find(rest, sep).value] else rest
  {
    var i := Find(s, sep).value;
    var rest := s[i + |sep|..];
    assert Split(s, sep) == [s[..i]] + Split(rest, sep);
  }

  /** The URLs of a whole file, in line order, at most one per line. */
  function ParseReels(lines: seq<string>): (urls: seq<string>)
    ensures |urls| <= |lines|
  {
    Collect(lines, LineUrl)
  }

  /** A URL is read exactly when some line gives it. */
  lemma ParseReelsSources(lines: seq<string>, u: string)
    ensures u in ParseReels(lines) <==> exists i :: 0 <= i < |lines| && LineUrl(lines[i]) == Some(u)
  {
    CollectMembership(lines, LineUrl, u);
  }

  /** Lines are read independently and in order. */
  lemma ParseReelsAppend(a: seq<string>, b: seq<string>)
    ensures ParseReels(a + b) == ParseReels(a) + ParseReels(b)
  {
    CollectAppend(a, b, LineUrl);
  }
}
