/**
 The string operations the scripts rely on, written once: substring search
 (Python `in`/`find`, JavaScript `includes`), `split` on a separator, the
 whitespace trimming of Python `strip()` and JavaScript `trim()`, trailing
 `rstrip(c)`, and lower-casing.

 Lower-casing is ASCII only: the data is Korean and English, and the
 Unicode case mappings of the two runtimes are not modelled.
 */
module Strings {
  import opened Outcomes

  /** `pat` occurs in `s` starting at index `k`. */
  predicate OccursAt(s: string, pat: string, k: nat) {
    k + |pat| <= |s| && s[k..k + |pat|] == pat
  }

  /** Index of the first occurrence of `pat` in `s` at or after `from`. */
  function FindFrom(s: string, pat: string, from: nat): (r: Option<nat>)
    decreases |s| - from
    ensures r.Some? ==> from <= r.value && OccursAt(s, pat, r.value)
    ensures r.Some? ==> forall k: nat :: from <= k < r.value ==> !OccursAt(s, pat, k)
    ensures r.None? ==> forall k: nat :: from <= k ==> !OccursAt(s, pat, k)
  {
    if from + |pat| > |s| then None
    else if s[from..from + |pat|] == pat then Some(from)
    else FindFrom(s, pat, from + 1)
  }

  /** Python `s.find(pat)` when found; the first occurrence. */
  function Find(s: string, pat: string): Option<nat> {
    FindFrom(s, pat, 0)
  }

  /** Python `pat in s`, JavaScript `s.includes(pat)`. */
  predicate Contains(s: string, pat: string) {
    Find(s, pat).Some?
  }

  lemma ContainsIff(s: string, pat: string)
    ensures Contains(s, pat) <==> exists k: nat :: OccursAt(s, pat, k)
  {
    if Find(s, pat).Some? {
      assert OccursAt(s, pat, Find(s, pat).value);
    }
  }

  /** An occurrence inside a prefix is an occurrence in the whole string. */
  lemma OccursInPrefix(s: string, i: nat, pat: string, k: nat)
    requires i <= |s|
    requires OccursAt(s[..i], pat, k)
    ensures OccursAt(s, pat, k)
  {
    assert s[..i][k..k + |pat|] == s[k..k + |pat|];
  }

  /** An occurrence inside a suffix is an occurrence in the whole string. */
  lemma OccursInSuffix(s: string, i: nat, pat: string, k: nat)
    requires i <= |s|
    requires OccursAt(s[i..], pat, k)
    ensures OccursAt(s, pat, i + k)
  {
    assert s[i..][k..k + |pat|] == s[i + k..i + k + |pat|];
  }

  /** Joins `parts` with `sep` between neighbours (Python `sep.join(parts)`). */
  function Join(parts: seq<string>, sep: string): string
    requires |parts| >= 1
  {
    if |parts| == 1 then parts[0] else parts[0] + sep + Join(parts[1..], sep)
  }

  /**
   Python `s.split(sep)` for a non-empty separator: the pieces between the
   occurrences of `sep`, scanning left to right. Joining the pieces with
   `sep` gives `s` back, no piece contains `sep`, and there is more than one
   piece exactly when `sep` occurs in `s`. The first piece ends at the first
   occurrence, and the separator after every piece is the first occurrence
   from that piece's start on (so overlapping occurrences split greedily
   from the left, as Python does).
   */
  function Split(s: string, sep: string): (parts: seq<string>)
    requires |sep| > 0
    decreases |s|
    ensures |parts| >= 1
    ensures Join(parts, sep) == s
    ensures forall k :: 0 <= k < |parts| ==> !Contains(parts[k], sep)
    ensures |parts| > 1 <==> Contains(s, sep)
    ensures !Contains(s, sep) ==> parts == [s]
    ensures Contains(s, sep) ==> parts[0] == s[..Find(s, sep).value]
    ensures forall k :: 0 <= k < |parts| - 1 ==> !Contains(parts[k] + sep[..|sep| - 1], sep)
  {
    match Find(s, sep)
    case None => [s]
    case Some(i) =>
      var head := s[..i];
      var rest := Split(s[i + |sep|..], sep);
      assert s == head + sep + s[i + |sep|..];
      NoEarlyOccurrence(s, i, sep);
      SeparatorIsFirst(s, i, sep);
      ConsIndex(head, rest);
      [head] + rest
  }

  /** Past the first element, `[x] + rest` is `rest` shifted by one. */
  lemma ConsIndex<T>(x: T, rest: seq<T>)
    ensures ([x] + rest)[1..] == rest
    ensures forall k :: 1 <= k < |[x] + rest| ==> ([x] + rest)[k] == rest[k - 1]
  {
  }

  /** The text before the first occurrence of `sep` does not contain `sep`. */
  lemma NoEarlyOccurrence(s: string, i: nat, sep: string)
    requires |sep| > 0
    requires Find(s, sep) == Some(i)
    ensures !Contains(s[..i], sep)
  {
    forall k: nat ensures !OccursAt(s[..i], sep, k) {
      if k + |sep| <= i {
        assert k < i;
        assert !OccursAt(s, sep, k);
        assert s[..i][k..k + |sep|] == s[k..k + |sep|];
      }
    }
    ContainsIff(s[..i], sep);
  }

  /** Overlapping separators split greedily from the left, as in Python. */
  lemma SplitOverlapping()
    ensures Split("b/p/p/c", "/p/") == ["b", "p/c"]
  {
    var s, sep := "b/p/p/c", "/p/";
    assert s[0..3] != sep by { assert s[0..3][0] == 'b'; }
    assert s[1..4] == sep;
    assert Find(s, sep) == FindFrom(s, sep, 1) == Some(1);
    assert s[4..] == "p/c";
    assert "p/c"[0..3] != sep by { assert "p/c"[0..3][0] == 'p'; }
    assert Find("p/c", sep) == FindFrom("p/c", sep, 1) == None;
    assert s[..1] == "b";
  }

  /**
   The first occurrence of `sep` in the text before it followed by all but
   the last character of `sep` is the one at `i`, so none occurs earlier.
   */
  lemma SeparatorIsFirst(s: string, i: nat, sep: string)
    requires |sep| > 0
    requires Find(s, sep) == Some(i)
    ensures !Contains(s[..i] + sep[..|sep| - 1], sep)
  {
    var t := s[..i] + sep[..|sep| - 1];
    assert t == s[..i + |sep| - 1];
    forall k: nat ensures !OccursAt(t, sep, k) {
      if k + |sep| <= |t| {
        assert !OccursAt(s, sep, k);
        assert t[k..k + |sep|] == s[k..k + |sep|];
      }
    }
    ContainsIff(t, sep);
  }

  /** The ASCII lower-case of a character; every other character is kept. */
  function LowerChar(c: char): char {
    if 'A' <= c <= 'Z' then (c as int + 32) as char else c
  }

  function Lower(s: string): (r: string)
    ensures |r| == |s|
    ensures forall i :: 0 <= i < |s| ==> r[i] == LowerChar(s[i])
  {
    seq(|s|, i requires 0 <= i < |s| => LowerChar(s[i]))
  }

  /** Characters Python's `str.strip()` removes (`str.isspace`). */
  predicate IsPyWhitespace(c: char) {
    '\t' <= c <= '\r' || '\U{1c}' <= c <= ' ' || c == '\U{85}' || c == '\U{a0}'
    || c == '\U{1680}' || '\U{2000}' <= c <= '\U{200a}' || c == '\U{2028}' || c == '\U{2029}'
    || c == '\U{202f}' || c == '\U{205f}' || c == '\U{3000}'
  }

  /** Characters JavaScript's `String.prototype.trim` removes. */
  predicate IsJsWhitespace(c: char) {
    '\t' <= c <= '\r' || c == ' ' || c == '\U{a0}'
    || c == '\U{1680}' || '\U{2000}' <= c <= '\U{200a}' || c == '\U{2028}' || c == '\U{2029}'
    || c == '\U{202f}' || c == '\U{205f}' || c == '\U{3000}' || c == '\U{feff}'
  }

  /** Number of whitespace characters at the start of `s`. */
  function Leading(s: string, isWs: char -> bool): (n: nat)
    ensures n <= |s|
    ensures forall k :: 0 <= k < n ==> isWs(s[k])
    ensures n < |s| ==> !isWs(s[n])
  {
    if |s| == 0 || !isWs(s[0]) then 0 else 1 + Leading(s[1..], isWs)
  }

  /** Number of whitespace characters at the end of `s`. */
  function Trailing(s: string, isWs: char -> bool): (n: nat)
    ensures n <= |s|
    ensures forall k :: |s| - n <= k < |s| ==> isWs(s[k])
    ensures n < |s| ==> !isWs(s[|s| - 1 - n])
  {
    if |s| == 0 || !isWs(s[|s| - 1]) then 0 else 1 + Trailing(s[..|s| - 1], isWs)
  }

  /** Where the stripped text ends: after the last character that is not whitespace, at or after `Leading`. */
  function StripEnd(s: string, isWs: char -> bool): (j: nat)
    ensures Leading(s, isWs) <= j <= |s|
    ensures forall k :: j <= k < |s| ==> isWs(s[k])
    ensures j > Leading(s, isWs) ==> !isWs(s[j - 1])
  {
    var i := Leading(s, isWs);
    var t := s[i..];
    var n := Trailing(t, isWs);
    assert forall k :: i + |t| - n <= k < |s| ==> s[k] == t[k - i];
    i + |t| - n
  }

  /**
   `s` without its leading and trailing whitespace: a contiguous piece of
   `s` that neither starts nor ends with whitespace, everything cut off on
   either side being whitespace.
   */
  function Strip(s: string, isWs: char -> bool): (r: string)
    ensures exists i, j :: 0 <= i <= j <= |s| && r == s[i..j]
                           && (forall k :: 0 <= k < i ==> isWs(s[k]))
                           && (forall k :: j <= k < |s| ==> isWs(s[k]))
    ensures |r| > 0 ==> !isWs(r[0]) && !isWs(r[|r| - 1])
  {
    var i := Leading(s, isWs);
    var j := StripEnd(s, isWs);
    assert |s[i..j]| > 0 ==> s[i..j][0] == s[i] && s[i..j][j - i - 1] == s[j - 1];
    s[i..j]
  }

  /** A text that neither starts nor ends with whitespace strips to itself. */
  lemma StripUnchanged(s: string, isWs: char -> bool)
    requires |s| > 0 && !isWs(s[0]) && !isWs(s[|s| - 1])
    ensures Strip(s, isWs) == s
  {
    assert Leading(s, isWs) == 0;
    assert s[0..] == s;
  }

  /** Python `s.rstrip(c)`: `s` without the run of `c` at its end. */
  function RStripChar(s: string, c: char): (r: string)
    ensures |r| <= |s| && r == s[..|r|]
    ensures forall k :: |r| <= k < |s| ==> s[k] == c
    ensures |r| > 0 ==> r[|r| - 1] != c
  {
    if |s| > 0 && s[|s| - 1] == c then RStripChar(s[..|s| - 1], c) else s
  }
}
