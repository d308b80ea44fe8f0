/**
 Two display helpers of the dashboard (script.js): `formatNumber`, which
 shortens the summary totals, and `truncateText`, which shortens captions.

 `toFixed(1)` and `toString` are kept symbolic, as in `Cells`: a shown
 number is its value and its suffix, not its digits. Texts are JavaScript
 strings, sequences of UTF-16 code units, so a character beyond U+FFFF
 counts twice towards `length`.
 */
module Display {
  import opened Outcomes
  import opened Cells

  /** What `formatNumber` shows. */
  datatype Shown =
    | Zero                                // the text "0"
    | Suffixed(mantissa: real, unit: Unit) // (num / magnitude).toFixed(1) and the suffix
    | Plain(x: real)                       // num.toString()

  /**
   `formatNumber`: a falsy input (missing or zero) shows "0"; from a
   billion on the suffix is B, from a million M, from a thousand K; a
   smaller number, negative ones included, is shown as it is.
   */
  function FormatNumber(num: Option<real>): (r: Shown)
    ensures r.Zero? <==> num.None? || num.value == 0.0
    ensures r.Suffixed? ==> num.Some? && r.mantissa * Magnitude(r.unit) == num.value && r.mantissa >= 1.0
    ensures r.Suffixed? && r.unit != B ==> r.mantissa < 1000.0
    ensures num.Some? && num.value != 0.0 ==>
              && (num.value >= 1000000000.0 <==> r.Suffixed? && r.unit == B)
              && (1000000.0 <= num.value < 1000000000.0 <==> r.Suffixed? && r.unit == M)
              && (1000.0 <= num.value < 1000000.0 <==> r.Suffixed? && r.unit == K)
              && (num.value < 1000.0 <==> r == Plain(num.value))
  {
    match num
    case None => Zero
    case Some(x) =>
      if x == 0.0 then Zero
      else if x >= 1000000000.0 then Suffixed(x / 1000000000.0, B)
      else if x >= 1000000.0 then Suffixed(x / 1000000.0, M)
      else if x >= 1000.0 then Suffixed(x / 1000.0, K)
      else Plain(x)
  }

  /**
   Between a thousand and a billion the dashboard shortens a number with
   the same suffix and mantissa as the converters' `format_number`; from a
   billion on the converters keep counting millions where the dashboard
   switches to billions.
   */
  lemma SuffixAgreesWithConverters(x: real)
    requires x >= 1000.0
    ensures FormatNumber(Some(x)).Suffixed?
    ensures Cells.FormatNumber(Num(x)).Ok? && Cells.FormatNumber(Num(x)).value.Some?
    ensures var py := Cells.FormatNumber(Num(x)).value.value;
            x < 1000000000.0 ==> py == Scaled(FormatNumber(Some(x)).mantissa, FormatNumber(Some(x)).unit)
    ensures var py := Cells.FormatNumber(Num(x)).value.value;
            x >= 1000000000.0 ==> FormatNumber(Some(x)).unit == B && py.Scaled? && py.unit == M
  {
  }

  /** A UTF-16 code unit: JavaScript strings are sequences of these. */
  newtype CodeUnit = x: int | 0 <= x < 0x1_0000

  /** A JavaScript string; `length` and `substring` count code units. */
  type JsText = seq<CodeUnit>

  /** One character in UTF-16: itself below U+10000, otherwise a surrogate pair. */
  function EncodeChar(c: char): (r: JsText)
    ensures (c as int < 0x1_0000) <==> |r| == 1
    ensures (c as int >= 0x1_0000) <==> |r| == 2
  {
    var v := c as int;
    if v < 0x1_0000 then [v as CodeUnit]
    else
      var w := v - 0x1_0000;
      [(0xD800 + w / 0x400) as CodeUnit, (0xDC00 + w % 0x400) as CodeUnit]
  }

  /** The UTF-16 form of a text, as a JavaScript engine holds a caption read from JSON. */
  function Utf16(s: string): (r: JsText)
    ensures |r| >= |s|
  {
    if |s| == 0 then [] else EncodeChar(s[0]) + Utf16(s[1..])
  }

  /** A text without characters beyond U+FFFF has as many code units as characters. */
  lemma {:induction false} Utf16Basic(s: string)
    requires forall i :: 0 <= i < |s| ==> s[i] as int < 0x1_0000
    ensures |Utf16(s)| == |s|
  {
    if |s| > 0 {
      Utf16Basic(s[1..]);
    }
  }

  /** A text made only of characters beyond U+FFFF (emoji, say) has two code units per character. */
  lemma {:induction false} Utf16Astral(s: string)
    requires forall i :: 0 <= i < |s| ==> s[i] as int >= 0x1_0000
    ensures |Utf16(s)| == 2 * |s|
  {
    if |s| > 0 {
      Utf16Astral(s[1..]);
    }
  }

  const Ellipsis: JsText := [0x2E, 0x2E, 0x2E]  // "..."

  /**
   `truncateText`: a missing or empty text gives ""; a text of at most
   `maxLength` code units is kept; a longer one is cut to its first
   `maxLength` code units followed by "...".
   */
  function TruncateText(text: Option<JsText>, maxLength: nat): (r: JsText)
    ensures text.None? ==> r == []
    ensures text.Some? && |text.value| <= maxLength ==> r == text.value
    ensures text.Some? && |text.value| > maxLength ==>
              |r| == maxLength + |Ellipsis| && r[..maxLength] == text.value[..maxLength] && r[maxLength..] == Ellipsis
    ensures |r| <= maxLength + |Ellipsis|
  {
    match text
    case None => []
    case Some(s) => if s == [] then [] else if |s| <= maxLength then s else s[..maxLength] + Ellipsis
  }

  /**
   Lengths are code units, not characters: a caption of more than half
   `maxLength` emoji and at most `maxLength` of them is still cut.
   */
  lemma EmojiCaptionIsCut(caption: string, maxLength: nat)
    requires forall i :: 0 <= i < |caption| ==> caption[i] as int >= 0x1_0000
    requires maxLength < 2 * |caption|
    ensures |TruncateText(Some(Utf16(caption)), maxLength)| == maxLength + |Ellipsis|
  {
    Utf16Astral(caption);
  }

  /** Truncating an already truncated text changes nothing more. */
  lemma TruncateIdempotent(text: Option<JsText>, maxLength: nat)
    ensures TruncateText(Some(TruncateText(text, maxLength)), maxLength) == TruncateText(text, maxLength)
  {
    var once := TruncateText(text, maxLength);
    if |once| > maxLength {
      assert once[..maxLength] + Ellipsis == once;
    }
  }
}
