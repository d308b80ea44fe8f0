/**
 A spreadsheet as pandas reads it (`pd.read_excel`): named columns in
 order, and rows that map every column name to a cell. Column access
 raises KeyError for a name that is not a column.

 The column aggregates `df[col].sum()` and `df[col].mean()` skip NA cells,
 and the converters turn them into summary numbers with
 `int(s) if not pd.isna(s) else 0` and `float(m) if not pd.isna(m) else 0`.
 */
module Sheets {
  import opened Outcomes
  import opened Cells
  import opened Strings

  type Row = map<string, Cell>

  datatype Sheet = Sheet(columns: seq<string>, rows: seq<Row>)

  /** Every row has exactly the sheet's columns. */
  ghost predicate WellFormed(sh: Sheet) {
    forall i, c :: 0 <= i < |sh.rows| ==> (c in sh.rows[i] <==> c in sh.columns)
  }

  type Frame = sh: Sheet | WellFormed(sh) witness Sheet([], [])

  /** `df[col]` as a sequence of cells, row by row. */
  function ColumnCells(sh: Frame, col: string): (r: Result<seq<Cell>>)
    ensures r.Err? <==> col !in sh.columns
    ensures r.Err? ==> r.error == KeyError(col)
    ensures r.Ok? ==> |r.value| == |sh.rows|
    ensures r.Ok? ==> forall i :: 0 <= i < |sh.rows| ==> r.value[i] == sh.rows[i][col]
  {
    if col in sh.columns then
      Ok(seq(|sh.rows|, i requires 0 <= i < |sh.rows| => sh.rows[i][col]))
    else Err(KeyError(col))
  }

  /** Reference sum of the finite numbers of a column. */
  function NumberSum(cells: seq<Cell>): real {
    if |cells| == 0 then 0.0
    else (if cells[0].Num? then cells[0].x else 0.0) + NumberSum(cells[1..])
  }

  /** Number of non-NA cells (`Series.count()`). */
  function CountPresent(cells: seq<Cell>): nat {
    if |cells| == 0 then 0
    else (if IsNA(cells[0]) then 0 else 1) + CountPresent(cells[1..])
  }

  /** The column holds only numbers (finite or not) and NA cells. */
  predicate Numeric(cells: seq<Cell>) {
    forall i :: 0 <= i < |cells| ==> !cells[i].Text? && !cells[i].Stamp?
  }

  /** The column holds only finite numbers and NA cells. */
  predicate FiniteNumeric(cells: seq<Cell>) {
    forall i :: 0 <= i < |cells| ==> !cells[i].Text? && !cells[i].Stamp? && !cells[i].Inf?
  }

  /**
   `Series.sum()` with NA skipped, of a column that is not all strings. A
   string or date-time among numbers or NA cells cannot be added
   (TypeError); a column of strings only is joined instead (`Concat`).
   */
  function ColumnSum(cells: seq<Cell>): (r: Result<Ext>)
    ensures r.Ok? <==> Numeric(cells)
    ensures r.Err? ==> r.error == TypeError
  {
    if |cells| == 0 then Ok(Fin(0.0))
    else
      var rest :- ColumnSum(cells[1..]);
      match cells[0]
      case Empty => Ok(rest)
      case NaN => Ok(rest)
      case Num(x) => Ok(Add(Fin(x), rest))
      case Inf(negative) => Ok(Add(if negative then NegInf else PosInf, rest))
      case Text(_) => Err(TypeError)
      case Stamp(_) => Err(TypeError)
  }

  /** On finite numbers the float sum is the ordinary sum. */
  lemma {:induction false} ColumnSumFinite(cells: seq<Cell>)
    requires FiniteNumeric(cells)
    ensures ColumnSum(cells) == Ok(Fin(NumberSum(cells)))
  {
    if |cells| > 0 {
      ColumnSumFinite(cells[1..]);
    }
  }

  /** `Series.mean()`: the sum over the count of non-NA cells, NaN when there are none. */
  function ColumnMean(cells: seq<Cell>): Result<Ext> {
    var s :- ColumnSum(cells);
    var n := CountPresent(cells);
    if n == 0 then Ok(NotANumber) else Ok(Over(s, n))
  }

  /** The column holds only strings, at least one of them. */
  predicate AllText(cells: seq<Cell>) {
    |cells| > 0 && forall i :: 0 <= i < |cells| ==> cells[i].Text?
  }

  /** The strings of a column joined in row order. */
  function Concat(cells: seq<Cell>): string {
    if |cells| == 0 then ""
    else (if cells[0].Text? then cells[0].s else "") + Concat(cells[1..])
  }

  predicate IsDigit(c: char) {
    '0' <= c <= '9'
  }

  /**
   The digits `int()` accepts after the sign: ASCII digits, an underscore
   allowed only between two digits.
   */
  predicate DigitRun(s: string) {
    && |s| > 0 && IsDigit(s[0]) && IsDigit(s[|s| - 1])
    && (forall i :: 0 <= i < |s| ==> IsDigit(s[i]) || s[i] == '_')
    && (forall i :: 0 < i < |s| ==> s[i - 1] == '_' ==> s[i] != '_')
  }

  /** The value of a run of decimal digits, underscores skipped. */
  function DigitsValue(s: string): nat {
    if |s| == 0 then 0
    else if IsDigit(s[|s| - 1]) then 10 * DigitsValue(s[..|s| - 1]) + (s[|s| - 1] as int - '0' as int)
    else DigitsValue(s[..|s| - 1])
  }

  /** An optional sign followed by a digit run, read as an integer. */
  function SignedValue(t: string): (r: Result<int>)
    ensures r.Ok? <==> |t| > 0 && (DigitRun(t) || ((t[0] == '-' || t[0] == '+') && DigitRun(t[1..])))
    ensures r.Err? ==> r.error == ValueError
    ensures r.Ok? && r.value < 0 ==> t[0] == '-'
  {
    if |t| > 0 && (t[0] == '-' || t[0] == '+') then
      if DigitRun(t[1..]) then
        var v: int := DigitsValue(t[1..]);
        Ok(if t[0] == '-' then -v else v)
      else Err(ValueError)
    else if DigitRun(t) then Ok(DigitsValue(t))
    else Err(ValueError)
  }

  /**
   Python `int(text)`: the text stripped of whitespace, then an optional
   sign, then a digit run; anything else raises ValueError.
   */
  function IntOfText(text: string): (r: Result<int>)
    ensures r.Err? ==> r.error == ValueError
    ensures r.Ok? <==> var t := Strip(text, IsPyWhitespace);
                       |t| > 0 && (DigitRun(t) || ((t[0] == '-' || t[0] == '+') && DigitRun(t[1..])))
    ensures r.Ok? && r.value < 0 ==> Strip(text, IsPyWhitespace)[0] == '-'
  {
    SignedValue(Strip(text, IsPyWhitespace))
  }

  /** Python `str(n)` of a non-negative integer. */
  function ShowNat(n: nat): (r: string)
    ensures |r| > 0 && forall i :: 0 <= i < |r| ==> IsDigit(r[i])
  {
    var d := [('0' as int + n % 10) as char];
    if n < 10 then d else ShowNat(n / 10) + d
  }

  /** Python `str(n)`. */
  function Show(n: int): string {
    if n < 0 then "-" + ShowNat(-n) else ShowNat(n)
  }

  lemma {:induction false} DigitsValueShowNat(n: nat)
    ensures DigitsValue(ShowNat(n)) == n
  {
    var r := ShowNat(n);
    if n >= 10 {
      DigitsValueShowNat(n / 10);
      assert r[..|r| - 1] == ShowNat(n / 10);
    }
  }

  /** `int()` of a run of plain digits is their value. */
  lemma IntOfDigits(digits: string)
    requires |digits| > 0 && forall i :: 0 <= i < |digits| ==> IsDigit(digits[i])
    ensures IntOfText(digits) == Ok(DigitsValue(digits))
  {
    StripUnchanged(digits, IsPyWhitespace);
    assert DigitRun(digits);
  }

  /** A minus sign and a run of plain digits read as minus their value. */
  lemma SignedNegated(digits: string)
    requires |digits| > 0 && forall i :: 0 <= i < |digits| ==> IsDigit(digits[i])
    ensures SignedValue("-" + digits) == Ok(-(DigitsValue(digits) as int))
  {
    assert ("-" + digits)[1..] == digits;
    assert DigitRun(digits);
  }

  /** `int()` of a minus sign and a run of plain digits is minus their value. */
  lemma IntOfNegatedDigits(digits: string)
    requires |digits| > 0 && forall i :: 0 <= i < |digits| ==> IsDigit(digits[i])
    ensures IntOfText("-" + digits) == Ok(-(DigitsValue(digits) as int))
  {
    var s := "-" + digits;
    assert s[|s| - 1] == digits[|digits| - 1];
    StripUnchanged(s, IsPyWhitespace);
    SignedNegated(digits);
  }

  /** `int(str(n)) == n`: the text Python prints for an integer reads back as it. */
  lemma IntOfShow(n: int)
    ensures IntOfText(Show(n)) == Ok(n)
  {
    var m: nat := if n < 0 then -n else n;
    DigitsValueShowNat(m);
    if n < 0 {
      IntOfNegatedDigits(ShowNat(m));
    } else {
      IntOfDigits(ShowNat(m));
    }
  }

  /**
   A summary total: `int(sum)`, or 0 when the sum is NaN (an infinity of
   each sign); `int()` of an infinity of one sign raises OverflowError.
   pandas sums a column of strings only by joining them, and `int()` of
   the joined text is a number or a ValueError; any other string or
   date-time in the column cannot be added (TypeError).
   */
  function TotalOf(cells: seq<Cell>): (r: Result<int>)
    ensures !Numeric(cells) && !AllText(cells) ==> r == Err(TypeError)
    ensures AllText(cells) ==> r == IntOfText(Concat(cells))
    ensures r.Err? && Numeric(cells) ==> r.error == OverflowError
    ensures Numeric(cells) ==> (r.Err? <==> ColumnSum(cells).value.PosInf? || ColumnSum(cells).value.NegInf?)
    ensures Numeric(cells) && ColumnSum(cells) == Ok(NotANumber) ==> r == Ok(0)
    ensures Numeric(cells) && ColumnSum(cells).value.Fin? ==> r == Ok(Trunc(ColumnSum(cells).value.r))
  {
    if AllText(cells) then IntOfText(Concat(cells))
    else
      var s :- ColumnSum(cells);
      match s
      case NotANumber => Ok(0)
      case Fin(x) => Ok(Trunc(x))
      case PosInf => Err(OverflowError)
      case NegInf => Err(OverflowError)
  }

  /** A column of one string totals `int()` of that string. */
  lemma TotalOfOneText(t: string)
    ensures TotalOf([Text(t)]) == IntOfText(t)
  {
    var cells := [Text(t)];
    assert AllText(cells);
    assert cells[1..] == [];
    assert Concat(cells) == t + "" == t;
  }

  /** pandas joins a column of strings before `int()` reads it: a column of two strings totals `int()` of the two joined. */
  lemma TotalOfTwoTexts(a: string, b: string)
    ensures TotalOf([Text(a), Text(b)]) == IntOfText(a + b)
  {
    var cells := [Text(a), Text(b)];
    assert AllText(cells);
    assert cells[1..] == [Text(b)] && cells[1..][1..] == [];
    assert Concat(cells[1..]) == b + "" == b;
    assert Concat(cells) == a + b;
  }

  /** A column holding the text of one integer totals that integer. */
  lemma TotalOfIntegerText(n: int)
    ensures TotalOf([Text(Show(n))]) == Ok(n)
  {
    TotalOfOneText(Show(n));
    IntOfShow(n);
  }


  /**
   A summary average: `float(mean)`, or 0 when the mean is NaN, which is
   the case for a column without any number.
   */
  function AverageOf(cells: seq<Cell>): (r: Result<Ext>)
    ensures r.Ok? <==> Numeric(cells)
    ensures r.Ok? ==> r.value != NotANumber
    ensures Numeric(cells) && CountPresent(cells) == 0 ==> r == Ok(Fin(0.0))
    ensures Numeric(cells) && ColumnMean(cells) == Ok(NotANumber) ==> r == Ok(Fin(0.0))
    ensures Numeric(cells) && ColumnMean(cells) != Ok(NotANumber) ==> r == ColumnMean(cells)
  {
    var m :- ColumnMean(cells);
    if m == NotANumber then Ok(Fin(0.0)) else Ok(m)
  }

  /**
   A column holding both infinities sums to NaN, so its total is 0 and its
   average 0.0 rather than an overflow.
   */
  lemma BothInfinities()
    ensures TotalOf([Inf(false), Inf(true)]) == Ok(0)
    ensures AverageOf([Inf(false), Inf(true)]) == Ok(Fin(0.0))
  {
    var cells := [Inf(false), Inf(true)];
    assert cells[1..] == [Inf(true)];
    assert cells[1..][1..] == [];
    assert ColumnSum(cells[1..]) == Ok(NegInf);
    assert ColumnSum(cells) == Ok(NotANumber);
  }

  /** On finite numbers a total is the integer part of the ordinary sum. */
  lemma TotalOfFinite(cells: seq<Cell>)
    requires FiniteNumeric(cells)
    ensures TotalOf(cells) == Ok(Trunc(NumberSum(cells)))
  {
    ColumnSumFinite(cells);
  }

  /** On finite numbers an average is the ordinary mean of the present cells. */
  lemma AverageOfFinite(cells: seq<Cell>)
    requires FiniteNumeric(cells) && CountPresent(cells) > 0
    ensures AverageOf(cells) == Ok(Fin(NumberSum(cells) / CountPresent(cells) as real))
  {
    ColumnSumFinite(cells);
  }
}
