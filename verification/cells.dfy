/**
 Spreadsheet cells as pandas hands them to the converters, the JSON values
 the converters write, and the two per-cell helpers every converter
 repeats: `safe_value` and `format_number`.

 A number is a `real`; the binary rounding of Python floats is not
 modelled. The decimal text Python prints for a number (`str(x)`,
 `f"{x:.1f}"`) is kept symbolic: `Value.Decimal(x)` is "the text `str(x)`"
 and `Shorthand.Scaled(m, u)` is "the text of `m` to one decimal, then the
 suffix `u`".
 */
module Cells {
  import opened Outcomes

  /** One spreadsheet cell as pandas reads it. */
  datatype Cell =
    | Empty                  // a blank cell: None, NaT or pandas NA
    | NaN                    // float('nan')
    | Inf(negative: bool)    // float('inf') or float('-inf')
    | Num(x: real)           // a finite int or float
    | Text(s: string)        // a string
    | Stamp(shown: string)   // a date-time, carrying the text str() gives it

  /** `pd.isna(c)`: blank or NaN; infinities are not NA. */
  predicate IsNA(c: Cell) {
    c.Empty? || c.NaN?
  }

  /** The display suffixes: thousand, million, billion. */
  datatype Unit = K | M | B

  function Magnitude(u: Unit): real {
    match u
    case K => 1000.0
    case M => 1000000.0
    case B => 1000000000.0
  }

  /** A shortened number as `format_number` writes it. */
  datatype Shorthand =
    | Scaled(mantissa: real, unit: Unit)   // f"{mantissa:.1f}" followed by the suffix
    | Whole(n: int)                        // str(int(num))
    | InfMillions                          // f"{inf/1000000:.1f}M", the text "infM"

  /** The suffix a shorthand carries, if any. */
  function UnitOf(f: Shorthand): Option<Unit> {
    match f
    case Scaled(_, u) => Some(u)
    case Whole(_) => None
    case InfMillions => Some(M)
  }

  /** One value of the written JSON. */
  datatype Value =
    | Null                              // JSON null
    | Number(x: real)                   // a finite JSON number
    | Str(s: string)                    // a JSON string
    | Short(f: Shorthand)               // a string produced by format_number
    | Decimal(x: real)                  // the string str(x) of a finite number
    | ImagePath(folder: string, id: Value)  // the string "<folder>/<id>.jpg"

  /**
   `safe_value`: a blank, NaN or infinite cell becomes null; every other
   cell is kept as it is (a date-time is written as its text, which is what
   `json.dump(..., default=str)` does with it).
   */
  function SafeValue(c: Cell): (v: Value)
    ensures v.Null? <==> IsNA(c) || c.Inf?
    ensures c.Num? ==> v == Number(c.x)
    ensures c.Text? ==> v == Str(c.s)
    ensures c.Stamp? ==> v == Str(c.shown)
  {
    match c
    case Empty => Null
    case NaN => Null
    case Inf(_) => Null
    case Num(x) => Number(x)
    case Text(s) => Str(s)
    case Stamp(t) => Str(t)
  }

  /** Python `int(x)` of a finite float: rounds toward zero. */
  function Trunc(x: real): (n: int)
    ensures x >= 0.0 ==> n as real <= x < n as real + 1.0
    ensures x < 0.0 ==> n as real - 1.0 < x <= n as real
  {
    if x >= 0.0 then x.Floor else -((-x).Floor)
  }

  /**
   `format_number`: NaN or blank gives None; at least one million gets the
   suffix M, at least one thousand gets K, anything smaller is the integer
   part. There is no billion tier. A string or date-time cell cannot be
   compared with a number (TypeError); `-inf` reaches `int()` (OverflowError);
   `+inf` passes the million test and prints as "infM".
   */
  function FormatNumber(c: Cell): (r: Result<Option<Shorthand>>)
    ensures r == Ok(None) <==> IsNA(c)
    ensures r.Err? <==> c.Text? || c.Stamp? || c == Inf(true)
    ensures r.Ok? && r.value.Some? ==> UnitOf(r.value.value) != Some(B)
    ensures c.Num? ==> r.Ok? && r.value.Some?
    ensures c.Num? ==> (UnitOf(r.value.value) == Some(M) <==> c.x >= 1000000.0)
    ensures c.Num? ==> (UnitOf(r.value.value) == Some(K) <==> 1000.0 <= c.x < 1000000.0)
    ensures c.Num? ==> (UnitOf(r.value.value) == None <==> c.x < 1000.0)
    ensures c.Num? && r.value.value.Scaled? ==>
              r.value.value.mantissa * Magnitude(r.value.value.unit) == c.x
              && 1.0 <= r.value.value.mantissa
    ensures c.Num? && r.value.value.Scaled? && r.value.value.unit == K ==> r.value.value.mantissa < 1000.0
    ensures c.Num? && r.value.value.Whole? ==> r.value.value.n == Trunc(c.x)
  {
    match c
    case Empty => Ok(None)
    case NaN => Ok(None)
    case Inf(negative) => if negative then Err(OverflowError) else Ok(Some(InfMillions))
    case Num(x) =>
      if x >= 1000000.0 then Ok(Some(Scaled(x / 1000000.0, M)))
      else if x >= 1000.0 then Ok(Some(Scaled(x / 1000.0, K)))
      else Ok(Some(Whole(Trunc(x))))
    case Text(_) => Err(TypeError)
    case Stamp(_) => Err(TypeError)
  }

  /**
   `str(cell) if pd.notna(cell) else None`, as the converters write the
   upload time: NA gives null, every other cell its text.
   */
  function Stringify(c: Cell): (v: Value)
    ensures v.Null? <==> IsNA(c)
    ensures c.Text? ==> v == Str(c.s)
    ensures c.Stamp? ==> v == Str(c.shown)
    ensures c.Num? ==> v == Decimal(c.x)
    ensures c.Inf? ==> v == Str(if c.negative then "-inf" else "inf")
  {
    match c
    case Empty => Null
    case NaN => Null
    case Inf(negative) => Str(if negative then "-inf" else "inf")
    case Num(x) => Decimal(x)
    case Text(s) => Str(s)
    case Stamp(t) => Str(t)
  }

  /**
   Python truthiness of a value read back from the JSON: null, zero and the
   empty string are false; every other value, including every text the
   converters and downloaders produce symbolically, is a non-empty string
   or a non-zero number.
   */
  predicate Truthy(v: Value) {
    match v
    case Null => false
    case Number(x) => x != 0.0
    case Str(s) => s != ""
    case Short(_) => true
    case Decimal(_) => true
    case ImagePath(_, _) => true
  }

  /** An IEEE double seen only as finite, infinite or NaN. */
  datatype Ext = Fin(r: real) | PosInf | NegInf | NotANumber

  /** Float addition. */
  function Add(a: Ext, b: Ext): Ext {
    match (a, b)
    case (Fin(x), Fin(y)) => Fin(x + y)
    case (NotANumber, _) => NotANumber
    case (_, NotANumber) => NotANumber
    case (PosInf, NegInf) => NotANumber
    case (NegInf, PosInf) => NotANumber
    case (PosInf, _) => PosInf
    case (_, PosInf) => PosInf
    case (NegInf, _) => NegInf
    case (_, NegInf) => NegInf
  }

  /** A float times a non-negative count (`inf * 0` is NaN). */
  function Times(a: Ext, n: nat): Ext {
    match a
    case Fin(x) => Fin(x * n as real)
    case NotANumber => NotANumber
    case PosInf => if n == 0 then NotANumber else PosInf
    case NegInf => if n == 0 then NotANumber else NegInf
  }

  /** A float divided by a positive count. */
  function Over(a: Ext, n: nat): Ext
    requires n > 0
  {
    match a
    case Fin(x) => Fin(x / n as real)
    case _ => a
  }
}
