/**
 The `main` of `convert_data_enhanced.py`: convert the regular sheet (the
 enhanced file, else the plain one, else nothing) and the sales sheet (if
 its file exists), put the regular records before the sales records,
 renumber every record from 1 while keeping its old number as
 `original_id`, and add a combined summary whose totals are sums and whose
 rates are averages weighted by record count.

 A missing file contributes no records and the empty summary `{}`, whose
 `.get(key, 0)` is 0 (`None` here).
 */
module Combine {
  import opened Outcomes
  import opened Cells
  import opened Sheets
  import opened Converters
  import C = Columns

  /**
   One record of the renumbering loop: its old id kept as `original_id`
   and its id replaced by `number`; no other key is added or changed.
   */
  function Renumbered(rec: Record, number: nat): (r: Record)
    requires Id in rec
    ensures forall k :: k in r <==> k in rec || k == OriginalId
    ensures Id in r && r[Id] == Number(number as real)
    ensures OriginalId in r && r[OriginalId] == rec[Id]
    ensures forall k :: k in rec && k != Id && k != OriginalId ==> r[k] == rec[k]
  {
    rec[OriginalId := rec[Id]][Id := Number(number as real)]
  }

  /** The renumbering loop: record `i` is renumbered `i + 1`. Every record of the converters carries an id. */
  function Renumber(records: seq<Record>): (r: seq<Record>)
    requires HasIds(records)
    ensures |r| == |records|
    ensures forall i :: 0 <= i < |r| ==> Id in records[i] && r[i] == Renumbered(records[i], i + 1)
  {
    seq(|records|, i requires 0 <= i < |records| => Renumbered(records[i], i + 1))
  }

  /** After renumbering, no two records share an id. */
  lemma RenumberDistinct(records: seq<Record>, i: nat, j: nat)
    requires HasIds(records)
    requires i < |records| && j < |records| && i != j
    ensures Renumber(records)[i][Id] != Renumber(records)[j][Id]
  {
  }

  /** The combined summary `all` (its key order is not modelled). */
  datatype Totals = Totals(
    influencers: nat,  // total_influencers
    views: int,
    followers: int,
    likes: int,
    comments: int,
    shares: int,
    engagement: Ext,   // avg_engagement_rate
    cpm: Ext           // avg_cpm
  )

  /** The empty summary `{}`: every `.get(key, 0)` of it is 0. */
  const NoSummary: Summary := Summary(0, 0, 0, Fin(0.0), Fin(0.0), 0, 0, 0)

  /** A side's summary, or the empty one when its file is missing. */
  function OrEmpty(s: Option<Summary>): Summary {
    if s.Some? then s.value else NoSummary
  }

  /**
   One combined rate: 0 when there are no records at all; the average of
   the two rates weighted by record count when both sides have records;
   otherwise the rate of the one side that has records.
   */
  function Blend(regular: Ext, nr: nat, sales: Ext, ns: nat): (r: Ext)
    ensures nr + ns == 0 ==> r == Fin(0.0)
    ensures nr > 0 && ns == 0 ==> r == regular
    ensures nr == 0 && ns > 0 ==> r == sales
    ensures nr > 0 && ns > 0 && regular.Fin? && sales.Fin? ==>
              r == Fin((regular.r * nr as real + sales.r * ns as real) / (nr + ns) as real)
  {
    if nr + ns == 0 then Fin(0.0)
    else if nr > 0 && ns > 0 then Over(Add(Times(regular, nr), Times(sales, ns)), nr + ns)
    else if nr > 0 then regular
    else sales
  }

  /** With finite rates on both sides the blend lies between them. */
  lemma BlendBetween(x: real, nr: nat, y: real, ns: nat)
    requires nr > 0 && ns > 0
    ensures Blend(Fin(x), nr, Fin(y), ns).Fin?
    ensures x <= y ==> x <= Blend(Fin(x), nr, Fin(y), ns).r <= y
    ensures y <= x ==> y <= Blend(Fin(x), nr, Fin(y), ns).r <= x
  {
    var n := (nr + ns) as real;
    var sum := x * nr as real + y * ns as real;
    assert Blend(Fin(x), nr, Fin(y), ns) == Fin(sum / n);
    if x <= y {
      assert x * n <= sum <= y * n;
    } else {
      assert y * n <= sum <= x * n;
    }
  }

  /** Blending two equal finite rates gives that rate. */
  lemma BlendSame(x: real, nr: nat, ns: nat)
    requires nr + ns > 0
    ensures Blend(Fin(x), nr, Fin(x), ns) == Fin(x)
  {
    if nr > 0 && ns > 0 {
      BlendBetween(x, nr, x, ns);
    }
  }

  /** The combined summary of one side alone: its totals, and its rates unless it has no records. */
  function AsTotals(s: Summary, n: nat): Totals {
    Totals(n, s.views, s.followers, s.likes, s.comments, s.shares,
           if n == 0 then Fin(0.0) else s.engagement,
           if n == 0 then Fin(0.0) else s.cpm)
  }

  /**
   The summary `all`: totals add up the two sides and rates are blended,
   so a side without a file and without records leaves the other side's
   summary as it is.
   */
  function CombineSummaries(regular: Option<Summary>, nr: nat, sales: Option<Summary>, ns: nat): (t: Totals)
    ensures t.influencers == nr + ns
    ensures t.views == OrEmpty(regular).views + OrEmpty(sales).views
    ensures t.followers == OrEmpty(regular).followers + OrEmpty(sales).followers
    ensures t.likes == OrEmpty(regular).likes + OrEmpty(sales).likes
    ensures t.comments == OrEmpty(regular).comments + OrEmpty(sales).comments
    ensures t.shares == OrEmpty(regular).shares + OrEmpty(sales).shares
    ensures t.engagement == Blend(OrEmpty(regular).engagement, nr, OrEmpty(sales).engagement, ns)
    ensures t.cpm == Blend(OrEmpty(regular).cpm, nr, OrEmpty(sales).cpm, ns)
    ensures sales.None? && ns == 0 ==> t == AsTotals(OrEmpty(regular), nr)
    ensures regular.None? && nr == 0 ==> t == AsTotals(OrEmpty(sales), ns)
  {
    var r, s := OrEmpty(regular), OrEmpty(sales);
    Totals(
      nr + ns,
      r.views + s.views,
      r.followers + s.followers,
      r.likes + s.likes,
      r.comments + s.comments,
      r.shares + s.shares,
      Blend(r.engagement, nr, s.engagement, ns),
      Blend(r.cpm, nr, s.cpm, ns))
  }

  /** One side after conversion: its records and its summary, or nothing. */
  function Side(conv: Converter, sheet: Option<Frame>): (r: Result<Option<Converted>>)
    ensures sheet.None? ==> r == Ok(None)
    ensures sheet.Some? ==> r.Ok? == Process(conv, sheet.value).Ok?
    ensures sheet.Some? && r.Ok? ==> r.value == Some(Process(conv, sheet.value).value)
  {
    if sheet.None? then Ok(None)
    else
      var out :- Process(conv, sheet.value);
      Ok(Some(out))
  }

  function DataOf(c: Option<Converted>): seq<Record> {
    if c.Some? then c.value.data else []
  }

  function SummaryOf(c: Option<Converted>): Option<Summary> {
    if c.Some? then Some(c.value.summary) else None
  }

  /** The written document: three summaries and the renumbered records. */
  datatype CombinedDocument = CombinedDocument(
    all: Totals,
    regular: Option<Summary>,
    sales: Option<Summary>,
    data: seq<Record>)

  /** Every record carries an id. */
  predicate HasIds(records: seq<Record>) {
    forall i :: 0 <= i < |records| ==> Id in records[i]
  }

  /** The document written once both sides are converted. */
  function Assemble(regular: Option<Converted>, sales: Option<Converted>): (doc: CombinedDocument)
    requires HasIds(DataOf(regular)) && HasIds(DataOf(sales))
    ensures |doc.data| == |DataOf(regular)| + |DataOf(sales)| == doc.all.influencers
    ensures doc.regular == SummaryOf(regular) && doc.sales == SummaryOf(sales)
  {
    var records := DataOf(regular) + DataOf(sales);
    assert HasIds(records) by {
      forall i | 0 <= i < |records| ensures Id in records[i] {
        if i >= |DataOf(regular)| {
          assert records[i] == DataOf(sales)[i - |DataOf(regular)|];
        }
      }
    }
    var all := CombineSummaries(SummaryOf(regular), |DataOf(regular)|, SummaryOf(sales), |DataOf(sales)|);
    CombinedDocument(all, SummaryOf(regular), SummaryOf(sales), Renumber(records))
  }

  /**
   `main` of convert_data_enhanced.py, with the three spreadsheet files
   given as present or absent. The enhanced regular file wins over the
   plain one; the records of each side are tagged with its type.
   */
  function ConvertEnhanced(enhancedSheet: Option<Frame>, plainSheet: Option<Frame>, salesSheet: Option<Frame>)
    : (r: Result<CombinedDocument>)
    ensures r.Ok? ==> r.value.all.influencers == |r.value.data|
    ensures r.Ok? <==> Side(Enhanced("regular"), RegularSheet(enhancedSheet, plainSheet)).Ok?
                       && Side(Enhanced("sales"), salesSheet).Ok?
    ensures Side(Enhanced("regular"), RegularSheet(enhancedSheet, plainSheet)).Err? ==>
              r == Err(Side(Enhanced("regular"), RegularSheet(enhancedSheet, plainSheet)).error)
    ensures Side(Enhanced("regular"), RegularSheet(enhancedSheet, plainSheet)).Ok?
            && Side(Enhanced("sales"), salesSheet).Err? ==>
              r == Err(Side(Enhanced("sales"), salesSheet).error)
  {
    var regularSheet := RegularSheet(enhancedSheet, plainSheet);
    var regular := Side(Enhanced("regular"), regularSheet);
    var sales := Side(Enhanced("sales"), salesSheet);
    if regular.Err? then Err(regular.error)
    else if sales.Err? then Err(sales.error)
    else
      AllHaveIds(Enhanced("regular"), regularSheet);
      AllHaveIds(Enhanced("sales"), salesSheet);
      Ok(Assemble(regular.value, sales.value))
  }

  /** With none of the three files the script writes no records and zero totals. */
  lemma EnhancedNoFiles(enhancedSheet: Option<Frame>, plainSheet: Option<Frame>, salesSheet: Option<Frame>)
    requires enhancedSheet.None? && plainSheet.None? && salesSheet.None?
    ensures var r := ConvertEnhanced(enhancedSheet, plainSheet, salesSheet);
            r.Ok? && r.value.data == [] && r.value.all.influencers == 0 && r.value.all.views == 0
            && r.value.regular.None? && r.value.sales.None?
  {
    var doc := Assemble(None, None);
    assert |doc.data| == 0;
  }

  /** A successful conversion is the assembly of its two converted sides. */
  lemma EnhancedParts(enhancedSheet: Option<Frame>, plainSheet: Option<Frame>, salesSheet: Option<Frame>)
    requires ConvertEnhanced(enhancedSheet, plainSheet, salesSheet).Ok?
    ensures Side(Enhanced("regular"), RegularSheet(enhancedSheet, plainSheet)).Ok?
    ensures Side(Enhanced("sales"), salesSheet).Ok?
    ensures var regular := Side(Enhanced("regular"), RegularSheet(enhancedSheet, plainSheet)).value;
            var sales := Side(Enhanced("sales"), salesSheet).value;
            && HasIds(DataOf(regular)) && HasIds(DataOf(sales))
            && ConvertEnhanced(enhancedSheet, plainSheet, salesSheet).value == Assemble(regular, sales)
  {
    AllHaveIds(Enhanced("regular"), RegularSheet(enhancedSheet, plainSheet));
    AllHaveIds(Enhanced("sales"), salesSheet);
  }

  /**
   Record `i` of an assembly: numbered `i + 1`, keeping the id of the
   record it comes from (a regular one, then a sales one) as `original_id`
   and its type tag.
   */
  lemma AssembledRecord(regular: Option<Converted>, sales: Option<Converted>, i: nat)
    requires HasIds(DataOf(regular)) && HasIds(DataOf(sales))
    requires i < |DataOf(regular)| + |DataOf(sales)|
    ensures var nr := |DataOf(regular)|;
            var from := if i < nr then DataOf(regular)[i] else DataOf(sales)[i - nr];
            var rec := Assemble(regular, sales).data[i];
            && Id in rec && rec[Id] == Number((i + 1) as real)
            && OriginalId in rec && Id in from && rec[OriginalId] == from[Id]
            && (InfluencerType in from ==> InfluencerType in rec && rec[InfluencerType] == from[InfluencerType])
  {
    var records := DataOf(regular) + DataOf(sales);
    var nr := |DataOf(regular)|;
    assert records[i] == if i < nr then DataOf(regular)[i] else DataOf(sales)[i - nr];
  }

  /** Every converted record carries an id, so the renumbering loop never raises. */
  lemma AllHaveIds(conv: Converter, sheet: Option<Frame>)
    requires Side(conv, sheet).Ok?
    ensures HasIds(DataOf(Side(conv, sheet).value))
  {
    if sheet.Some? {
      var sh := sheet.value;
      forall i | 0 <= i < |sh.rows| ensures Id in Process(conv, sh).value.data[i] {
        RecordId(conv, sh.rows[i]);
      }
    }
  }

  /** The regular sheet the script reads: the enhanced file if present, else the plain one. */
  function RegularSheet(enhancedSheet: Option<Frame>, plainSheet: Option<Frame>): Option<Frame> {
    if enhancedSheet.Some? then enhancedSheet else plainSheet
  }

  function RowsOf(sheet: Option<Frame>): seq<Row> {
    if sheet.Some? then sheet.value.rows else []
  }

  /** The output records are the two sides' records, renumbered. */
  lemma EnhancedData(enhancedSheet: Option<Frame>, plainSheet: Option<Frame>, salesSheet: Option<Frame>)
    requires ConvertEnhanced(enhancedSheet, plainSheet, salesSheet).Ok?
    ensures Side(Enhanced("regular"), RegularSheet(enhancedSheet, plainSheet)).Ok?
    ensures Side(Enhanced("sales"), salesSheet).Ok?
    ensures var records := DataOf(Side(Enhanced("regular"), RegularSheet(enhancedSheet, plainSheet)).value)
                           + DataOf(Side(Enhanced("sales"), salesSheet).value);
            && HasIds(records)
            && ConvertEnhanced(enhancedSheet, plainSheet, salesSheet).value.data == Renumber(records)
  {
    EnhancedParts(enhancedSheet, plainSheet, salesSheet);
  }

  /** Each record of a converted side is the conversion of the row at its index. */
  lemma SideRecords(conv: Converter, sheet: Option<Frame>)
    requires Side(conv, sheet).Ok?
    ensures |DataOf(Side(conv, sheet).value)| == |RowsOf(sheet)|
    ensures forall j :: 0 <= j < |RowsOf(sheet)| ==>
              ConvertRow(conv, RowsOf(sheet)[j]) == Ok(DataOf(Side(conv, sheet).value)[j])
  {
  }

  /** Record `j` of a converted side is the conversion of row `j`. */
  lemma SideRecord(conv: Converter, sheet: Option<Frame>, j: nat)
    requires Side(conv, sheet).Ok? && j < |RowsOf(sheet)|
    ensures |DataOf(Side(conv, sheet).value)| == |RowsOf(sheet)|
    ensures ConvertRow(conv, RowsOf(sheet)[j]) == Ok(DataOf(Side(conv, sheet).value)[j])
  {
    SideRecords(conv, sheet);
  }

  /** The number of records of a converted side is its number of rows. */
  lemma SideCount(conv: Converter, sheet: Option<Frame>)
    requires Side(conv, sheet).Ok?
    ensures |DataOf(Side(conv, sheet).value)| == |RowsOf(sheet)|
  {
    SideRecords(conv, sheet);
  }

  /** One record per regular row and per sales row, and the combined count says so. */
  lemma EnhancedCount(enhancedSheet: Option<Frame>, plainSheet: Option<Frame>, salesSheet: Option<Frame>)
    requires ConvertEnhanced(enhancedSheet, plainSheet, salesSheet).Ok?
    ensures |ConvertEnhanced(enhancedSheet, plainSheet, salesSheet).value.data|
            == |RowsOf(RegularSheet(enhancedSheet, plainSheet))| + |RowsOf(salesSheet)|
            == ConvertEnhanced(enhancedSheet, plainSheet, salesSheet).value.all.influencers
  {
    EnhancedParts(enhancedSheet, plainSheet, salesSheet);
    SideCount(Enhanced("regular"), RegularSheet(enhancedSheet, plainSheet));
    SideCount(Enhanced("sales"), salesSheet);
  }

  /**
   An output record that comes from `row`: numbered `number`, keeping the
   number of its row as `original_id`, and tagged with `tag`.
   */
  predicate TaggedRecord(rec: Record, row: Row, number: nat, tag: string) {
    && C.Name(C.Number) in row
    && Id in rec && rec[Id] == Number(number as real)
    && OriginalId in rec && rec[OriginalId] == SafeValue(row[C.Name(C.Number)])
    && InfluencerType in rec && rec[InfluencerType] == Str(tag)
  }

  /** A converted record of `row`: it holds the row's number as its id and is tagged with `tag`. */
  predicate FromRow(rec: Record, row: Row, tag: string) {
    && C.Name(C.Number) in row
    && Id in rec && rec[Id] == SafeValue(row[C.Name(C.Number)])
    && InfluencerType in rec && rec[InfluencerType] == Str(tag)
  }

  /** Every record `process_excel_data` writes comes from its row so. */
  lemma ConvertedFromRow(tag: string, row: Row)
    requires ConvertRow(Enhanced(tag), row).Ok?
    ensures FromRow(ConvertRow(Enhanced(tag), row).value, row, tag)
  {
    RecordId(Enhanced(tag), row);
    TypeTag(Enhanced(tag), row);
  }

  /** A regular record keeps its row number and tag through the renumbering. */
  lemma AssembledRegular(regular: Option<Converted>, sales: Option<Converted>, i: nat, row: Row, tag: string)
    requires HasIds(DataOf(regular)) && HasIds(DataOf(sales))
    requires i < |DataOf(regular)| && FromRow(DataOf(regular)[i], row, tag)
    ensures i < |Assemble(regular, sales).data|
    ensures TaggedRecord(Assemble(regular, sales).data[i], row, i + 1, tag)
  {
    AssembledRecord(regular, sales, i);
  }

  /** A sales record, at position `k` after the regular ones, keeps its row number and tag. */
  lemma AssembledSales(regular: Option<Converted>, sales: Option<Converted>, k: nat, j: nat, row: Row, tag: string)
    requires HasIds(DataOf(regular)) && HasIds(DataOf(sales))
    requires j < |DataOf(sales)| && k == |DataOf(regular)| + j
    requires FromRow(DataOf(sales)[j], row, tag)
    ensures k < |Assemble(regular, sales).data|
    ensures TaggedRecord(Assemble(regular, sales).data[k], row, k + 1, tag)
  {
    var records := DataOf(regular) + DataOf(sales);
    assert records[k] == DataOf(sales)[j];
  }

  /**
   The regular records come first: record `i` of the regular sheet is
   record `i` of the output, numbered `i + 1`, keeping the number of its
   row as `original_id` and tagged "regular".
   */
  lemma RegularRecord(enhancedSheet: Option<Frame>, plainSheet: Option<Frame>, salesSheet: Option<Frame>, i: nat)
    requires ConvertEnhanced(enhancedSheet, plainSheet, salesSheet).Ok?
    requires i < |RowsOf(RegularSheet(enhancedSheet, plainSheet))|
    ensures var data := ConvertEnhanced(enhancedSheet, plainSheet, salesSheet).value.data;
            i < |data| && TaggedRecord(data[i], RowsOf(RegularSheet(enhancedSheet, plainSheet))[i], i + 1, "regular")
  {
    EnhancedParts(enhancedSheet, plainSheet, salesSheet);
    var regularSheet := RegularSheet(enhancedSheet, plainSheet);
    SideFromRow("regular", regularSheet, i);
    var regular := Side(Enhanced("regular"), regularSheet).value;
    var sales := Side(Enhanced("sales"), salesSheet).value;
    AssembledRegular(regular, sales, i, RowsOf(regularSheet)[i], "regular");
  }

  /**
   The sales records come last, in sheet order: record `j` of the sales
   sheet is record `k` of the output, where `k` counts every record
   before the sales ones plus `j`; it is numbered `k + 1` and tagged
   "sales".
   */
  lemma SalesRecord(enhancedSheet: Option<Frame>, plainSheet: Option<Frame>, salesSheet: Option<Frame>, j: nat)
    requires ConvertEnhanced(enhancedSheet, plainSheet, salesSheet).Ok?
    requires j < |RowsOf(salesSheet)|
    ensures var data := ConvertEnhanced(enhancedSheet, plainSheet, salesSheet).value.data;
            var k := |data| - |RowsOf(salesSheet)| + j;
            0 <= k < |data| && TaggedRecord(data[k], RowsOf(salesSheet)[j], k + 1, "sales")
  {
    EnhancedSides(enhancedSheet, plainSheet, salesSheet);
    var regular := Side(Enhanced("regular"), RegularSheet(enhancedSheet, plainSheet)).value;
    var sales := Side(Enhanced("sales"), salesSheet).value;
    SideFromRow("sales", salesSheet, j);
    var data := ConvertEnhanced(enhancedSheet, plainSheet, salesSheet).value.data;
    AssembledSales(regular, sales, |data| - |RowsOf(salesSheet)| + j, j, RowsOf(salesSheet)[j], "sales");
  }

  /** A successful conversion has converted both sides, every record with an id. */
  lemma EnhancedSides(enhancedSheet: Option<Frame>, plainSheet: Option<Frame>, salesSheet: Option<Frame>)
    requires ConvertEnhanced(enhancedSheet, plainSheet, salesSheet).Ok?
    ensures Side(Enhanced("regular"), RegularSheet(enhancedSheet, plainSheet)).Ok?
    ensures Side(Enhanced("sales"), salesSheet).Ok?
    ensures HasIds(DataOf(Side(Enhanced("regular"), RegularSheet(enhancedSheet, plainSheet)).value))
    ensures HasIds(DataOf(Side(Enhanced("sales"), salesSheet).value))
  {
    AllHaveIds(Enhanced("regular"), RegularSheet(enhancedSheet, plainSheet));
    AllHaveIds(Enhanced("sales"), salesSheet);
  }

  /** Record `j` of a converted side of `process_excel_data` comes from row `j` of its sheet. */
  lemma SideFromRow(tag: string, sheet: Option<Frame>, j: nat)
    requires Side(Enhanced(tag), sheet).Ok? && j < |RowsOf(sheet)|
    ensures |DataOf(Side(Enhanced(tag), sheet).value)| == |RowsOf(sheet)|
    ensures FromRow(DataOf(Side(Enhanced(tag), sheet).value)[j], RowsOf(sheet)[j], tag)
  {
    SideRecord(Enhanced(tag), sheet, j);
    ConvertedFromRow(tag, RowsOf(sheet)[j]);
  }

  /**
   The combined totals are the sums of the two sides' totals, a missing
   side counting 0, and the summaries of the sides are the ones of their
   sheets: the enhanced regular file when it exists, else the plain one.
   */
  lemma EnhancedSummaries(enhancedSheet: Option<Frame>, plainSheet: Option<Frame>, salesSheet: Option<Frame>)
    requires ConvertEnhanced(enhancedSheet, plainSheet, salesSheet).Ok?
    ensures var doc := ConvertEnhanced(enhancedSheet, plainSheet, salesSheet).value;
            && (enhancedSheet.Some? ==> doc.regular == Some(Process(Enhanced("regular"), enhancedSheet.value).value.summary))
            && (enhancedSheet.None? && plainSheet.Some? ==>
                  doc.regular == Some(Process(Enhanced("regular"), plainSheet.value).value.summary))
            && (enhancedSheet.None? && plainSheet.None? ==> doc.regular == None)
            && (salesSheet.Some? ==> doc.sales == Some(Process(Enhanced("sales"), salesSheet.value).value.summary))
            && (salesSheet.None? ==> doc.sales == None)
            && doc.all.views == OrEmpty(doc.regular).views + OrEmpty(doc.sales).views
            && doc.all.followers == OrEmpty(doc.regular).followers + OrEmpty(doc.sales).followers
            && doc.all.likes == OrEmpty(doc.regular).likes + OrEmpty(doc.sales).likes
            && doc.all.comments == OrEmpty(doc.regular).comments + OrEmpty(doc.sales).comments
            && doc.all.shares == OrEmpty(doc.regular).shares + OrEmpty(doc.sales).shares
  {
    EnhancedParts(enhancedSheet, plainSheet, salesSheet);
  }
}
