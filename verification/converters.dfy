/**
 The three spreadsheet-to-JSON converters: `convert_data.py` (one sheet,
 no type tag), `process_excel_data` of `convert_data_enhanced.py` (tags
 every record with the influencer type) and `convert_disney.py` (a sheet
 without the shares, music and upload-time columns).

 The three share one row mapping. What differs is, per key of the record
 literal, where its value comes from (`Source`), and whether the summary
 sums shares; so each converter is a `Converter` value interpreted by one
 set of functions.

 A record is a map from JSON key to value; the key order of the written
 JSON object is not modelled.
 */
module Converters {
  import opened Outcomes
  import opened Cells
  import opened Sheets
  import C = Columns

  /** The keys of a written record, the record literal's in its source order first. */
  datatype Key =
    | Id | AuthorName | AccountId | ProfileIntro | VideoCaption
    | EngagementRate | ViewRatio | CommentConversion | FollowerQuality
    | EstimatedCpm | CostEfficiency
    | FollowerCount | FollowerCountFormatted | UploadCount
    | LikesCount | LikesCountFormatted | SharesCount | SharesCountFormatted
    | CommentsCount | CommentsCountFormatted | ViewsCount | ViewsCountFormatted
    | VideoDuration | MusicTitle | MusicArtist | UploadTime
    | VideoUrl | AuthorId | ThumbnailUrl | FollowerTier | InfluencerType
    | Email | Priority | ProfileEntry | OriginalId | LocalThumbnail

  /** The JSON name of a key. */
  function KeyName(k: Key): string {
    match k
    case Id => "id"
    case AuthorName => "author_name"
    case AccountId => "account_id"
    case ProfileIntro => "profile_intro"
    case VideoCaption => "video_caption"
    case EngagementRate => "engagement_rate"
    case ViewRatio => "view_ratio"
    case CommentConversion => "comment_conversion"
    case FollowerQuality => "follower_quality"
    case EstimatedCpm => "estimated_cpm"
    case CostEfficiency => "cost_efficiency"
    case FollowerCount => "follower_count"
    case FollowerCountFormatted => "follower_count_formatted"
    case UploadCount => "upload_count"
    case LikesCount => "likes_count"
    case LikesCountFormatted => "likes_count_formatted"
    case SharesCount => "shares_count"
    case SharesCountFormatted => "shares_count_formatted"
    case CommentsCount => "comments_count"
    case CommentsCountFormatted => "comments_count_formatted"
    case ViewsCount => "views_count"
    case ViewsCountFormatted => "views_count_formatted"
    case VideoDuration => "video_duration"
    case MusicTitle => "music_title"
    case MusicArtist => "music_artist"
    case UploadTime => "upload_time"
    case VideoUrl => "video_url"
    case AuthorId => "author_id"
    case ThumbnailUrl => "thumbnail_url"
    case FollowerTier => "follower_tier"
    case InfluencerType => "influencer_type"
    case Email => "email"
    case Priority => "priority"
    case ProfileEntry => "profile_entry"
    case OriginalId => "original_id"
    case LocalThumbnail => "local_thumbnail"
  }

  type Record = map<Key, Value>

  /** The record-literal keys in the order the literals list them. */
  const LiteralOrder: seq<Key> := [
    Id, AuthorName, AccountId, ProfileIntro, VideoCaption,
    EngagementRate, ViewRatio, CommentConversion, FollowerQuality,
    EstimatedCpm, CostEfficiency,
    FollowerCount, FollowerCountFormatted, UploadCount,
    LikesCount, LikesCountFormatted, SharesCount, SharesCountFormatted,
    CommentsCount, CommentsCountFormatted, ViewsCount, ViewsCountFormatted,
    VideoDuration, MusicTitle, MusicArtist, UploadTime,
    VideoUrl, AuthorId, ThumbnailUrl, FollowerTier, InfluencerType
  ]

  /** Where a value of the record literal comes from. */
  datatype Source =
    | Sanitised(column: C.Column)   // safe_value(row[column])
    | Shortened(column: C.Column)   // format_number(row[column])
    | Printed(column: C.Column)     // str(row[column]) if pd.notna(row[column]) else None
    | Fixed(v: Value)             // a constant of the literal

  datatype Converter =
    | Basic                            // convert_data.py
    | Enhanced(influencerType: string) // process_excel_data of convert_data_enhanced.py
    | Disney                           // convert_disney.py

  const NoEmail: string := "2.이메일 없음"
  const EmailColumn: string := C.Name(C.Email)
  const PriorityColumn: string := C.Name(C.Priority)
  const ProfileEntryColumn: string := C.Name(C.ProfileEntry)

  /**
   The record literal of each converter, key by key: None for a key the
   literal does not have. convert_disney.py fixes the shares, music and
   upload-time keys to None, and only convert_data_enhanced.py writes the
   type tag.
   */
  function SourceOf(conv: Converter, k: Key): Option<Source> {
    match k
    case Id => Some(Sanitised(C.Number))
    case AuthorName => Some(Sanitised(C.AuthorName))
    case AccountId => Some(Sanitised(C.Account))
    case ProfileIntro => Some(Sanitised(C.ProfileIntro))
    case VideoCaption => Some(Sanitised(C.Caption))
    case EngagementRate => Some(Sanitised(C.Engagement))
    case ViewRatio => Some(Sanitised(C.ViewRatio))
    case CommentConversion => Some(Sanitised(C.CommentConversion))
    case FollowerQuality => Some(Sanitised(C.FollowerQuality))
    case EstimatedCpm => Some(Sanitised(C.Cpm))
    case CostEfficiency => Some(Sanitised(C.CostEfficiency))
    case FollowerCount => Some(Sanitised(C.Followers))
    case FollowerCountFormatted => Some(Shortened(C.Followers))
    case UploadCount => Some(Sanitised(C.Uploads))
    case LikesCount => Some(Sanitised(C.Likes))
    case LikesCountFormatted => Some(Shortened(C.Likes))
    case SharesCount => if conv == Disney then Some(Fixed(Null)) else Some(Sanitised(C.Shares))
    case SharesCountFormatted => if conv == Disney then Some(Fixed(Null)) else Some(Shortened(C.Shares))
    case CommentsCount => Some(Sanitised(C.Comments))
    case CommentsCountFormatted => Some(Shortened(C.Comments))
    case ViewsCount => Some(Sanitised(C.Views))
    case ViewsCountFormatted => Some(Shortened(C.Views))
    case VideoDuration => Some(Sanitised(C.Duration))
    case MusicTitle => if conv == Disney then Some(Fixed(Null)) else Some(Sanitised(C.MusicTitle))
    case MusicArtist => if conv == Disney then Some(Fixed(Null)) else Some(Sanitised(C.MusicArtist))
    case UploadTime => if conv == Disney then Some(Fixed(Null)) else Some(Printed(C.UploadTime))
    case VideoUrl => Some(Sanitised(C.VideoUrl))
    case AuthorId => Some(Sanitised(C.AuthorId))
    case ThumbnailUrl => Some(Sanitised(C.ThumbnailUrl))
    case FollowerTier => Some(Sanitised(C.Tier))
    case InfluencerType => if conv.Enhanced? then Some(Fixed(Str(conv.influencerType))) else None
    case Email => None
    case Priority => None
    case ProfileEntry => None
    case OriginalId => None
    case LocalThumbnail => None
  }

  /** One value of the literal; reading a missing column raises KeyError. */
  function Eval(src: Source, row: Row): (r: Result<Value>)
    ensures src.Fixed? ==> r == Ok(src.v)
  {
    match src
    case Fixed(v) => Ok(v)
    case Sanitised(c) =>
      var col := C.Name(c);
      if col in row then Ok(SafeValue(row[col])) else Err(KeyError(col))
    case Printed(c) =>
      var col := C.Name(c);
      if col in row then Ok(Stringify(row[col])) else Err(KeyError(col))
    case Shortened(c) =>
      var col := C.Name(c);
      if col !in row then Err(KeyError(col))
      else
        var s :- FormatNumber(row[col]);
        Ok(if s.Some? then Short(s.value) else Null)
  }

  /** The value of key `k` in the literal, or the exception computing it raises. */
  function EvalKey(conv: Converter, k: Key, row: Row): Result<Value>
    requires InLiteral(conv, k)
  {
    SourceOfLiteral(conv, k);
    Eval(SourceOf(conv, k).value, row)
  }

  /** `k` is a key of the literal of `conv`. */
  predicate InLiteral(conv: Converter, k: Key) {
    match k
    case Email => false
    case Priority => false
    case ProfileEntry => false
    case OriginalId => false
    case LocalThumbnail => false
    case InfluencerType => conv.Enhanced?
    case _ => true
  }

  lemma SourceOfLiteral(conv: Converter, k: Key)
    ensures SourceOf(conv, k).Some? <==> InLiteral(conv, k)
    ensures InLiteral(conv, k) ==> k in LiteralOrder
  {
  }

  /** The exception of the first key of `keys`, in order, whose value raises. */
  function FirstFailure(conv: Converter, keys: seq<Key>, row: Row): Option<Crash> {
    if |keys| == 0 then None
    else if InLiteral(conv, keys[0]) && EvalKey(conv, keys[0], row).Err? then
      Some(EvalKey(conv, keys[0], row).error)
    else
      FirstFailure(conv, keys[1..], row)
  }

  /** There is no failure exactly when every key of `keys` in the literal evaluates. */
  lemma {:induction false} FirstFailureNone(conv: Converter, keys: seq<Key>, row: Row)
    ensures FirstFailure(conv, keys, row).None? <==>
              forall i :: 0 <= i < |keys| && InLiteral(conv, keys[i]) ==> EvalKey(conv, keys[i], row).Ok?
  {
    if |keys| > 0 {
      FirstFailureNone(conv, keys[1..], row);
      assert forall i :: 1 <= i < |keys| ==> keys[i] == keys[1..][i - 1];
    }
  }

  /**
   The exception reported is the one of a key that raises, and every key
   before it evaluates.
   */
  lemma {:induction false} FirstFailureIsFirst(conv: Converter, keys: seq<Key>, row: Row)
    requires FirstFailure(conv, keys, row).Some?
    ensures exists i :: 0 <= i < |keys| && InLiteral(conv, keys[i])
                        && EvalKey(conv, keys[i], row) == Err(FirstFailure(conv, keys, row).value)
                        && forall j :: 0 <= j < i && InLiteral(conv, keys[j]) ==>
                                       EvalKey(conv, keys[j], row).Ok?
  {
    if InLiteral(conv, keys[0]) && EvalKey(conv, keys[0], row).Err? {
      assert 0 < |keys|;
    } else {
      var e := FirstFailure(conv, keys, row).value;
      FirstFailureIsFirst(conv, keys[1..], row);
      var i :| 0 <= i < |keys[1..]| && InLiteral(conv, keys[1..][i])
               && EvalKey(conv, keys[1..][i], row) == Err(e)
               && forall j :: 0 <= j < i && InLiteral(conv, keys[1..][j]) ==>
                              EvalKey(conv, keys[1..][j], row).Ok?;
      assert keys[i + 1] == keys[1..][i];
      assert forall j :: 1 <= j < i + 1 ==> keys[j] == keys[1..][j - 1];
    }
  }

  /**
   The record literal, evaluated in source order: the first value that
   raises stops the row; otherwise every key of the literal holds its value.
   */
  function Literal(conv: Converter, row: Row): (r: Result<Record>)
    ensures r.Ok? <==> FirstFailure(conv, LiteralOrder, row).None?
    ensures r.Err? ==> FirstFailure(conv, LiteralOrder, row) == Some(r.error)
  {
    match FirstFailure(conv, LiteralOrder, row)
    case Some(e) => Err(e)
    case None =>
      FirstFailureNone(conv, LiteralOrder, row);
      Ok(map k | k in LiteralOrder && InLiteral(conv, k) :: EvalKey(conv, k, row).value)
  }

  /**
   The literal evaluates exactly when every value of it evaluates, and then
   it has exactly the keys of the literal, each holding its value.
   */
  lemma LiteralEvaluates(conv: Converter, row: Row)
    ensures Literal(conv, row).Ok? <==> forall k :: InLiteral(conv, k) ==> EvalKey(conv, k, row).Ok?
    ensures Literal(conv, row).Ok? ==> forall k :: k in Literal(conv, row).value <==> InLiteral(conv, k)
    ensures Literal(conv, row).Ok? ==>
              forall k :: InLiteral(conv, k) ==> Literal(conv, row).value[k] == EvalKey(conv, k, row).value
  {
    FirstFailureNone(conv, LiteralOrder, row);
    forall k | InLiteral(conv, k) ensures k in LiteralOrder {
      SourceOfLiteral(conv, k);
    }
    if !Literal(conv, row).Ok? {
      var i :| 0 <= i < |LiteralOrder| && InLiteral(conv, LiteralOrder[i]) && EvalKey(conv, LiteralOrder[i], row).Err?;
      assert InLiteral(conv, LiteralOrder[i]);
    }
  }

  /** The email field: an absent column or the "no email" marker give null. */
  function EmailValue(row: Row): (v: Value)
    ensures EmailColumn !in row ==> v == Null
    ensures EmailColumn in row && row[EmailColumn] == Text(NoEmail) ==> v == Null
    ensures EmailColumn in row && row[EmailColumn] != Text(NoEmail) ==> v == SafeValue(row[EmailColumn])
  {
    if EmailColumn !in row then Null
    else if row[EmailColumn] == Text(NoEmail) then Null
    else SafeValue(row[EmailColumn])
  }

  /**
   The keys written after the literal: email, then priority and profile
   entry when their columns exist. Every other key is kept as it is.
   */
  function AddTrailing(literal: Record, row: Row): (r: Record)
    ensures forall k :: k in r <==> (k in literal || k == Email
                                   || (k == Priority && PriorityColumn in row)
                                   || (k == ProfileEntry && ProfileEntryColumn in row))
    ensures forall k :: k in literal && k != Email && k != Priority && k != ProfileEntry ==> r[k] == literal[k]
    ensures Email in r && r[Email] == EmailValue(row)
    ensures PriorityColumn in row ==> Priority in r && r[Priority] == SafeValue(row[PriorityColumn])
    ensures ProfileEntryColumn in row ==> ProfileEntry in r && r[ProfileEntry] == SafeValue(row[ProfileEntryColumn])
  {
    var withEmail := literal[Email := EmailValue(row)];
    var withPriority :=
      if PriorityColumn in row then withEmail[Priority := SafeValue(row[PriorityColumn])] else withEmail;
    if ProfileEntryColumn in row then withPriority[ProfileEntry := SafeValue(row[ProfileEntryColumn])]
    else withPriority
  }

  /**
   One row to one record: the literal, then the trailing keys. The row
   fails exactly when a value of the literal raises, with the first such
   exception.
   */
  function ConvertRow(conv: Converter, row: Row): (r: Result<Record>)
    ensures r.Ok? <==> FirstFailure(conv, LiteralOrder, row).None?
    ensures r.Err? ==> FirstFailure(conv, LiteralOrder, row) == Some(r.error)
  {
    var literal :- Literal(conv, row);
    Ok(AddTrailing(literal, row))
  }

  /**
   A row converts exactly when every value of its literal evaluates, and
   then each key of the literal holds its value.
   */
  lemma LiteralValues(conv: Converter, row: Row)
    ensures ConvertRow(conv, row).Ok? <==> forall k :: InLiteral(conv, k) ==> EvalKey(conv, k, row).Ok?
    ensures ConvertRow(conv, row).Ok? ==>
              forall k :: InLiteral(conv, k) ==>
                k in ConvertRow(conv, row).value && ConvertRow(conv, row).value[k] == EvalKey(conv, k, row).value
  {
    LiteralEvaluates(conv, row);
    if ConvertRow(conv, row).Ok? {
      var literal := Literal(conv, row).value;
      var r := ConvertRow(conv, row).value;
      forall k | InLiteral(conv, k) ensures k in r && r[k] == EvalKey(conv, k, row).value {
        assert k != Email && k != Priority && k != ProfileEntry;
      }
    }
  }

  /**
   The keys written after the literal: email always, priority and profile
   entry exactly when their columns exist; nothing else is added.
   */
  lemma TrailingKeys(conv: Converter, row: Row)
    requires ConvertRow(conv, row).Ok?
    ensures forall k :: k in ConvertRow(conv, row).value <==>
                        InLiteral(conv, k) || k == Email
                        || (k == Priority && PriorityColumn in row)
                        || (k == ProfileEntry && ProfileEntryColumn in row)
    ensures Email in ConvertRow(conv, row).value && ConvertRow(conv, row).value[Email] == EmailValue(row)
    ensures PriorityColumn in row ==> Priority in ConvertRow(conv, row).value
                                      && ConvertRow(conv, row).value[Priority] == SafeValue(row[PriorityColumn])
    ensures ProfileEntryColumn in row ==>
              ProfileEntry in ConvertRow(conv, row).value
              && ConvertRow(conv, row).value[ProfileEntry] == SafeValue(row[ProfileEntryColumn])
  {
    LiteralEvaluates(conv, row);
    var literal := Literal(conv, row).value;
    assert ConvertRow(conv, row).value == AddTrailing(literal, row);
  }

  /** The type tag exists exactly for the enhanced converter and holds its argument. */
  lemma TypeTag(conv: Converter, row: Row)
    requires ConvertRow(conv, row).Ok?
    ensures InfluencerType in ConvertRow(conv, row).value <==> conv.Enhanced?
    ensures conv.Enhanced? ==> InfluencerType in ConvertRow(conv, row).value
                               && ConvertRow(conv, row).value[InfluencerType] == Str(conv.influencerType)
  {
    if conv.Enhanced? {
      LiteralValues(conv, row);
      assert InLiteral(conv, InfluencerType);
      assert EvalKey(conv, InfluencerType, row) == Ok(Str(conv.influencerType));
    } else {
      assert !InLiteral(conv, InfluencerType);
      TrailingKeys(conv, row);
    }
  }

  /** Every converter: a record's id is the sanitised source number, never renumbered. */
  lemma RecordId(conv: Converter, row: Row)
    requires ConvertRow(conv, row).Ok?
    ensures C.Name(C.Number) in row
    ensures Id in ConvertRow(conv, row).value && ConvertRow(conv, row).value[Id] == SafeValue(row[C.Name(C.Number)])
  {
    LiteralValues(conv, row);
    assert InLiteral(conv, Id);
  }

  /** convert_data.py: upload_time is the text of the upload-time cell, or null for NA. */
  lemma BasicUploadTime(row: Row)
    requires ConvertRow(Basic, row).Ok?
    ensures C.Name(C.UploadTime) in row
    ensures UploadTime in ConvertRow(Basic, row).value
            && ConvertRow(Basic, row).value[UploadTime] == Stringify(row[C.Name(C.UploadTime)])
  {
    LiteralValues(Basic, row);
    assert InLiteral(Basic, UploadTime);
    assert SourceOf(Basic, UploadTime) == Some(Printed(C.UploadTime));
  }

  /** A key the literal fixes to a constant holds that constant. */
  lemma FixedKey(conv: Converter, k: Key, row: Row, v: Value)
    requires ConvertRow(conv, row).Ok?
    requires SourceOf(conv, k) == Some(Fixed(v))
    ensures k in ConvertRow(conv, row).value && ConvertRow(conv, row).value[k] == v
  {
    SourceOfLiteral(conv, k);
    LiteralValues(conv, row);
  }

  /** The keys convert_disney.py writes as None because its sheet lacks those columns. */
  predicate DisneyNull(k: Key) {
    k == SharesCount || k == SharesCountFormatted || k == MusicTitle || k == MusicArtist || k == UploadTime
  }

  /** convert_disney.py: every key of shares, music and upload time is written as null. */
  lemma DisneyFixedFields(row: Row, k: Key)
    requires DisneyNull(k)
    requires ConvertRow(Disney, row).Ok?
    ensures k in ConvertRow(Disney, row).value && ConvertRow(Disney, row).value[k] == Null
  {
    FixedKey(Disney, k, row, Null);
  }

  /** Every row of the sheet, in order; the first row that raises stops the script. */
  function ConvertRows(conv: Converter, rows: seq<Row>): (r: Result<seq<Record>>)
    ensures r.Ok? ==> |r.value| == |rows|
    ensures r.Ok? ==> forall i :: 0 <= i < |rows| ==> ConvertRow(conv, rows[i]) == Ok(r.value[i])
  {
    Gather(RowOutcomes(conv, rows))
  }

  /** The outcome of converting each row on its own. */
  function RowOutcomes(conv: Converter, rows: seq<Row>): (r: seq<Result<Record>>)
    ensures |r| == |rows| && forall i :: 0 <= i < |rows| ==> r[i] == ConvertRow(conv, rows[i])
  {
    seq(|rows|, i requires 0 <= i < |rows| => ConvertRow(conv, rows[i]))
  }

  /** The sheet converts exactly when each of its rows does. */
  lemma RowsConvert(conv: Converter, rows: seq<Row>)
    ensures ConvertRows(conv, rows).Ok? <==> forall i :: 0 <= i < |rows| ==> ConvertRow(conv, rows[i]).Ok?
  {
    GatherOk(RowOutcomes(conv, rows));
  }

  /** A failed conversion raises the exception of the first row that raises; every row before it converts. */
  lemma FirstRowFails(conv: Converter, rows: seq<Row>)
    requires ConvertRows(conv, rows).Err?
    ensures exists i :: 0 <= i < |rows| && ConvertRow(conv, rows[i]) == Err(ConvertRows(conv, rows).error)
                        && forall j :: 0 <= j < i ==> ConvertRow(conv, rows[j]).Ok?
  {
    GatherFirstError(RowOutcomes(conv, rows));
  }

  /** The per-file summary object. */
  datatype Summary = Summary(
    influencers: nat,  // total_influencers
    views: int,        // total_views
    followers: int,    // total_followers
    engagement: Ext,   // avg_engagement_rate
    cpm: Ext,          // avg_cpm
    likes: int,        // total_likes
    comments: int,     // total_comments
    shares: int        // total_shares
  )

  /** `int(df[col].sum())`, NaN read as 0; KeyError when the column is missing. */
  function Total(sh: Frame, col: string): (r: Result<int>)
    ensures col !in sh.columns ==> r == Err(KeyError(col))
    ensures col in sh.columns ==> r == TotalOf(ColumnCells(sh, col).value)
  {
    var cells :- ColumnCells(sh, col);
    TotalOf(cells)
  }

  /** `float(df[col].mean())`, NaN read as 0; KeyError when the column is missing. */
  function Average(sh: Frame, col: string): (r: Result<Ext>)
    ensures col !in sh.columns ==> r == Err(KeyError(col))
    ensures col in sh.columns ==> r == AverageOf(ColumnCells(sh, col).value)
  {
    var cells :- ColumnCells(sh, col);
    AverageOf(cells)
  }

  /** Only convert_disney.py writes a constant 0 instead of summing shares. */
  predicate SumsShares(conv: Converter) {
    conv != Disney
  }

  /**
   The summary dictionary, its entries evaluated in source order. The
   count is the number of records; a NaN sum or mean is written as 0; the
   Disney converter writes 0 shares without reading a shares column.
   */
  function Summarise(conv: Converter, sh: Frame, count: nat): (r: Result<Summary>)
    ensures r.Ok? ==> r.value.influencers == count
    ensures r.Ok? ==> r.value.engagement != NotANumber && r.value.cpm != NotANumber
    ensures r.Ok? && !SumsShares(conv) ==> r.value.shares == 0
    ensures r.Ok? && SumsShares(conv) ==> Total(sh, C.Name(C.Shares)) == Ok(r.value.shares)
    ensures r.Ok? ==> Total(sh, C.Name(C.Views)) == Ok(r.value.views)
    ensures r.Ok? ==> Total(sh, C.Name(C.Followers)) == Ok(r.value.followers)
    ensures r.Ok? ==> Average(sh, C.Name(C.Engagement)) == Ok(r.value.engagement)
    ensures r.Ok? ==> Average(sh, C.Name(C.Cpm)) == Ok(r.value.cpm)
    ensures r.Ok? ==> Total(sh, C.Name(C.Likes)) == Ok(r.value.likes)
    ensures r.Ok? ==> Total(sh, C.Name(C.Comments)) == Ok(r.value.comments)
    // the first failing entry, in source order, decides the error
    ensures C.Name(C.Views) !in sh.columns ==> r == Err(KeyError(C.Name(C.Views)))
    ensures Total(sh, C.Name(C.Views)).Err? ==> r == Err(Total(sh, C.Name(C.Views)).error)
    ensures Total(sh, C.Name(C.Views)).Ok? && Total(sh, C.Name(C.Followers)).Err? ==>
              r == Err(Total(sh, C.Name(C.Followers)).error)
    ensures Total(sh, C.Name(C.Views)).Ok? && Total(sh, C.Name(C.Followers)).Ok?
            && Average(sh, C.Name(C.Engagement)).Err? ==>
              r == Err(Average(sh, C.Name(C.Engagement)).error)
    ensures Total(sh, C.Name(C.Views)).Ok? && Total(sh, C.Name(C.Followers)).Ok?
            && Average(sh, C.Name(C.Engagement)).Ok? && Average(sh, C.Name(C.Cpm)).Err? ==>
              r == Err(Average(sh, C.Name(C.Cpm)).error)
    ensures Total(sh, C.Name(C.Views)).Ok? && Total(sh, C.Name(C.Followers)).Ok?
            && Average(sh, C.Name(C.Engagement)).Ok? && Average(sh, C.Name(C.Cpm)).Ok?
            && Total(sh, C.Name(C.Likes)).Err? ==>
              r == Err(Total(sh, C.Name(C.Likes)).error)
    ensures Total(sh, C.Name(C.Views)).Ok? && Total(sh, C.Name(C.Followers)).Ok?
            && Average(sh, C.Name(C.Engagement)).Ok? && Average(sh, C.Name(C.Cpm)).Ok?
            && Total(sh, C.Name(C.Likes)).Ok? && Total(sh, C.Name(C.Comments)).Err? ==>
              r == Err(Total(sh, C.Name(C.Comments)).error)
    ensures Total(sh, C.Name(C.Views)).Ok? && Total(sh, C.Name(C.Followers)).Ok?
            && Average(sh, C.Name(C.Engagement)).Ok? && Average(sh, C.Name(C.Cpm)).Ok?
            && Total(sh, C.Name(C.Likes)).Ok? && Total(sh, C.Name(C.Comments)).Ok?
            && SumsShares(conv) && Total(sh, C.Name(C.Shares)).Err? ==>
              r == Err(Total(sh, C.Name(C.Shares)).error)
  {
    var views :- Total(sh, C.Name(C.Views));
    var followers :- Total(sh, C.Name(C.Followers));
    var engagement :- Average(sh, C.Name(C.Engagement));
    var cpm :- Average(sh, C.Name(C.Cpm));
    var likes :- Total(sh, C.Name(C.Likes));
    var comments :- Total(sh, C.Name(C.Comments));
    var shares :- if SumsShares(conv) then Total(sh, C.Name(C.Shares)) else Ok(0);
    Ok(Summary(count, views, followers, engagement, cpm, likes, comments, shares))
  }

  /** On a column of finite numbers the total views is the integer part of their sum. */
  lemma SummaryViews(conv: Converter, sh: Frame, count: nat)
    requires Summarise(conv, sh, count).Ok?
    requires FiniteNumeric(ColumnCells(sh, C.Name(C.Views)).value)
    ensures Summarise(conv, sh, count).value.views == Trunc(NumberSum(ColumnCells(sh, C.Name(C.Views)).value))
  {
    TotalOfFinite(ColumnCells(sh, C.Name(C.Views)).value);
  }

  /**
   On a column of finite numbers with at least one number, the average
   engagement rate is their mean over the non-blank cells.
   */
  lemma SummaryEngagement(conv: Converter, sh: Frame, count: nat)
    requires Summarise(conv, sh, count).Ok?
    requires FiniteNumeric(ColumnCells(sh, C.Name(C.Engagement)).value)
    requires CountPresent(ColumnCells(sh, C.Name(C.Engagement)).value) > 0
    ensures Summarise(conv, sh, count).value.engagement ==
              Fin(NumberSum(ColumnCells(sh, C.Name(C.Engagement)).value)
                  / CountPresent(ColumnCells(sh, C.Name(C.Engagement)).value) as real)
  {
    AverageOfFinite(ColumnCells(sh, C.Name(C.Engagement)).value);
  }

  datatype Converted = Converted(data: seq<Record>, summary: Summary)

  /** Convert a whole sheet: its records, then its summary. */
  function Process(conv: Converter, sh: Frame): (r: Result<Converted>)
    ensures r.Ok? ==> |r.value.data| == |sh.rows| == r.value.summary.influencers
    ensures r.Ok? ==> forall i :: 0 <= i < |sh.rows| ==> ConvertRow(conv, sh.rows[i]) == Ok(r.value.data[i])
    ensures r.Ok? ==> r.value.summary.engagement != NotANumber && r.value.summary.cpm != NotANumber
    ensures r.Ok? <==> ConvertRows(conv, sh.rows).Ok? && Summarise(conv, sh, |sh.rows|).Ok?
    ensures ConvertRows(conv, sh.rows).Err? ==> r == Err(ConvertRows(conv, sh.rows).error)
    ensures ConvertRows(conv, sh.rows).Ok? && Summarise(conv, sh, |sh.rows|).Err? ==>
              r == Err(Summarise(conv, sh, |sh.rows|).error)
    ensures r.Ok? ==> r.value == Converted(ConvertRows(conv, sh.rows).value, Summarise(conv, sh, |sh.rows|).value)
  {
    var data :- ConvertRows(conv, sh.rows);
    var summary :- Summarise(conv, sh, |data|);
    Ok(Converted(data, summary))
  }

  /** The written document of convert_data.py and convert_disney.py: one flat summary. */
  datatype Document = Document(summary: Summary, data: seq<Record>)

  /** The document written for a processed sheet; a failed sheet writes nothing and keeps its error. */
  function Written(out: Result<Converted>): (r: Result<Document>)
    ensures r.Ok? <==> out.Ok?
    ensures out.Err? ==> r.error == out.error
    ensures out.Ok? ==> r.value.summary == out.value.summary && r.value.data == out.value.data
  {
    match out
    case Ok(c) => Ok(Document(c.summary, c.data))
    case Err(e) => Err(e)
  }

  /**
   convert_data.py: read the enhanced sheet when that file exists,
   otherwise the plain sheet, which must then exist.
   */
  function ConvertData(enhancedSheet: Option<Frame>, plainSheet: Option<Frame>): (r: Result<Document>)
    ensures enhancedSheet.None? && plainSheet.None? ==> r == Err(FileNotFound("verish.xlsx"))
    ensures enhancedSheet.Some? ==> r == Written(Process(Basic, enhancedSheet.value))
    ensures enhancedSheet.None? && plainSheet.Some? ==> r == Written(Process(Basic, plainSheet.value))
    ensures r.Ok? ==> r.value.summary.influencers == |r.value.data|
  {
    var sh :- if enhancedSheet.Some? then Ok(enhancedSheet.value)
              else if plainSheet.Some? then Ok(plainSheet.value)
              else Err(FileNotFound("verish.xlsx"));
    var out :- Process(Basic, sh);
    Ok(Document(out.summary, out.data))
  }

  /** convert_disney.py: the one sheet, a flat summary. */
  function ConvertDisney(sheet: Option<Frame>): (r: Result<Document>)
    ensures sheet.None? ==> r == Err(FileNotFound("disney.xlsx"))
    ensures sheet.Some? ==> r == Written(Process(Disney, sheet.value))
    ensures r.Ok? ==> r.value.summary.influencers == |r.value.data| && r.value.summary.shares == 0
  {
    var sh :- if sheet.Some? then Ok(sheet.value) else Err(FileNotFound("disney.xlsx"));
    var out :- Process(Disney, sh);
    Ok(Document(out.summary, out.data))
  }
}
