# Influencer dashboard: a Dafny model of its data pipeline and list logic

The repository turns influencer spreadsheets into the JSON file that a
static dashboard reads. This project models the logic of that pipeline as
pure Dafny functions and proves properties about them:

- **Converters.** `convert_data.py`, `convert_data_enhanced.py` and
  `convert_disney.py` map sheet rows to records, sanitise cells, apply the
  "no email" sentinel and the optional keys, and write per-file summaries.
  The enhanced converter also concatenates the regular and sales records,
  renumbers them and writes a combined summary with weighted averages.
- **URL filters.** `filter_excel.py` and `filter_disney_all_fields.py` parse
  reels.txt, choose the URL column, filter rows by exact URL, and fall back
  to matching post ids.
- **Thumbnail downloaders.** `download_thumbnails.py`,
  `download_thumbnails_enhanced.py` and `download_disney_thumbnails.py` handle
  one task each (skip, succeed or fail), choose the path by type, select and
  partition tasks, count results and fold the paths back into the items.
- **Dashboard.** `script.js` provides search and tier filtering, the sort
  comparator and the sort, the paging handlers, the page slice, the
  seven-button pagination row, the "showing" line, `formatNumber` and
  `truncateText`.

Modules follow the program's structure:

| Module | File | What it holds |
|---|---|---|
| `Outcomes` | `outcomes.dfy` | `Option`, `Result` and the exceptions the scripts raise, plus `Gather` for a loop that stops at its first exception. |
| `Strings` | `strings.dfy` | Find, split, strip, `rstrip` and lower-case. |
| `Seqs` | `seqs.dfy` | Order-preserving filters and the subsequence relation. |
| `Cells` | `cells.dfy` | Spreadsheet cells, JSON values, `safe_value`, `format_number`, and IEEE doubles seen as finite, infinite or NaN. |
| `Sheets` | `sheets.dfy` | A pandas sheet, its column sums and means. |
| `Columns` | `columns.dfy` | The Korean column headers. |
| `Converters` | `converters.dfy` | The three converters. |
| `Combine` | `combine.dfy` | The `main` of the enhanced converter. |
| `Reels` | `reels.dfy` | Parsing reels.txt. |
| `UrlFilter` | `url_filter.dfy` | The two filter scripts. |
| `Thumbnails` | `thumbnails.dfy` | The three downloaders. |
| `Pagination` | `pagination.dfy` | Paging. |
| `Display` | `display.dfy` | The two display helpers. |
| `Dashboard` | `dashboard.dfy` | The page state and its handlers. |

Exceptions that end a Python script are `Err` results. They are:

- the KeyError of a missing column or key;
- the TypeError of comparing or adding a string and a number;
- the OverflowError of `int()` of an infinite float, `inf` or `-inf`;
- the ValueError of `int()` of a text that is not a decimal integer;
- the FileNotFoundError of a missing input file.

A JavaScript TypeError inside the search callback gives `None`.

The model takes these outside effects as parameters (oracles):

- **Files and the network.** `existing` is the set of image files on disk
  when the batch starts. `fetch` says whether fetching and saving one image
  succeeds.
- **Text the model does not compute.** `numText` gives Python `str()` and
  JavaScript `String()` of a number. `collate` stands for `localeCompare`.
- **Input files of the converters.** Each spreadsheet the converters look for is given as present (`Some`) or absent (`None`). The URL filters and the downloaders take their inputs (reels.txt, the scraped spreadsheet, the data file) as plain values, so their missing-file error is not modelled.

## Model

| member | source | states |
|---|---|---|
| Cells.SafeValue | convert_data_enhanced.py:7-11 | A blank, NaN or infinite cell becomes null, and exactly those do. A number, a text or a date-time is kept as it is. |
| Cells.FormatNumber | convert_data_enhanced.py:13-21 | NaN or blank gives None. At least a million gets M and at least a thousand gets K, with mantissa × magnitude equal to the number. Smaller numbers give the integer part, rounded toward zero. There is no B tier. A text or date-time raises TypeError, `-inf` raises OverflowError, and `+inf` is shortened without B. |
| Cells.Trunc | convert_data.py:20 | Python `int()` of a float rounds toward zero, for both signs. |
| Cells.Stringify | convert_data.py:61 | The upload time is null exactly for an NA cell and otherwise the cell's text; a number gives its decimal text. |
| Sheets.ColumnCells | convert_data.py:91 | `df[col]` is the column's cell in every row, in row order. A name that is not a column raises KeyError with that name, and only such a name does. |
| Sheets.ColumnSum | convert_data.py:91 | `Series.sum()` skipping NA, for a column that is not all strings. It succeeds exactly on a column of numbers and NA cells; any string or date-time among them raises TypeError. |
| Sheets.ColumnSumFinite | convert_data.py:91 | On finite numbers the float sum equals the ordinary sum of the numbers. |
| Sheets.TotalOf | convert_data.py:91 | A column of strings only is joined, as pandas sums strings, and read by `int()`. Any other column with a text or date-time raises TypeError. On a numeric column the total fails, with OverflowError, exactly when the float sum is an infinity. A NaN sum (both infinities present) totals 0, and a finite sum totals its integer part. |
| Sheets.IntOfText | convert_data.py:91 | `int()` of a text accepts surrounding whitespace, an optional sign and ASCII digits with single underscores between them. Anything else raises ValueError, and a negative value was written with a minus sign. |
| Sheets.IntOfShow | convert_data.py:91 | `int()` reads the decimal text of every integer back as that integer. |
| Sheets.TotalOfOneText | convert_data.py:91 | A column holding one string totals `int()` of that string. |
| Sheets.TotalOfTwoTexts | convert_data.py:91 | pandas joins a column of strings before `int()` reads it, so a column of two strings totals `int()` of the two joined: "1" and "2" read as 12. |
| Sheets.TotalOfIntegerText | convert_data.py:91 | A column holding the text of one integer totals that integer. |
| Sheets.AverageOf | convert_data.py:93 | An average succeeds exactly on a numeric column and is never NaN. A NaN mean (no number present, or both infinities) averages to 0.0; any other mean is kept as it is. |
| Sheets.BothInfinities | convert_data.py:91-93 | A column holding `inf` and `-inf` sums to NaN: its total is 0 and its average 0.0, with no overflow. |
| Sheets.TotalOfFinite | convert_data.py:91 | On finite numbers a total is the integer part of their sum. |
| Sheets.AverageOfFinite | convert_data.py:93 | On finite numbers with at least one present, an average is their sum over the count of non-blank cells. |
| Converters.SourceOfLiteral | convert_disney.py:31-63 | A key has a source in the literal exactly when it is one of the literal's keys, and every such key is in the literal's order. |
| Converters.FirstFailureNone | convert_data.py:35-66 | No key raises exactly when every key of the literal evaluates. |
| Converters.FirstFailureIsFirst | convert_data.py:35-66 | The exception a row raises is that of some literal key, and every key listed before it evaluates. |
| Converters.Literal | convert_data_enhanced.py:31-63 | The literal evaluates exactly when no key raises. Otherwise it fails with the exception of the first key that raises, in source order. |
| Converters.LiteralEvaluates | convert_data_enhanced.py:31-63 | The literal evaluates exactly when each of its values does. It then has exactly the literal's keys, each holding its value. |
| Converters.EmailValue | convert_data_enhanced.py:65-74 | Email is null when the column is absent or holds the "2.이메일 없음" sentinel; otherwise it is the sanitised cell. |
| Converters.AddTrailing | convert_data_enhanced.py:65-82 | Email is always added; priority and profile_entry are added exactly when their columns exist. Every other key keeps its value. |
| Converters.ConvertRow | convert_data.py:35-86 | A row converts exactly when no value of its literal raises; otherwise it fails with the first exception. |
| Converters.LiteralValues | convert_data.py:35-66 | A row converts exactly when every literal value evaluates, and each literal key then holds its value. |
| Converters.TrailingKeys | convert_data.py:68-85 | A converted record's keys are the literal's plus email, plus priority and profile_entry exactly when their columns exist. Email follows the sentinel rule, and the two optional keys hold their sanitised cells. |
| Converters.TypeTag | convert_data_enhanced.py:62 | `influencer_type` is present exactly for the enhanced converter and holds its argument. The basic and Disney converters write no such key. |
| Converters.RecordId | convert_disney.py:32 | In every converter a record's id is the sanitised `번호` cell; there is no renumbering. |
| Converters.BasicUploadTime | convert_data.py:61 | In convert_data.py, upload_time is `str(cell)` for a present cell and null for NA. |
| Converters.FixedKey | convert_disney.py:58-62 | A key the literal fixes to a constant holds that constant in every converted record. |
| Converters.DisneyFixedFields | convert_disney.py:58-62 | In convert_disney.py, shares_count, shares_count_formatted, music_title, music_artist and upload_time are always null. |
| Converters.ConvertRows | convert_data.py:34-86 | A converted sheet has one record per row, in row order, each the conversion of its row. |
| Converters.RowOutcomes | convert_data.py:34-86 | The outcome at each index is the conversion of the row at that index. |
| Converters.RowsConvert | convert_data.py:34-86 | A sheet converts exactly when each of its rows does. |
| Converters.FirstRowFails | convert_data.py:34-86 | A failed sheet raises the exception of the first row that raises; every row before it converts. |
| Converters.Summarise | convert_data_enhanced.py:87-96 | `total_influencers` is the number of records, and neither average is NaN. Views, followers, likes, comments and shares are the column totals; engagement and cpm are the column averages. convert_disney.py writes 0 shares without reading a column. An error comes from the first failing entry in source order: views, followers, engagement, cpm, likes, comments, shares. |
| Converters.Total | convert_data.py:91 | A total of a missing column raises KeyError; otherwise it is the total of the column's cells. |
| Converters.Average | convert_data.py:93 | An average of a missing column raises KeyError; otherwise it is the average of the column's cells. |
| Converters.SummaryViews | convert_data.py:91 | On a finite views column, total_views is the integer part of the sum of the views. |
| Converters.SummaryEngagement | convert_data.py:93 | On a finite engagement column with a present cell, avg_engagement_rate is the mean over the non-blank cells. |
| Converters.Process | convert_data_enhanced.py:23-98 | A sheet is processed exactly when every row converts and the summary can be computed. A row error comes before a summary error. On success the records are the converted rows, one per row, in order, and the summary is that of the sheet counting them; its averages are never NaN. |
| Converters.ConvertData | convert_data.py:22-104 | The enhanced sheet is used when present, otherwise the plain sheet. Either way the document is the processed sheet's summary and records, and an error is the processing error. Without either file the script fails on verish.xlsx. The summary counts the records. |
| Converters.ConvertDisney | convert_disney.py:100-109 | Without disney.xlsx the script fails. Otherwise the document is the Disney processing of the sheet, its summary and records, or that processing's error. The flat summary counts the records and total_shares is 0. |
| Combine.Renumbered | convert_data_enhanced.py:124-126 | The old id is kept as `original_id` and the id becomes the new number. No other key is added or changed. |
| Combine.Renumber | convert_data_enhanced.py:123-126 | Record i is numbered i + 1, keeping its old id as original_id. |
| Combine.RenumberDistinct | convert_data_enhanced.py:123-126 | After renumbering, no two records share an id. |
| Combine.Blend | convert_data_enhanced.py:140-161 | A combined rate is 0 without records. When only one side has records, it is that side's rate. With records and finite rates on both sides, it is the record-weighted average of the two rates. |
| Combine.BlendBetween | convert_data_enhanced.py:145-155 | With finite rates on both sides, the weighted average lies between the two rates. |
| Combine.BlendSame | convert_data_enhanced.py:140-161 | Blending two equal finite rates gives that rate. |
| Combine.CombineSummaries | convert_data_enhanced.py:129-161 | total_influencers is the sum of the two counts. Views, followers, likes, comments and shares are the sums of the sides' totals, a missing side counting 0. Engagement and cpm are the blends weighted by the counts. A missing side with no records leaves the other side's summary as the combined one. |
| Combine.Side | convert_data_enhanced.py:102-118 | A missing file gives no records and no summary. A present one succeeds exactly when processing its sheet does. |
| Combine.Assemble | convert_data_enhanced.py:121-171 | The output has one record per regular record plus one per sales record, and total_influencers counts them. The regular and sales summaries are written as they are. |
| Combine.ConvertEnhanced | convert_data_enhanced.py:100-171 | The script succeeds exactly when both the regular side and the sales side do. A regular error is raised first, then a sales error. total_influencers of the combined summary equals the number of records written. |
| Combine.EnhancedNoFiles | convert_data_enhanced.py:100-171 | With none of the three files there are no records, zero totals and two empty side summaries. |
| Combine.EnhancedParts | convert_data_enhanced.py:100-171 | A successful run converted both sides, every record with an id, and wrote their assembly. |
| Combine.AssembledRecord | convert_data_enhanced.py:121-126 | Record i of the output is numbered i + 1. It comes from the regular records and then the sales records, keeping that record's id as original_id and its type tag. |
| Combine.AllHaveIds | convert_data_enhanced.py:124-125 | Every converted record has an id, so the renumbering loop never raises. |
| Combine.EnhancedData | convert_data_enhanced.py:121-126 | The output records are the regular records followed by the sales records, renumbered. |
| Combine.SideRecords | convert_data_enhanced.py:30-84 | Record j of a converted side is the conversion of row j of its sheet. |
| Combine.SideRecord | convert_data_enhanced.py:30-84 | Record j of a converted side is the conversion of row j. |
| Combine.SideCount | convert_data_enhanced.py:88 | A converted side has one record per row. |
| Combine.EnhancedCount | convert_data_enhanced.py:121-130 | The output has one record per regular row and per sales row, and total_influencers equals that count. |
| Combine.ConvertedFromRow | convert_data_enhanced.py:32 | A record of `process_excel_data` holds its row's number as id and its type as tag. |
| Combine.AssembledRegular | convert_data_enhanced.py:121-126 | Regular record i keeps its row number as original_id and its tag, and is numbered i + 1. |
| Combine.AssembledSales | convert_data_enhanced.py:121-126 | Sales record j, at position k after all regular ones, keeps its row number and tag and is numbered k + 1. |
| Combine.RegularRecord | convert_data_enhanced.py:105-126 | Row i of the regular sheet becomes output record i, numbered i + 1, with its `번호` cell as original_id and tagged "regular". |
| Combine.SalesRecord | convert_data_enhanced.py:116-126 | The sales records come last, in sheet order. Row j of the sales sheet becomes record k, where k is the number of records before the sales ones plus j. It is numbered k + 1, keeps its `번호` cell as original_id and is tagged "sales". |
| Combine.EnhancedSides | convert_data_enhanced.py:100-126 | A successful run converted both sides, and every record of each carries an id. |
| Combine.SideFromRow | convert_data_enhanced.py:30-84 | Record j of a converted side comes from row j: its id is the row's number and its tag the side's type. |
| Combine.EnhancedSummaries | convert_data_enhanced.py:105-138 | The regular summary comes from the enhanced file when present, else the plain one, else is empty. The sales summary comes from its file or is empty. Combined views, followers, likes, comments and shares are the sums of the sides', a missing side counting 0. |
| Strings.FindFrom | filter_excel.py:16 | The result is the first occurrence at or after the start; None means there is none. |
| Strings.Split | filter_excel.py:73 | The pieces joined with the separator give the text back. No piece contains the separator, and none but the last ends in a prefix of the separator that would complete it, so each cut is at the leftmost occurrence. There is more than one piece exactly when the separator occurs, and the first piece is the text before its first occurrence. |
| Strings.SeparatorIsFirst | filter_excel.py:73 | The text before the first occurrence of a separator, extended by all but the last character of the separator, still does not contain it. |
| Strings.SplitOverlapping | filter_excel.py:73 | With overlapping occurrences, splitting "b/p/p/c" at "/p/" cuts at the first occurrence and skips the one that overlaps it, giving "b" and "p/c". |
| Strings.Strip | filter_excel.py:7 | The stripped line is a contiguous piece of the line, with only whitespace removed on either side and none left at either end. |
| Strings.RStripChar | filter_excel.py:73 | `rstrip('/')` removes exactly the run of slashes at the end. |
| Reels.LineUrl | filter_excel.py:6-17 | A line contributes a URL only when its stripped text mentions "instagram.com". |
| Reels.LineUrlTab | filter_excel.py:10-12 | A line with a tab gives its second tab-separated field: the text between the first and second tab, or all that follows the first tab when there is no second. |
| Reels.LineUrlHttps | filter_excel.py:13-17 | A line without a tab gives its suffix from the first "https://". |
| Reels.LineUrlNeither | filter_excel.py:8-17 | A line with neither a tab nor "https://" gives nothing. |
| Reels.SplitSecond | filter_excel.py:10-12 | A text with a separator splits into more than one piece, and the second is the text between the first and second separator, or everything after the first when there is no second. |
| Reels.ParseReels | filter_disney_all_fields.py:4-17 | reels.txt gives at most one URL per line. |
| Reels.ParseReelsSources | filter_disney_all_fields.py:4-17 | A URL is read exactly when some line gives it. |
| Reels.ParseReelsAppend | filter_excel.py:6-17 | Lines are read independently and in order. |
| UrlFilter.Sample | filter_excel.py:30 | The sample is the text of the first five non-NA cells in row order, or of all of them when there are fewer. |
| UrlFilter.LiteralMatchIsRegexMatch | filter_excel.py:31 | A case-insensitive literal occurrence of a dot-free pattern is a regular-expression match. |
| UrlFilter.DetectedColumns | filter_excel.py:27-32 | The detected columns are exactly the object columns whose sample mentions "instagram.com", in column order. |
| UrlFilter.ChooseColumnExcel | filter_excel.py:37-43 | With no detected column nothing is chosen. Otherwise it is "url" when detected, else the first detected column. |
| UrlFilter.FirstNamed | filter_disney_all_fields.py:30-35 | The result is the first name of the list that is a column, and every earlier name is not one. |
| UrlFilter.FirstByContent | filter_disney_all_fields.py:38-45 | The result is the first column whose sample contains "instagram.com/p/", and no earlier column's does. |
| UrlFilter.ChooseColumnDisney | filter_disney_all_fields.py:27-47 | The first name of the priority list present among the columns wins. Only without one is the content test used. Then a column is chosen exactly when some sample holds a post URL, and it is the first such column in column order. |
| UrlFilter.ExactFilter | filter_excel.py:57-61 | `isin` keeps, in row order, exactly the rows whose URL cell is a text in the reels set, each as many times as it occurs. |
| UrlFilter.PostId | filter_excel.py:71-74 | A post id is the text after the first "/p/" up to the next "/p/", if any, without trailing slashes. It has no "/p/" in it and does not end with "/". |
| UrlFilter.PostIdTrailingSlash | filter_excel.py:73 | The URL "/p/C1x/" has the post id "C1x". |
| UrlFilter.PostIdSecondMarker | filter_excel.py:73 | In "/p/b//p/c" the post id stops at the second "/p/" and is "b". |
| UrlFilter.PrefixKeepsAbsence | filter_excel.py:73 | Cutting a text without "/p/" leaves no "/p/". |
| UrlFilter.PostIdLocation | filter_excel.py:73 | A post id is a prefix of the text after the first "/p/". |
| UrlFilter.PostIds | filter_disney_all_fields.py:81-85 | The post ids are exactly those of the reels URLs that contain "/p/". |
| UrlFilter.FallbackFilter | filter_disney_all_fields.py:90-92 | The fallback keeps, in row order, exactly the rows whose URL cell is not NA and whose text contains some post id, each as many times as it occurs. |
| UrlFilter.EmptyPostIdKeepsAll | filter_excel.py:73-79 | A URL ending in "/p/" yields an empty post id, which lets every non-NA row through. |
| UrlFilter.FilterRows | filter_disney_all_fields.py:67-92 | The output is the exact match when that is non-empty, otherwise the post-id fallback, and always a subsequence of the rows. |
| UrlFilter.FilterExcel | filter_excel.py:37-86 | Nothing is written exactly when no column is detected; otherwise the filtered rows of the chosen column. |
| UrlFilter.FilterDisneyAllFields | filter_disney_all_fields.py:47-98 | Nothing is written exactly when no column is chosen; otherwise the filtered rows of the chosen column. |
| Thumbnails.Folder | download_thumbnails_enhanced.py:12-18 | The enhanced downloader uses thumbnails_sales for type "sales" and thumbnails_regular for any other type; the other two use thumbnails. |
| Thumbnails.DownloadImage | download_thumbnails_enhanced.py:9-43 | A result keeps the id and type. It succeeds exactly when it has a path, which is "<folder>/<id>.jpg". An existing file succeeds; otherwise the fetch decides. |
| Thumbnails.SkipIgnoresFetch | download_thumbnails.py:15-18 | An existing file is never fetched: the result does not depend on the network. |
| Thumbnails.TaskOf | download_thumbnails_enhanced.py:60-64 | A task carries the item's id and URL. It is a sales task exactly when the item's influencer_type is "sales"; an item without a type is not one. |
| Thumbnails.Tasks | download_thumbnails.py:46-50 | There is one task per item with a truthy thumbnail_url, in item order, built from that item. Such an item without an id raises KeyError, and only such items do. |
| Thumbnails.SelectedHaveIds | download_thumbnails.py:48-50 | The selected items all have ids exactly when every item with a thumbnail URL does. |
| Thumbnails.TasksSelected | download_disney_thumbnails.py:52-54 | The tasks are exactly the tasks of the items that have a thumbnail URL and an id. |
| Thumbnails.PartitionSizes | download_thumbnails_enhanced.py:58-64 | Every task goes to exactly one of the regular and sales lists. |
| Thumbnails.PartitionMembers | download_thumbnails_enhanced.py:61-64 | A task is a sales task exactly when its type is "sales"; every other task is regular. |
| Thumbnails.SuccessesCounted | download_thumbnails.py:74-77 | The success count is the number of results that succeeded. |
| Thumbnails.SuccessesAppend | download_thumbnails.py:74-77 | One more result adds one success exactly when it succeeded. |
| Thumbnails.Batch | download_thumbnails_enhanced.py:83-86 | There is one result per submitted task. |
| Thumbnails.Count | download_thumbnails_enhanced.py:93-102 | A result is counted once, under its type, as a success or a failure. |
| Thumbnails.RunBatch | download_thumbnails_enhanced.py:83-102 | Regular tasks go before sales tasks. Regular successes plus failures equal the regular task count, and the same holds for sales. The successes are those of the results. When every image already exists, nothing fails. |
| Thumbnails.RunTasks | download_thumbnails.py:62-77 | The loop runs every task in order and counts each result under its type. It matches the batch, and nothing fails when every file exists. |
| Thumbnails.ResultPaths | download_thumbnails.py:72 | `download_results` has an entry for exactly the ids that have a result. |
| Thumbnails.ResultPathsLast | download_thumbnails.py:70-72 | With distinct ids each id's recorded path is that of its own result, so completion order does not matter. |
| Thumbnails.ResultPathsSound | download_thumbnails.py:70-72 | A recorded path is an image of its own id. When every download succeeded, every recorded id has a path. |
| Thumbnails.ThumbnailPathRecorded | download_disney_thumbnails.py:66-82 | When every submitted image exists, each item with a thumbnail URL has a recorded path, the image of its id. |
| Thumbnails.EveryThumbnailMarked | download_thumbnails_enhanced.py:116-120 | When every item with a thumbnail has a recorded path, the fold-back sets its local_thumbnail to that path. |
| Thumbnails.Mark | download_thumbnails.py:85-88 | local_thumbnail is set exactly when the id has a non-null recorded path. No other key changes. |
| Thumbnails.FoldBack | download_disney_thumbnails.py:89-93 | The fold-back succeeds exactly when every item has an id; otherwise it raises KeyError. Each item is marked in place. |
| Thumbnails.MarkStep | download_disney_thumbnails.py:90-93 | Reading an id raises KeyError exactly for an item without one; otherwise the item is marked. |
| Thumbnails.Run | download_thumbnails_enhanced.py:45-120 | A failed task list raises KeyError. The result is the items with the paths of the batch folded back, in submission order, and it succeeds exactly when every item has an id. The counters add up to the number of tasks and, per type, to the regular and sales task counts; only the enhanced downloader counts sales. Every item is kept. When every image exists, every item with a thumbnail gets its path. |
| Thumbnails.SubmittedParts | download_thumbnails_enhanced.py:55-85 | The regular part of the submitted tasks holds no sales task and the sales part only sales tasks. Together they are the submitted list, and every task is in it. |
| Thumbnails.RunMarksAll | download_thumbnails_enhanced.py:84-120 | When every image is already on disk, every item with a thumbnail URL gets the local path of its image. |
| Thumbnails.TasksNotSales | download_thumbnails.py:46-50 | Only the enhanced downloader tags tasks with a type. |
| Pagination.TotalPages | script.js:380 | The page count is `ceil(count / perPage)`: zero exactly for an empty list, and the pages cover the items with no page left empty. |
| Pagination.Window | script.js:399-405 | For a current page within range, the window satisfies 1 ≤ start ≤ current ≤ end ≤ total. It holds min(7, total) pages. |
| Pagination.PageRange | script.js:417-419 | Each page of the window gets one button, in order; only the current page's is active. |
| Pagination.Controls | script.js:379-453 | Nothing is rendered exactly when there is at most one page. |
| Pagination.Leading | script.js:407-415 | Page 1 appears before the window when the window starts later, followed by "..." exactly when it starts after page 2. |
| Pagination.Trailing | script.js:421-429 | The last page appears after the window when the window ends earlier, preceded by "..." exactly when it ends before the last page but one. |
| Pagination.Range | script.js:417-419 | Range lists the consecutive integers from start to end. |
| Pagination.PageRangeNumbers | script.js:417-419 | The numbered buttons of a window are exactly its pages. |
| Pagination.ControlPages | script.js:407-429 | The pages offered, left to right, are page 1 unless the window starts there, then the window, then the last page unless the window ends there. |
| Pagination.ControlPagesOrdered | script.js:398-429 | The pages offered start at 1, end at the last page, increase strictly and include the current page. |
| Pagination.OfferedWithin | script.js:443-452 | Every page a numbered button leads to is a page of the list. |
| Pagination.OfferedOrdered | script.js:407-429 | A window that holds the current page gives an increasing page list from 1 to the last page. |
| Pagination.IncreasingConcat | script.js:407-429 | Two increasing runs joined in order make one. |
| Pagination.ControlShape | script.js:386-441 | "previous" comes first, disabled exactly on page 1, and "next" last, disabled exactly on the last page. "..." follows page 1 exactly when the window starts after page 2, and precedes the last page exactly when it ends before the last page but one. |
| Pagination.ControlsActive | script.js:446 | A numbered button is active exactly for the current page. |
| Pagination.Slice | script.js:240 | Within bounds, `slice` is the subsequence; it never grows the list. |
| Pagination.Clamp | script.js:240 | A position within bounds is kept, and every result lies within the list. |
| Pagination.PageStart | script.js:238 | From page 1 on, the start index is non-negative. |
| Pagination.PageItems | script.js:238-240 | A page shows at most perPage items: from (page − 1) × perPage up to min(start + perPage, count), or none past the end. |
| Pagination.ItemPage | script.js:238-240 | Item k appears on page k / perPage + 1, which exists, at position k mod perPage. |
| Pagination.PageAt | script.js:238-240 | Position m of page q + 1 holds item q × perPage + m. |
| Pagination.PageWithin | script.js:380 | A page that starts before the end of the list is one of the pages. |
| Pagination.ShowingInfo | script.js:456-461 | The line's last position is min(end, count), and it shows the item count. |
| Pagination.ShowingMatchesPage | script.js:456-461 | On a page with items, the line runs from start + 1 and names exactly as many positions as the page shows. |
| Display.FormatNumber | script.js:613-619 | Falsy input, and only that, shows "0". The suffix is B from 1e9, M from 1e6 and K from 1e3, with mantissa × magnitude equal to the number. Anything smaller is shown as it is. |
| Display.SuffixAgreesWithConverters | script.js:613-619 | Between a thousand and a billion the dashboard's suffix and mantissa agree with the converters' `format_number`. From a billion on the converters stay at M where the dashboard says B. |
| Display.TruncateText | script.js:621-625 | A missing text gives "" and a short one is kept. A longer one becomes its first maxLength UTF-16 code units plus "...". |
| Display.EncodeChar | script.js:621-625 | A character of the Basic Multilingual Plane is one UTF-16 code unit; any other is a surrogate pair of two. |
| Display.Utf16 | script.js:621-625 | A text has at least as many code units as characters. |
| Display.Utf16Basic | script.js:621-625 | A text of Basic Multilingual Plane characters has one code unit per character. |
| Display.Utf16Astral | script.js:621-625 | A text of characters beyond U+FFFF, emoji among them, has two code units per character. |
| Display.EmojiCaptionIsCut | script.js:621-625 | A caption of emoji is cut once maxLength is below twice its character count, even if it has fewer characters than maxLength. |
| Display.TruncateIdempotent | script.js:621-625 | Truncating an already truncated text changes nothing. |
| Dashboard.Loaded | script.js:2-9 | After loading every item is shown on page 1, twenty per page, with no sort field, descending and no tier. |
| Dashboard.FieldMatches | script.js:136-141 | A field matches only when it is a text whose lower-cased form contains the term, and a non-empty text field matches exactly then. A truthy non-text value throws. |
| Dashboard.SearchHit | script.js:134-143 | An item the search keeps has the term in its author_name, account_id or video_caption. |
| Dashboard.SearchFound | script.js:134-143 | When the search does not throw, it keeps an item exactly when the term is in its author_name, account_id or video_caption. |
| Dashboard.ApplyFilters | script.js:123-156 | `applyFilters` throws exactly when the term is non-empty and some item's search test throws. Otherwise the result is the filter of all items by search and tier, the page resets to 1 and nothing else changes. |
| Dashboard.FiltersCombine | script.js:133-151 | The search pass followed by the tier pass is one combined filter. |
| Dashboard.ApplyFiltersSelects | script.js:123-156 | The result is an order-preserving selection of all items. An item is kept exactly when it passes the search (if there is a term) and has the tier (if there is one). Every kept item mentions the term. |
| Dashboard.NoFilterShowsAll | script.js:129-153 | With an empty term and no tier every item is shown, on page 1. |
| Dashboard.ChooseTier | script.js:78-81 | Choosing a tier stores it. When the filters apply, the list is the items of that tier matching the search, on page 1. When the search throws, the tier stays stored and the list and page are unchanged. |
| Dashboard.ClearSearch | script.js:164-171 | `clearSearch` shows all items, clears the tier and goes to page 1, with nothing else changed. |
| Dashboard.ClearIsEmptyFilter | script.js:164-171 | Clearing is the same as filtering with an empty box and no tier. |
| Dashboard.Compare | script.js:180-191 | A null a sorts after b, and a non-null a before a null b. Two numbers compare as b − a when descending and a − b when ascending. |
| Dashboard.NumbersCompare | script.js:189-191 | Two numbers compare in opposite ways when swapped, and a positive result means they are out of the order's direction. |
| Dashboard.Insert | script.js:180 | Insertion adds exactly the item: one more element, the same multiset. |
| Dashboard.Sort | script.js:180-202 | The sort is a permutation of its input. |
| Dashboard.InsertNullsLast | script.js:185-186 | Inserting into a list whose items without a value are all at the end keeps them at the end. |
| Dashboard.NullsLastCons | script.js:185-186 | An item with a value, or a null item before only null items, keeps nulls last. |
| Dashboard.SortNullsLast | script.js:180-202 | After sorting by a field, every item without a value for it comes after every item with one. |
| Dashboard.InsertOrdered | script.js:180-191 | Inserting an item with a number or no value into a list with nulls last, whose numbered items are ordered, keeps the numbered items ordered. |
| Dashboard.PermutedBound | script.js:180-191 | A bound on an item and on every numbered item of a list is a bound on every numbered item of a permutation of them. |
| Dashboard.ConsOrdered | script.js:180-191 | An item that is null, or may precede every numbered item of an ordered list, extends it. |
| Dashboard.SortOrdered | script.js:180-191 | Sorting a field that holds a number or nothing in every item puts the items without a value last. The items with a number come first, non-increasing when descending and non-decreasing when ascending. |
| Dashboard.PerformSort | script.js:174-206 | With no selected and no remembered field nothing changes. Otherwise the field is remembered, the items are permuted and the page resets to 1. |
| Dashboard.HeaderSort | script.js:84-89 | A header click remembers its field, unless the sort select has a value, which wins. |
| Dashboard.Flip | script.js:210 | The order is always flipped. |
| Dashboard.ToggleSortOrder | script.js:209-214 | `toggleSortOrder` flips the order. Without a remembered field nothing else changes. With one, the result is `performSort` under the flipped order: a permutation of the list, on page 1. |
| Dashboard.ToggleTwice | script.js:209-214 | Toggling twice restores the sort order. |
| Dashboard.SetPageSize | script.js:92-97 | "all" sets the page size to the number of filtered items, and any other choice to the chosen number; the page goes back to 1. |
| Dashboard.PrevPage | script.js:390-395 | "previous" goes back one page, except on page 1. |
| Dashboard.NextPage | script.js:435-440 | "next" goes on one page, except on the last. |
| Dashboard.GoToPage | script.js:447-450 | A numbered button sets the current page to its number. |
| Dashboard.FiltersKeepPageValid | script.js:153-154 | Filtering, choosing a tier and clearing leave a valid page. |
| Dashboard.SortKeepsPageValid | script.js:204 | Sorting and toggling keep the count and go to page 1, a valid page. |
| Dashboard.NavigationKeepsPageValid | script.js:390-450 | "previous", "next" and any offered numbered button keep the current page within the list. |
| Dashboard.PageSizeKeepsPageValid | script.js:92-97 | A page size of at least one resets to a valid page. |
| Dashboard.Render | script.js:237-250 | A view shows at most perPage items and counts all filtered items. It has controls exactly when there is more than one page. |
| Dashboard.FilteredScreen | script.js:153-155 | Right after filtering, the view shows the first items of the selection, the line starts at 1, and "previous" is disabled. |
| Outcomes.Gather | convert_data.py:34-86 | A loop that stops at its first exception returns one value per step, each the value of its step. |
| Outcomes.GatherOk | convert_data.py:34-86 | The loop succeeds exactly when every step does. |
| Outcomes.GatherFirstError | convert_data.py:34-86 | A failed loop reports the exception of a failing step, and every earlier step succeeded. |
| Seqs.Filter | script.js:134 | `Array.prototype.filter` returns only accepted elements and is never longer than its input. |
| Seqs.FilterMembership | script.js:134 | An element is kept exactly when it is in the input and accepted. |
| Seqs.FilterCount | script.js:134 | A kept element occurs in the result as often as in the input, a rejected one not at all. |
| Seqs.FilterIsSubseq | script.js:134 | Filtering keeps relative order. |
| Seqs.FilterAllKept | script.js:130 | A filter that accepts everything returns its input. |
| Seqs.FilterTwice | script.js:133-151 | Two filters in a row are one filter by both tests. |
| Seqs.FilterOrThrow | script.js:134-143 | A callback that throws on any element makes the whole filter throw. Otherwise the result is the ordinary filter. |
| Seqs.CollectMembership | filter_excel.py:6-17 | A value is collected exactly when some element gives it. |
| Seqs.CollectAppend | filter_excel.py:6-17 | Collecting distributes over concatenation. |

## Left out

- Browser-only code of `script.js` is not modelled, because it does not touch the list logic. That covers:
  - DOM rendering, template strings, card and table markup, modals, the video embed and clipboard copying;
  - `switchView` and `updateSummary`;
  - the `fetch('data.json')` in `loadData` and its error alert.

  `Dashboard.Loaded` starts from the loaded items.
- Dashboard.Compare: `localeCompare` is the oracle `collate` and `String()` of a number is `numText`. Locale collation is not modelled, so the contract says nothing about the order of two texts.
- Dashboard.Sort: the model is a stable insertion sort. The engine's `Array.prototype.sort` may order differently when the comparator is inconsistent. That happens for two null values, which each compare as greater. The contract therefore states a permutation, nulls last and numeric order, but not the order among texts or among nulls.
- Display.FormatNumber: `toFixed(1)` and `toString()` are symbolic (mantissa and suffix), because decimal rounding of doubles is not modelled.
- Cells.FormatNumber: `f"{x:.1f}"` and `str(int(x))` are symbolic, for the same reason.
- Display.TruncateText: a non-string truthy value (a number) passed to `truncateText` is not modelled. Such a value has no `.length`, and callers pass captions. Lengths and cuts are in UTF-16 code units, as JavaScript counts them; a cut may split a surrogate pair, as the script's `substring` does.
- Pagination.TotalPages: requires a page size of at least one. With "all" chosen on an empty list the script divides by 0, and the resulting NaN or Infinity pages are not modelled.
- Dashboard.Pages: requires a page size of at least one, for the same reason; the NaN page count of "all" on an empty list is not modelled.
- Dashboard.NextPage: requires a page size of at least one. With "all" on an empty list the script's `currentPage < totalPages` compares with NaN, so "next" stays put; the model does not cover that state.
- Dashboard.Render: requires a page size of at least one. With "all" on an empty list the script's `totalPages <= 1` is false for NaN, so it still draws navigation buttons over no items; that view is not modelled.
- Sheets.IntOfText: only ASCII digits are modelled. Python's `int()` also accepts other Unicode decimal digits.
- Python floats are reals. Binary rounding of sums and means is not modelled. Infinities and NaN are kept only as far as `Cells.Ext` distinguishes them.
- Sheets.WellFormed: column names are assumed distinct, as pandas makes them unique on reading.
- pandas dtype inference is approximated by `UrlFilter.ObjectDtype`: text, or date-times mixed with numbers. Boolean cells and mixed-type details are not modelled.
- UrlFilter.RegexContains: only `.` is treated as special, which covers both patterns used ("instagram.com" and "instagram.com/p/"). Case folding is ASCII only.
- Strings.Lower: ASCII only. Unicode case mappings of Python and JavaScript are not modelled.
- Excel reading and writing, JSON serialisation, JSON key order, console output and the backup files are I/O and are not modelled.
- Thumbnails.RunBatch: `ThreadPoolExecutor` and `as_completed` become a sequential run in submission order. `Thumbnails.ResultPathsLast` shows that with distinct ids the recorded paths do not depend on that order. The filesystem is a snapshot `existing` taken before the batch, and `requests.get` is the oracle `fetch`.
- UrlFilter.FilterExcel, UrlFilter.FilterDisneyAllFields and Thumbnails.Run: a missing reels.txt, spreadsheet or data file raises FileNotFoundError in the script. The model takes the file contents as given, so that crash is not modelled.
- The downloaders' `data['data']` lookup (a KeyError for a file without it) is not modelled: the items are given directly.
- `merge_disney_files.py` is not part of this model: it is one `pandas.merge` whose semantics live in pandas.
