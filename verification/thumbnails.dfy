/**
 The three thumbnail downloaders, `download_thumbnails.py`,
 `download_thumbnails_enhanced.py` and `download_disney_thumbnails.py`:
 pick the items of the data file that have a thumbnail URL, download one
 image per item unless its file is already there, count successes and
 failures, and write each item's local path back as `local_thumbnail`.

 The filesystem is the set `existing` of image paths present before the
 batch starts, and the network is the oracle `fetch`: whether fetching and
 saving the image of a task succeeds. The thread pool is modelled as
 running the tasks one after the other in submission order.
 */
module Thumbnails {
  import opened Outcomes
  import opened Seqs
  import opened Cells
  import opened Converters

  datatype Downloader = Basic | Enhanced | Disney

  /** One submitted download: the item's id, its thumbnail URL and, for the enhanced downloader, its influencer type. */
  datatype Task = Task(id: Value, url: Value, kind: Value)

  /** What `download_image` returns: the id, the relative path or None, the success flag and the type. */
  datatype Download = Download(id: Value, path: Option<Value>, success: bool, kind: Value)

  const Sales: Value := Str("sales")

  predicate IsSales(kind: Value) {
    kind == Sales
  }

  /** The folder of the returned relative path. */
  function Folder(d: Downloader, kind: Value): (folder: string)
    ensures d.Enhanced? && IsSales(kind) ==> folder == "thumbnails_sales"
    ensures d.Enhanced? && !IsSales(kind) ==> folder == "thumbnails_regular"
    ensures !d.Enhanced? ==> folder == "thumbnails"
  {
    match d
    case Enhanced => if IsSales(kind) then "thumbnails_sales" else "thumbnails_regular"
    case _ => "thumbnails"
  }

  /**
   The file whose existence is checked. download_thumbnails.py checks in
   its `output_dir` argument; the other two in the folder of the path they
   return.
   */
  function Checked(d: Downloader, t: Task, outputDir: string): Value {
    if d.Basic? then ImagePath(outputDir, t.id) else ImagePath(Folder(d, t.kind), t.id)
  }

  /**
   `download_image`: an image already on disk is reported as a success
   without fetching; otherwise the outcome of the fetch decides. A success
   carries the relative path in the downloader's folder, a failure no path.
   */
  function DownloadImage(d: Downloader, t: Task, outputDir: string, existing: set<Value>, fetch: Task -> bool): (r: Download)
    ensures r.id == t.id && r.kind == t.kind
    ensures r.success <==> r.path.Some?
    ensures r.path.Some? ==> r.path.value == ImagePath(Folder(d, t.kind), t.id)
    ensures Checked(d, t, outputDir) in existing ==> r.success
    ensures Checked(d, t, outputDir) !in existing ==> (r.success <==> fetch(t))
  {
    var path := ImagePath(Folder(d, t.kind), t.id);
    if Checked(d, t, outputDir) in existing then Download(t.id, Some(path), true, t.kind)
    else if fetch(t) then Download(t.id, Some(path), true, t.kind)
    else Download(t.id, None, false, t.kind)
  }

  /** An image already on disk is never fetched: the outcome does not depend on the network. */
  lemma SkipIgnoresFetch(d: Downloader, t: Task, outputDir: string, existing: set<Value>, fetch: Task -> bool, fetch': Task -> bool)
    requires Checked(d, t, outputDir) in existing
    ensures DownloadImage(d, t, outputDir, existing, fetch) == DownloadImage(d, t, outputDir, existing, fetch')
  {
  }

  /** `item.get('thumbnail_url')` is truthy. */
  predicate HasThumbnail(item: Record) {
    ThumbnailUrl in item && Truthy(item[ThumbnailUrl])
  }

  /** The task of an item; the enhanced downloader tags it with `item.get('influencer_type', 'unknown')`. */
  function TaskOf(d: Downloader, item: Record): (t: Task)
    requires Id in item && ThumbnailUrl in item
    ensures t.id == item[Id] && t.url == item[ThumbnailUrl]
    ensures d.Enhanced? ==> (IsSales(t.kind) <==> InfluencerType in item && item[InfluencerType] == Sales)
    ensures !d.Enhanced? ==> !IsSales(t.kind)
  {
    var kind :=
      if !d.Enhanced? then Null
      else if InfluencerType in item then item[InfluencerType]
      else Str("unknown");
    Task(item[Id], item[ThumbnailUrl], kind)
  }

  /**
   The task list: one task per item with a thumbnail URL, in data order.
   Reading the id of such an item without one raises KeyError.
   */
  function Tasks(d: Downloader, items: seq<Record>): (r: Result<seq<Task>>)
    ensures r.Ok? <==> forall i :: 0 <= i < |items| && HasThumbnail(items[i]) ==> Id in items[i]
    ensures r.Err? ==> r.error == KeyError(KeyName(Id))
    ensures r.Ok? ==> |r.value| == |Filter(items, HasThumbnail)|
    ensures r.Ok? ==> forall i :: 0 <= i < |r.value| ==>
              Id in Filter(items, HasThumbnail)[i] && r.value[i] == TaskOf(d, Filter(items, HasThumbnail)[i])
  {
    var selected := Filter(items, HasThumbnail);
    SelectedHaveIds(items);
    if forall i :: 0 <= i < |selected| ==> Id in selected[i] then
      Ok(seq(|selected|, i requires 0 <= i < |selected| && Id in selected[i] && HasThumbnail(selected[i]) => TaskOf(d, selected[i])))
    else Err(KeyError(KeyName(Id)))
  }

  /** The selected items all have ids exactly when every item with a thumbnail URL does. */
  lemma SelectedHaveIds(items: seq<Record>)
    ensures (forall i :: 0 <= i < |Filter(items, HasThumbnail)| ==> Id in Filter(items, HasThumbnail)[i])
            <==> (forall i :: 0 <= i < |items| && HasThumbnail(items[i]) ==> Id in items[i])
  {
    var selected := Filter(items, HasThumbnail);
    if forall i :: 0 <= i < |selected| ==> Id in selected[i] {
      forall i | 0 <= i < |items| && HasThumbnail(items[i]) ensures Id in items[i] {
        FilterMembership(items, HasThumbnail, items[i]);
        var j :| 0 <= j < |selected| && selected[j] == items[i];
      }
    }
    if forall i :: 0 <= i < |items| && HasThumbnail(items[i]) ==> Id in items[i] {
      forall j | 0 <= j < |selected| ensures Id in selected[j] {
        FilterMembership(items, HasThumbnail, selected[j]);
        assert selected[j] in selected;
      }
    }
  }

  /** The tasks are exactly those of the items with a thumbnail URL. */
  lemma TasksSelected(d: Downloader, items: seq<Record>, t: Task)
    requires Tasks(d, items).Ok?
    ensures t in Tasks(d, items).value <==>
              exists item :: item in items && HasThumbnail(item) && Id in item && t == TaskOf(d, item)
  {
    var selected := Filter(items, HasThumbnail);
    var tasks := Tasks(d, items).value;
    if t in tasks {
      var i :| 0 <= i < |tasks| && tasks[i] == t;
      assert selected[i] in selected;
      FilterMembership(items, HasThumbnail, selected[i]);
    }
    if exists item :: item in items && HasThumbnail(item) && Id in item && t == TaskOf(d, item) {
      var item :| item in items && HasThumbnail(item) && Id in item && t == TaskOf(d, item);
      FilterMembership(items, HasThumbnail, item);
      var i :| 0 <= i < |selected| && selected[i] == item;
      assert tasks[i] == t;
    }
  }

  /** The enhanced downloader's task lists: regular (any type but 'sales') and sales. */
  function RegularTasks(tasks: seq<Task>): seq<Task> {
    Filter(tasks, (t: Task) => !IsSales(t.kind))
  }

  function SalesTasks(tasks: seq<Task>): seq<Task> {
    Filter(tasks, (t: Task) => IsSales(t.kind))
  }

  /** Every task lands in exactly one of the two lists. */
  lemma {:induction false} PartitionSizes(tasks: seq<Task>)
    ensures |RegularTasks(tasks)| + |SalesTasks(tasks)| == |tasks|
  {
    if |tasks| > 0 {
      PartitionSizes(tasks[1..]);
    }
  }

  lemma PartitionMembers(tasks: seq<Task>, t: Task)
    ensures t in RegularTasks(tasks) <==> t in tasks && !IsSales(t.kind)
    ensures t in SalesTasks(tasks) <==> t in tasks && IsSales(t.kind)
  {
    FilterMembership(tasks, (t: Task) => !IsSales(t.kind), t);
    FilterMembership(tasks, (t: Task) => IsSales(t.kind), t);
  }

  /** Successful and failed downloads, counted per type as the enhanced downloader does. */
  datatype Tally = Tally(okRegular: nat, failedRegular: nat, okSales: nat, failedSales: nat)

  predicate Succeeded(r: Download) {
    r.success
  }

  /** Number of successful results, counted from the back as the loop adds them. */
  function Successes(results: seq<Download>): (n: nat)
    ensures n <= |results|
  {
    if |results| == 0 then 0
    else Successes(results[..|results| - 1]) + (if results[|results| - 1].success then 1 else 0)
  }

  /** The count is the number of results that succeeded. */
  lemma {:induction false} SuccessesCounted(results: seq<Download>)
    ensures Successes(results) == |Filter(results, Succeeded)|
  {
    if |results| > 0 {
      var init := results[..|results| - 1];
      var last := results[|results| - 1];
      SuccessesCounted(init);
      assert results == init + [last];
      FilterAppend(init, [last], Succeeded);
    }
  }

  lemma SuccessesAppend(results: seq<Download>, r: Download)
    ensures Successes(results + [r]) == Successes(results) + (if r.success then 1 else 0)
  {
    assert (results + [r])[..|results|] == results;
  }

  /** The batch with its results in submission order: every regular task, then every sales task. */
  function Batch(d: Downloader, submitted: seq<Task>, outputDir: string, existing: set<Value>, fetch: Task -> bool): (r: seq<Download>)
    ensures |r| == |submitted|
  {
    seq(|submitted|, i requires 0 <= i < |submitted| => DownloadImage(d, submitted[i], outputDir, existing, fetch))
  }

  /** Counts one result under its type, as a success or a failure. */
  function Count(tally: Tally, r: Download): (t: Tally)
    ensures IsSales(r.kind) ==> t.okRegular == tally.okRegular && t.failedRegular == tally.failedRegular
                                && t.okSales + t.failedSales == tally.okSales + tally.failedSales + 1
    ensures !IsSales(r.kind) ==> t.okSales == tally.okSales && t.failedSales == tally.failedSales
                                 && t.okRegular + t.failedRegular == tally.okRegular + tally.failedRegular + 1
    ensures t.okRegular + t.okSales == tally.okRegular + tally.okSales + (if r.success then 1 else 0)
    ensures t.failedRegular + t.failedSales == tally.failedRegular + tally.failedSales + (if r.success then 0 else 1)
  {
    match (r.success, IsSales(r.kind))
    case (true, true) => tally.(okSales := tally.okSales + 1)
    case (true, false) => tally.(okRegular := tally.okRegular + 1)
    case (false, true) => tally.(failedSales := tally.failedSales + 1)
    case (false, false) => tally.(failedRegular := tally.failedRegular + 1)
  }

  /**
   The download loop: runs every task and counts each result under its
   type. Regular results add up to the regular tasks, sales results to
   the sales tasks; when every image is already on disk nothing fails.
   */
  method RunBatch(d: Downloader, regular: seq<Task>, sales: seq<Task>, outputDir: string, existing: set<Value>, fetch: Task -> bool)
    returns (results: seq<Download>, tally: Tally)
    requires forall t :: t in regular ==> !IsSales(t.kind)
    requires forall t :: t in sales ==> IsSales(t.kind)
    ensures results == Batch(d, regular + sales, outputDir, existing, fetch)
    ensures tally.okRegular + tally.failedRegular == |regular|
    ensures tally.okSales + tally.failedSales == |sales|
    ensures tally.okRegular + tally.okSales == Successes(results)
    ensures (forall t :: t in regular + sales ==> Checked(d, t, outputDir) in existing) ==>
              tally.failedRegular == 0 && tally.failedSales == 0
  {
    var submitted := regular + sales;
    forall j | 0 <= j < |submitted| ensures IsSales(submitted[j].kind) <==> j >= |regular| {
      if j < |regular| {
        assert submitted[j] == regular[j];
      } else {
        assert submitted[j] == sales[j - |regular|];
      }
    }
    results, tally := RunTasks(d, submitted, |regular|, outputDir, existing, fetch);
  }

  function Min(a: nat, b: nat): nat {
    if a <= b then a else b
  }

  /** The loop of `RunBatch` over the submitted tasks, the first `cut` of them regular and the rest sales. */
  method RunTasks(d: Downloader, submitted: seq<Task>, cut: nat, outputDir: string, existing: set<Value>, fetch: Task -> bool)
    returns (results: seq<Download>, tally: Tally)
    requires cut <= |submitted|
    requires forall j :: 0 <= j < |submitted| ==> (IsSales(submitted[j].kind) <==> j >= cut)
    ensures results == Batch(d, submitted, outputDir, existing, fetch)
    ensures tally.okRegular + tally.failedRegular == cut
    ensures tally.okSales + tally.failedSales == |submitted| - cut
    ensures tally.okRegular + tally.okSales == Successes(results)
    ensures (forall t :: t in submitted ==> Checked(d, t, outputDir) in existing) ==>
              tally.failedRegular == 0 && tally.failedSales == 0
  {
    ghost var allThere := forall t :: t in submitted ==> Checked(d, t, outputDir) in existing;
    results := [];
    tally := Tally(0, 0, 0, 0);
    var i := 0;
    while i < |submitted|
      invariant 0 <= i <= |submitted|
      invariant |results| == i
      invariant forall j :: 0 <= j < i ==> results[j] == DownloadImage(d, submitted[j], outputDir, existing, fetch)
      invariant tally.okRegular + tally.failedRegular == Min(i, cut)
      invariant tally.okSales + tally.failedSales == i - Min(i, cut)
      invariant tally.okRegular + tally.okSales == Successes(results)
      invariant allThere ==> tally.failedRegular + tally.failedSales == 0
    {
      var r := DownloadImage(d, submitted[i], outputDir, existing, fetch);
      assert IsSales(r.kind) <==> i >= cut by {
        assert r.kind == submitted[i].kind;
      }
      assert allThere ==> r.success by {
        assert submitted[i] in submitted;
      }
      tally := Count(tally, r);
      SuccessesAppend(results, r);
      results := results + [r];
      i := i + 1;
    }
    BatchOfResults(d, submitted, outputDir, existing, fetch, results);
  }

  /** Results that are the downloads of the submitted tasks, one by one, are the batch. */
  lemma BatchOfResults(d: Downloader, submitted: seq<Task>, outputDir: string, existing: set<Value>, fetch: Task -> bool,
                       results: seq<Download>)
    requires |results| == |submitted|
    requires forall j :: 0 <= j < |submitted| ==> results[j] == DownloadImage(d, submitted[j], outputDir, existing, fetch)
    ensures results == Batch(d, submitted, outputDir, existing, fetch)
  {
  }

  /** `download_results`: each result's path under its id, a later result for the same id replacing an earlier one. */
  function ResultPaths(results: seq<Download>): (paths: map<Value, Option<Value>>)
    ensures forall id :: id in paths <==> exists i :: 0 <= i < |results| && results[i].id == id
  {
    if |results| == 0 then map[]
    else
      var last := results[|results| - 1];
      var paths := ResultPaths(results[..|results| - 1])[last.id := last.path];
      assert forall i :: 0 <= i < |results| - 1 ==> results[..|results| - 1][i] == results[i];
      paths
  }

  /** The path recorded for an id is that of its last result. */
  lemma {:induction false} ResultPathsLast(results: seq<Download>, i: nat)
    requires i < |results|
    requires forall j :: i < j < |results| ==> results[j].id != results[i].id
    ensures results[i].id in ResultPaths(results) && ResultPaths(results)[results[i].id] == results[i].path
  {
    if i < |results| - 1 {
      var init := results[..|results| - 1];
      assert init[i] == results[i];
      ResultPathsLast(init, i);
    }
  }

  /**
   A recorded path is an image of its own id; and when every download
   succeeded, every recorded id has a path.
   */
  lemma {:induction false} ResultPathsSound(results: seq<Download>, id: Value)
    requires forall j :: 0 <= j < |results| ==> (results[j].success <==> results[j].path.Some?)
    requires forall j :: 0 <= j < |results| && results[j].path.Some? ==>
               results[j].path.value.ImagePath? && results[j].path.value.id == results[j].id
    requires id in ResultPaths(results)
    ensures ResultPaths(results)[id].Some? ==>
              ResultPaths(results)[id].value.ImagePath? && ResultPaths(results)[id].value.id == id
    ensures (forall j :: 0 <= j < |results| ==> results[j].success) ==> ResultPaths(results)[id].Some?
  {
    var init := results[..|results| - 1];
    if results[|results| - 1].id != id {
      assert forall j :: 0 <= j < |init| ==> init[j] == results[j];
      ResultPathsSound(init, id);
    }
  }

  /** The item's id has a recorded path, an image of that id, when every submitted image is on disk. */
  lemma ThumbnailPathRecorded(d: Downloader, items: seq<Record>, submitted: seq<Task>, existing: set<Value>, fetch: Task -> bool, i: nat)
    requires Tasks(d, items).Ok?
    requires forall t :: t in Tasks(d, items).value ==> t in submitted
    requires forall t :: t in submitted ==> Checked(d, t, "thumbnails") in existing
    requires i < |items| && HasThumbnail(items[i])
    ensures var paths := ResultPaths(Batch(d, submitted, "thumbnails", existing, fetch));
            && Id in items[i]
            && items[i][Id] in paths && paths[items[i][Id]].Some?
            && paths[items[i][Id]].value.ImagePath? && paths[items[i][Id]].value.id == items[i][Id]
  {
    var results := Batch(d, submitted, "thumbnails", existing, fetch);
    forall j | 0 <= j < |results| ensures results[j].success {
      assert submitted[j] in submitted;
    }
    var item := items[i];
    TasksSelected(d, items, TaskOf(d, item));
    var j :| 0 <= j < |submitted| && submitted[j] == TaskOf(d, item);
    assert results[j].id == item[Id];
    ResultPathsSound(results, item[Id]);
  }

  /**
   When every item with a thumbnail URL has a recorded path that is an
   image of its id, the fold-back gives each of them that path as its
   `local_thumbnail`.
   */
  lemma EveryThumbnailMarked(items: seq<Record>, paths: map<Value, Option<Value>>)
    requires forall i :: 0 <= i < |items| && HasThumbnail(items[i]) ==>
               && Id in items[i] && items[i][Id] in paths && paths[items[i][Id]].Some?
               && paths[items[i][Id]].value.ImagePath? && paths[items[i][Id]].value.id == items[i][Id]
    requires FoldBack(items, paths).Ok?
    ensures var marked := FoldBack(items, paths).value;
            forall i :: 0 <= i < |items| && HasThumbnail(items[i]) ==>
              && LocalThumbnail in marked[i]
              && marked[i][LocalThumbnail].ImagePath?
              && marked[i][LocalThumbnail].id == items[i][Id]
  {
    var marked: seq<Record> := FoldBack(items, paths).value;
    forall i | 0 <= i < |items| && HasThumbnail(items[i])
      ensures LocalThumbnail in marked[i]
      ensures marked[i][LocalThumbnail].ImagePath? && marked[i][LocalThumbnail].id == items[i][Id]
    {
      assert marked[i] == Mark(items[i], paths);
    }
  }

  /** One item after the fold-back: `local_thumbnail` is set when its id has a recorded path. */
  function Mark(item: Record, paths: map<Value, Option<Value>>): (r: Record)
    requires Id in item
    ensures var set_ := item[Id] in paths && paths[item[Id]].Some?;
            && (set_ ==> r.Keys == item.Keys + {LocalThumbnail} && r[LocalThumbnail] == paths[item[Id]].value)
            && (!set_ ==> r == item)
            && (forall k :: k in item && k != LocalThumbnail ==> k in r && r[k] == item[k])
  {
    var id := item[Id];
    if id in paths && paths[id].Some? then item[LocalThumbnail := paths[id].value] else item
  }

  /**
   The fold-back over every item of the data file: reading an id raises
   KeyError for an item without one; otherwise each item is marked.
   */
  function FoldBack(items: seq<Record>, paths: map<Value, Option<Value>>): (r: Result<seq<Record>>)
    ensures r.Ok? <==> forall i :: 0 <= i < |items| ==> Id in items[i]
    ensures r.Err? ==> r.error == KeyError(KeyName(Id))
    ensures r.Ok? ==> |r.value| == |items|
    ensures r.Ok? ==> forall i :: 0 <= i < |items| ==> r.value[i] == Mark(items[i], paths)
  {
    var steps := seq(|items|, i requires 0 <= i < |items| => MarkStep(items[i], paths));
    GatherOk(steps);
    assert forall i :: 0 <= i < |items| ==> (steps[i].Ok? <==> Id in items[i]);
    if Gather(steps).Err? then
      GatherFirstError(steps);
      var i :| 0 <= i < |steps| && steps[i] == Err(Gather(steps).error) && forall j :: 0 <= j < i ==> steps[j].Ok?;
      assert steps[i] == MarkStep(items[i], paths);
      Gather(steps)
    else
      Gather(steps)
  }

  /** One step of the fold-back: reading the item's id, then marking it. */
  function MarkStep(item: Record, paths: map<Value, Option<Value>>): (r: Result<Record>)
    ensures r.Ok? <==> Id in item
    ensures r.Err? ==> r.error == KeyError(KeyName(Id))
    ensures r.Ok? ==> r.value == Mark(item, paths)
  {
    if Id !in item then Err(KeyError(KeyName(Id))) else Ok(Mark(item, paths))
  }

  /** The order tasks are submitted in: the enhanced downloader submits the regular ones before the sales ones. */
  function Submitted(d: Downloader, tasks: seq<Task>): seq<Task> {
    if d.Enhanced? then RegularTasks(tasks) + SalesTasks(tasks) else tasks
  }

  /** The regular part of the submitted tasks holds no sales task, the sales part only sales tasks, and every task is submitted. */
  lemma SubmittedParts(d: Downloader, items: seq<Record>, regular: seq<Task>, sales: seq<Task>)
    requires Tasks(d, items).Ok?
    requires regular == (if d.Enhanced? then RegularTasks(Tasks(d, items).value) else Tasks(d, items).value)
    requires sales == (if d.Enhanced? then SalesTasks(Tasks(d, items).value) else [])
    ensures regular + sales == Submitted(d, Tasks(d, items).value)
    ensures |regular| + |sales| == |Tasks(d, items).value|
    ensures forall t :: t in regular ==> !IsSales(t.kind)
    ensures forall t :: t in sales ==> IsSales(t.kind)
    ensures forall t :: t in Tasks(d, items).value ==> t in regular + sales
  {
    var tasks := Tasks(d, items).value;
    if d.Enhanced? {
      PartitionSizes(tasks);
      forall t | t in regular ensures !IsSales(t.kind) {
        PartitionMembers(tasks, t);
      }
      forall t | t in sales ensures IsSales(t.kind) {
        PartitionMembers(tasks, t);
      }
      forall t | t in tasks ensures t in regular + sales {
        PartitionMembers(tasks, t);
      }
    } else {
      assert regular + sales == regular;
      forall t | t in regular ensures !IsSales(t.kind) {
        TasksNotSales(d, items, t);
      }
    }
  }

  /** When every image is already on disk, every item with a thumbnail URL gets a local path to its image. */
  lemma RunMarksAll(d: Downloader, items: seq<Record>, submitted: seq<Task>, existing: set<Value>, fetch: Task -> bool)
    requires Tasks(d, items).Ok?
    requires forall t :: t in Tasks(d, items).value ==> t in submitted
    requires forall t :: t in Tasks(d, items).value ==> Checked(d, t, "thumbnails") in existing
    requires forall t :: t in submitted ==> t in Tasks(d, items).value
    requires FoldBack(items, ResultPaths(Batch(d, submitted, "thumbnails", existing, fetch))).Ok?
    ensures var marked := FoldBack(items, ResultPaths(Batch(d, submitted, "thumbnails", existing, fetch))).value;
            forall i :: 0 <= i < |items| && HasThumbnail(items[i]) ==>
              && LocalThumbnail in marked[i]
              && marked[i][LocalThumbnail].ImagePath?
              && marked[i][LocalThumbnail].id == items[i][Id]
  {
    var paths := ResultPaths(Batch(d, submitted, "thumbnails", existing, fetch));
    forall i | 0 <= i < |items| && HasThumbnail(items[i])
      ensures && Id in items[i] && items[i][Id] in paths && paths[items[i][Id]].Some?
              && paths[items[i][Id]].value.ImagePath?
              && paths[items[i][Id]].value.id == items[i][Id]
    {
      ThumbnailPathRecorded(d, items, submitted, existing, fetch, i);
    }
    EveryThumbnailMarked(items, paths);
  }

  /**
   A whole downloader run: build the tasks, submit them (for the enhanced
   downloader the regular ones before the sales ones), download, and fold
   the paths back into the items.
   */
  method Run(d: Downloader, items: seq<Record>, existing: set<Value>, fetch: Task -> bool)
    returns (r: Result<seq<Record>>, tally: Tally)
    ensures Tasks(d, items).Err? ==> r == Err(KeyError(KeyName(Id)))
    ensures r.Ok? <==> Tasks(d, items).Ok? && forall i :: 0 <= i < |items| ==> Id in items[i]
    ensures Tasks(d, items).Ok? ==>
              r == FoldBack(items, ResultPaths(Batch(d, Submitted(d, Tasks(d, items).value), "thumbnails", existing, fetch)))
    ensures Tasks(d, items).Ok? ==>
              tally.okRegular + tally.failedRegular + tally.okSales + tally.failedSales == |Tasks(d, items).value|
    ensures Tasks(d, items).Ok? && d.Enhanced? ==>
              && tally.okRegular + tally.failedRegular == |RegularTasks(Tasks(d, items).value)|
              && tally.okSales + tally.failedSales == |SalesTasks(Tasks(d, items).value)|
    ensures !d.Enhanced? ==> tally.okSales == 0 && tally.failedSales == 0
    ensures r.Ok? ==> |r.value| == |items|
    ensures Tasks(d, items).Ok? && r.Ok? && (forall t :: t in Tasks(d, items).value ==> Checked(d, t, "thumbnails") in existing) ==>
              forall i :: 0 <= i < |items| && HasThumbnail(items[i]) ==>
                && LocalThumbnail in r.value[i]
                && r.value[i][LocalThumbnail].ImagePath?
                && r.value[i][LocalThumbnail].id == items[i][Id]
  {
    var tasks := Tasks(d, items);
    if tasks.Err? {
      return Err(tasks.error), Tally(0, 0, 0, 0);
    }
    var regular := if d.Enhanced? then RegularTasks(tasks.value) else tasks.value;
    var sales := if d.Enhanced? then SalesTasks(tasks.value) else [];
    SubmittedParts(d, items, regular, sales);
    var results;
    results, tally := RunBatch(d, regular, sales, "thumbnails", existing, fetch);
    r := FoldBack(items, ResultPaths(results));
    if r.Ok? && forall t :: t in tasks.value ==> Checked(d, t, "thumbnails") in existing {
      forall t | t in regular + sales ensures t in tasks.value {
        if d.Enhanced? {
          PartitionMembers(tasks.value, t);
        }
      }
      RunMarksAll(d, items, regular + sales, existing, fetch);
    }
  }

  /** Only the enhanced downloader tags tasks with a type. */
  lemma TasksNotSales(d: Downloader, items: seq<Record>, t: Task)
    requires !d.Enhanced? && Tasks(d, items).Ok?
    requires t in Tasks(d, items).value
    ensures !IsSales(t.kind)
  {
    TasksSelected(d, items, t);
  }
}
