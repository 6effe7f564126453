/** The `screenshots` element of the selective export: which downloads are
    started and with which index, which entries the finished downloads
    produce, the diagnostic note, and the count the summary reports. */
module Screenshots {
  import opened Common
  import opened Records
  import opened Layout
  import opened Archive

  /** One screenshot item with the device-type key it was listed under
      (`None` in the array shape). */
  type Item = (Option<string>, ShotEntry)

  /** One started download: its 1-based index, its URL, and its device key. */
  datatype Job = Job(index: nat, url: string, device: Option<string>)

  predicate Increasing(js: seq<Job>) {
    forall i, j :: 0 <= i < j < |js| ==> js[i].index < js[j].index
  }

  /** `job` downloads the item at its index, counted from `start`. */
  predicate JobOf(items: seq<Item>, start: nat, job: Job) {
    && start <= job.index < start + |items|
    && ShotUrl(items[job.index - start].1) == Some(job.url)
    && job.device == items[job.index - start].0
  }

  /** The downloads started for a run of items whose first item has index
      `start`: every item uses up an index, and only items with a URL start
      a download. */
  function ItemJobs(items: seq<Item>, start: nat): (r: seq<Job>)
    ensures |r| <= |items|
    ensures forall j :: 0 <= j < |r| ==> JobOf(items, start, r[j])
    ensures Increasing(r)
    decreases |items|
  {
    if |items| == 0 then []
    else
      var rest := ItemJobs(items[1..], start + 1);
      assert forall j :: 0 <= j < |rest| ==> JobOf(items, start, rest[j]) && rest[j].index > start by {
        forall j | 0 <= j < |rest| ensures JobOf(items, start, rest[j]) && rest[j].index > start {
          assert JobOf(items[1..], start + 1, rest[j]);
          assert items[1..][rest[j].index - (start + 1)] == items[rest[j].index - start];
        }
      }
      match ShotUrl(items[0].1)
      case Some(u) => [Job(start, u, items[0].0)] + rest
      case None => rest
  }

  /** Every item with a URL gets a download whose index is `start` plus the
      item's position. */
  lemma {:induction false} ItemJobsComplete(items: seq<Item>, start: nat, p: nat)
    requires p < |items| && ShotUrl(items[p].1).Some?
    ensures Job(start + p, ShotUrl(items[p].1).value, items[p].0) in ItemJobs(items, start)
    decreases p
  {
    var rest := ItemJobs(items[1..], start + 1);
    var target := Job(start + p, ShotUrl(items[p].1).value, items[p].0);
    if p > 0 {
      assert items[1..][p - 1] == items[p];
      ItemJobsComplete(items[1..], start + 1, p - 1);
      assert target in rest;
      match ShotUrl(items[0].1)
      case Some(u) =>
        assert ItemJobs(items, start) == [Job(start, u, items[0].0)] + rest;
      case None =>
        assert ItemJobs(items, start) == rest;
    }
  }

  /** Running over two consecutive runs of items is running over the first
      and continuing the index where it stopped. */
  lemma {:induction false} ItemJobsAppend(a: seq<Item>, b: seq<Item>, start: nat)
    ensures ItemJobs(a + b, start) == ItemJobs(a, start) + ItemJobs(b, start + |a|)
    decreases |a|
  {
    if |a| == 0 {
      assert a + b == b;
    } else {
      assert (a + b)[1..] == a[1..] + b;
      assert (a + b)[0] == a[0];
      ItemJobsAppend(a[1..], b, start + 1);
    }
  }

  /** The items of one array, all listed under the same device key. */
  function Tag(device: Option<string>, es: seq<ShotEntry>): (r: seq<Item>)
    ensures |r| == |es|
    ensures forall i :: 0 <= i < |es| ==> r[i] == (device, es[i])
  {
    seq(|es|, i requires 0 <= i < |es| => (device, es[i]))
  }

  /** The items of the object shape's array-valued properties, in key order;
      properties whose value is not an array are skipped. */
  function Flatten(gs: seq<Group>): seq<Item>
  {
    if |gs| == 0 then []
    else
      match gs[0].shots
      case None => Flatten(gs[1..])
      case Some(es) => Tag(Some(gs[0].device), es) + Flatten(gs[1..])
  }

  /** The object shape as the export walks it: one counter, started at
      `start`, carried from each device group into the next and advanced for
      every item of an array-valued group. */
  function GroupJobs(gs: seq<Group>, start: nat): (r: seq<Job>)
    ensures |r| <= |Flatten(gs)|
    ensures forall j :: 0 <= j < |r| ==> start <= r[j].index < start + |Flatten(gs)|
    decreases |gs|
  {
    if |gs| == 0 then []
    else
      match gs[0].shots
      case None => GroupJobs(gs[1..], start)
      case Some(es) =>
        var head := ItemJobs(Tag(Some(gs[0].device), es), start);
        var rest := GroupJobs(gs[1..], start + |es|);
        assert |Flatten(gs)| == |es| + |Flatten(gs[1..])|;
        assert forall j :: 0 <= j < |head| ==> JobOf(Tag(Some(gs[0].device), es), start, head[j]);
        head + rest
  }

  /** The shared counter gives each item of the object shape the index of
      its position in the concatenation of all array-valued groups: indices
      do not restart per device, and items without a URL still use one up. */
  lemma {:induction false} GroupJobsFlatten(gs: seq<Group>, start: nat)
    ensures GroupJobs(gs, start) == ItemJobs(Flatten(gs), start)
    decreases |gs|
  {
    if |gs| > 0 {
      match gs[0].shots
      case None =>
        GroupJobsFlatten(gs[1..], start);
      case Some(es) =>
        GroupJobsFlatten(gs[1..], start + |es|);
        GroupJobsCons(gs, start, es);
    }
  }

  /** One array-valued group in front of the rest: its items come first and
      the counter continues after them. */
  lemma GroupJobsCons(gs: seq<Group>, start: nat, es: seq<ShotEntry>)
    requires |gs| > 0 && gs[0].shots == Some(es)
    requires GroupJobs(gs[1..], start + |es|) == ItemJobs(Flatten(gs[1..]), start + |es|)
    ensures GroupJobs(gs, start) == ItemJobs(Flatten(gs), start)
  {
    var head := Tag(Some(gs[0].device), es);
    var tail := Flatten(gs[1..]);
    ItemJobsAppend(head, tail, start);
  }

  /** The downloads one app's `screenshots` value starts, numbered from 1. */
  function Jobs(s: Screens): (r: seq<Job>)
    ensures |r| <= ScreenshotsCount(s)
    ensures forall j :: 0 <= j < |r| ==> 1 <= r[j].index <= ScreenshotsCount(s)
  {
    match s
    case Flat(es) => ItemJobs(Tag(None, es), 1)
    case ByDevice(gs) => FlattenBelowCount(gs); GroupJobs(gs, 1)
    case _ => []
  }

  /** In either shape the started downloads carry distinct indices, in
      increasing order, starting from 1. */
  lemma JobsIncreasing(s: Screens)
    ensures Increasing(Jobs(s))
    ensures forall j :: 0 <= j < |Jobs(s)| ==> 1 <= Jobs(s)[j].index
  {
    if s.ByDevice? {
      GroupJobsFlatten(s.groups, 1);
      assert forall j :: 0 <= j < |Jobs(s)| ==> JobOf(Flatten(s.groups), 1, Jobs(s)[j]);
    } else if s.Flat? {
      assert forall j :: 0 <= j < |Jobs(s)| ==> JobOf(Tag(None, s.entries), 1, Jobs(s)[j]);
    }
  }

  /** In the array shape each started download is the item at its index
      minus one, and every item with a URL is started: the index is the
      item's position plus one. */
  lemma ArrayShapeIndices(es: seq<ShotEntry>)
    ensures forall j :: 0 <= j < |Jobs(Flat(es))| ==>
              var job := Jobs(Flat(es))[j];
              1 <= job.index <= |es| && job.device.None? && ShotUrl(es[job.index - 1]) == Some(job.url)
    ensures forall p :: 0 <= p < |es| && ShotUrl(es[p]).Some? ==>
              Job(p + 1, ShotUrl(es[p]).value, None) in Jobs(Flat(es))
  {
    var items := Tag(None, es);
    forall j | 0 <= j < |Jobs(Flat(es))|
      ensures var job := Jobs(Flat(es))[j];
              1 <= job.index <= |es| && job.device.None? && ShotUrl(es[job.index - 1]) == Some(job.url)
    {
      assert JobOf(items, 1, Jobs(Flat(es))[j]);
    }
    forall p | 0 <= p < |es| && ShotUrl(es[p]).Some?
      ensures Job(p + 1, ShotUrl(es[p]).value, None) in Jobs(Flat(es))
    {
      assert Jobs(Flat(es)) == ItemJobs(items, 1);
      assert items[p] == (None, es[p]);
      ItemJobsComplete(items, 1, p);
    }
  }

  /** In the object shape the downloads are those of the concatenated
      array-valued groups numbered from 1: each one carries its item's device
      key, and every item with a URL is started. */
  lemma ObjectShapeIndices(gs: seq<Group>)
    ensures forall j :: 0 <= j < |Jobs(ByDevice(gs))| ==>
              var job := Jobs(ByDevice(gs))[j];
              1 <= job.index <= |Flatten(gs)| && job.device.Some?
              && Flatten(gs)[job.index - 1].0 == job.device
              && ShotUrl(Flatten(gs)[job.index - 1].1) == Some(job.url)
    ensures forall p :: 0 <= p < |Flatten(gs)| && ShotUrl(Flatten(gs)[p].1).Some? ==>
              Job(p + 1, ShotUrl(Flatten(gs)[p].1).value, Flatten(gs)[p].0) in Jobs(ByDevice(gs))
  {
    ObjectShapeSound(gs);
    ObjectShapeComplete(gs);
  }

  lemma ObjectShapeSound(gs: seq<Group>)
    ensures forall j :: 0 <= j < |Jobs(ByDevice(gs))| ==>
              var job := Jobs(ByDevice(gs))[j];
              1 <= job.index <= |Flatten(gs)| && job.device.Some?
              && Flatten(gs)[job.index - 1].0 == job.device
              && ShotUrl(Flatten(gs)[job.index - 1].1) == Some(job.url)
  {
    var items := Flatten(gs);
    var js := Jobs(ByDevice(gs));
    GroupJobsFlatten(gs, 1);
    forall j | 0 <= j < |js|
      ensures 1 <= js[j].index <= |items| && js[j].device.Some?
              && items[js[j].index - 1].0 == js[j].device
              && ShotUrl(items[js[j].index - 1].1) == Some(js[j].url)
    {
      assert JobOf(items, 1, js[j]);
      FlattenAllTagged(gs, js[j].index - 1);
    }
  }

  lemma ObjectShapeComplete(gs: seq<Group>)
    ensures forall p :: 0 <= p < |Flatten(gs)| && ShotUrl(Flatten(gs)[p].1).Some? ==>
              Job(p + 1, ShotUrl(Flatten(gs)[p].1).value, Flatten(gs)[p].0) in Jobs(ByDevice(gs))
  {
    forall p | 0 <= p < |Flatten(gs)| && ShotUrl(Flatten(gs)[p].1).Some?
      ensures Job(p + 1, ShotUrl(Flatten(gs)[p].1).value, Flatten(gs)[p].0) in Jobs(ByDevice(gs))
    {
      ObjectShapeAt(gs, p);
    }
  }

  lemma ObjectShapeAt(gs: seq<Group>, p: nat)
    requires p < |Flatten(gs)| && ShotUrl(Flatten(gs)[p].1).Some?
    ensures Job(p + 1, ShotUrl(Flatten(gs)[p].1).value, Flatten(gs)[p].0) in Jobs(ByDevice(gs))
  {
    var items := Flatten(gs);
    ItemJobsComplete(items, 1, p);
    assert Jobs(ByDevice(gs)) == GroupJobs(gs, 1);
    GroupJobsFlatten(gs, 1);
  }

  /** Every item of `Flatten` carries a device key. */
  predicate FlattenTagged(gs: seq<Group>, i: nat) {
    i < |Flatten(gs)| ==> Flatten(gs)[i].0.Some?
  }

  lemma {:induction false} FlattenAllTagged(gs: seq<Group>, i: nat)
    ensures FlattenTagged(gs, i)
    decreases |gs|
  {
    if |gs| > 0 && i < |Flatten(gs)| {
      if gs[0].shots.Some? {
        var head := Tag(Some(gs[0].device), gs[0].shots.value);
        assert Flatten(gs) == head + Flatten(gs[1..]);
        if i >= |head| {
          FlattenAllTagged(gs[1..], i - |head|);
          assert Flatten(gs)[i] == Flatten(gs[1..])[i - |head|];
        }
      } else {
        FlattenAllTagged(gs[1..], i);
      }
    }
  }

  /** `Object.values(screenshots).flat().length` for the object shape: an
      array value counts its items, any other value counts as one. */
  function FlatCount(gs: seq<Group>): nat {
    if |gs| == 0 then 0
    else (match gs[0].shots case Some(es) => |es| case None => 1) + FlatCount(gs[1..])
  }

  /** The `screenshots_count` of the summary. */
  function ScreenshotsCount(s: Screens): nat {
    match s
    case Flat(es) => |es|
    case ByDevice(gs) => FlatCount(gs)
    case _ => 0
  }

  /** The `screenshots_type` of the summary: `'array'`, else `typeof`. */
  function ScreenshotsType(s: Screens): string {
    match s
    case Missing => "undefined"
    case Null => "object"
    case Flat(_) => "array"
    case ByDevice(_) => "object"
    case Scalar(t, _) => t
  }

  lemma {:induction false} FlattenBelowCount(gs: seq<Group>)
    ensures |Flatten(gs)| <= FlatCount(gs)
    decreases |gs|
  {
    if |gs| > 0 {
      FlattenBelowCount(gs[1..]);
    }
  }

  const DownloadIssuesText := "No screenshots were successfully downloaded. Check the console logs for details."
  const NoScreenshotsText := "No screenshots data available in the metadata."

  /** Whether download `index` of the element at position `k` succeeded. */
  predicate Fetched(shotOk: set<(nat, nat)>, k: nat, index: nat) {
    (k, index) in shotOk
  }

  predicate NoneFetched(js: seq<Job>, k: nat, shotOk: set<(nat, nat)>) {
    forall j :: 0 <= j < |js| ==> !Fetched(shotOk, k, js[j].index)
  }

  /** The entry a finished download is saved under: a download into the
      element's slot of the folder. */
  function SavedEntry(job: Job, folder: string, allInOne: bool): (e: Entry)
    ensures e.content.Download? && ElementSlot(e.path, folder, allInOne)
  {
    ScreenshotPathSlot(folder, allInOne, job.device, job.index, Extension(job.url));
    Entry(ScreenshotPath(folder, allInOne, job.device, job.index, Extension(job.url)), Download(job.url))
  }

  /** After the first download of an increasing run, the rest is still
      increasing and every later download has a larger index. */
  lemma IncreasingTail(js: seq<Job>)
    requires |js| > 0
    ensures Increasing(js) ==> Increasing(js[1..]) && forall job :: job in js[1..] ==> js[0].index < job.index
  {
    if Increasing(js) {
      forall job | job in js[1..] ensures js[0].index < job.index {
        var j :| 0 <= j < |js[1..]| && js[1..][j] == job;
        assert js[j + 1] == job;
      }
    }
  }

  /** The started downloads that succeeded, in start order. */
  function FetchedJobs(js: seq<Job>, k: nat, shotOk: set<(nat, nat)>): (r: seq<Job>)
    ensures |r| <= |js|
    ensures forall job :: job in r <==> job in js && Fetched(shotOk, k, job.index)
    ensures Increasing(js) ==> Increasing(r)
    decreases |js|
  {
    if |js| == 0 then []
    else
      var rest := FetchedJobs(js[1..], k, shotOk);
      assert forall job :: job in js <==> job == js[0] || job in js[1..];
      IncreasingTail(js);
      if Fetched(shotOk, k, js[0].index) then [js[0]] + rest else rest
  }

  /** No started download succeeded exactly when none is left after
      keeping the succeeded ones. */
  lemma NoneFetchedIff(js: seq<Job>, k: nat, shotOk: set<(nat, nat)>)
    ensures |FetchedJobs(js, k, shotOk)| == 0 <==> NoneFetched(js, k, shotOk)
  {
    var done := FetchedJobs(js, k, shotOk);
    if |done| == 0 {
      forall j | 0 <= j < |js| ensures !Fetched(shotOk, k, js[j].index) {
        assert js[j] in js && js[j] !in done;
      }
    } else {
      assert done[0] in done;
    }
  }

  /** The entries of the downloads that succeeded: one per succeeded
      download, named after it, in start order. */
  function Saved(js: seq<Job>, k: nat, shotOk: set<(nat, nat)>, folder: string, allInOne: bool): (r: seq<Entry>)
    ensures |r| == |FetchedJobs(js, k, shotOk)|
    ensures forall i :: 0 <= i < |r| ==> r[i] == SavedEntry(FetchedJobs(js, k, shotOk)[i], folder, allInOne)
    ensures |r| == 0 <==> NoneFetched(js, k, shotOk)
    ensures forall i :: 0 <= i < |r| ==> r[i].content.Download? && ElementSlot(r[i].path, folder, allInOne)
  {
    var done := FetchedJobs(js, k, shotOk);
    NoneFetchedIff(js, k, shotOk);
    seq(|done|, i requires 0 <= i < |done| => SavedEntry(done[i], folder, allInOne))
  }

  /** An entry is saved exactly when it is the entry of a started download
      that succeeded. */
  lemma SavedExactly(js: seq<Job>, k: nat, shotOk: set<(nat, nat)>, folder: string, allInOne: bool)
    ensures forall e :: e in Saved(js, k, shotOk, folder, allInOne) <==>
      exists job :: job in js && Fetched(shotOk, k, job.index) && e == SavedEntry(job, folder, allInOne)
  {
    forall e | e in Saved(js, k, shotOk, folder, allInOne)
      ensures exists job :: job in js && Fetched(shotOk, k, job.index) && e == SavedEntry(job, folder, allInOne)
    {
      SavedFromFetched(js, k, shotOk, folder, allInOne, e);
    }
    forall job | job in js && Fetched(shotOk, k, job.index)
      ensures SavedEntry(job, folder, allInOne) in Saved(js, k, shotOk, folder, allInOne)
    {
      FetchedSaved(js, k, shotOk, folder, allInOne, job);
    }
  }

  lemma SavedFromFetched(js: seq<Job>, k: nat, shotOk: set<(nat, nat)>, folder: string, allInOne: bool, e: Entry)
    requires e in Saved(js, k, shotOk, folder, allInOne)
    ensures exists job :: job in js && Fetched(shotOk, k, job.index) && e == SavedEntry(job, folder, allInOne)
  {
    var r := Saved(js, k, shotOk, folder, allInOne);
    var done := FetchedJobs(js, k, shotOk);
    var i :| 0 <= i < |r| && r[i] == e;
    assert done[i] in done;
  }

  lemma FetchedSaved(js: seq<Job>, k: nat, shotOk: set<(nat, nat)>, folder: string, allInOne: bool, job: Job)
    requires job in js && Fetched(shotOk, k, job.index)
    ensures SavedEntry(job, folder, allInOne) in Saved(js, k, shotOk, folder, allInOne)
  {
    var r := Saved(js, k, shotOk, folder, allInOne);
    var done := FetchedJobs(js, k, shotOk);
    assert job in done;
    var i :| 0 <= i < |done| && done[i] == job;
    assert r[i] == SavedEntry(job, folder, allInOne);
  }

  /** The entries the `screenshots` element at position `k` of the selected
      elements writes for one app. */
  function ScreenshotEntries(k: nat, s: Screens, folder: string, allInOne: bool, shotOk: set<(nat, nat)>): (r: seq<Entry>)
    ensures !ScreensPresent(s) ==>
              r == [Entry(ScreenshotNotePath(folder, allInOne, NoScreenshots), Note(NoScreenshotsText))]
    ensures ScreensPresent(s) && NoneFetched(Jobs(s), k, shotOk) ==>
              r == [Entry(ScreenshotNotePath(folder, allInOne, DownloadIssues), Note(DownloadIssuesText))]
    ensures ScreensPresent(s) && !NoneFetched(Jobs(s), k, shotOk) ==>
              var done := FetchedJobs(Jobs(s), k, shotOk);
              && 1 <= |r| == |done|
              && forall i :: 0 <= i < |r| ==> r[i] == SavedEntry(done[i], folder, allInOne)
    ensures forall i :: 0 <= i < |r| ==> ElementSlot(r[i].path, folder, allInOne)
  {
    if !ScreensPresent(s) then
      ScreenshotNotePathSlot(folder, allInOne, NoScreenshots);
      [Entry(ScreenshotNotePath(folder, allInOne, NoScreenshots), Note(NoScreenshotsText))]
    else
      var saved := Saved(Jobs(s), k, shotOk, folder, allInOne);
      if |saved| == 0 then
        ScreenshotNotePathSlot(folder, allInOne, DownloadIssues);
        [Entry(ScreenshotNotePath(folder, allInOne, DownloadIssues), Note(DownloadIssuesText))]
      else saved
  }

  /** The screenshots an app's archive receives are named after started
      downloads that succeeded, whose indices are distinct, increase in
      start order and start from 1. */
  lemma SavedIndicesIncreasing(s: Screens, k: nat, shotOk: set<(nat, nat)>)
    ensures Increasing(FetchedJobs(Jobs(s), k, shotOk))
    ensures forall job :: job in FetchedJobs(Jobs(s), k, shotOk) ==> job in Jobs(s) && 1 <= job.index
  {
    JobsIncreasing(s);
  }

  /** The object shape with two devices holding two and three URLs: the five
      downloads are numbered 1 to 5 across both devices. */
  lemma TwoDevicesNumberedAcross()
    ensures var s := ByDevice([Group("iphone", Some([UrlString("a"), UrlString("b")])),
                               Group("ipad", Some([UrlString("c"), UrlString("d"), UrlString("e")]))]);
            |Jobs(s)| == 5 && forall j :: 0 <= j < 5 ==> Jobs(s)[j].index == j + 1
  {
    var s := ByDevice([Group("iphone", Some([UrlString("a"), UrlString("b")])),
                       Group("ipad", Some([UrlString("c"), UrlString("d"), UrlString("e")]))]);
    var a := Tag(Some("iphone"), [UrlString("a"), UrlString("b")]);
    var b := Tag(Some("ipad"), [UrlString("c"), UrlString("d"), UrlString("e")]);
    assert a[1..][1..] == [];
    assert b[1..][1..][1..] == [];
    assert ItemJobs(a, 1) == [Job(1, "a", Some("iphone")), Job(2, "b", Some("iphone"))];
    assert ItemJobs(b, 3) == [Job(3, "c", Some("ipad")), Job(4, "d", Some("ipad")), Job(5, "e", Some("ipad"))];
    assert s.groups[1..][1..] == [];
    assert GroupJobs(s.groups[1..], 3) == ItemJobs(b, 3);
    assert Jobs(s) == ItemJobs(a, 1) + ItemJobs(b, 3);
  }
}
