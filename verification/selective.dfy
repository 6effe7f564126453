/** The selective metadata export (`POST` on the selective-download route):
    request validation, per-app metadata resolution, the entries each
    selected element writes, the per-app summary, and the fold over all
    apps that yields the archive's entries. */
module SelectiveExport {
  import opened Common
  import opened Records
  import Language
  import opened Layout
  import opened Archive
  import opened Screenshots

  /** A caller-supplied metadata value: either the record itself, or an
      object whose `metadata` property holds it. */
  datatype Cached = Cached(nested: Option<AppData>, outer: AppData)

  /** `existingMetadata[appId].metadata || existingMetadata[appId]`. */
  function Unwrap(c: Cached): AppData {
    if c.nested.Some? then c.nested.value else c.outer
  }

  /** The parsed request body; `None` fields were absent and take their
      destructuring defaults. */
  datatype ExportBody = ExportBody(
    apps: ListField,
    country: Option<string>,
    device: Option<string>,
    language: Option<string>,
    selectedElements: ListField,
    allInOne: bool,
    existingMetadata: map<string, Cached>)

  /** The request: the API key header, and the body (`None` when it is not JSON). */
  datatype ExportRequest = ExportRequest(apiKey: Option<string>, body: Option<ExportBody>)

  /** The checks made before any upstream request, in the route's order. */
  function Validate(req: ExportRequest): (r: Result<ExportBody, Rejection>)
    ensures r == Failure(MissingApiKey) <==> !Truthy(req.apiKey)
    ensures r == Failure(MalformedBody) <==> Truthy(req.apiKey) && req.body.None?
    ensures r == Failure(MissingApps) <==>
              Truthy(req.apiKey) && req.body.Some? && !NonEmptyList(req.body.value.apps)
    ensures r == Failure(MissingElements) <==>
              Truthy(req.apiKey) && req.body.Some? && NonEmptyList(req.body.value.apps)
              && !NonEmptyList(req.body.value.selectedElements)
    ensures r.Success? ==> req.body == Some(r.value)
  {
    if !Truthy(req.apiKey) then Failure(MissingApiKey)
    else if req.body.None? then Failure(MalformedBody)
    else if !NonEmptyList(req.body.value.apps) then Failure(MissingApps)
    else if !NonEmptyList(req.body.value.selectedElements) then Failure(MissingElements)
    else Success(req.body.value)
  }

  function Country(b: ExportBody): string { GetOr(b.country, "us") }
  function Device(b: ExportBody): string { GetOr(b.device, "iphone") }
  function LanguageOf(b: ExportBody): string { GetOr(b.language, "en") }

  /** The parameters of the metadata request made for `appId`, or `None`
      when the caller supplied that app's metadata and nothing is fetched. */
  function FetchParams(appId: string, b: ExportBody): (r: Option<seq<Param>>)
    ensures r.None? <==> appId in b.existingMetadata
    ensures r.Some? ==> Lookup(r.value, "apps") == Some(appId)
    ensures r.Some? ==> Lookup(r.value, "country") == Some(Country(b)) && Lookup(r.value, "device") == Some(Device(b))
    ensures r.Some? ==> (Lookup(r.value, "language").Some? <==> !(LanguageOf(b) == "en" && Country(b) == "us"))
    ensures r.Some? && Lookup(r.value, "language").Some? ==>
              Lookup(r.value, "language").value == Language.ValidLanguageForCountry(Country(b), LanguageOf(b))
  {
    if appId in b.existingMetadata then None
    else
      Language.MetadataParamsRead(appId, Country(b), Device(b), LanguageOf(b));
      Some(Language.MetadataParams(appId, Country(b), Device(b), LanguageOf(b)))
  }

  /** Outcomes of the asset downloads of one app: the positions (in the
      selected elements) whose icon download succeeded, and the (position,
      screenshot index) pairs whose screenshot download succeeded. */
  datatype Downloads = Downloads(iconOk: set<nat>, shotOk: set<(nat, nat)>)

  /** Everything the outside world decides for one app. */
  datatype AppEnv = AppEnv(meta: MetaResponse, downloads: Downloads)

  /** Where an app's metadata came from, or why there is none. */
  datatype Resolution =
    | Resolved(data: AppData)
    | FetchFailed(report: ErrorReport)
    | NoData(availableKeys: set<string>)
    | Dropped                                   // an exception ended the app's processing

  function Resolve(appId: string, b: ExportBody, meta: MetaResponse): (r: Resolution)
    ensures appId in b.existingMetadata ==> r == Resolved(Unwrap(b.existingMetadata[appId]))
    ensures appId !in b.existingMetadata && meta.NotOk? ==> r == FetchFailed(Report(meta.error, meta.status))
    ensures appId !in b.existingMetadata && meta.Ok? ==>
              (r.Resolved? <==> meta.result.Some? && appId in meta.result.value)
    ensures appId !in b.existingMetadata && meta.Ok? && meta.result.Some? && appId in meta.result.value ==>
              r.data == meta.result.value[appId]
    ensures appId !in b.existingMetadata && meta.Ok? && !r.Resolved? ==>
              r == NoData(if meta.result.Some? then meta.result.value.Keys else {})
    ensures appId !in b.existingMetadata && meta.Threw? ==> r == Dropped
  {
    if appId in b.existingMetadata then Resolved(Unwrap(b.existingMetadata[appId]))
    else
      match meta
      case NotOk(status, err) => FetchFailed(Report(err, status))
      case Threw(_) => Dropped
      case Ok(result) =>
        if result.Some? && appId in result.value then Resolved(result.value[appId])
        else NoData(if result.Some? then result.value.Keys else {})
  }

  /** `appData.description || appData.long_description`. */
  function DescriptionOf(data: AppData): Option<string> {
    if Truthy(data.description) then data.description else data.longDescription
  }

  /** A text element: one `.txt` entry when the value is truthy. */
  function TextEntries(elem: string, value: Option<string>, folder: string, allInOne: bool): seq<Entry> {
    if Truthy(value) then [Entry(ElementPath(elem, folder, allInOne, "txt"), Text(value.value))] else []
  }

  /** The entries the element at position `k` of the selected elements
      writes for one app. */
  function ElementEntries(k: nat, elem: string, data: AppData, folder: string, allInOne: bool, dl: Downloads): (r: seq<Entry>)
    ensures forall i :: 0 <= i < |r| ==> ElementSlot(r[i].path, folder, allInOne)
    ensures forall i :: 0 <= i < |r| ==> !IsSummary(r[i]) && !IsErrorMarker(r[i]) && !IsNoDataMarker(r[i])
  {
    if elem == "title" then
      ElementPathSlot("title", folder, allInOne, "txt");
      TextEntries("title", data.title, folder, allInOne)
    else if elem == "subtitle" then
      ElementPathSlot("subtitle", folder, allInOne, "txt");
      TextEntries("subtitle", data.subtitle, folder, allInOne)
    else if elem == "description" then
      ElementPathSlot("description", folder, allInOne, "txt");
      TextEntries("description", DescriptionOf(data), folder, allInOne)
    else if elem == "icon" then
      if Truthy(data.icon) && k in dl.iconOk then
        ElementPathSlot("icon", folder, allInOne, Extension(data.icon.value));
        [Entry(ElementPath("icon", folder, allInOne, Extension(data.icon.value)), Download(data.icon.value))]
      else []
    else if elem == "screenshots" then
      ScreenshotEntries(k, data.screenshots, folder, allInOne, dl.shotOk)
    else []
  }

  /** `screenshots` writes the saved screenshots of this element position,
      or the single note when there is nothing to save. */
  lemma ScreenshotsLayout(k: nat, data: AppData, folder: string, allInOne: bool, dl: Downloads)
    ensures ElementEntries(k, "screenshots", data, folder, allInOne, dl)
            == ScreenshotEntries(k, data.screenshots, folder, allInOne, dl.shotOk)
  {
  }

  const KnownElements: set<string> := {"title", "subtitle", "description", "icon", "screenshots"}

  /** Element kinds other than the five known ones write nothing. */
  lemma UnknownElementIgnored(k: nat, elem: string, data: AppData, folder: string, allInOne: bool, dl: Downloads)
    requires elem !in KnownElements
    ensures ElementEntries(k, elem, data, folder, allInOne, dl) == []
  {
  }

  /** `title` writes one text entry when the title is truthy, at
      `title/{folder}.txt` or `{folder}/title/title.txt`, and nothing otherwise. */
  lemma TitleLayout(k: nat, data: AppData, folder: string, allInOne: bool, dl: Downloads)
    ensures ElementEntries(k, "title", data, folder, allInOne, dl) == [] <==> !Truthy(data.title)
    ensures Truthy(data.title) ==>
              ElementEntries(k, "title", data, folder, allInOne, dl)
              == [Entry(if allInOne then "title/" + folder + ".txt" else folder + "/title/title.txt",
                        Text(data.title.value))]
  {
    var p := ElementPath("title", folder, allInOne, "txt");
    assert "title" + "/" == "title/" && "." + "txt" == ".txt";
    assert "/" + "title" + "/" + "title" + ".txt" == "/title/title.txt";
    assert p == if allInOne then "title/" + folder + ".txt" else folder + "/title/title.txt";
  }

  /** `subtitle` behaves as `title` under its own name. */
  lemma SubtitleLayout(k: nat, data: AppData, folder: string, allInOne: bool, dl: Downloads)
    ensures ElementEntries(k, "subtitle", data, folder, allInOne, dl) == [] <==> !Truthy(data.subtitle)
    ensures Truthy(data.subtitle) ==>
              ElementEntries(k, "subtitle", data, folder, allInOne, dl)
              == [Entry(if allInOne then "subtitle/" + folder + ".txt" else folder + "/subtitle/subtitle.txt",
                        Text(data.subtitle.value))]
  {
    var p := ElementPath("subtitle", folder, allInOne, "txt");
    assert "subtitle" + "/" == "subtitle/" && "." + "txt" == ".txt";
    assert "/" + "subtitle" + "/" + "subtitle" + ".txt" == "/subtitle/subtitle.txt";
    assert p == if allInOne then "subtitle/" + folder + ".txt" else folder + "/subtitle/subtitle.txt";
  }

  /** `description` writes the description, or the long description when
      the description is not truthy, and nothing when neither is. */
  lemma DescriptionLayout(k: nat, data: AppData, folder: string, allInOne: bool, dl: Downloads)
    ensures ElementEntries(k, "description", data, folder, allInOne, dl) == []
            <==> !Truthy(data.description) && !Truthy(data.longDescription)
    ensures Truthy(data.description) || Truthy(data.longDescription) ==>
              ElementEntries(k, "description", data, folder, allInOne, dl)
              == [Entry(if allInOne then "description/" + folder + ".txt" else folder + "/description/description.txt",
                        Text(if Truthy(data.description) then data.description.value else data.longDescription.value))]
  {
    DescriptionEntries(k, data, folder, allInOne, dl);
    DescriptionPath(folder, allInOne);
  }

  lemma DescriptionEntries(k: nat, data: AppData, folder: string, allInOne: bool, dl: Downloads)
    ensures ElementEntries(k, "description", data, folder, allInOne, dl)
            == TextEntries("description", DescriptionOf(data), folder, allInOne)
  {
  }

  lemma DescriptionPath(folder: string, allInOne: bool)
    ensures ElementPath("description", folder, allInOne, "txt")
            == if allInOne then "description/" + folder + ".txt" else folder + "/description/description.txt"
  {
    if allInOne {
      var x := "description/" + folder;
      assert "description" + "/" == "description/";
      assert x + "." + "txt" == x + ".txt";
    } else {
      var x := folder + "/description/description";
      assert folder + "/" + "description" + "/" + "description" == x;
      assert x + "." + "txt" == x + ".txt";
      assert x + ".txt" == folder + "/description/description.txt";
    }
  }

  /** `icon` writes the downloaded icon when the URL is truthy and its
      download succeeded, as `png` exactly when the URL contains `.png`;
      a failed download writes nothing, not even a note. */
  lemma IconLayout(k: nat, data: AppData, folder: string, allInOne: bool, dl: Downloads)
    ensures ElementEntries(k, "icon", data, folder, allInOne, dl) == [] <==> !Truthy(data.icon) || k !in dl.iconOk
    ensures Truthy(data.icon) && k in dl.iconOk ==>
              var ext := if Contains(data.icon.value, ".png") then "png" else "jpg";
              ElementEntries(k, "icon", data, folder, allInOne, dl)
              == [Entry(if allInOne then "icon/" + folder + "." + ext else folder + "/icon/icon." + ext,
                        Download(data.icon.value))]
  {
    if Truthy(data.icon) && k in dl.iconOk {
      var ext := Extension(data.icon.value);
      var p := ElementPath("icon", folder, allInOne, ext);
      assert "icon" + "/" == "icon/";
      assert "/" + "icon" + "/" + "icon" + "." == "/icon/icon.";
      assert p == if allInOne then "icon/" + folder + "." + ext else folder + "/icon/icon." + ext;
    }
  }

  /** The entries of all selected elements from position `k` on. */
  function ElementsFrom(sel: seq<string>, k: nat, data: AppData, folder: string, allInOne: bool, dl: Downloads): (r: seq<Entry>)
    ensures forall i :: 0 <= i < |r| ==> ElementSlot(r[i].path, folder, allInOne)
    ensures forall i :: 0 <= i < |r| ==> !IsSummary(r[i]) && !IsErrorMarker(r[i]) && !IsNoDataMarker(r[i])
    decreases |sel| - k
  {
    if k >= |sel| then []
    else ElementEntries(k, sel[k], data, folder, allInOne, dl) + ElementsFrom(sel, k + 1, data, folder, allInOne, dl)
  }

  /** The entries from position `k` on are exactly the entries the selected
      elements at those positions write. */
  lemma {:induction false} ElementsFromMembers(sel: seq<string>, k: nat, data: AppData, folder: string, allInOne: bool, dl: Downloads)
    ensures forall e :: e in ElementsFrom(sel, k, data, folder, allInOne, dl) <==>
              exists j :: k <= j < |sel| && e in ElementEntries(j, sel[j], data, folder, allInOne, dl)
    decreases |sel| - k
  {
    if k < |sel| {
      ElementsFromMembers(sel, k + 1, data, folder, allInOne, dl);
      var head := ElementEntries(k, sel[k], data, folder, allInOne, dl);
      var tail := ElementsFrom(sel, k + 1, data, folder, allInOne, dl);
      assert ElementsFrom(sel, k, data, folder, allInOne, dl) == head + tail;
      forall e | exists j :: k <= j < |sel| && e in ElementEntries(j, sel[j], data, folder, allInOne, dl)
        ensures e in head + tail
      {
        var j :| k <= j < |sel| && e in ElementEntries(j, sel[j], data, folder, allInOne, dl);
        if j > k {
          assert e in tail;
        }
      }
    }
  }

  /** The summary written for an app with metadata. */
  function MakeSummary(appId: string, data: AppData, sel: seq<string>): (m: Summary)
    ensures m.appId == appId && m.title == data.title && m.processedElements == sel
    ensures |Jobs(data.screenshots)| <= m.screenshotsCount
    ensures m.hasIcon <==> Truthy(data.icon)
    ensures m.hasTitle <==> Truthy(data.title)
    ensures m.hasSubtitle <==> Truthy(data.subtitle)
    ensures m.hasDescription <==> Truthy(data.description) || Truthy(data.longDescription)
    ensures m.hasScreenshots <==> ScreensPresent(data.screenshots)
    ensures data.screenshots.Flat? ==> m.screenshotsType == "array" && m.screenshotsCount == |data.screenshots.entries|
    ensures data.screenshots.ByDevice? || data.screenshots.Null? ==> m.screenshotsType == "object"
    ensures data.screenshots.Missing? ==> m.screenshotsType == "undefined" && m.screenshotsCount == 0
    ensures data.screenshots.Scalar? ==> m.screenshotsType == data.screenshots.typeName && m.screenshotsCount == 0
  {
    Summary(
      appId, data.title, sel,
      ScreensPresent(data.screenshots),
      ScreenshotsType(data.screenshots),
      ScreenshotsCount(data.screenshots),
      Truthy(data.icon), Truthy(data.title), Truthy(data.subtitle), Truthy(DescriptionOf(data)))
  }

  /** The summary's flags agree with what the elements wrote: a title,
      subtitle or description flag is set exactly when that element writes
      an entry, the icon flag is set exactly when the icon URL is truthy and
      an icon is written exactly when that URL's download also succeeded,
      and the screenshots
      flag is clear exactly when the screenshots element writes its
      no-screenshots note. */
  lemma SummaryMatchesEntries(appId: string, data: AppData, sel: seq<string>,
                              k: nat, folder: string, allInOne: bool, dl: Downloads)
    ensures var m := MakeSummary(appId, data, sel);
            && (m.hasTitle <==> ElementEntries(k, "title", data, folder, allInOne, dl) != [])
            && (m.hasSubtitle <==> ElementEntries(k, "subtitle", data, folder, allInOne, dl) != [])
            && (m.hasDescription <==> ElementEntries(k, "description", data, folder, allInOne, dl) != [])
            && (m.hasIcon <==> Truthy(data.icon))
            && (ElementEntries(k, "icon", data, folder, allInOne, dl) != [] <==> m.hasIcon && k in dl.iconOk)
            && (!m.hasScreenshots <==>
                  ElementEntries(k, "screenshots", data, folder, allInOne, dl)
                  == [Entry(ScreenshotNotePath(folder, allInOne, NoScreenshots), Note(NoScreenshotsText))])
  {
    TitleLayout(k, data, folder, allInOne, dl);
    SubtitleLayout(k, data, folder, allInOne, dl);
    DescriptionLayout(k, data, folder, allInOne, dl);
    IconLayout(k, data, folder, allInOne, dl);
    assert |NoScreenshotsText| != |DownloadIssuesText|;
  }

  /** The entries one app contributes to the archive: none only when an
      exception ended its processing. */
  function AppEntries(appId: string, b: ExportBody, env: AppEnv): (r: seq<Entry>)
    requires b.selectedElements.Items?
    ensures |r| == 0 <==> Resolve(appId, b, env.meta).Dropped?
  {
    match Resolve(appId, b, env.meta)
    case FetchFailed(report) => [Entry(ErrorPath(appId), ErrorDetails(appId, report))]
    case NoData(keys) => [Entry(NoDataPath(appId), NoDataDetails(appId, keys))]
    case Dropped => []
    case Resolved(data) =>
      var folder := FolderName(data, appId);
      ElementsFrom(b.selectedElements.items, 0, data, folder, b.allInOne, env.downloads)
        + [Entry(SummaryPath(folder, b.allInOne), SummaryOf(MakeSummary(appId, data, b.selectedElements.items)))]
  }

  /** An app with metadata contributes the entries of its selected elements
      plus its summary: as names, the element names and one summary name;
      as entries, everything but the summary is written by a selected element. */
  lemma AppElements(appId: string, b: ExportBody, env: AppEnv)
    requires b.selectedElements.Items?
    requires Resolve(appId, b, env.meta).Resolved?
    ensures var data := Resolve(appId, b, env.meta).data;
            var folder := FolderName(data, appId);
            var sel := b.selectedElements.items;
            && PathBag(AppEntries(appId, b, env))
               == PathBag(ElementsFrom(sel, 0, data, folder, b.allInOne, env.downloads)) + multiset{SummaryPath(folder, b.allInOne)}
            && forall e :: e in AppEntries(appId, b, env) && !IsSummary(e) <==>
                 exists j :: 0 <= j < |sel| && e in ElementEntries(j, sel[j], data, folder, b.allInOne, env.downloads)
  {
    var data := Resolve(appId, b, env.meta).data;
    var folder := FolderName(data, appId);
    var sel := b.selectedElements.items;
    var elems := ElementsFrom(sel, 0, data, folder, b.allInOne, env.downloads);
    var last := Entry(SummaryPath(folder, b.allInOne), SummaryOf(MakeSummary(appId, data, sel)));
    assert AppEntries(appId, b, env) == elems + [last];
    AppendLast(elems, last);
    ElementsFromMembers(sel, 0, data, folder, b.allInOne, env.downloads);
  }

  /** Appending a summary after non-summary entries adds its name once and
      leaves the non-summary entries those before it. */
  lemma AppendLast(elems: seq<Entry>, last: Entry)
    requires forall i :: 0 <= i < |elems| ==> !IsSummary(elems[i])
    requires IsSummary(last)
    ensures PathBag(elems + [last]) == PathBag(elems) + multiset{last.path}
    ensures forall e :: e in elems + [last] && !IsSummary(e) <==> e in elems
  {
    PathBagAppend(elems, [last]);
    assert PathBag([last]) == multiset{last.path};
  }

  /** An app whose metadata request failed contributes exactly its error
      marker; one the answer does not contain contributes exactly its
      no-data marker; neither gets element or summary entries. */
  lemma AppMarkers(appId: string, b: ExportBody, env: AppEnv)
    requires b.selectedElements.Items?
    ensures appId !in b.existingMetadata && env.meta.NotOk? ==>
              AppEntries(appId, b, env)
              == [Entry(appId + "_ERROR/error_details.json",
                        ErrorDetails(appId, Report(env.meta.error, env.meta.status)))]
    ensures appId !in b.existingMetadata && env.meta.Ok? && !(env.meta.result.Some? && appId in env.meta.result.value) ==>
              |AppEntries(appId, b, env)| == 1
              && AppEntries(appId, b, env)[0].path == appId + "_NO_DATA/no_data_details.json"
    ensures appId !in b.existingMetadata && env.meta.Threw? ==> AppEntries(appId, b, env) == []
  {
  }

  /** An app with metadata gets exactly one summary, under the layout's
      summary name, as its last entry; its count is the array length, the
      flattened object size, or 0. */
  lemma AppSummary(appId: string, b: ExportBody, env: AppEnv)
    requires b.selectedElements.Items?
    requires Resolve(appId, b, env.meta).Resolved?
    ensures var data := Resolve(appId, b, env.meta).data;
            var folder := FolderName(data, appId);
            var es := AppEntries(appId, b, env);
            && PathBag(es)[if b.allInOne then "metadata_summary/" + folder + ".json"
                           else folder + "/metadata_summary.json"] == 1
            && CountSummaries(es) == 1
            && es[|es| - 1].content.SummaryOf?
            && es[|es| - 1].content.summary.screenshotsCount
               == (match data.screenshots
                   case Flat(items) => |items|
                   case ByDevice(groups) => FlatCount(groups)
                   case _ => 0)
  {
    var data := Resolve(appId, b, env.meta).data;
    var folder := FolderName(data, appId);
    var elems := ElementsFrom(b.selectedElements.items, 0, data, folder, b.allInOne, env.downloads);
    var last := Entry(SummaryPath(folder, b.allInOne), SummaryOf(MakeSummary(appId, data, b.selectedElements.items)));
    forall i | 0 <= i < |elems| ensures elems[i].path != SummaryPath(folder, b.allInOne) {
      SummaryPathIsNotElementPath(elems[i].path, folder, b.allInOne);
    }
    PathBagAbsent(elems, SummaryPath(folder, b.allInOne));
    PathBagAppend(elems, [last]);
    assert PathBag([last]) == multiset{last.path};
    CountPlain(elems);
    CountAppend(elems, [last]);
  }

  /** Entries of all apps, in list order (the route runs them concurrently
      and entry order in the archive is not meaningful). */
  function AllApps(ids: seq<string>, b: ExportBody, env: seq<AppEnv>): seq<Entry>
    requires b.selectedElements.Items?
    requires |env| == |ids|
    decreases |ids|
  {
    if |ids| == 0 then []
    else AppEntries(ids[0], b, env[0]) + AllApps(ids[1..], b, env[1..])
  }

  /** Every entry of the archive is an entry of one of the listed apps, and
      every entry of a listed app is in the archive. */
  lemma {:induction false} AllAppsMembers(ids: seq<string>, b: ExportBody, env: seq<AppEnv>)
    requires b.selectedElements.Items?
    requires |env| == |ids|
    ensures forall e :: e in AllApps(ids, b, env) <==> exists i :: 0 <= i < |ids| && e in AppEntries(ids[i], b, env[i])
    decreases |ids|
  {
    if |ids| > 0 {
      AllAppsMembers(ids[1..], b, env[1..]);
      var head := AppEntries(ids[0], b, env[0]);
      var tail := AllApps(ids[1..], b, env[1..]);
      assert AllApps(ids, b, env) == head + tail;
      forall e | e in head + tail ensures exists i :: 0 <= i < |ids| && e in AppEntries(ids[i], b, env[i]) {
        if e in head {
          assert e in AppEntries(ids[0], b, env[0]);
        } else {
          var i :| 0 <= i < |ids[1..]| && e in AppEntries(ids[1..][i], b, env[1..][i]);
          assert ids[1..][i] == ids[i + 1] && env[1..][i] == env[i + 1];
        }
      }
      forall e | exists i :: 0 <= i < |ids| && e in AppEntries(ids[i], b, env[i]) ensures e in head + tail {
        var i :| 0 <= i < |ids| && e in AppEntries(ids[i], b, env[i]);
        if i > 0 {
          assert ids[1..][i - 1] == ids[i] && env[1..][i - 1] == env[i];
          assert e in tail;
        }
      }
    }
  }

  /** One outcome per listed app. */
  predicate Fits(req: ExportRequest, env: seq<AppEnv>) {
    req.body.Some? && req.body.value.apps.Items? ==> |env| == |req.body.value.apps.items|
  }

  /** The whole route: a rejection, or the entries of the finished archive. */
  function Export(req: ExportRequest, env: seq<AppEnv>): (r: Result<seq<Entry>, Rejection>)
    requires Fits(req, env)
    ensures r.Failure? <==> Validate(req).Failure?
    ensures r.Failure? ==> r.error == Validate(req).error
    ensures r.Success? ==>
              var b := Validate(req).value;
              && CountSummaries(r.value) == ResolvedCount(b.apps.items, b, env)
              && CountErrorMarkers(r.value) == FailedCount(b.apps.items, b, env)
              && CountNoDataMarkers(r.value) == NoDataCount(b.apps.items, b, env)
  {
    match Validate(req)
    case Failure(e) => Failure(e)
    case Success(b) => ExportCounts(b.apps.items, b, env); Success(AllApps(b.apps.items, b, env))
  }

  /** A successful archive holds exactly the entries of the listed apps. */
  lemma ExportMembers(req: ExportRequest, env: seq<AppEnv>)
    requires Fits(req, env)
    requires Export(req, env).Success?
    ensures var b := Validate(req).value;
            forall e :: e in Export(req, env).value <==>
              exists i :: 0 <= i < |b.apps.items| && e in AppEntries(b.apps.items[i], b, env[i])
  {
    var b := Validate(req).value;
    AllAppsMembers(b.apps.items, b, env);
  }

  /** The status the route answers with: 200 with the archive exactly when
      the key, the app list and the element list are present, whatever the
      upstream does; otherwise 401, then 500 for a body that is not JSON,
      then 400. */
  lemma ExportStatus(req: ExportRequest, env: seq<AppEnv>)
    requires Fits(req, env)
    ensures Export(req, env).Success? <==>
              Truthy(req.apiKey) && req.body.Some?
              && NonEmptyList(req.body.value.apps) && NonEmptyList(req.body.value.selectedElements)
    ensures !Truthy(req.apiKey) ==> Export(req, env) == Failure(MissingApiKey)
    ensures Export(req, env).Failure? ==>
              RejectionStatus(Export(req, env).error)
              == (if !Truthy(req.apiKey) then 401 else if req.body.None? then 500 else 400)
  {
  }

  /** Number of apps (list positions) for which metadata was resolved. */
  function ResolvedCount(ids: seq<string>, b: ExportBody, env: seq<AppEnv>): nat
    requires |env| == |ids|
    decreases |ids|
  {
    if |ids| == 0 then 0
    else (if Resolve(ids[0], b, env[0].meta).Resolved? then 1 else 0) + ResolvedCount(ids[1..], b, env[1..])
  }

  /** Number of apps (list positions) whose metadata request failed. */
  function FailedCount(ids: seq<string>, b: ExportBody, env: seq<AppEnv>): nat
    requires |env| == |ids|
    decreases |ids|
  {
    if |ids| == 0 then 0
    else (if Resolve(ids[0], b, env[0].meta).FetchFailed? then 1 else 0) + FailedCount(ids[1..], b, env[1..])
  }

  /** Number of apps (list positions) the upstream answer did not contain. */
  function NoDataCount(ids: seq<string>, b: ExportBody, env: seq<AppEnv>): nat
    requires |env| == |ids|
    decreases |ids|
  {
    if |ids| == 0 then 0
    else (if Resolve(ids[0], b, env[0].meta).NoData? then 1 else 0) + NoDataCount(ids[1..], b, env[1..])
  }

  lemma AppCounts(appId: string, b: ExportBody, env: AppEnv)
    requires b.selectedElements.Items?
    ensures CountSummaries(AppEntries(appId, b, env)) == (if Resolve(appId, b, env.meta).Resolved? then 1 else 0)
    ensures CountErrorMarkers(AppEntries(appId, b, env)) == (if Resolve(appId, b, env.meta).FetchFailed? then 1 else 0)
    ensures CountNoDataMarkers(AppEntries(appId, b, env)) == (if Resolve(appId, b, env.meta).NoData? then 1 else 0)
  {
    match Resolve(appId, b, env.meta)
    case Resolved(data) =>
      var folder := FolderName(data, appId);
      var elems := ElementsFrom(b.selectedElements.items, 0, data, folder, b.allInOne, env.downloads);
      var last := Entry(SummaryPath(folder, b.allInOne), SummaryOf(MakeSummary(appId, data, b.selectedElements.items)));
      CountPlain(elems);
      CountAppend(elems, [last]);
    case _ =>
  }

  /** Across the whole archive: one summary per app with metadata, one
      error marker per app whose request failed and one no-data marker per
      app the answer did not contain, however the other apps fared. */
  lemma {:induction false} ExportCounts(ids: seq<string>, b: ExportBody, env: seq<AppEnv>)
    requires b.selectedElements.Items?
    requires |env| == |ids|
    ensures CountSummaries(AllApps(ids, b, env)) == ResolvedCount(ids, b, env)
    ensures CountErrorMarkers(AllApps(ids, b, env)) == FailedCount(ids, b, env)
    ensures CountNoDataMarkers(AllApps(ids, b, env)) == NoDataCount(ids, b, env)
    decreases |ids|
  {
    if |ids| > 0 {
      AppCounts(ids[0], b, env[0]);
      ExportCounts(ids[1..], b, env[1..]);
      CountAppend(AppEntries(ids[0], b, env[0]), AllApps(ids[1..], b, env[1..]));
    }
  }

  /** The download name: `apptweak_selective_{elements joined by _}_{date}.zip`. */
  function ArchiveName(sel: seq<string>, date: string): string {
    "apptweak_selective_" + Join(sel, "_") + "_" + date + ".zip"
  }

  /** The download name is the selected elements between the fixed prefix
      and the date, and splits back into them when no element and not the
      date contains an underscore. */
  lemma ArchiveNameFields(sel: seq<string>, date: string)
    requires |sel| >= 1
    requires forall i :: 0 <= i < |sel| ==> '_' !in sel[i]
    requires '_' !in date
    ensures var name := ArchiveName(sel, date);
            |name| >= 4 && name[|name| - 4..] == ".zip"
            && Split(name[..|name| - 4], '_') == ["apptweak", "selective"] + sel + [date]
  {
    var name := ArchiveName(sel, date);
    var fields := ["apptweak", "selective"] + sel + [date];
    ArchiveNameJoin(sel, date);
    assert name[..|name| - 4] == Join(fields, "_");
    forall i | 0 <= i < |fields| ensures '_' !in fields[i] {
      if 2 <= i < 2 + |sel| {
        assert fields[i] == sel[i - 2];
      }
    }
    SplitJoin(fields, '_');
  }

  /** The archive name is its fields joined with `_`, then `.zip`. */
  lemma ArchiveNameJoin(sel: seq<string>, date: string)
    requires |sel| >= 1
    ensures ArchiveName(sel, date) == Join(["apptweak", "selective"] + sel + [date], "_") + ".zip"
  {
    var head: seq<string> := ["apptweak", "selective"];
    var js := Join(sel, "_");
    assert head[1..] == ["selective"];
    assert Join(head[1..], "_") == "selective";
    assert Join(head, "_") == "apptweak" + "_" + "selective";
    JoinConcat(head, sel, "_");
    JoinConcat(head + sel, [date], "_");
    assert Join([date], "_") == date;
    ArchivePrefix(js);
  }

  /** The fixed prefix of the archive name is its two leading fields joined. */
  lemma ArchivePrefix(js: string)
    ensures "apptweak" + "_" + "selective" + "_" + js == "apptweak_selective_" + js
  {
  }
}
