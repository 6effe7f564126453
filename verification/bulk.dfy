/** The bulk metadata download (`POST` on the metadata download route): one
    upstream request per listed app, made one after another, each app
    landing in the `metadata` or the `errors` object of a JSON file. */
module BulkDownload {
  import opened Common
  import opened Records
  import Language

  /** The parsed request body; `None` fields take their destructuring defaults. */
  datatype BulkBody = BulkBody(apps: ListField, country: Option<string>, device: Option<string>, language: Option<string>)

  /** The request: the API key header, and the body (`None` when it is not JSON). */
  datatype BulkRequest = BulkRequest(apiKey: Option<string>, body: Option<BulkBody>)

  function Country(b: BulkBody): string { GetOr(b.country, "us") }
  function Device(b: BulkBody): string { GetOr(b.device, "iphone") }
  function LanguageOf(b: BulkBody): string { GetOr(b.language, "en") }

  /** The parameters of the metadata request made for `appId`; the language
      rule is the selective export's. */
  function FetchParams(appId: string, b: BulkBody): (r: seq<Param>)
    ensures Lookup(r, "apps") == Some(appId)
    ensures Lookup(r, "country") == Some(Country(b)) && Lookup(r, "device") == Some(Device(b))
    ensures Lookup(r, "language").Some? <==> !(LanguageOf(b) == "en" && Country(b) == "us")
    ensures Lookup(r, "language").Some? ==>
              Lookup(r, "language").value == Language.ValidLanguageForCountry(Country(b), LanguageOf(b))
  {
    Language.MetadataParamsRead(appId, Country(b), Device(b), LanguageOf(b));
    Language.MetadataParams(appId, Country(b), Device(b), LanguageOf(b))
  }

  /** What `metadata[appId]` holds: the app's record, or, when the answer
      has no record for it, the whole answer. */
  datatype Stored = AppRecord(data: AppData) | WholeResponse(result: Option<map<string, AppData>>)

  /** What `errors[appId]` holds. */
  datatype Recorded = Reported(report: ErrorReport) | Thrown(message: string)

  /** The fate of one app's request. */
  function Outcome(appId: string, resp: MetaResponse): (r: Result<Stored, Recorded>)
    ensures r.Success? <==> resp.Ok?
    ensures resp.Ok? && resp.result.Some? && appId in resp.result.value ==>
              r == Success(AppRecord(resp.result.value[appId]))
    ensures resp.Ok? && !(resp.result.Some? && appId in resp.result.value) ==> r == Success(WholeResponse(resp.result))
    ensures resp.NotOk? ==> r == Failure(Reported(Report(resp.error, resp.status)))
    ensures resp.Threw? ==> r == Failure(Thrown(if resp.message.Some? then resp.message.value else "Unknown error"))
  {
    match resp
    case Ok(result) =>
      Success(if result.Some? && appId in result.value then AppRecord(result.value[appId]) else WholeResponse(result))
    case NotOk(status, err) => Failure(Reported(Report(err, status)))
    case Threw(m) => Failure(Thrown(if m.Some? then m.value else "Unknown error"))
  }

  /** The two objects after the apps of `ids` were processed in order: each
      app overwrites its own key in one of them. */
  function Collect(ids: seq<string>, resps: seq<MetaResponse>): (r: (map<string, Stored>, map<string, Recorded>))
    requires |ids| == |resps|
    ensures |ids| > 0 ==> ids[|ids| - 1] in r.0 || ids[|ids| - 1] in r.1
    decreases |ids|
  {
    if |ids| == 0 then (map[], map[])
    else
      var n := |ids| - 1;
      var (m, e) := Collect(ids[..n], resps[..n]);
      match Outcome(ids[n], resps[n])
      case Success(v) => (m[ids[n] := v], e)
      case Failure(x) => (m, e[ids[n] := x])
  }

  /** The route's loop over the apps. */
  method FetchAll(ids: seq<string>, resps: seq<MetaResponse>)
      returns (metadata: map<string, Stored>, errors: map<string, Recorded>)
    requires |ids| == |resps|
    ensures (metadata, errors) == Collect(ids, resps)
  {
    metadata := map[];
    errors := map[];
    var i := 0;
    while i < |ids|
      invariant 0 <= i <= |ids|
      invariant (metadata, errors) == Collect(ids[..i], resps[..i])
    {
      assert ids[..i + 1][..i] == ids[..i] && resps[..i + 1][..i] == resps[..i];
      match Outcome(ids[i], resps[i]) {
        case Success(v) => metadata := metadata[ids[i] := v];
        case Failure(x) => errors := errors[ids[i] := x];
      }
      i := i + 1;
    }
    assert ids[..i] == ids && resps[..i] == resps;
  }

  /** Some request for `id` among the first `|ids|` had (`ok`) or had not a
      2xx answer. */
  predicate AnsweredAs(ids: seq<string>, resps: seq<MetaResponse>, id: string, ok: bool)
    requires |ids| == |resps|
  {
    exists i :: 0 <= i < |ids| && ids[i] == id && resps[i].Ok? == ok
  }

  lemma AnsweredAsLast(ids: seq<string>, resps: seq<MetaResponse>, id: string, ok: bool)
    requires |ids| == |resps| && |ids| > 0
    ensures var n := |ids| - 1;
            AnsweredAs(ids, resps, id, ok)
            <==> AnsweredAs(ids[..n], resps[..n], id, ok) || (ids[n] == id && resps[n].Ok? == ok)
  {
    var n := |ids| - 1;
    if AnsweredAs(ids, resps, id, ok) {
      var i :| 0 <= i < |ids| && ids[i] == id && resps[i].Ok? == ok;
      if i < n {
        assert ids[..n][i] == id && resps[..n][i].Ok? == ok;
      }
    }
    if AnsweredAs(ids[..n], resps[..n], id, ok) {
      var i :| 0 <= i < n && ids[..n][i] == id && resps[..n][i].Ok? == ok;
      assert ids[i] == id && resps[i].Ok? == ok;
    }
  }

  /** An app is a key of `metadata` exactly when one of its requests
      succeeded, and a key of `errors` exactly when one of them failed. */
  lemma {:induction false} CollectKeys(ids: seq<string>, resps: seq<MetaResponse>)
    requires |ids| == |resps|
    ensures forall id :: id in Collect(ids, resps).0 <==> AnsweredAs(ids, resps, id, true)
    ensures forall id :: id in Collect(ids, resps).1 <==> AnsweredAs(ids, resps, id, false)
    decreases |ids|
  {
    if |ids| > 0 {
      var n := |ids| - 1;
      CollectKeys(ids[..n], resps[..n]);
      forall id
        ensures id in Collect(ids, resps).0 <==> AnsweredAs(ids, resps, id, true)
        ensures id in Collect(ids, resps).1 <==> AnsweredAs(ids, resps, id, false)
      {
        AnsweredAsLast(ids, resps, id, true);
        AnsweredAsLast(ids, resps, id, false);
      }
    }
  }

  predicate Distinct(ids: seq<string>) {
    forall i, j :: 0 <= i < j < |ids| ==> ids[i] != ids[j]
  }

  /** Every listed app is a key of one of the two objects. */
  lemma CollectCovers(ids: seq<string>, resps: seq<MetaResponse>)
    requires |ids| == |resps|
    ensures Collect(ids, resps).0.Keys + Collect(ids, resps).1.Keys == set i | 0 <= i < |ids| :: ids[i]
  {
    CollectKeys(ids, resps);
  }

  /** The last app of a list of distinct ids is a key of neither object
      built from the apps before it. */
  lemma LastIsFresh(ids: seq<string>, resps: seq<MetaResponse>)
    requires |ids| == |resps| && |ids| > 0
    requires Distinct(ids)
    ensures var n := |ids| - 1;
            ids[n] !in Collect(ids[..n], resps[..n]).0 && ids[n] !in Collect(ids[..n], resps[..n]).1
  {
    var n := |ids| - 1;
    CollectKeys(ids[..n], resps[..n]);
    forall i | 0 <= i < n ensures ids[..n][i] != ids[n] {
      assert ids[..n][i] == ids[i];
    }
  }

  /** With distinct app ids every app lands in exactly one of the two
      objects, so `successful_apps + failed_apps == total_apps`. */
  lemma {:induction false} CollectPartition(ids: seq<string>, resps: seq<MetaResponse>)
    requires |ids| == |resps|
    requires Distinct(ids)
    ensures Collect(ids, resps).0.Keys !! Collect(ids, resps).1.Keys
    ensures |Collect(ids, resps).0| + |Collect(ids, resps).1| == |ids|
    decreases |ids|
  {
    if |ids| > 0 {
      var n := |ids| - 1;
      assert Distinct(ids[..n]);
      CollectPartition(ids[..n], resps[..n]);
      LastIsFresh(ids, resps);
    }
  }

  /** With distinct app ids each app's entry holds its own outcome. */
  lemma {:induction false} CollectValues(ids: seq<string>, resps: seq<MetaResponse>)
    requires |ids| == |resps|
    requires Distinct(ids)
    ensures forall i :: 0 <= i < |ids| && resps[i].Ok? ==>
              ids[i] in Collect(ids, resps).0 && Success(Collect(ids, resps).0[ids[i]]) == Outcome(ids[i], resps[i])
    ensures forall i :: 0 <= i < |ids| && !resps[i].Ok? ==>
              ids[i] in Collect(ids, resps).1 && Failure(Collect(ids, resps).1[ids[i]]) == Outcome(ids[i], resps[i])
    decreases |ids|
  {
    if |ids| > 0 {
      var n := |ids| - 1;
      assert Distinct(ids[..n]);
      CollectValues(ids[..n], resps[..n]);
      forall i | 0 <= i < n ensures ids[..n][i] == ids[i] && resps[..n][i] == resps[i] && ids[i] != ids[n] { }
    }
  }

  /** With a repeated app id the key counts no longer add up to
      `total_apps`: the second answer overwrites the first. */
  lemma RepeatedIdCountedOnce()
    ensures var r := Collect(["a", "a"], [Ok(None), Ok(None)]);
            |r.0| + |r.1| == 1
  {
    var r1 := Collect(["a"], [Ok(None)]);
    assert ["a", "a"][..1] == ["a"] && [Ok(None), Ok(None)][..1] == [Ok(None)];
    var one: seq<string> := ["a"];
    assert one[..0] == [];
    assert r1 == (map["a" := WholeResponse(None)], map[]);
  }

  datatype ExportInfo = ExportInfo(
    country: string, device: string, language: string,
    totalApps: nat, successfulApps: nat, failedApps: nat)

  /** The downloaded JSON file: its name and the fields that are not clock
      dependent. `errors` is `None` when it is left `undefined`. */
  datatype BulkFile = BulkFile(
    metadata: map<string, Stored>,
    errors: Option<map<string, Recorded>>,
    info: ExportInfo,
    fileName: string)

  /** `apptweak_metadata_{country}_{device}_{date}.json`. */
  function FileName(country: string, device: string, date: string): string {
    "apptweak_metadata_" + country + "_" + device + "_" + date + ".json"
  }

  /** The file name is the five underscore-separated fields followed by
      `.json`, and splits back into them when none of the three variable
      fields contains an underscore. */
  lemma FileNameFields(country: string, device: string, date: string)
    requires '_' !in country && '_' !in device && '_' !in date
    ensures var name := FileName(country, device, date);
            |name| >= 5 && name[|name| - 5..] == ".json"
            && Split(name[..|name| - 5], '_') == ["apptweak", "metadata", country, device, date]
  {
    var name := FileName(country, device, date);
    var fields := ["apptweak", "metadata", country, device, date];
    assert Join(fields[3..], "_") == device + "_" + date;
    assert Join(fields[2..], "_") == country + "_" + (device + "_" + date);
    assert Join(fields[1..], "_") == "metadata" + "_" + (country + "_" + (device + "_" + date));
    assert Join(fields, "_") == "apptweak" + "_" + ("metadata" + "_" + (country + "_" + (device + "_" + date)));
    assert name == Join(fields, "_") + ".json";
    assert name[..|name| - 5] == Join(fields, "_");
    assert forall i :: 0 <= i < |fields| ==> '_' !in fields[i];
    SplitJoin(fields, '_');
  }

  /** The whole route. */
  method Download(req: BulkRequest, resps: seq<MetaResponse>, date: string) returns (r: Result<BulkFile, Rejection>)
    requires req.body.Some? && req.body.value.apps.Items? ==> |resps| == |req.body.value.apps.items|
    ensures r == Failure(MissingApiKey) <==> !Truthy(req.apiKey)
    ensures r == Failure(MalformedBody) <==> Truthy(req.apiKey) && req.body.None?
    ensures r == Failure(MissingApps) <==>
              Truthy(req.apiKey) && req.body.Some? && !NonEmptyList(req.body.value.apps)
    ensures r.Success? <==> Truthy(req.apiKey) && req.body.Some? && NonEmptyList(req.body.value.apps)
    ensures r.Success? ==>
              var b := req.body.value;
              var f := r.value;
              && (f.metadata, if f.errors.Some? then f.errors.value else map[]) == Collect(b.apps.items, resps)
              && (f.errors.None? <==> forall i :: 0 <= i < |resps| ==> resps[i].Ok?)
              && f.info.totalApps == |b.apps.items|
              && f.info.successfulApps == |f.metadata|
              && f.info.failedApps == (if f.errors.Some? then |f.errors.value| else 0)
              && f.info.country == Country(b) && f.info.device == Device(b) && f.info.language == LanguageOf(b)
              && f.fileName == FileName(Country(b), Device(b), date)
  {
    if !Truthy(req.apiKey) {
      return Failure(MissingApiKey);
    }
    if req.body.None? {
      return Failure(MalformedBody);
    }
    var b := req.body.value;
    if !NonEmptyList(b.apps) {
      return Failure(MissingApps);
    }
    var metadata, errors := FetchAll(b.apps.items, resps);
    CollectKeys(b.apps.items, resps);
    assert |errors| == 0 <==> forall i :: 0 <= i < |resps| ==> resps[i].Ok? by {
      if |errors| != 0 {
        var id :| id in errors;
      } else {
        forall i | 0 <= i < |resps| ensures resps[i].Ok? {
          assert b.apps.items[i] !in errors;
        }
      }
    }
    var info := ExportInfo(Country(b), Device(b), LanguageOf(b), |b.apps.items|, |metadata|, |errors|);
    r := Success(BulkFile(metadata, if |errors| > 0 then Some(errors) else None, info,
                          FileName(Country(b), Device(b), date)));
  }
}
