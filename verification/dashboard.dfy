/** The dashboard page's form state: the list operations on app IDs and
    metrics, the checks made before submitting, the endpoint and query the
    submission uses, and the store the country list is loaded for. */
module Dashboard {
  import opened Common
  import MetricsRoute
  import HistoryRoute

  const MaxAppIds: nat := 5

  datatype Form = Form(
    appIds: seq<string>,
    metrics: seq<string>,
    country: string,
    device: string,
    startDate: Option<string>,   // the date string the page sends
    endDate: Option<string>,
    isHistorical: bool)

  /** What the page keeps true of the app-ID inputs: at least one, at most five. */
  predicate WellFormed(f: Form) {
    1 <= |f.appIds| <= MaxAppIds
  }

  /** The form the page starts with. */
  function Initial(): (f: Form)
    ensures WellFormed(f)
    ensures f.appIds == [""] && f.country == "us" && f.device == "iphone"
    ensures f.metrics == [] && !f.isHistorical && f.startDate.None? && f.endDate.None?
  {
    Form([""], [], "us", "iphone", None, None, false)
  }

  /** The "add app" button: one more blank input, unless five are shown. */
  function AddAppId(f: Form): (r: Form)
    ensures r == f.(appIds := r.appIds)
    ensures |r.appIds| == if |f.appIds| < MaxAppIds then |f.appIds| + 1 else |f.appIds|
    ensures r.appIds[..|f.appIds|] == f.appIds
    ensures forall i :: |f.appIds| <= i < |r.appIds| ==> r.appIds[i] == ""
    ensures WellFormed(f) ==> WellFormed(r)
  {
    if |f.appIds| < MaxAppIds then f.(appIds := f.appIds + [""]) else f
  }

  /** `xs.filter((_, j) => j !== i)`. */
  function DropAt(xs: seq<string>, i: int): (r: seq<string>)
    ensures 0 <= i < |xs| ==> r == xs[..i] + xs[i + 1..]
    ensures !(0 <= i < |xs|) ==> r == xs
    decreases |xs|
  {
    if |xs| == 0 then []
    else
      var rest := DropAt(xs[1..], i - 1);
      if i == 0 then rest
      else
        assert 0 < i < |xs| ==> [xs[0]] + xs[1..][..i - 1] == xs[..i] && xs[1..][i..] == xs[i + 1..];
        assert [xs[0]] + xs[1..] == xs;
        [xs[0]] + rest
  }

  /** The "remove app" button: the given input goes, and a list left empty
      becomes one blank input. */
  function RemoveAppId(f: Form, index: int): (r: Form)
    ensures r == f.(appIds := r.appIds)
    ensures |r.appIds| >= 1
    ensures 0 <= index < |f.appIds| && |f.appIds| > 1 ==>
              r.appIds == f.appIds[..index] + f.appIds[index + 1..]
    ensures |f.appIds| == 1 && index == 0 ==> r.appIds == [""]
    ensures !(0 <= index < |f.appIds|) && |f.appIds| > 0 ==> r.appIds == f.appIds
    ensures WellFormed(f) ==> WellFormed(r)
  {
    var kept := DropAt(f.appIds, index);
    f.(appIds := if |kept| > 0 then kept else [""])
  }

  /** Typing into one app-ID input. */
  function UpdateAppId(f: Form, index: nat, value: string): (r: Form)
    requires index < |f.appIds|
    ensures r == f.(appIds := r.appIds)
    ensures |r.appIds| == |f.appIds|
    ensures r.appIds[index] == value
    ensures forall j :: 0 <= j < |f.appIds| && j != index ==> r.appIds[j] == f.appIds[j]
    ensures WellFormed(f) <==> WellFormed(r)
  {
    f.(appIds := f.appIds[index := value])
  }

  /** `ms.filter(x => x !== m)`. */
  function RemoveAll(ms: seq<string>, m: string): (r: seq<string>)
    ensures multiset(r) == multiset(ms)[m := 0]
    ensures |r| <= |ms|
  {
    if |ms| == 0 then []
    else
      var rest := RemoveAll(ms[1..], m);
      assert ms == [ms[0]] + ms[1..];
      if ms[0] == m then rest else [ms[0]] + rest
  }

  /** `filter` keeps order: removing from a concatenation removes from
      each part. */
  lemma {:induction false} RemoveAllConcat(a: seq<string>, b: seq<string>, m: string)
    ensures RemoveAll(a + b, m) == RemoveAll(a, m) + RemoveAll(b, m)
    decreases |a|
  {
    if |a| == 0 {
      assert a + b == b;
    } else {
      assert (a + b)[1..] == a[1..] + b;
      RemoveAllConcat(a[1..], b, m);
    }
  }

  /** On a single value, removal keeps it exactly when it differs. */
  lemma RemoveAllSingle(x: string, m: string)
    ensures RemoveAll([x], m) == if x == m then [] else [x]
  {
    assert [x][1..] == [];
  }

  /** Every value occurs at most once. */
  predicate NoDup(ms: seq<string>) {
    forall x :: x in ms ==> multiset(ms)[x] <= 1
  }

  /** A metric checkbox: a checked metric is removed, an unchecked one is
      appended. */
  function ToggleMetric(f: Form, m: string): (r: Form)
    ensures r == f.(metrics := r.metrics)
    ensures m in r.metrics <==> m !in f.metrics
    ensures forall x :: x != m ==> multiset(r.metrics)[x] == multiset(f.metrics)[x]
    ensures m !in f.metrics ==> |r.metrics| == |f.metrics| + 1 && r.metrics[..|f.metrics|] == f.metrics
    ensures NoDup(f.metrics) ==> NoDup(r.metrics)
  {
    if m in f.metrics then
      var kept := RemoveAll(f.metrics, m);
      assert multiset(kept)[m] == 0;
      f.(metrics := kept)
    else
      f.(metrics := f.metrics + [m])
  }

  /** Removing the value just appended to a list without it gives the list back. */
  lemma {:induction false} RemoveAllAppended(ms: seq<string>, m: string)
    requires m !in ms
    ensures RemoveAll(ms + [m], m) == ms
    decreases |ms|
  {
    if |ms| == 0 {
      assert [m][1..] == [];
    } else {
      assert (ms + [m])[1..] == ms[1..] + [m];
      RemoveAllAppended(ms[1..], m);
      assert [ms[0]] + ms[1..] == ms;
    }
  }

  /** Toggling twice restores an unchecked metric's list exactly, and keeps
      a duplicate-free list's contents (a checked metric moves to the end). */
  lemma ToggleTwice(f: Form, m: string)
    ensures m !in f.metrics ==> ToggleMetric(ToggleMetric(f, m), m) == f
    ensures NoDup(f.metrics) ==> multiset(ToggleMetric(ToggleMetric(f, m), m).metrics) == multiset(f.metrics)
  {
    if m !in f.metrics {
      RemoveAllAppended(f.metrics, m);
    } else if NoDup(f.metrics) {
      var once := ToggleMetric(f, m).metrics;
      assert multiset(f.metrics)[m] == 1;
      assert multiset(once + [m]) == multiset(once) + multiset{m};
    }
  }

  /** The characters `String.prototype.trim` strips: white space and line
      terminators of ECMAScript. */
  predicate JsWhitespace(c: char) {
    || c == '\t' || c == '\n' || c == '\U{B}' || c == '\U{C}' || c == '\r' || c == ' '
    || c == '\U{A0}' || c == '\U{1680}' || ('\U{2000}' <= c <= '\U{200A}')
    || c == '\U{2028}' || c == '\U{2029}' || c == '\U{202F}' || c == '\U{205F}'
    || c == '\U{3000}' || c == '\U{FEFF}'
  }

  /** The number of white-space characters `s` starts with. */
  function LeadingSpace(s: string): (n: nat)
    ensures n <= |s|
    ensures forall j :: 0 <= j < n ==> JsWhitespace(s[j])
    ensures n < |s| ==> !JsWhitespace(s[n])
    decreases |s|
  {
    if |s| > 0 && JsWhitespace(s[0]) then
      var n := 1 + LeadingSpace(s[1..]);
      assert forall j :: 1 <= j < n ==> s[j] == s[1..][j - 1];
      n
    else 0
  }

  /** The number of white-space characters `s` ends with. */
  function TrailingSpace(s: string): (n: nat)
    ensures n <= |s|
    ensures forall j :: |s| - n <= j < |s| ==> JsWhitespace(s[j])
    ensures n < |s| ==> !JsWhitespace(s[|s| - 1 - n])
    decreases |s|
  {
    if |s| > 0 && JsWhitespace(s[|s| - 1]) then
      var n := 1 + TrailingSpace(s[..|s| - 1]);
      assert forall j :: |s| - n <= j < |s| - 1 ==> s[j] == s[..|s| - 1][j];
      n
    else 0
  }

  /** `s.trim()`: the part of `s` between its leading and its trailing
      white space, which neither starts nor ends with white space. */
  function Trim(s: string): (r: string)
    ensures var i := LeadingSpace(s);
            && i + |r| <= |s| && r == s[i..i + |r|]
            && (forall j :: i + |r| <= j < |s| ==> JsWhitespace(s[j]))
    ensures |r| > 0 ==> !JsWhitespace(r[0]) && !JsWhitespace(r[|r| - 1])
  {
    var i := LeadingSpace(s);
    var t := s[i..];
    var n := TrailingSpace(t);
    assert t[..|t| - n] == s[i..i + |t| - n];
    assert forall j :: i + |t| - n <= j < |s| ==> s[j] == t[j - i];
    t[..|t| - n]
  }

  /** A string trims to nothing exactly when every character is white space. */
  lemma TrimBlank(s: string)
    ensures Trim(s) == "" <==> forall i :: 0 <= i < |s| ==> JsWhitespace(s[i])
  {
    var r := Trim(s);
    if r != "" {
      assert r[0] == s[LeadingSpace(s)];
    }
  }

  /** `ids.filter(id => id.trim() !== '')`. */
  function ValidIds(ids: seq<string>): (r: seq<string>)
    ensures |r| <= |ids|
    ensures forall x :: x in r <==> x in ids && Trim(x) != ""
    ensures forall i :: 0 <= i < |r| ==> r[i] != ""
  {
    if |ids| == 0 then []
    else
      var rest := ValidIds(ids[1..]);
      assert forall x :: x in ids <==> x == ids[0] || x in ids[1..];
      assert Trim("") == "";
      if Trim(ids[0]) != "" then [ids[0]] + rest
      else rest
  }

  /** `filter` keeps order and repetitions: the kept IDs of a
      concatenation are the kept IDs of each part. */
  lemma {:induction false} ValidIdsConcat(a: seq<string>, b: seq<string>)
    ensures ValidIds(a + b) == ValidIds(a) + ValidIds(b)
    decreases |a|
  {
    if |a| == 0 {
      assert a + b == b;
    } else {
      assert (a + b)[1..] == a[1..] + b;
      ValidIdsConcat(a[1..], b);
    }
  }

  /** A single ID is kept exactly when it does not trim to nothing. */
  lemma ValidIdsSingle(x: string)
    ensures ValidIds([x]) == if Trim(x) != "" then [x] else []
  {
    assert [x][1..] == [];
  }

  /** The browser alerts that stop a submission. */
  datatype Alert = NoApiKey | NoAppIds | NoMetrics | NoDates

  datatype Endpoint = Current | History

  /** The proxy request a submission sends: which route, with which query. */
  datatype Request = Request(endpoint: Endpoint, params: seq<Param>)

  function Query(ids: seq<string>, f: Form): seq<Param> {
    [("apps", Join(ids, ",")), ("metrics", Join(f.metrics, ",")),
     ("country", f.country), ("device", f.device)]
  }

  /** The "fetch" button: the checks in the page's order, then the request. */
  function Submit(apiKey: string, f: Form): (r: Result<Request, Alert>)
    ensures r == Failure(NoApiKey) <==> apiKey == ""
    ensures r == Failure(NoAppIds) <==> apiKey != "" && ValidIds(f.appIds) == []
    ensures r == Failure(NoMetrics) <==> apiKey != "" && ValidIds(f.appIds) != [] && f.metrics == []
    ensures r == Failure(NoDates) <==>
              apiKey != "" && ValidIds(f.appIds) != [] && f.metrics != []
              && f.isHistorical && (f.startDate.None? || f.endDate.None?)
    ensures r.Success? ==> (r.value.endpoint == History <==> f.isHistorical)
  {
    var ids := ValidIds(f.appIds);
    if apiKey == "" then Failure(NoApiKey)
    else if ids == [] then Failure(NoAppIds)
    else if f.metrics == [] then Failure(NoMetrics)
    else if f.isHistorical && (f.startDate.None? || f.endDate.None?) then Failure(NoDates)
    else Success(Request(if f.isHistorical then History else Current, Query(ids, f) + Dates(f)))
  }

  /** The date parameters of a historical request, and none otherwise. */
  function Dates(f: Form): seq<Param>
    requires f.isHistorical ==> f.startDate.Some? && f.endDate.Some?
  {
    if f.isHistorical then [("start_date", f.startDate.value), ("end_date", f.endDate.value)] else []
  }

  /** What the route reads from a submitted query: the non-blank IDs and the
      metrics joined with `,`, the country and device as chosen, and the two
      dates exactly when the request is historical. */
  lemma SubmitQuery(apiKey: string, f: Form)
    requires Submit(apiKey, f).Success?
    ensures var q := Submit(apiKey, f).value.params;
            && Lookup(q, "apps") == Some(Join(ValidIds(f.appIds), ","))
            && Lookup(q, "metrics") == Some(Join(f.metrics, ","))
            && Lookup(q, "country") == Some(f.country)
            && Lookup(q, "device") == Some(f.device)
            && (Lookup(q, "start_date").Some? <==> f.isHistorical)
            && (f.isHistorical ==> Lookup(q, "start_date") == f.startDate && Lookup(q, "end_date") == f.endDate)
  {
    var ids := ValidIds(f.appIds);
    SubmitParams(apiKey, f);
    QueryRead(ids, f, Dates(f));
    if f.isHistorical {
      DatesRead(f.startDate.value, f.endDate.value);
    }
  }

  /** The four leading parameters read back as written; other keys are
      looked up in what follows them. */
  lemma QueryRead(ids: seq<string>, f: Form, tail: seq<Param>)
    ensures Lookup(Query(ids, f) + tail, "apps") == Some(Join(ids, ","))
    ensures Lookup(Query(ids, f) + tail, "metrics") == Some(Join(f.metrics, ","))
    ensures Lookup(Query(ids, f) + tail, "country") == Some(f.country)
    ensures Lookup(Query(ids, f) + tail, "device") == Some(f.device)
    ensures Lookup(Query(ids, f) + tail, "start_date") == Lookup(tail, "start_date")
    ensures Lookup(Query(ids, f) + tail, "end_date") == Lookup(tail, "end_date")
  {
    ParamsRead(Join(ids, ","), Join(f.metrics, ","), f.country, f.device, tail);
  }

  lemma ParamsRead(apps: string, metrics: string, country: string, device: string, tail: seq<Param>)
    ensures var p := [("apps", apps), ("metrics", metrics), ("country", country), ("device", device)] + tail;
            && Lookup(p, "apps") == Some(apps) && Lookup(p, "metrics") == Some(metrics)
            && Lookup(p, "country") == Some(country) && Lookup(p, "device") == Some(device)
            && Lookup(p, "start_date") == Lookup(tail, "start_date")
            && Lookup(p, "end_date") == Lookup(tail, "end_date")
  {
    var p := [("apps", apps), ("metrics", metrics), ("country", country), ("device", device)] + tail;
    assert p[1..][1..] == [("country", country), ("device", device)] + tail;
    assert Lookup(p, "country") == Lookup(p[1..][1..], "country");
    assert p[1..][1..][1..] == [("device", device)] + tail;
    assert Lookup(p[1..][1..], "device") == Lookup(p[1..][1..][1..], "device");
    assert p[1..][1..][1..][1..] == tail;
    assert Lookup(p, "start_date") == Lookup(p[1..], "start_date") == Lookup(p[1..][1..], "start_date")
        == Lookup(p[1..][1..][1..], "start_date") == Lookup(p[1..][1..][1..][1..], "start_date");
    assert Lookup(p, "end_date") == Lookup(p[1..], "end_date") == Lookup(p[1..][1..], "end_date")
        == Lookup(p[1..][1..][1..], "end_date") == Lookup(p[1..][1..][1..][1..], "end_date");
  }

  /** A request the page sends passes the checks of the route it targets,
      which forwards the same parameters, in the same order, upstream,
      provided the metric names, the country, the device and the dates are
      not empty. */
  lemma SubmitForwarded(apiKey: string, f: Form)
    requires Submit(apiKey, f).Success?
    requires forall i :: 0 <= i < |f.metrics| ==> f.metrics[i] != ""
    requires f.country != "" && f.device != ""
    requires f.startDate.Some? ==> f.startDate.value != ""
    requires f.endDate.Some? ==> f.endDate.value != ""
    ensures Submit(apiKey, f).value.endpoint == Current ==>
              MetricsRoute.Plan(Some(apiKey), Submit(apiKey, f).value.params) == Success(Submit(apiKey, f).value.params)
    ensures Submit(apiKey, f).value.endpoint == History ==>
              HistoryRoute.Plan(Some(apiKey), Submit(apiKey, f).value.params) == Success(Submit(apiKey, f).value.params)
  {
    var ids := ValidIds(f.appIds);
    var req := Submit(apiKey, f).value;
    SubmitParams(apiKey, f);
    assert ids != [] && f.metrics != [];
    JoinKeepsFirst(ids, ",");
    JoinKeepsFirst(f.metrics, ",");
    assert Join(ids, ",") != "" && Join(f.metrics, ",") != "";
    if f.isHistorical {
      assert f.startDate.Some? && f.endDate.Some?;
      HistoryForwarded(apiKey, ids, f);
    } else {
      var q := Query(ids, f);
      assert Dates(f) == [] && q + [] == q;
      assert req.params == q;
      CurrentForwarded(apiKey, ids, f);
      assert MetricsRoute.Plan(Some(apiKey), req.params) == Success(req.params);
    }
  }

  lemma SubmitParams(apiKey: string, f: Form)
    requires Submit(apiKey, f).Success?
    ensures f.isHistorical ==> f.startDate.Some? && f.endDate.Some?
    ensures Submit(apiKey, f).value.params == Query(ValidIds(f.appIds), f) + Dates(f)
  {
  }

  lemma CurrentForwarded(apiKey: string, ids: seq<string>, f: Form)
    requires apiKey != "" && Join(ids, ",") != "" && Join(f.metrics, ",") != ""
    requires f.country != "" && f.device != ""
    ensures MetricsRoute.Plan(Some(apiKey), Query(ids, f)) == Success(Query(ids, f))
  {
    CurrentPlanOf(apiKey, Join(ids, ","), Join(f.metrics, ","), f.country, f.device);
  }

  /** The metrics route's plan for a query whose four parameters are present
      and not empty: it passes them on unchanged. */
  lemma CurrentPlanOf(apiKey: string, apps: string, metrics: string, country: string, device: string)
    requires apiKey != "" && apps != "" && metrics != "" && country != "" && device != ""
    ensures var p := [("apps", apps), ("metrics", metrics), ("country", country), ("device", device)];
            MetricsRoute.Plan(Some(apiKey), p) == Success(p)
  {
    var p := [("apps", apps), ("metrics", metrics), ("country", country), ("device", device)];
    ParamsRead(apps, metrics, country, device, []);
    assert p + [] == p;
    var r := MetricsRoute.Plan(Some(apiKey), p);
    assert r.value[0] == p[0] && r.value[1] == p[1] && r.value[2] == p[2] && r.value[3] == p[3];
  }

  lemma HistoryForwarded(apiKey: string, ids: seq<string>, f: Form)
    requires apiKey != "" && Join(ids, ",") != "" && Join(f.metrics, ",") != ""
    requires f.country != "" && f.device != ""
    requires f.startDate.Some? && f.startDate.value != ""
    requires f.endDate.Some? && f.endDate.value != ""
    ensures var p := Query(ids, f) + [("start_date", f.startDate.value), ("end_date", f.endDate.value)];
            HistoryRoute.Plan(Some(apiKey), p) == Success(p)
  {
    var dates := [("start_date", f.startDate.value), ("end_date", f.endDate.value)];
    var p := Query(ids, f) + dates;
    var q := Query(ids, f);
    assert q == [("apps", Join(ids, ",")), ("metrics", Join(f.metrics, ",")),
                 ("country", f.country), ("device", f.device)];
    assert p == [("apps", Join(ids, ",")), ("metrics", Join(f.metrics, ",")),
                 ("country", f.country), ("device", f.device),
                 ("start_date", f.startDate.value), ("end_date", f.endDate.value)];
    HistoryPlanOf(apiKey, Join(ids, ","), Join(f.metrics, ","), f.country, f.device,
                  f.startDate.value, f.endDate.value);
  }

  /** The history route's plan for a query whose six parameters are present
      and not empty: it passes them on in its own order. */
  lemma HistoryPlanOf(apiKey: string, apps: string, metrics: string, country: string, device: string,
                      start: string, end: string)
    requires apiKey != "" && apps != "" && metrics != "" && country != "" && device != ""
    requires start != "" && end != ""
    ensures var p := [("apps", apps), ("metrics", metrics), ("country", country),
                      ("device", device), ("start_date", start), ("end_date", end)];
            HistoryRoute.Plan(Some(apiKey), p) == Success(p)
  {
    var q := [("apps", apps), ("metrics", metrics), ("country", country), ("device", device)];
    var dates := [("start_date", start), ("end_date", end)];
    var p := q + dates;
    assert p == [("apps", apps), ("metrics", metrics), ("country", country),
                 ("device", device), ("start_date", start), ("end_date", end)];
    ParamsRead(apps, metrics, country, device, dates);
    DatesRead(start, end);
  }

  lemma DatesRead(start: string, end: string)
    ensures Lookup([("start_date", start), ("end_date", end)], "start_date") == Some(start)
    ensures Lookup([("start_date", start), ("end_date", end)], "end_date") == Some(end)
  {
    var d := [("start_date", start), ("end_date", end)];
    assert d[1..] == [("end_date", end)];
    assert Lookup(d, "end_date") == Lookup(d[1..], "end_date");
  }

  /** A join begins with its first field. */
  lemma JoinKeepsFirst(xs: seq<string>, sep: string)
    requires |xs| >= 1
    ensures |Join(xs, sep)| >= |xs[0]|
  {
  }

  /** The `apps` value splits back into the non-blank IDs, in order, when
      none of them contains a comma. */
  lemma SubmittedAppsSplit(apiKey: string, f: Form)
    requires Submit(apiKey, f).Success?
    requires forall i :: 0 <= i < |f.appIds| ==> ',' !in f.appIds[i]
    ensures Split(Lookup(Submit(apiKey, f).value.params, "apps").value, ',') == ValidIds(f.appIds)
  {
    var ids := ValidIds(f.appIds);
    SubmitQuery(apiKey, f);
    forall i | 0 <= i < |ids| ensures ',' !in ids[i] {
      assert ids[i] in f.appIds;
    }
    SplitJoin(ids, ',');
  }

  /** The store the country list is loaded for. */
  function Store(device: string): (s: string)
    ensures s == "android" <==> device == "android"
    ensures s == "android" || s == "ios"
  {
    if device == "android" then "android" else "ios"
  }

  /** The country-list query, or nothing when no API key is entered. */
  function CountriesQuery(apiKey: string, device: string): (r: Option<seq<Param>>)
    ensures r.None? <==> apiKey == ""
    ensures r.Some? ==> Lookup(r.value, "store") == Some(Store(device))
  {
    if apiKey == "" then None else Some([("store", Store(device))])
  }
}
