/** The historical-metrics proxy (`GET` on the metrics history route). */
module HistoryRoute {
  import opened Common
  import opened Records

  /** The checks in the route's order, then the parameters of the upstream
      request in the order the URL template writes them. */
  function Plan(apiKey: Option<string>, query: seq<Param>): (r: Result<seq<Param>, Rejection>)
    ensures r == Failure(MissingApiKey) <==> !Truthy(apiKey)
    ensures r == Failure(MissingAppsOrMetrics) <==>
              Truthy(apiKey) && (!Truthy(Lookup(query, "apps")) || !Truthy(Lookup(query, "metrics")))
    ensures r == Failure(MissingDates) <==>
              Truthy(apiKey) && Truthy(Lookup(query, "apps")) && Truthy(Lookup(query, "metrics"))
              && (!Truthy(Lookup(query, "start_date")) || !Truthy(Lookup(query, "end_date")))
    ensures r.Success? <==>
              Truthy(apiKey) && Truthy(Lookup(query, "apps")) && Truthy(Lookup(query, "metrics"))
              && Truthy(Lookup(query, "start_date")) && Truthy(Lookup(query, "end_date"))
    ensures r.Success? ==>
              && |r.value| == 6
              && r.value[0] == ("apps", Lookup(query, "apps").value)
              && r.value[1] == ("metrics", Lookup(query, "metrics").value)
              && r.value[2] == ("country", if Truthy(Lookup(query, "country")) then Lookup(query, "country").value else "us")
              && r.value[3] == ("device", if Truthy(Lookup(query, "device")) then Lookup(query, "device").value else "iphone")
              && r.value[4] == ("start_date", Lookup(query, "start_date").value)
              && r.value[5] == ("end_date", Lookup(query, "end_date").value)
  {
    if !Truthy(apiKey) then Failure(MissingApiKey)
    else
      var apps := Lookup(query, "apps");
      var metrics := Lookup(query, "metrics");
      var start := Lookup(query, "start_date");
      var end := Lookup(query, "end_date");
      if !Truthy(apps) || !Truthy(metrics) then Failure(MissingAppsOrMetrics)
      else if !Truthy(start) || !Truthy(end) then Failure(MissingDates)
      else
        Success([("apps", apps.value), ("metrics", metrics.value),
                 ("country", OrElse(Lookup(query, "country"), "us")),
                 ("device", OrElse(Lookup(query, "device"), "iphone")),
                 ("start_date", start.value), ("end_date", end.value)])
  }

  /** The status the route answers with. */
  function Respond(apiKey: Option<string>, query: seq<Param>, upstream: Upstream): (status: nat)
    ensures status == 401 <==> !Truthy(apiKey)
    ensures status == 400 <==> Plan(apiKey, query).Failure? && Truthy(apiKey)
    ensures status == 402 <==> Plan(apiKey, query).Success? && upstream.Rejected? && IsCreditsError(upstream.error)
    ensures status == 500 <==>
              Plan(apiKey, query).Success? && (upstream.Broken? || (upstream.Rejected? && !IsCreditsError(upstream.error)))
    ensures status == 200 <==> Plan(apiKey, query).Success? && upstream.Answered?
  {
    match Plan(apiKey, query)
    case Failure(rej) => RejectionStatus(rej)
    case Success(_) =>
      match upstream
      case Answered => StatusOk
      case Rejected(_, err) => if IsCreditsError(err) then StatusPaymentRequired else StatusServerError
      case Broken => StatusServerError
  }
}
