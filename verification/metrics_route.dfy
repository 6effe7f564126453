/** The current-metrics proxy (`GET` on the metrics route). */
module MetricsRoute {
  import opened Common
  import opened Records

  /** The checks, then the parameters of the upstream request, in the order
      the URL template writes them. */
  function Plan(apiKey: Option<string>, query: seq<Param>): (r: Result<seq<Param>, Rejection>)
    ensures r == Failure(MissingApiKey) <==> !Truthy(apiKey)
    ensures r == Failure(MissingAppsOrMetrics) <==>
              Truthy(apiKey) && (!Truthy(Lookup(query, "apps")) || !Truthy(Lookup(query, "metrics")))
    ensures r.Success? <==> Truthy(apiKey) && Truthy(Lookup(query, "apps")) && Truthy(Lookup(query, "metrics"))
    ensures r.Success? ==>
              && |r.value| == 4
              && r.value[0] == ("apps", Lookup(query, "apps").value)
              && r.value[1] == ("metrics", Lookup(query, "metrics").value)
              && r.value[2] == ("country", if Truthy(Lookup(query, "country")) then Lookup(query, "country").value else "us")
              && r.value[3] == ("device", if Truthy(Lookup(query, "device")) then Lookup(query, "device").value else "iphone")
  {
    if !Truthy(apiKey) then Failure(MissingApiKey)
    else
      var apps := Lookup(query, "apps");
      var metrics := Lookup(query, "metrics");
      if !Truthy(apps) || !Truthy(metrics) then Failure(MissingAppsOrMetrics)
      else
        Success([("apps", apps.value), ("metrics", metrics.value),
                 ("country", OrElse(Lookup(query, "country"), "us")),
                 ("device", OrElse(Lookup(query, "device"), "iphone"))])
  }

  /** The status the route answers with: it has no credits branch. */
  function Respond(apiKey: Option<string>, query: seq<Param>, upstream: Upstream): (status: nat)
    ensures status == 401 <==> !Truthy(apiKey)
    ensures status == 400 <==>
              Truthy(apiKey) && (!Truthy(Lookup(query, "apps")) || !Truthy(Lookup(query, "metrics")))
    ensures status == 200 <==>
              Truthy(apiKey) && Truthy(Lookup(query, "apps")) && Truthy(Lookup(query, "metrics")) && upstream.Answered?
    ensures status == 500 <==>
              Truthy(apiKey) && Truthy(Lookup(query, "apps")) && Truthy(Lookup(query, "metrics")) && !upstream.Answered?
    ensures status != 402
  {
    match Plan(apiKey, query)
    case Failure(rej) => RejectionStatus(rej)
    case Success(_) => if upstream.Answered? then StatusOk else StatusServerError
  }
}
