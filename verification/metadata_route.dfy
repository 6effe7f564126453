/** The metadata proxy (`GET` on the metadata route): one upstream metadata
    request for the `apps` query parameter, passed through. */
module MetadataRoute {
  import opened Common
  import opened Records
  import Language

  function Country(query: seq<Param>): string { OrElse(Lookup(query, "country"), "us") }
  function Device(query: seq<Param>): string { OrElse(Lookup(query, "device"), "iphone") }
  function LanguageOf(query: seq<Param>): string { OrElse(Lookup(query, "language"), "en") }

  /** The checks, then the parameters of the upstream request. */
  function Plan(apiKey: Option<string>, query: seq<Param>): (r: Result<seq<Param>, Rejection>)
    ensures r == Failure(MissingApiKey) <==> !Truthy(apiKey)
    ensures r == Failure(MissingApps) <==> Truthy(apiKey) && !Truthy(Lookup(query, "apps"))
    ensures r.Success? <==> Truthy(apiKey) && Truthy(Lookup(query, "apps"))
    ensures r.Success? ==>
              && Lookup(r.value, "apps") == Lookup(query, "apps")
              && Lookup(r.value, "country") == Some(if Truthy(Lookup(query, "country")) then Lookup(query, "country").value else "us")
              && Lookup(r.value, "device") == Some(if Truthy(Lookup(query, "device")) then Lookup(query, "device").value else "iphone")
              && (Lookup(r.value, "language").Some? <==> !(LanguageOf(query) == "en" && Country(query) == "us"))
              && (Lookup(r.value, "language").Some? ==>
                    Lookup(r.value, "language").value == Language.ValidLanguageForCountry(Country(query), LanguageOf(query)))
  {
    if !Truthy(apiKey) then Failure(MissingApiKey)
    else
      var apps := Lookup(query, "apps");
      if !Truthy(apps) then Failure(MissingApps)
      else
        Language.MetadataParamsRead(apps.value, Country(query), Device(query), LanguageOf(query));
        Success(Language.MetadataParams(apps.value, Country(query), Device(query), LanguageOf(query)))
  }

  /** The status the route answers with: the key is checked first, then
      `apps`; an accepted request answers 402 exactly for the credits error
      code and 500 for every other failure, thrown or answered. */
  function Respond(apiKey: Option<string>, query: seq<Param>, upstream: Upstream): (status: nat)
    ensures status == 401 <==> !Truthy(apiKey)
    ensures status == 400 <==> Truthy(apiKey) && !Truthy(Lookup(query, "apps"))
    ensures status == 402 <==>
              Truthy(apiKey) && Truthy(Lookup(query, "apps"))
              && upstream.Rejected? && upstream.error.ErrorObject?
              && upstream.error.code == Some("NotEnoughCreditsError")
    ensures status == 500 <==>
              Truthy(apiKey) && Truthy(Lookup(query, "apps"))
              && (upstream.Broken? || (upstream.Rejected? && !IsCreditsError(upstream.error)))
    ensures status == 200 <==>
              Truthy(apiKey) && Truthy(Lookup(query, "apps")) && upstream.Answered?
  {
    match Plan(apiKey, query)
    case Failure(rej) => RejectionStatus(rej)
    case Success(_) =>
      match upstream
      case Answered => StatusOk
      case Rejected(_, err) => if IsCreditsError(err) then StatusPaymentRequired else StatusServerError
      case Broken => StatusServerError
  }
}
