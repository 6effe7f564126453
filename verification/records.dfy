/** The shapes the upstream metadata API answers with, as the routes read
    them: an app's metadata record with optional fields, the two screenshot
    shapes, the error envelope, and the outcome of one metadata request. */
module Records {
  import opened Common

  /** One screenshot item: a bare URL string, or an object whose `url`
      property may be missing. */
  datatype ShotEntry = UrlString(text: string) | UrlObject(url: Option<string>)

  /** `typeof s === 'string' ? s : s.url`, kept only when truthy. */
  function ShotUrl(e: ShotEntry): (r: Option<string>)
    ensures r.Some? ==> r.value != ""
    ensures e.UrlString? ==> (r.Some? <==> e.text != "") && (r.Some? ==> r.value == e.text)
    ensures e.UrlObject? ==> (r.Some? <==> Truthy(e.url)) && (r.Some? ==> r == e.url)
  {
    match e
    case UrlString(t) => if t != "" then Some(t) else None
    case UrlObject(u) => if Truthy(u) then u else None
  }

  /** One property of the device-keyed screenshot object: the device type
      and its value, which is an array of items or (`None`) something else. */
  datatype Group = Group(device: string, shots: Option<seq<ShotEntry>>)

  /** The `screenshots` property of a metadata record. */
  datatype Screens =
    | Missing                                  // property absent: `undefined`
    | Null                                     // `null`
    | Flat(entries: seq<ShotEntry>)            // an array of items
    | ByDevice(groups: seq<Group>)             // an object keyed by device type, in key order
    | Scalar(typeName: string, truthy: bool)   // a string, number or boolean

  /** `!!appData.screenshots`: arrays and objects are truthy even when empty. */
  predicate ScreensPresent(s: Screens) {
    match s
    case Missing => false
    case Null => false
    case Flat(_) => true
    case ByDevice(_) => true
    case Scalar(_, t) => t
  }

  /** One app's metadata record; every field may be absent. */
  datatype AppData = AppData(
    title: Option<string>,
    subtitle: Option<string>,
    description: Option<string>,
    longDescription: Option<string>,
    icon: Option<string>,
    screenshots: Screens)

  /** The `error` property of an upstream error body. */
  datatype ErrorField =
    | NoError                                              // absent
    | ErrorText(text: string)                              // a plain string
    | ErrorObject(code: Option<string>, message: Option<string>)

  predicate ErrorTruthy(e: ErrorField) {
    match e
    case NoError => false
    case ErrorText(t) => t != ""
    case ErrorObject(_, _) => true
  }

  const CreditsErrorCode := "NotEnoughCreditsError"

  /** `errorData.error?.code === 'NotEnoughCreditsError'`. */
  predicate IsCreditsError(e: ErrorField) {
    e.ErrorObject? && e.code == Some(CreditsErrorCode)
  }

  /** What a route records about a failed metadata request. */
  datatype ErrorReport = UpstreamError(field: ErrorField) | HttpStatus(text: string)

  /** `errorData.error || \`HTTP ${response.status}\``. */
  function Report(e: ErrorField, status: nat): (r: ErrorReport)
    ensures r.UpstreamError? <==> ErrorTruthy(e)
    ensures r.UpstreamError? ==> r.field == e
    ensures r.HttpStatus? ==>
              |r.text| > 5 && r.text[..5] == "HTTP " && AllDigits(r.text[5..]) && ParseNat(r.text[5..]) == status
    ensures r.HttpStatus? ==> |r.text| == 6 || r.text[5] != '0'
  {
    if ErrorTruthy(e) then UpstreamError(e)
    else
      var text := "HTTP " + NatToString(status);
      assert text[5..] == NatToString(status);
      NatToStringRoundTrip(status);
      HttpStatus(text)
  }

  /** The outcome of one upstream metadata request, as seen by the route. */
  datatype MetaResponse =
    | Ok(result: Option<map<string, AppData>>)   // 2xx with a JSON body and its `result` property
    | NotOk(status: nat, error: ErrorField)      // non-2xx with a JSON error body
    | Threw(message: Option<string>)             // the request or a body parse threw; `None` if not an `Error`

  /** The outcome of one GET the proxy routes forward to the upstream API. */
  datatype Upstream =
    | Answered                                   // 2xx with a JSON body, passed through
    | Rejected(status: nat, error: ErrorField)   // non-2xx with a JSON error body
    | Broken                                     // the request or a body parse threw
}
