/** The ZIP archive of the selective export, seen as the entries appended to
    it: a name and what was written under it. */
module Archive {
  import opened Common
  import opened Records

  /** The per-app JSON summary written after all of the app's elements. */
  datatype Summary = Summary(
    appId: string,
    title: Option<string>,
    processedElements: seq<string>,
    hasScreenshots: bool,
    screenshotsType: string,
    screenshotsCount: nat,
    hasIcon: bool,
    hasTitle: bool,
    hasSubtitle: bool,
    hasDescription: bool)

  /** What an entry holds. Downloaded bytes are represented by the URL they
      were fetched from. Of the JSON bodies, the error details keep the app
      and the error; the no-data details keep the app and the answer's keys
      as a set, not the whole answer; summaries keep every field except the
      export date. */
  datatype Content =
    | Text(text: string)
    | Download(url: string)
    | Note(text: string)
    | ErrorDetails(appId: string, error: ErrorReport)
    | NoDataDetails(appId: string, availableKeys: set<string>)
    | SummaryOf(summary: Summary)

  datatype Entry = Entry(path: string, content: Content)

  /** The archive's entry names, with repetitions: appending twice under the
      same name makes two entries. */
  function PathBag(es: seq<Entry>): multiset<string>
  {
    if |es| == 0 then multiset{} else multiset{es[0].path} + PathBag(es[1..])
  }

  lemma {:induction false} PathBagAppend(a: seq<Entry>, b: seq<Entry>)
    ensures PathBag(a + b) == PathBag(a) + PathBag(b)
    decreases |a|
  {
    if |a| == 0 {
      assert a + b == b;
    } else {
      assert (a + b)[1..] == a[1..] + b;
      PathBagAppend(a[1..], b);
    }
  }

  /** An entry name that no entry carries is absent from the bag. */
  lemma {:induction false} PathBagAbsent(es: seq<Entry>, p: string)
    requires forall i :: 0 <= i < |es| ==> es[i].path != p
    ensures PathBag(es)[p] == 0
    decreases |es|
  {
    if |es| > 0 {
      PathBagAbsent(es[1..], p);
    }
  }

  predicate IsSummary(e: Entry) { e.content.SummaryOf? }
  predicate IsErrorMarker(e: Entry) { e.content.ErrorDetails? }
  predicate IsNoDataMarker(e: Entry) { e.content.NoDataDetails? }

  function CountSummaries(es: seq<Entry>): nat {
    if |es| == 0 then 0 else (if IsSummary(es[0]) then 1 else 0) + CountSummaries(es[1..])
  }

  function CountErrorMarkers(es: seq<Entry>): nat {
    if |es| == 0 then 0 else (if IsErrorMarker(es[0]) then 1 else 0) + CountErrorMarkers(es[1..])
  }

  function CountNoDataMarkers(es: seq<Entry>): nat {
    if |es| == 0 then 0 else (if IsNoDataMarker(es[0]) then 1 else 0) + CountNoDataMarkers(es[1..])
  }

  lemma {:induction false} CountAppend(a: seq<Entry>, b: seq<Entry>)
    ensures CountSummaries(a + b) == CountSummaries(a) + CountSummaries(b)
    ensures CountErrorMarkers(a + b) == CountErrorMarkers(a) + CountErrorMarkers(b)
    ensures CountNoDataMarkers(a + b) == CountNoDataMarkers(a) + CountNoDataMarkers(b)
    decreases |a|
  {
    if |a| == 0 {
      assert a + b == b;
    } else {
      assert (a + b)[1..] == a[1..] + b;
      CountAppend(a[1..], b);
    }
  }

  /** Entries that are neither summaries nor markers add to none of the counts. */
  lemma {:induction false} CountPlain(es: seq<Entry>)
    requires forall i :: 0 <= i < |es| ==> !IsSummary(es[i]) && !IsErrorMarker(es[i]) && !IsNoDataMarker(es[i])
    ensures CountSummaries(es) == 0 && CountErrorMarkers(es) == 0 && CountNoDataMarkers(es) == 0
    decreases |es|
  {
    if |es| > 0 {
      CountPlain(es[1..]);
    }
  }
}
