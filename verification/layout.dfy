/** Archive entry names of the selective export: folder-name sanitising, the
    two layouts (grouped by app, or grouped by element when `allInOne`), and
    the file extension guessed from an asset URL. */
module Layout {
  import opened Common
  import opened Records

  /** Characters the folder-name pattern `[a-zA-Z0-9\-_]` keeps. */
  predicate AllowedChar(c: char) {
    ('a' <= c <= 'z') || ('A' <= c <= 'Z') || ('0' <= c <= '9') || c == '-' || c == '_'
  }

  predicate AllAllowed(s: string) {
    forall i :: 0 <= i < |s| ==> AllowedChar(s[i])
  }

  /** `s.replace(/[^a-zA-Z0-9\-_]/g, '_')`. */
  function Sanitize(s: string): (r: string)
    ensures |r| == |s|
    ensures AllAllowed(r)
    ensures forall i :: 0 <= i < |s| && AllowedChar(s[i]) ==> r[i] == s[i]
    ensures forall i :: 0 <= i < |s| && !AllowedChar(s[i]) ==> r[i] == '_'
  {
    if |s| == 0 then ""
    else [if AllowedChar(s[0]) then s[0] else '_'] + Sanitize(s[1..])
  }

  /** A name is left unchanged by sanitising exactly when it already uses
      only allowed characters. */
  lemma SanitizeFixedPoint(s: string)
    ensures Sanitize(s) == s <==> AllAllowed(s)
  {
    if AllAllowed(s) {
      assert forall i :: 0 <= i < |s| ==> Sanitize(s)[i] == s[i];
    } else {
      var i :| 0 <= i < |s| && !AllowedChar(s[i]);
      assert Sanitize(s)[i] != s[i];
    }
  }

  /** Sanitising twice is sanitising once. */
  lemma SanitizeIdempotent(s: string)
    ensures Sanitize(Sanitize(s)) == Sanitize(s)
  {
    SanitizeFixedPoint(Sanitize(s));
  }

  /** `${appData.title || appId}` sanitised: the folder (and, in the
      grouped-by-element layout, the file stem) of one app. */
  function FolderName(data: AppData, appId: string): (r: string)
    ensures |r| == (if Truthy(data.title) then |data.title.value| else |appId|)
    ensures var source := if Truthy(data.title) then data.title.value else appId;
            forall i :: 0 <= i < |r| ==> r[i] == (if AllowedChar(source[i]) then source[i] else '_')
    ensures AllAllowed(r)
    ensures Sanitize(r) == r
    ensures '/' !in r
  {
    var r := Sanitize(OrElse(data.title, appId));
    SanitizeFixedPoint(r);
    assert !AllowedChar('/');
    r
  }

  /** `s.includes(sub)`. */
  predicate Contains(s: string, sub: string)
    decreases |s|
  {
    |sub| <= |s| && (s[..|sub|] == sub || (|s| > 0 && Contains(s[1..], sub)))
  }

  /** A string contains whatever occurs in it after any prefix. */
  lemma {:induction false} ContainsInfix(p: string, sub: string, q: string)
    ensures Contains(p + sub + q, sub)
    decreases |p|
  {
    var s := p + sub + q;
    if |p| == 0 {
      assert s[..|sub|] == sub;
    } else {
      assert s[1..] == p[1..] + sub + q;
      ContainsInfix(p[1..], sub, q);
    }
  }

  /** `sub` occurs in `s` starting at position `i`. */
  predicate OccursAt(s: string, sub: string, i: nat) {
    i + |sub| <= |s| && s[i..i + |sub|] == sub
  }

  /** `s.includes(sub)` holds exactly when `sub` occurs at some position of `s`. */
  lemma {:induction false} ContainsAt(s: string, sub: string)
    ensures Contains(s, sub) <==> exists i: nat :: OccursAt(s, sub, i)
    decreases |s|
  {
    if |sub| <= |s| && |s| > 0 {
      ContainsAt(s[1..], sub);
      if Contains(s, sub) {
        if s[..|sub|] == sub {
          assert OccursAt(s, sub, 0);
        } else {
          var i: nat :| OccursAt(s[1..], sub, i);
          assert s[1..][i..i + |sub|] == s[i + 1..i + 1 + |sub|];
          assert OccursAt(s, sub, i + 1);
        }
      }
      if exists i: nat :: OccursAt(s, sub, i) {
        var i: nat :| OccursAt(s, sub, i);
        if i > 0 {
          assert s[1..][i - 1..i - 1 + |sub|] == s[i..i + |sub|];
          assert OccursAt(s[1..], sub, i - 1);
        }
      }
    } else if |sub| <= |s| {
      assert OccursAt(s, sub, 0);
      assert s[..|sub|] == sub;
    }
  }

  /** Whatever a string contains splits it into a prefix, itself and a suffix. */
  lemma ContainsSplit(s: string, sub: string)
    requires Contains(s, sub)
    ensures exists p, q :: s == p + sub + q
  {
    ContainsAt(s, sub);
    var i: nat :| OccursAt(s, sub, i);
    assert s == s[..i] + sub + s[i + |sub|..];
  }

  /** `url.includes('.png') ? 'png' : 'jpg'`. */
  function Extension(url: string): (r: string)
    ensures r == "png" || r == "jpg"
    ensures r == "png" <==> Contains(url, ".png")
  {
    if Contains(url, ".png") then "png" else "jpg"
  }

  /** Any URL with `.png` somewhere in it, not only at its end, is saved
      as `png`. */
  lemma ExtensionOfInfix(p: string, q: string)
    ensures Extension(p + ".png" + q) == "png"
  {
    ContainsInfix(p, ".png", q);
  }

  /** A URL is saved as `jpg` exactly when `.png` occurs at no position of it. */
  lemma ExtensionJpg(url: string)
    ensures Extension(url) == "jpg" <==> forall i: nat :: !OccursAt(url, ".png", i)
  {
    ContainsAt(url, ".png");
  }

  /** Entry name of a text or icon element `elem` with extension `ext`. */
  function ElementPath(elem: string, folder: string, allInOne: bool, ext: string): string {
    if allInOne then elem + "/" + folder + "." + ext
    else folder + "/" + elem + "/" + elem + "." + ext
  }

  /** Entry name of a downloaded screenshot. `device` is the device-type key
      in the object shape and `None` in the array shape. */
  function ScreenshotPath(folder: string, allInOne: bool, device: Option<string>, index: nat, ext: string): string {
    if allInOne then "screenshots/" + folder + "_" + NatToString(index) + "." + ext
    else if device.Some? then folder + "/screenshots/" + device.value + "_screenshot_" + NatToString(index) + "." + ext
    else folder + "/screenshots/screenshot_" + NatToString(index) + "." + ext
  }

  /** Entry name of a screenshot diagnostic note called `note`. */
  function ScreenshotNotePath(folder: string, allInOne: bool, note: string): string {
    if allInOne then "screenshots/" + folder + "_" + note + ".txt"
    else folder + "/screenshots/" + note + ".txt"
  }

  const DownloadIssues := "download_issues"
  const NoScreenshots := "no_screenshots"

  /** Entry name of an app's metadata summary. */
  function SummaryPath(folder: string, allInOne: bool): string {
    if allInOne then "metadata_summary/" + folder + ".json"
    else folder + "/metadata_summary.json"
  }

  /** Entry name of the marker for an app whose metadata request failed. */
  function ErrorPath(appId: string): string {
    appId + "_ERROR/error_details.json"
  }

  /** Entry name of the marker for an app the upstream answer did not contain. */
  function NoDataPath(appId: string): string {
    appId + "_NO_DATA/no_data_details.json"
  }

  /** The position that tells an app's summary from its element entries:
      the first character in the grouped-by-element layout, the character
      after `{folder}/` in the grouped-by-app layout. */
  function Slot(folder: string, allInOne: bool): nat {
    if allInOne then 0 else |folder| + 1
  }

  /** Every element entry name carries the first letter of `title`,
      `subtitle`, `description`, `icon` or `screenshots` at the slot, and
      never the `m` of `metadata_summary`. */
  predicate ElementSlot(p: string, folder: string, allInOne: bool) {
    Slot(folder, allInOne) < |p| && p[Slot(folder, allInOne)] != 'm'
  }

  lemma ElementPathSlot(elem: string, folder: string, allInOne: bool, ext: string)
    requires |elem| > 0 && elem[0] != 'm'
    ensures ElementSlot(ElementPath(elem, folder, allInOne, ext), folder, allInOne)
  {
    var p := ElementPath(elem, folder, allInOne, ext);
    if allInOne {
      assert p[0] == elem[0];
    } else {
      assert p[|folder| + 1] == elem[0];
    }
  }

  lemma ScreenshotPathSlot(folder: string, allInOne: bool, device: Option<string>, index: nat, ext: string)
    ensures ElementSlot(ScreenshotPath(folder, allInOne, device, index, ext), folder, allInOne)
  {
    var p := ScreenshotPath(folder, allInOne, device, index, ext);
    if allInOne {
      assert p[0] == 's';
    } else if device.Some? {
      assert p[|folder| + 1] == 's';
    } else {
      assert p[|folder| + 1] == 's';
    }
  }

  lemma ScreenshotNotePathSlot(folder: string, allInOne: bool, note: string)
    ensures ElementSlot(ScreenshotNotePath(folder, allInOne, note), folder, allInOne)
  {
    var p := ScreenshotNotePath(folder, allInOne, note);
    if allInOne {
      assert p[0] == 's';
    } else {
      assert p[|folder| + 1] == 's';
    }
  }

  /** No element entry of an app shares its name with that app's summary. */
  lemma SummaryPathIsNotElementPath(p: string, folder: string, allInOne: bool)
    requires ElementSlot(p, folder, allInOne)
    ensures p != SummaryPath(folder, allInOne)
  {
    var s := SummaryPath(folder, allInOne);
    assert s[Slot(folder, allInOne)] == 'm';
  }
}
