/** The country-to-language table the metadata routes share, and the query
    parameters they send to the upstream metadata endpoint. */
module Language {
  import opened Common

  /** Countries with a fixed store language; every other country keeps the
      language the caller asked for. */
  const CountryLanguage: map<string, string> := map[
    "us" := "en", "gb" := "en", "ca" := "en", "au" := "en",
    "de" := "de", "fr" := "fr", "es" := "es", "it" := "it",
    "pt" := "pt", "br" := "pt", "ru" := "ru", "jp" := "ja",
    "kr" := "ko", "cn" := "zh"
  ]

  /** `countryLanguageMap[country] || language`: a table miss, and a table
      hit on an empty value, fall through to the requested language. */
  function ValidLanguageForCountry(country: string, language: string): (r: string)
    ensures country in CountryLanguage ==> r == CountryLanguage[country]
    ensures country !in CountryLanguage ==> r == language
    ensures r != "" || language == ""
  {
    var mapped := if country in CountryLanguage then CountryLanguage[country] else "";
    if mapped != "" then mapped else language
  }

  /** The language parameter is left out only for the upstream's own default
      pair, judged on the caller's raw country and language. */
  predicate SendsLanguage(country: string, language: string) {
    language != "en" || country != "us"
  }

  /** The parameters of one upstream metadata request, in the order
      `URLSearchParams` serialises them. */
  function MetadataParams(apps: string, country: string, device: string, language: string): (r: seq<Param>)
    ensures |r| >= 3 && r[0] == ("apps", apps) && r[1] == ("country", country) && r[2] == ("device", device)
  {
    [("apps", apps), ("country", country), ("device", device)]
      + (if SendsLanguage(country, language) then [("language", ValidLanguageForCountry(country, language))] else [])
  }

  /** What the upstream reads from those parameters: the app, country and
      device as given, and a language exactly when the pair is not en/us,
      carrying the table's language for the country. */
  lemma MetadataParamsRead(apps: string, country: string, device: string, language: string)
    ensures Lookup(MetadataParams(apps, country, device, language), "apps") == Some(apps)
    ensures Lookup(MetadataParams(apps, country, device, language), "country") == Some(country)
    ensures Lookup(MetadataParams(apps, country, device, language), "device") == Some(device)
    ensures Lookup(MetadataParams(apps, country, device, language), "language").Some?
            <==> !(language == "en" && country == "us")
    ensures SendsLanguage(country, language) ==>
            Lookup(MetadataParams(apps, country, device, language), "language")
            == Some(if country in CountryLanguage then CountryLanguage[country] else language)
  {
    var p := MetadataParams(apps, country, device, language);
    assert p[1..][1..][1..] == p[3..];
    assert Lookup(p, "language") == Lookup(p[1..][1..][1..], "language");
    if SendsLanguage(country, language) {
      assert p[3..] == [("language", ValidLanguageForCountry(country, language))];
    } else {
      assert p[3..] == [];
    }
  }
}
