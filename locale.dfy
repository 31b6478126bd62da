/** The locale tables of the site script and the small pure rules built on them: which
    languages exist, which language a country's visitors get, each multi-region
    language's default region, flags, the globe's turning angle, region names, which
    region buttons or options the selector shows, and which social-network list applies.
    Both revisions of the script share the tables; members named `Legacy...` follow
    assets/js/app.js, the others dist/assets/js/app.js. */
module Locale {
  import opened Text
  import opened Js

  /** `LANGUAGES`: the supported language codes, in the order the language menu lists them. */
  const Languages: seq<string> :=
    ["ru", "en", "zh", "ja", "fr", "de", "hi", "it", "es", "ko",
     "ar", "he", "sw", "pt", "tr", "nl", "da", "no", "sv", "fi"]

  /** The languages that have regions (English, Spanish, Portuguese). */
  const MultiRegion: seq<string> := ["en", "es", "pt"]

  /** `COUNTRY_TO_LANG`: the language offered to visitors from a country. */
  const CountryToLang: map<string, string> := map[
    "RU" := "ru", "US" := "en", "GB" := "en", "CA" := "en", "AU" := "en",
    "CN" := "zh", "TW" := "zh", "HK" := "zh",
    "JP" := "ja",
    "FR" := "fr", "BE" := "fr",
    "DE" := "de", "AT" := "de", "CH" := "de",
    "IN" := "hi",
    "IT" := "it",
    "ES" := "es", "MX" := "es", "AR" := "es", "CO" := "es",
    "KR" := "ko",
    "SA" := "ar", "EG" := "ar", "AE" := "ar",
    "IL" := "he",
    "TZ" := "sw", "KE" := "sw", "UG" := "sw",
    "BR" := "pt", "PT" := "pt",
    "TR" := "tr",
    "NL" := "nl",
    "DK" := "da",
    "NO" := "no",
    "SE" := "sv",
    "FI" := "fi"]

  /** Every language the country table can produce is a supported one. */
  lemma CountryTableClosed()
    ensures forall c :: c in CountryToLang ==> CountryToLang[c] in Languages
  {
  }

  /** `detectLang`: `COUNTRY_TO_LANG[country] || 'en'`; `None` stands for a failed or
      unreadable geolocation response, which the script also answers with English. */
  function DetectLang(country: Option<string>): (lang: string)
    ensures lang in Languages
    ensures country.Some? && country.value in CountryToLang ==> lang == CountryToLang[country.value]
    ensures (country.None? || country.value !in CountryToLang) ==> lang == "en"
  {
    CountryTableClosed();
    if country.Some? && country.value in CountryToLang then CountryToLang[country.value] else "en"
  }

  /** The language the newer script (dist) first considers: the stored language, else the
      browser's primary language subtag, else English. */
  function StartupCandidate(stored: Option<string>, navigatorLang: string): (lang: string)
    ensures lang != ""
    ensures stored.Some? && stored.value != "" ==> lang == stored.value
    ensures ((stored.None? || stored.value == "") && Piece(navigatorLang, '-', 0) != "")
              ==> lang == Piece(navigatorLang, '-', 0)
    ensures ((stored.None? || stored.value == "") && Piece(navigatorLang, '-', 0) == "") ==> lang == "en"
  {
    var browser := Piece(navigatorLang, '-', 0);
    StoredOr(stored, if browser != "" then browser else "en")
  }

  /** The language the page starts with (dist): the candidate when supported, otherwise
      the geolocation guess. */
  function StartupLang(stored: Option<string>, navigatorLang: string, geo: Option<string>): (lang: string)
    ensures lang in Languages
    ensures stored.Some? && stored.value in Languages ==> lang == stored.value
    ensures ((stored.None? || stored.value == "") && Piece(navigatorLang, '-', 0) in Languages)
              ==> lang == Piece(navigatorLang, '-', 0)
    ensures StartupCandidate(stored, navigatorLang) in Languages ==> lang == StartupCandidate(stored, navigatorLang)
    ensures StartupCandidate(stored, navigatorLang) !in Languages ==> lang == DetectLang(geo)
  {
    var candidate := StartupCandidate(stored, navigatorLang);
    if candidate in Languages then candidate else DetectLang(geo)
  }

  /** The language the page starts with (assets): the stored language when it is supported,
      otherwise the geolocation guess; the browser's language is not consulted. */
  function LegacyStartupLang(stored: Option<string>, geo: Option<string>): (lang: string)
    ensures lang in Languages
    ensures stored.Some? && stored.value in Languages ==> lang == stored.value
    ensures (stored.None? || stored.value !in Languages) ==> lang == DetectLang(geo)
  {
    if stored.Some? && stored.value != "" && stored.value in Languages then stored.value
    else DetectLang(geo)
  }

  /** `getDefaultRegion`. */
  function GetDefaultRegion(lang: string): (region: string)
    ensures region != "" <==> lang in MultiRegion
    ensures region != "" ==> StartsWith(region, lang + "-") && |region| == |lang| + 3
  {
    if lang == "en" then "en-us"
    else if lang == "es" then "es-es"
    else if lang == "pt" then "pt-pt"
    else ""
  }

  /** The region a language falls back to in assets/js/app.js, as an upper-case country code. */
  function LegacyDefaultRegion(lang: string): (code: string)
    ensures lang in MultiRegion ==> code == RegionCountries[GetDefaultRegion(lang)]
    ensures lang !in MultiRegion ==> code == "PT"
  {
    if lang == "en" then "US" else if lang == "es" then "ES" else "PT"
  }

  // ----- Flags -----

  predicate IsCountryCode(cc: string)
  {
    |cc| == 2 && 'A' <= cc[0] <= 'Z' && 'A' <= cc[1] <= 'Z'
  }

  function Indicator(c: char): char
    requires 'A' <= c <= 'Z'
  {
    (0x1F1E6 + (c as int - 'A' as int)) as char
  }

  /** The flag emoji of a country: the two regional-indicator symbols that spell its code. */
  function FlagOf(cc: string): string
    requires IsCountryCode(cc)
  {
    [Indicator(cc[0]), Indicator(cc[1])]
  }

  /** Reads a country code back from a flag emoji. */
  function CountryOfFlag(flag: string): Option<string>
  {
    if |flag| == 2 && 0x1F1E6 <= flag[0] as int <= 0x1F1FF && 0x1F1E6 <= flag[1] as int <= 0x1F1FF
    then Some([(flag[0] as int - 0x1F1E6 + 'A' as int) as char, (flag[1] as int - 0x1F1E6 + 'A' as int) as char])
    else None
  }

  lemma FlagRoundTrip(cc: string)
    requires IsCountryCode(cc)
    ensures CountryOfFlag(FlagOf(cc)) == Some(cc)
  {
    assert [cc[0], cc[1]] == cc;
  }

  /** The globe emoji shown for a country without a flag. */
  const Globe: string := "\U{1F30D}"

  /** The countries of `COUNTRY_FLAGS`. */
  const FlagCountries: set<string> :=
    {"RU", "US", "GB", "CN", "JP", "DE", "TR", "FR", "IT", "IN", "IL", "SA", "PT", "BR", "ES",
     "MX", "AR", "CL", "PE", "NL", "DK", "NO", "SE", "FI", "TZ"}

  /** `getFlagFromCode`: the country's flag when it has one in the table, else the globe. */
  function GetFlagFromCode(code: string): (flag: string)
    ensures code in FlagCountries ==> IsCountryCode(code) && flag == FlagOf(code)
    ensures code !in FlagCountries ==> flag == Globe
  {
    if code in FlagCountries then FlagOf(code) else Globe
  }

  /** A flag tells its country back, and the globe tells none: the flag identifies the code. */
  lemma {:induction false} FlagIdentifiesCountry(code: string)
    ensures CountryOfFlag(GetFlagFromCode(code)) == (if code in FlagCountries then Some(code) else None)
  {
    if code in FlagCountries {
      FlagRoundTrip(code);
    } else {
      assert |Globe| == 1;
    }
  }

  /** `FLAGS`: the menu entry of each language; English and Portuguese show two flags. */
  function LangFlag(lang: string): (flag: Option<string>)
    ensures flag.Some? <==> lang in LangToCountry
    ensures flag.Some? ==> |flag.value| >= 2 && CountryOfFlag(flag.value[..2]) == Some(LangToCountry[lang])
    ensures lang in LangToCountry && lang != "en" && lang != "pt" ==>
              flag.Some? && CountryOfFlag(flag.value) == Some(LangToCountry[lang])
  {
    if lang == "en" then Some(FlagOf("US") + " / " + FlagOf("GB"))
    else if lang == "pt" then Some(FlagOf("PT") + " / " + FlagOf("BR"))
    else if lang in LangToCountry then
      FlagRoundTrip(LangToCountry[lang]);
      Some(FlagOf(LangToCountry[lang]))
    else None
  }

  /** The region flags of `updateLangSelectDisplay`. */
  function RegionFlag(region: string): (flag: Option<string>)
    ensures flag.Some? <==> region in RegionCountries
    ensures flag.Some? ==> CountryOfFlag(flag.value) == Some(RegionCountries[region])
  {
    if region in RegionCountries then Some(FlagOf(RegionCountries[region])) else None
  }

  /** The two-flag menu entries of English and Portuguese are the flags of their two
      regions, in the order the region buttons list them, joined by ` / `. */
  lemma {:induction false} TwoFlagEntries(lang: string)
    requires lang == "en" || lang == "pt"
    ensures |Regions(lang)| == 2
    ensures RegionFlag(Regions(lang)[0]).Some? && RegionFlag(Regions(lang)[1]).Some?
    ensures LangFlag(lang) == Some(RegionFlag(Regions(lang)[0]).value + " / " + RegionFlag(Regions(lang)[1]).value)
  {
    if lang == "en" {
      assert Regions(lang) == ["en-us", "en-gb"];
    } else {
      assert Regions(lang) == ["pt-pt", "pt-br"];
    }
  }

  const RegionCountries: map<string, string> := map[
    "en-us" := "US", "en-gb" := "GB",
    "es-es" := "ES", "es-mx" := "MX", "es-ar" := "AR", "es-cl" := "CL", "es-pe" := "PE",
    "pt-pt" := "PT", "pt-br" := "BR"]

  /** `updateLangSelectDisplay`: the text of the selected language option. For a
      multi-region language the flag of the stored (else default) region, when it is a
      known region; otherwise the language's menu flag; the upper-case code when
      the language has no flag. */
  function LangSelectText(lang: string, storedRegion: Option<string>): (text: string)
    ensures (lang in MultiRegion && (storedRegion.None? || storedRegion.value == ""))
              ==> text == FlagOf(RegionCountries[GetDefaultRegion(lang)])
    ensures (lang in MultiRegion && storedRegion.Some? && storedRegion.value in RegionCountries)
              ==> text == FlagOf(RegionCountries[storedRegion.value])
    ensures (lang in MultiRegion && storedRegion.Some? && storedRegion.value != ""
             && storedRegion.value !in RegionCountries)
              ==> LangFlag(lang).Some? && text == LangFlag(lang).value
    ensures lang !in MultiRegion && LangFlag(lang).Some? ==> text == LangFlag(lang).value
    ensures LangFlag(lang).None? ==> text == Upper(lang)
    ensures lang != "" ==> text != ""
  {
    var region := StoredOr(storedRegion, GetDefaultRegion(lang));
    var displayFlag :=
      if lang in MultiRegion && region != "" then
        (if RegionFlag(region).Some? then RegionFlag(region) else LangFlag(lang))
      else LangFlag(lang);
    if displayFlag.Some? && displayFlag.value != "" then displayFlag.value else Upper(lang)
  }

  // ----- The globe -----

  /** `REGION_ANGLES`. */
  const RegionAngles: map<string, nat> := map[
    "MX" := 0, "ES" := 180, "AR" := 180, "CL" := 210, "PE" := 240,
    "BR" := 90, "PT" := 90,
    "US" := 30, "GB" := 60,
    "RU" := 120, "CN" := 270, "JP" := 300, "FR" := 150, "DE" := 135, "IN" := 240, "IT" := 165,
    "KR" := 330, "SA" := 210, "IL" := 195, "TZ" := 225, "TR" := 180, "NL" := 165, "DK" := 150,
    "NO" := 135, "SE" := 120, "FI" := 105]

  /** The `langToCountry` table of `getRegionAngle`. */
  const LangToCountry: map<string, string> := map[
    "en" := "US", "ru" := "RU", "zh" := "CN", "ja" := "JP", "fr" := "FR", "de" := "DE", "hi" := "IN",
    "it" := "IT", "es" := "ES", "ko" := "KR", "ar" := "SA", "he" := "IL", "sw" := "TZ", "pt" := "PT",
    "tr" := "TR", "nl" := "NL", "da" := "DK", "no" := "NO", "sv" := "SE", "fi" := "FI"]

  /** The country `getRegionAngle` turns to: the upper-cased part after the first `-` of a
      region, else the language's country, else the code upper-cased. */
  function RegionCountry(code: string): string
  {
    if '-' in code then RegionCode(code)
    else if code in LangToCountry then LangToCountry[code]
    else Upper(code)
  }

  /** `getRegionAngle`: the angle of that country, 0 when it has none. */
  function GetRegionAngle(code: string): (angle: nat)
    ensures angle < 360 && angle % 15 == 0
    ensures RegionCountry(code) in RegionAngles ==> angle == RegionAngles[RegionCountry(code)]
    ensures RegionCountry(code) !in RegionAngles ==> angle == 0
  {
    var country := RegionCountry(code);
    if country in RegionAngles then RegionAngles[country] else 0
  }

  /** Every supported language has an angle of its own in the table. */
  lemma EveryLanguageHasAnAngle(lang: string)
    requires lang in Languages
    ensures RegionCountry(lang) in RegionAngles
  {
    assert lang in LangToCountry;
    assert '-' !in lang;
    assert LangToCountry[lang] in RegionAngles;
  }

  /** The globe turns to the same place for a multi-region language as for its default
      region (`en` and `en-us`, `es` and `es-es`, `pt` and `pt-pt`). */
  lemma {:induction false} LanguageFacesDefaultRegion(lang: string)
    requires lang in MultiRegion
    ensures GetRegionAngle(lang) == GetRegionAngle(GetDefaultRegion(lang))
  {
    var r := GetDefaultRegion(lang);
    var suffix := r[3..];
    assert r == r[..2] + "-" + suffix;
    SplitAtDash(r[..2], suffix);
    assert Upper(suffix) == LangToCountry[lang];
  }

  /** `xy-ab` splits at its one dash into `xy` and `ab`. */
  lemma {:induction false} SplitAtDash(a: string, b: string)
    requires '-' !in a && '-' !in b
    ensures '-' in a + "-" + b
    ensures Piece(a + "-" + b, '-', 1) == b
  {
    var s := a + "-" + b;
    assert s[|a|] == '-';
    SplitAtFirst(a, '-', b);
    SplitWithoutSeparator(b, '-');
  }

  // ----- Region selector -----

  /** The region codes a multi-region language offers (dist), default region first. */
  function Regions(lang: string): (regions: seq<string>)
    ensures |regions| > 0 <==> lang in MultiRegion
    ensures |regions| > 0 ==> regions[0] == GetDefaultRegion(lang)
    ensures forall i :: 0 <= i < |regions| ==>
              StartsWith(regions[i], lang + "-") && regions[i] in RegionCountries
    ensures forall i, j :: 0 <= i < j < |regions| ==> regions[i] != regions[j]
  {
    if lang == "en" then ["en-us", "en-gb"]
    else if lang == "es" then ["es-es", "es-mx", "es-ar", "es-cl", "es-pe"]
    else if lang == "pt" then ["pt-pt", "pt-br"]
    else []
  }

  datatype RegionButton = RegionButton(region: string, active: bool)

  /** `initRegionSelector` (dist): one flag button per region of the current language,
      marked active when it is the stored region; none for single-region languages. */
  function RegionButtons(lang: string, storedRegion: Option<string>): (buttons: seq<RegionButton>)
    ensures |buttons| == |Regions(lang)|
    ensures forall i :: 0 <= i < |buttons| ==> buttons[i].region == Regions(lang)[i]
    ensures |buttons| > 0 <==> lang in MultiRegion
    ensures |buttons| > 0 ==> buttons[0].region == GetDefaultRegion(lang)
    ensures forall i :: 0 <= i < |buttons| ==>
              StartsWith(buttons[i].region, lang + "-") && buttons[i].region in RegionCountries
    ensures forall i :: 0 <= i < |buttons| ==>
              (buttons[i].active <==> storedRegion == Some(buttons[i].region))
    ensures forall i, j :: 0 <= i < j < |buttons| ==> !(buttons[i].active && buttons[j].active)
  {
    var regions := Regions(lang);
    seq(|regions|, i requires 0 <= i < |regions| =>
      RegionButton(regions[i], storedRegion == Some(regions[i])))
  }

  /** `initRegionSelector` (assets): the region options of the current language. */
  function LegacyRegionOptions(lang: string): (options: seq<string>)
    ensures |options| == |Regions(lang)|
    ensures forall i :: 0 <= i < |options| ==> options[i] == RegionCountries[Regions(lang)[i]]
    ensures |options| > 0 ==> options[0] == LegacyDefaultRegion(lang)
  {
    if lang == "en" then ["US", "GB"]
    else if lang == "es" then ["ES", "MX", "AR", "CL", "PE"]
    else if lang == "pt" then ["PT", "BR"]
    else []
  }

  /** The two revisions offer the same regions: the older option codes are the upper-cased
      country parts of the newer region codes, in the same order, and the older default is
      the country of the newer one. */
  lemma {:induction false} LegacyOptionsAreRegionCountries(lang: string)
    ensures LegacyRegionOptions(lang) == RegionCodes(Regions(lang))
    ensures lang in MultiRegion ==> LegacyDefaultRegion(lang) == RegionCode(GetDefaultRegion(lang))
  {
    var regions, options := Regions(lang), LegacyRegionOptions(lang);
    assert |regions| == |options|;
    forall i | 0 <= i < |regions|
      ensures RegionCode(regions[i]) == options[i]
    {
      RegionCodeAt(lang, i);
    }
    CodesAgree(regions, options);
    if lang in MultiRegion {
      RegionCodeAt(lang, 0);
    }
  }

  /** The region at `i` of a language gives the older option at `i`. */
  lemma RegionCodeAt(lang: string, i: nat)
    requires i < |Regions(lang)|
    ensures |LegacyRegionOptions(lang)| == |Regions(lang)|
    ensures RegionCode(Regions(lang)[i]) == LegacyRegionOptions(lang)[i]
    ensures i == 0 ==> Regions(lang)[i] == GetDefaultRegion(lang) && LegacyRegionOptions(lang)[i] == LegacyDefaultRegion(lang)
  {
    if lang == "en" {
      assert LegacyRegionOptions(lang) == ["US", "GB"];
      RegionCodeOfPair(Regions("en")[i]);
    } else if lang == "es" {
      assert LegacyRegionOptions(lang) == ["ES", "MX", "AR", "CL", "PE"];
      RegionCodeOfPair(Regions("es")[i]);
    } else {
      assert LegacyRegionOptions(lang) == ["PT", "BR"];
      RegionCodeOfPair(Regions("pt")[i]);
    }
  }

  /** Regions whose codes are the options, one by one, have the options as their codes. */
  lemma CodesAgree(regions: seq<string>, options: seq<string>)
    requires |regions| == |options|
    requires forall i :: 0 <= i < |regions| ==> RegionCode(regions[i]) == options[i]
    ensures RegionCodes(regions) == options
  {
  }

  /** A five-character `xx-yy` region gives the upper-cased `yy`. */
  lemma RegionCodeOfPair(r: string)
    requires |r| == 5 && r[2] == '-' && r[0] != '-' && r[1] != '-' && r[3] != '-' && r[4] != '-'
    ensures RegionCode(r) == [UpperChar(r[3]), UpperChar(r[4])]
  {
    assert r == r[..2] + "-" + r[3..];
    RegionSuffix(r[..2], r[3..]);
  }

  /** The upper-cased country part of a region code, as contacts and the globe derive it. */
  function RegionCode(region: string): string
  {
    Upper(Piece(region, '-', 1))
  }

  function RegionCodes(regions: seq<string>): seq<string>
  {
    seq(|regions|, i requires 0 <= i < |regions| => RegionCode(regions[i]))
  }

  /** The upper-cased part after the dash of `a-b`. */
  lemma {:induction false} RegionSuffix(a: string, b: string)
    requires |b| == 2 && '-' !in a && '-' !in b
    ensures RegionCode(a + "-" + b) == [UpperChar(b[0]), UpperChar(b[1])]
  {
    SplitAtDash(a, b);
  }

  /** The built-in region names of `getRegionName`. */
  const RegionNames: map<string, string> := map[
    "ES" := "Spain", "MX" := "Mexico", "AR" := "Argentina", "CL" := "Chile", "PE" := "Peru",
    "PT" := "Portugal", "BR" := "Brazil",
    "US" := "United States", "GB" := "United Kingdom"]

  /** `getRegionName`: the bundle's `contact.regions[code]` when truthy, else the built-in
      name, else the code itself. `None` is the `TypeError` of reading `contact` from a
      `null` bundle. */
  function RegionName(translations: Value, code: string): (name: Option<Value>)
    ensures name.None? <==> IsNullish(translations)
    ensures name.Some? && code != "" ==> Truthy(name.value)
    ensures name.Some? && !Truthy(Get(translations, "contact")) ==>
              name.value == Str(if code in RegionNames then RegionNames[code] else code)
    ensures (name.Some? && Truthy(Get(translations, "contact"))
             && Truthy(Get(Get(translations, "contact"), "regions"))
             && Truthy(Get(Get(Get(translations, "contact"), "regions"), code)))
              ==> name.value == Get(Get(Get(translations, "contact"), "regions"), code)
    ensures (name.Some? && Truthy(Get(translations, "contact"))
             && !(Truthy(Get(Get(translations, "contact"), "regions"))
                  && Truthy(Get(Get(Get(translations, "contact"), "regions"), code))))
              ==> name.value == Str(if code in RegionNames then RegionNames[code] else code)
  {
    if IsNullish(translations) then None
    else
      var contact := Get(translations, "contact");
      var regions := if Truthy(contact) then Get(contact, "regions") else Undefined;
      var own := if Truthy(regions) then Get(regions, code) else Undefined;
      if Truthy(own) then Some(own)
      else if code in RegionNames then Some(Str(RegionNames[code]))
      else Some(Str(code))
  }

  // ----- Socials -----

  /** The key of the social-network list (dist): the stored region (else the language) when
      the language has regions and the region belongs to it, otherwise the language. */
  function SocialKey(lang: string, storedRegion: Option<string>): (key: string)
    ensures key == lang || (lang in MultiRegion && storedRegion == Some(key) && StartsWith(key, lang + "-"))
    ensures (lang in MultiRegion && storedRegion.Some? && StartsWith(storedRegion.value, lang + "-"))
              ==> key == storedRegion.value
  {
    var region := StoredOr(storedRegion, lang);
    if lang in MultiRegion && StartsWith(region, lang + "-") then region else lang
  }
}
