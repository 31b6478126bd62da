/** The page's language state: which bundle is loaded, the current language, and what is
    kept in `localStorage`. `loadLang` fetches a bundle and falls back to English once;
    `applyLocale` (dist/assets/js/app.js only) stores the chosen language and region
    before loading; the start-up handler picks the first language; and the older
    script's region select (assets/js/app.js) stores the region it shows. */
module Loader {
  import opened Text
  import opened Js
  import opened Locale
  import opened Contacts

  /** `localStorage.getItem(key)`. */
  function Stored(storage: map<string, string>, key: string): Option<string>
  {
    if key in storage then Some(storage[key]) else None
  }

  /** What one call of `loadLang` amounts to: the language that got loaded (`None` when
      neither it nor English could be), the bundle in force afterwards, and the bundles
      requested, in order. */
  datatype Outcome = Outcome(loaded: Option<string>, translations: Value, requests: seq<string>)

  /** `loadLang(lang)` against the bundles the server can deliver (`bundles` maps a
      language to its parsed JSON; a language missing from it fails to fetch or parse). */
  function LoadOutcome(lang: string, bundles: map<string, Value>): (o: Outcome)
    ensures lang in bundles ==> o.loaded == Some(lang)
    ensures lang !in bundles ==> (o.loaded.Some? <==> "en" in bundles)
    ensures o.loaded.Some? ==> o.loaded.value in bundles && o.translations == bundles[o.loaded.value]
    ensures o.loaded.Some? ==> o.loaded.value == lang || o.loaded.value == "en"
    ensures o.loaded.None? ==> o.translations == Obj([])
    ensures 1 <= |o.requests| <= 2 && o.requests[0] == lang
    ensures |o.requests| == 2 <==> lang !in bundles && lang != "en"
    ensures |o.requests| == 2 ==> o.requests[1] == "en"
    ensures forall i, j :: 0 <= i < j < |o.requests| ==> o.requests[i] != o.requests[j]
  {
    if lang in bundles then Outcome(Some(lang), bundles[lang], [lang])
    else if lang == "en" then Outcome(None, Obj([]), [lang])
    else if "en" in bundles then Outcome(Some("en"), bundles["en"], [lang, "en"])
    else Outcome(None, Obj([]), [lang, "en"])
  }

  /** Whenever the English bundle can be delivered, every load ends with some bundle
      loaded, and a supported language only ever gives way to English. */
  lemma {:induction false} EnglishBacksEveryLoad(lang: string, bundles: map<string, Value>)
    requires "en" in bundles
    ensures LoadOutcome(lang, bundles).loaded.Some?
    ensures lang in Languages ==> LoadOutcome(lang, bundles).loaded.value in Languages
  {
    assert "en" in Languages;
  }

  /** The page starts with a supported language, whichever way it was chosen. */
  lemma {:induction false} StartLoadsSupportedLanguage(stored: Option<string>, navigatorLang: string,
                                                       geo: Option<string>, bundles: map<string, Value>)
    ensures var o := LoadOutcome(StartupLang(stored, navigatorLang, geo), bundles);
            o.loaded.Some? ==> o.loaded.value in Languages
    ensures var o := LoadOutcome(LegacyStartupLang(stored, geo), bundles);
            o.loaded.Some? ==> o.loaded.value in Languages
  {
    assert "en" in Languages;
  }

  /** The region the older script's select falls back to and saves: the stored `region`,
      else the language's default country. */
  function LegacySavedRegion(storage: map<string, string>, lang: string): (region: string)
    ensures region != ""
    ensures Stored(storage, "region").Some? && storage["region"] != "" ==> region == storage["region"]
    ensures (Stored(storage, "region").None? || storage["region"] == "") ==> region == LegacyDefaultRegion(lang)
  {
    StoredOr(Stored(storage, "region"), LegacyDefaultRegion(lang))
  }

  /** The older script keeps the stored region when the language changes: a visitor who
      saw the English page with `US` and switches to Spanish keeps `US`, which is no
      Spanish option, and the Spanish contact page then filters by `US`. */
  lemma {:induction false} LegacyRegionOutlivesLanguage(storage: map<string, string>)
    requires Stored(storage, "region") == Some("US")
    ensures LegacySavedRegion(storage, "es") == "US"
    ensures "US" !in LegacyRegionOptions("es")
    ensures LegacyCountryFilter(Stored(storage, "region"), "es") == Some("US")
  {
    assert LegacyRegionOptions("es")[0] != "US";
  }

  /** `n` copies of `s`, one after the other. */
  function Repeated(s: seq<string>, n: nat): (r: seq<string>)
    ensures |r| == n * |s|
  {
    if n == 0 then [] else Repeated(s, n - 1) + s
  }

  /** The page state of one revision of the script. */
  class Session {
    /** True for assets/js/app.js, false for dist/assets/js/app.js. */
    const legacy: bool
    var currentLang: string
    var translations: Value
    var storage: map<string, string>
    /** The bundles fetched so far, in order. */
    var fetched: seq<string>
    /** The 'change' listeners registered on the language menu so far. */
    var listeners: nat

    /** The storage key of the chosen language. */
    function LangKey(): string
    {
      if legacy then "lang" else "tfot_lang"
    }

    /** The storage after a load: the loaded language is stored, and in the older script
        the contact page's region select, rebuilt for it, stores its region. */
    function AfterLoad(before: map<string, string>, loaded: Option<string>, onContactPage: bool): (after: map<string, string>)
      ensures loaded.None? ==> after == before
      ensures loaded.Some? ==> LangKey() in after && after[LangKey()] == loaded.value
      ensures forall key :: key in before ==> key in after
      ensures forall key :: key in after && key != LangKey() && key != "region" ==>
                key in before && after[key] == before[key]
      ensures !(legacy && onContactPage) ==>
                forall key :: key in after && key != LangKey() ==> key in before && after[key] == before[key]
      ensures (legacy && onContactPage && loaded.Some? && loaded.value in MultiRegion) ==>
                "region" in after && after["region"] == LegacySavedRegion(before, loaded.value)
    {
      match loaded
      case None => before
      case Some(lang) =>
        var stored := before[LangKey() := lang];
        if legacy && onContactPage && lang in MultiRegion
        then stored["region" := LegacySavedRegion(stored, lang)]
        else stored
    }

    /** The module-level state when the script starts: the stored language (or English)
        as `currentLang`, and `{}` as the bundle. */
    constructor (legacy: bool, storage: map<string, string>)
      ensures this.legacy == legacy && this.storage == storage
      ensures currentLang == StoredOr(Stored(storage, LangKey()), "en")
      ensures translations == Obj([]) && fetched == [] && listeners == 0
    {
      this.legacy := legacy;
      this.storage := storage;
      currentLang := StoredOr(Stored(storage, if legacy then "lang" else "tfot_lang"), "en");
      translations := Obj([]);
      fetched := [];
      listeners := 0;
    }

    /** `loadLang`: on success the bundle, the current language and the stored language
        change together; a failed language other than English retries with English; a
        failed English load leaves `{}` and the current language as it was. */
    method LoadLang(lang: string, bundles: map<string, Value>, onContactPage: bool)
      modifies this
      ensures var o := LoadOutcome(lang, bundles);
              fetched == old(fetched) + o.requests && translations == o.translations
              && currentLang == (if o.loaded.Some? then o.loaded.value else old(currentLang))
              && storage == AfterLoad(old(storage), o.loaded, onContactPage)
      ensures listeners == old(listeners) + (if !legacy && LoadOutcome(lang, bundles).loaded.Some? then 1 else 0)
      decreases if lang == "en" then 0 else 1
    {
      fetched := fetched + [lang];
      if lang in bundles {
        translations := bundles[lang];
        currentLang := lang;
        storage := storage[LangKey() := lang];
        if legacy && onContactPage {
          var options, selected := LegacyInitRegionSelector();
        }
        if !legacy {
          listeners := listeners + 1;
        }
      } else if lang != "en" {
        LoadLang("en", bundles, onContactPage);
      } else {
        translations := Obj([]);
      }
    }

    /** `initRegionSelector` of the older script: the options of the current language,
        the saved region selected (nothing is selected when it is not one of them), and
        the saved region written back. Other languages get no options and store nothing. */
    method LegacyInitRegionSelector() returns (options: seq<string>, selected: string)
      modifies this
      ensures options == LegacyRegionOptions(currentLang)
      ensures (options == []) <==> currentLang !in MultiRegion
      ensures currentLang in MultiRegion ==>
                storage == old(storage)["region" := LegacySavedRegion(old(storage), currentLang)]
      ensures currentLang !in MultiRegion ==> storage == old(storage)
      ensures selected != "" ==> selected in options && selected == LegacySavedRegion(old(storage), currentLang)
      ensures (currentLang in MultiRegion && LegacySavedRegion(old(storage), currentLang) in options)
                ==> selected == LegacySavedRegion(old(storage), currentLang)
      ensures unchanged(this`currentLang, this`translations, this`fetched, this`listeners)
    {
      if currentLang !in MultiRegion {
        return [], "";
      }
      options := LegacyRegionOptions(currentLang);
      var saved := LegacySavedRegion(storage, currentLang);
      selected := if saved in options then saved else "";
      storage := storage["region" := saved];
    }

    /** `applyLocale` (dist): the language and region are stored before the bundle is
        requested, so the stored language is the chosen one even when it fails to load. */
    method ApplyLocale(locale: string, region: string, bundles: map<string, Value>, onContactPage: bool)
      requires !legacy
      modifies this
      ensures var o := LoadOutcome(locale, bundles);
              fetched == old(fetched) + o.requests && translations == o.translations
              && currentLang == (if o.loaded.Some? then o.loaded.value else old(currentLang))
              && storage == AfterLoad(old(storage)["tfot_lang" := locale]["tfot_region" := region],
                                      o.loaded, onContactPage)
      ensures storage["tfot_region"] == region
      ensures storage["tfot_lang"] == (if LoadOutcome(locale, bundles).loaded.Some?
                                       then LoadOutcome(locale, bundles).loaded.value else locale)
      ensures listeners == old(listeners) + (if LoadOutcome(locale, bundles).loaded.Some? then 1 else 0)
    {
      storage := storage["tfot_lang" := locale]["tfot_region" := region];
      LoadLang(locale, bundles, onContactPage);
    }

    /** The language menu of dist/assets/js/app.js: every successful load registers one
        more 'change' listener, and each listener, finding the new language different from
        the current one, runs its own globe animation ending in `applyLocale` with the
        language's default region. So a switch applies the locale once per listener, each
        time requesting the bundle, and replaces the stored region; choosing the current
        language does nothing. */
    method SwitchLanguage(newLang: string, bundles: map<string, Value>, onContactPage: bool)
      requires !legacy
      modifies this
      ensures (newLang == old(currentLang) || old(listeners) == 0) ==>
                storage == old(storage) && fetched == old(fetched) && listeners == old(listeners)
                && currentLang == old(currentLang) && translations == old(translations)
      ensures newLang != old(currentLang) ==>
                var o := LoadOutcome(newLang, bundles);
                fetched == old(fetched) + Repeated(o.requests, old(listeners))
                && listeners == old(listeners) * (if o.loaded.Some? then 2 else 1)
      ensures (newLang != old(currentLang) && old(listeners) > 0) ==>
                var o := LoadOutcome(newLang, bundles);
                translations == o.translations
                && currentLang == (if o.loaded.Some? then o.loaded.value else old(currentLang))
                && storage == AfterLoad(old(storage)["tfot_lang" := newLang]["tfot_region" := GetDefaultRegion(newLang)],
                                        o.loaded, onContactPage)
                && storage["tfot_region"] == GetDefaultRegion(newLang)
    {
      if newLang == currentLang {
        return;
      }
      ghost var o := LoadOutcome(newLang, bundles);
      ghost var once := AfterLoad(storage["tfot_lang" := newLang]["tfot_region" := GetDefaultRegion(newLang)],
                                  o.loaded, onContactPage);
      var n := listeners;
      var k := 0;
      while k < n
        invariant 0 <= k <= n
        invariant fetched == old(fetched) + Repeated(o.requests, k)
        invariant listeners == old(listeners) + k * (if o.loaded.Some? then 1 else 0)
        invariant k == 0 ==> storage == old(storage) && currentLang == old(currentLang)
                             && translations == old(translations)
        invariant k > 0 ==> storage == once && translations == o.translations
                            && currentLang == (if o.loaded.Some? then o.loaded.value else old(currentLang))
      {
        ReapplyKeepsStorage(old(storage), newLang, GetDefaultRegion(newLang), o.loaded, onContactPage);
        ApplyLocale(newLang, GetDefaultRegion(newLang), bundles, onContactPage);
        k := k + 1;
      }
    }

    /** In the newer script a second `applyLocale` of the same locale and the same outcome
        leaves the storage as the first one did. */
    lemma ReapplyKeepsStorage(before: map<string, string>, locale: string, region: string,
                              loaded: Option<string>, onContactPage: bool)
      requires !legacy
      ensures var once := AfterLoad(before["tfot_lang" := locale]["tfot_region" := region], loaded, onContactPage);
              AfterLoad(once["tfot_lang" := locale]["tfot_region" := region], loaded, onContactPage) == once
    {
    }

    /** A region button of dist/assets/js/app.js: the click applies the button's language and
        region at once, and the globe animation it starts applies them a second time when it
        ends, so the bundle is requested twice. */
    method ChooseRegion(locale: string, region: string, bundles: map<string, Value>, onContactPage: bool)
      requires !legacy
      modifies this
      ensures var o := LoadOutcome(locale, bundles);
              fetched == old(fetched) + o.requests + o.requests && translations == o.translations
              && currentLang == (if o.loaded.Some? then o.loaded.value else old(currentLang))
      ensures var o := LoadOutcome(locale, bundles);
              var once := AfterLoad(old(storage)["tfot_lang" := locale]["tfot_region" := region], o.loaded, onContactPage);
              storage == AfterLoad(once["tfot_lang" := locale]["tfot_region" := region], o.loaded, onContactPage)
      ensures storage["tfot_region"] == region
      ensures storage["tfot_lang"] == (if LoadOutcome(locale, bundles).loaded.Some?
                                       then LoadOutcome(locale, bundles).loaded.value else locale)
      ensures listeners == old(listeners) + (if LoadOutcome(locale, bundles).loaded.Some? then 2 else 0)
    {
      ApplyLocale(locale, region, bundles, onContactPage);
      ApplyLocale(locale, region, bundles, onContactPage);
    }

    /** The start-up handler of dist/assets/js/app.js: the candidate language, if
        supported, is applied with the stored region; otherwise the geolocation guess is
        loaded (`geo` is the country the lookup reported, `None` when it failed). */
    method Start(navigatorLang: string, geo: Option<string>, bundles: map<string, Value>, onContactPage: bool)
      requires !legacy
      modifies this
      ensures var lang := StartupLang(Stored(old(storage), "tfot_lang"), navigatorLang, geo);
              var o := LoadOutcome(lang, bundles);
              fetched == old(fetched) + o.requests && translations == o.translations
              && currentLang == (if o.loaded.Some? then o.loaded.value else old(currentLang))
      ensures var candidate := StartupCandidate(Stored(old(storage), "tfot_lang"), navigatorLang);
              var o := LoadOutcome(candidate, bundles);
              candidate in Languages ==>
                storage == AfterLoad(old(storage)["tfot_lang" := candidate]
                                       ["tfot_region" := StoredOr(Stored(old(storage), "tfot_region"), "")],
                                     o.loaded, onContactPage)
      ensures var candidate := StartupCandidate(Stored(old(storage), "tfot_lang"), navigatorLang);
              var o := LoadOutcome(DetectLang(geo), bundles);
              candidate !in Languages ==> storage == AfterLoad(old(storage), o.loaded, onContactPage)
      ensures var o := LoadOutcome(StartupLang(Stored(old(storage), "tfot_lang"), navigatorLang, geo), bundles);
              listeners == old(listeners) + 1 + (if o.loaded.Some? then 1 else 0)
    {
      var candidate := StartupCandidate(Stored(storage, "tfot_lang"), navigatorLang);
      var storedRegion := StoredOr(Stored(storage, "tfot_region"), "");
      if candidate in Languages {
        ApplyLocale(candidate, storedRegion, bundles, onContactPage);
      } else {
        LoadLang(DetectLang(geo), bundles, onContactPage);
      }
      listeners := listeners + 1;
    }

    /** The start-up handler of assets/js/app.js: the stored language if supported, else
        the geolocation guess, is loaded. On the contact page the region select is built
        at once, for the language the script started with, before the bundle arrives. */
    method LegacyStart(geo: Option<string>, bundles: map<string, Value>, onContactPage: bool)
      requires legacy
      modifies this
      ensures var lang := LegacyStartupLang(Stored(old(storage), "lang"), geo);
              var o := LoadOutcome(lang, bundles);
              fetched == old(fetched) + o.requests && translations == o.translations
              && currentLang == (if o.loaded.Some? then o.loaded.value else old(currentLang))
      ensures var lang := LegacyStartupLang(Stored(old(storage), "lang"), geo);
              var o := LoadOutcome(lang, bundles);
              var early := if onContactPage && old(currentLang) in MultiRegion
                           then old(storage)["region" := LegacySavedRegion(old(storage), old(currentLang))]
                           else old(storage);
              storage == AfterLoad(early, o.loaded, onContactPage)
      ensures listeners == old(listeners) + 1
    {
      var lang := LegacyStartupLang(Stored(storage, "lang"), geo);
      if onContactPage {
        var options, selected := LegacyInitRegionSelector();
      }
      LoadLang(lang, bundles, onContactPage);
      listeners := listeners + 1;
    }
  }
}
