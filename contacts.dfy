/** `loadContacts`: the contact page shows the locations of the current language's entry
    in `contacts.json`; for English, Spanish and Portuguese only those of one country.
    The newer script (dist/assets/js/app.js) derives the country from the stored
    `tfot_region` (`en-gb` gives `GB`), the older one (assets/js/app.js) reads an
    upper-case code stored under `region`. */
module Contacts {
  import opened Text
  import opened Js
  import opened Locale

  // ----- Which country is shown -----

  /** The country filter of the newer script: the stored region, else the language's
      default region; its upper-cased part after the first `-`, or the whole region
      upper-cased when it has no `-`. No filter for other languages, or when that part is
      empty. */
  function CountryFilter(storedRegion: Option<string>, lang: string): (code: Option<string>)
    ensures code.Some? ==> lang in MultiRegion && code.value != ""
    ensures lang !in MultiRegion ==> code.None?
    ensures (lang in MultiRegion && storedRegion.Some? && storedRegion.value != ""
             && '-' !in storedRegion.value)
              ==> code == Some(Upper(storedRegion.value))
    ensures (lang in MultiRegion && storedRegion.Some? && '-' in storedRegion.value)
              ==> code == (if RegionCode(storedRegion.value) != "" then Some(RegionCode(storedRegion.value)) else None)
    ensures (lang in MultiRegion && (storedRegion.None? || storedRegion.value == ""))
              ==> code == Some(LegacyDefaultRegion(lang))
  {
    DefaultRegionCode(lang);
    var region := StoredOr(storedRegion, GetDefaultRegion(lang));
    var country :=
      if region == "" then ""
      else if |Split(region, '-')| > 1 then RegionCode(region)
      else Upper(region);
    if country != "" && lang in MultiRegion then Some(country) else None
  }

  /** The country filter of the older script: the stored `region`, else `US`, `ES` or `PT`,
      for English, Spanish and Portuguese only. */
  function LegacyCountryFilter(storedRegion: Option<string>, lang: string): (code: Option<string>)
    ensures code.Some? <==> lang in MultiRegion
    ensures code.Some? ==> code.value == StoredOr(storedRegion, LegacyDefaultRegion(lang))
  {
    if lang in MultiRegion then Some(StoredOr(storedRegion, LegacyDefaultRegion(lang))) else None
  }

  /** The default region of a language with regions is `lang-xx`, whose country part is
      the older script's default country. */
  lemma {:induction false} DefaultRegionCode(lang: string)
    ensures lang in MultiRegion ==>
              '-' in GetDefaultRegion(lang) && RegionCode(GetDefaultRegion(lang)) == LegacyDefaultRegion(lang)
  {
    if lang in MultiRegion {
      LegacyOptionsAreRegionCountries(lang);
      SplitAtDash(lang, GetDefaultRegion(lang)[|lang| + 1..]);
      assert GetDefaultRegion(lang) == lang + "-" + GetDefaultRegion(lang)[|lang| + 1..];
    }
  }

  /** With nothing stored both revisions show the same country. */
  lemma {:induction false} DefaultFiltersAgree(lang: string)
    ensures CountryFilter(None, lang) == LegacyCountryFilter(None, lang)
  {
  }

  /** A stored `xx-yy` region filters by the country the older script stored as `YY`. */
  lemma StoredRegionFilter(region: string, lang: string)
    requires '-' in region && RegionCode(region) != "" && lang in MultiRegion
    ensures CountryFilter(Some(region), lang) == LegacyCountryFilter(Some(RegionCode(region)), lang)
  {
  }

  /** A region chosen in the newer selector shows the same country as the matching option
      of the older selector. */
  lemma {:induction false} RegionFiltersAgree(lang: string, i: nat)
    requires i < |Regions(lang)|
    ensures CountryFilter(Some(Regions(lang)[i]), lang)
            == LegacyCountryFilter(Some(LegacyRegionOptions(lang)[i]), lang)
  {
    var r := Regions(lang)[i];
    var option := LegacyRegionOptions(lang)[i];
    assert lang in MultiRegion;
    assert '-' in r && option != "" by {
      RegionShape(lang, i);
    }
    assert RegionCode(r) == option by {
      LegacyOptionsAreRegionCountries(lang);
      assert RegionCodes(Regions(lang))[i] == RegionCode(r);
    }
    StoredRegionFilter(r, lang);
  }

  lemma RegionShape(lang: string, i: nat)
    requires i < |Regions(lang)|
    ensures '-' in Regions(lang)[i] && LegacyRegionOptions(lang)[i] != ""
  {
    assert Regions(lang)[i][2] == '-';
  }

  /** A stored region that ends in its dash (`en-`) has an empty country part: the newer
      script then shows every location of the language. */
  lemma {:induction false} DanglingDashShowsAll(a: string, lang: string)
    requires '-' !in a
    ensures CountryFilter(Some(a + "-"), lang) == None
  {
    SplitAtFirst(a, '-', "");
    assert a + ['-'] + [] == a + "-";
    assert Split(a + "-", '-') == [a] + Split("", '-') == [a, ""];
  }

  // ----- Filtering the locations -----

  /** `locations.filter(loc => loc.country_code === code)`; `None` is the `TypeError` of
      reading `country_code` from a `null` entry. */
  function Keep(locations: seq<Value>, code: string): (kept: Option<seq<Value>>)
    ensures kept.None? <==> exists i :: 0 <= i < |locations| && IsNullish(locations[i])
    ensures kept.Some? ==> |kept.value| <= |locations|
    decreases |locations|
  {
    if locations == [] then Some([])
    else
      var init := locations[..|locations| - 1];
      var last := locations[|locations| - 1];
      assert locations == init + [last];
      var before := Keep(init, code);
      if before.None? || IsNullish(last) then None
      else if Get(last, "country_code") == Str(code) then Some(before.value + [last])
      else before
  }

  /** The filter keeps exactly the locations of the country. */
  lemma {:induction false} KeepMembers(locations: seq<Value>, code: string)
    requires Keep(locations, code).Some?
    ensures forall x :: x in Keep(locations, code).value <==>
                          x in locations && !IsNullish(x) && Get(x, "country_code") == Str(code)
    decreases |locations|
  {
    if locations != [] {
      var init := locations[..|locations| - 1];
      var last := locations[|locations| - 1];
      assert locations == init + [last];
      KeepMembers(init, code);
    }
  }

  /** One more location: the filter decides it on its own and keeps what came before. */
  lemma KeepSnoc(locations: seq<Value>, x: Value, code: string)
    ensures Keep(locations + [x], code) ==
              if Keep(locations, code).None? || IsNullish(x) then None
              else if Get(x, "country_code") == Str(code) then Some(Keep(locations, code).value + [x])
              else Keep(locations, code)
  {
    assert (locations + [x])[..|locations|] == locations;
    assert (locations + [x])[|locations|] == x;
  }

  /** The filter keeps the order of the locations: filtering a concatenation is
      concatenating the filtered parts. */
  lemma {:induction false} KeepConcat(a: seq<Value>, b: seq<Value>, code: string)
    requires Keep(a, code).Some? && Keep(b, code).Some?
    ensures Keep(a + b, code) == Some(Keep(a, code).value + Keep(b, code).value)
    decreases |b|
  {
    if b == [] {
      assert a + b == a;
      assert Keep(a, code).value + Keep(b, code).value == Keep(a, code).value;
    } else {
      var init := b[..|b| - 1];
      var last := b[|b| - 1];
      assert b == init + [last];
      assert a + b == (a + init) + [last];
      KeepSnoc(init, last, code);
      KeepConcat(a, init, code);
      KeepSnoc(a + init, last, code);
      var ka, ki := Keep(a, code).value, Keep(init, code).value;
      if Get(last, "country_code") == Str(code) {
        assert ka + (ki + [last]) == (ka + ki) + [last];
      }
    }
  }

  /** Filtering twice by the same country changes nothing. */
  lemma {:induction false} KeepIdempotent(locations: seq<Value>, code: string)
    requires Keep(locations, code).Some?
    ensures Keep(Keep(locations, code).value, code) == Keep(locations, code)
    decreases |locations|
  {
    if locations != [] {
      var init := locations[..|locations| - 1];
      var last := locations[|locations| - 1];
      KeepIdempotent(init, code);
      if Get(last, "country_code") == Str(code) {
        var k := Keep(init, code).value;
        KeepIdempotent(init, code);
        KeepConcat(k, [last], code);
        assert [last][..0] == [];
      }
    }
  }

  /** The filter's loop: the kept locations, or `None` at the first `null` entry. */
  method FilterLocations(locations: seq<Value>, code: string) returns (kept: Option<seq<Value>>)
    ensures kept == Keep(locations, code)
  {
    var acc: seq<Value> := [];
    var i := 0;
    while i < |locations|
      invariant 0 <= i <= |locations|
      invariant Keep(locations[..i], code) == Some(acc)
    {
      var loc := locations[i];
      assert locations[..i + 1][..i] == locations[..i];
      if IsNullish(loc) {
        assert locations[..i + 1][i] == loc;
        assert forall j :: 0 <= j < |locations[..i + 1]| ==> locations[..i + 1][j] == locations[j];
        return None;
      }
      if Get(loc, "country_code") == Str(code) {
        acc := acc + [loc];
      }
      i := i + 1;
    }
    assert locations[..i] == locations;
    kept := Some(acc);
  }

  // ----- The locale entry -----

  /** The outcome of `contactsData.find(l => l.locale === lang)`. */
  datatype Search = Found(entry: Value) | NotFound | Throws

  /** `find` moves past the entry at `m`: it is readable and not the language's. */
  predicate Passed(entries: seq<Value>, m: nat, lang: string)
    requires m < |entries|
  {
    !IsNullish(entries[m]) && !Matches(entries[m], lang)
  }

  /** `l.locale === lang`, for an entry that can be read. */
  predicate Matches(entry: Value, lang: string)
    requires !IsNullish(entry)
  {
    Get(entry, "locale") == Str(lang)
  }

  /** The entry at `i` is the first one from `start` on that matches, none before it being
      `null`. */
  predicate FirstMatchAt(entries: seq<Value>, lang: string, start: nat, i: nat)
    requires start <= i < |entries|
  {
    !IsNullish(entries[i]) && Matches(entries[i], lang)
    && forall m :: start <= m < i ==> Passed(entries, m, lang)
  }

  /** The entry at `i` is the first `null` one from `start` on, none before it matching. */
  predicate FirstNullAt(entries: seq<Value>, lang: string, start: nat, i: nat)
    requires start <= i < |entries|
  {
    IsNullish(entries[i]) && forall m :: start <= m < i ==> Passed(entries, m, lang)
  }

  /** The first entry whose `locale` is the language; a `null` entry met before it throws. */
  function FindEntry(entries: seq<Value>, lang: string): (r: Search)
    ensures r.Found? ==> exists i :: 0 <= i < |entries| && r == Found(entries[i]) && FirstMatchAt(entries, lang, 0, i)
    ensures forall i :: 0 <= i < |entries| && FirstMatchAt(entries, lang, 0, i) ==> r == Found(entries[i])
    ensures r.NotFound? <==> forall i :: 0 <= i < |entries| ==> Passed(entries, i, lang)
    ensures r.Throws? <==> exists i :: 0 <= i < |entries| && FirstNullAt(entries, lang, 0, i)
    ensures r.Found? ==> r.entry.Obj?
  {
    FindFrom(entries, lang, 0)
  }

  /** The search from position `start` on, every entry before it already passed. */
  function FindFrom(entries: seq<Value>, lang: string, start: nat): (r: Search)
    requires start <= |entries|
    ensures r.Found? ==>
              exists i :: start <= i < |entries| && r == Found(entries[i]) && FirstMatchAt(entries, lang, start, i)
    ensures forall i :: start <= i < |entries| && FirstMatchAt(entries, lang, start, i) ==> r == Found(entries[i])
    ensures r.NotFound? <==> forall i :: start <= i < |entries| ==> Passed(entries, i, lang)
    ensures r.Throws? <==> exists i :: start <= i < |entries| && FirstNullAt(entries, lang, start, i)
    ensures r.Found? ==> r.entry.Obj?
    decreases |entries| - start
  {
    if start == |entries| then NotFound
    else if IsNullish(entries[start]) then
      assert FirstNullAt(entries, lang, start, start) && !Passed(entries, start, lang);
      Throws
    else if Matches(entries[start], lang) then
      assert FirstMatchAt(entries, lang, start, start) && !Passed(entries, start, lang);
      Found(entries[start])
    else
      var r := FindFrom(entries, lang, start + 1);
      assert Passed(entries, start, lang);
      assert forall i :: start + 1 <= i < |entries| ==>
               (FirstMatchAt(entries, lang, start + 1, i) <==> FirstMatchAt(entries, lang, start, i));
      assert r.Throws? <==> exists i :: start <= i < |entries| && FirstNullAt(entries, lang, start, i) by {
        if r.Throws? {
          var i :| start + 1 <= i < |entries| && FirstNullAt(entries, lang, start + 1, i);
          assert FirstNullAt(entries, lang, start, i);
        }
        if exists i :: start <= i < |entries| && FirstNullAt(entries, lang, start, i) {
          var i :| start <= i < |entries| && FirstNullAt(entries, lang, start, i);
          assert i != start;
          assert FirstNullAt(entries, lang, start + 1, i);
        }
      }
      assert !FirstMatchAt(entries, lang, start, start);
      r
  }

  // ----- What the page shows -----

  /** What `loadContacts` does: nothing for a language without an entry, an error (caught
      and logged, nothing shown) when the data cannot be read, otherwise the locations to
      render. */
  datatype Contacts = NoLocale | Shown(locations: seq<Value>) | Fails

  /** The locations shown for `lang` under the country filter `filter` of either revision;
      `data` is the parsed `contacts.json`, `None` when it cannot be fetched or parsed. */
  function ShownContacts(data: Option<Value>, lang: string, filter: Option<string>): (c: Contacts)
    ensures c.NoLocale? <==>
              data.Some? && data.value.Arr? && FindEntry(data.value.items, lang).NotFound?
    ensures c.Shown? ==>
              data.Some? && data.value.Arr? && FindEntry(data.value.items, lang).Found?
              && Get(FindEntry(data.value.items, lang).entry, "locations").Arr?
    ensures c.Shown? && filter.Some? ==>
              forall x :: x in c.locations ==>
                            !IsNullish(x) && Get(x, "country_code") == Str(filter.value)
    ensures c.Shown? && filter.None? ==>
              c.locations == Get(FindEntry(data.value.items, lang).entry, "locations").items
    ensures c.Shown? && filter.Some? ==>
              Some(c.locations) == Keep(Get(FindEntry(data.value.items, lang).entry, "locations").items, filter.value)
    ensures c.Fails? <==>
              data.None? || !data.value.Arr? || FindEntry(data.value.items, lang).Throws?
              || (FindEntry(data.value.items, lang).Found?
                  && (!Get(FindEntry(data.value.items, lang).entry, "locations").Arr?
                      || (filter.Some?
                          && Keep(Get(FindEntry(data.value.items, lang).entry, "locations").items, filter.value).None?)))
  {
    if data.None? || !data.value.Arr? then Fails
    else
      match FindEntry(data.value.items, lang)
      case Throws => Fails
      case NotFound => NoLocale
      case Found(entry) =>
        var locations := Get(entry, "locations");
        if !locations.Arr? then Fails
        else if filter.None? then Shown(locations.items)
        else
          match Keep(locations.items, filter.value)
          case None => Fails
          case Some(kept) =>
            KeepMembers(locations.items, filter.value);
            Shown(kept)
  }

  /** After the move from `region` to `tfot_region`, the contact page of a region chosen in
      the newer selector lists exactly what the older page listed for the matching option. */
  lemma {:induction false} ContactsAgreeAcrossRevisions(data: Option<Value>, lang: string, i: nat)
    requires i < |Regions(lang)|
    ensures ShownContacts(data, lang, CountryFilter(Some(Regions(lang)[i]), lang))
            == ShownContacts(data, lang, LegacyCountryFilter(Some(LegacyRegionOptions(lang)[i]), lang))
  {
    RegionFiltersAgree(lang, i);
  }
}
