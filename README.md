# TFOT Labs multilingual site: the i18n rules, modelled in Dafny

The TFOT Labs site is a static, multilingual site. One browser script drives it. The script
does the following:

- picks a language: stored, browser, or guessed from the visitor's country by IP;
- loads that language's JSON bundle, falling back to English;
- fills every element tagged with a dotted translation key;
- overlays the company cards with localized names and descriptions;
- shows the contact locations of the visitor's region;
- renders the footer's social-network icons.

There are two revisions of the script:

- `assets/js/app.js` is the older one. Its members are called `Legacy...` here.
- `dist/assets/js/app.js` is the newer one. It adds regions (`en-us`, `es-mx`, `pt-br`, …), region variants inside bundles, `applyLocale` and a globe animation.

A small Python script, `dist/assets/lang/update_socials.py`, patches the language files' social-network lists.

The model does the following:

- It holds parsed JSON and `undefined` as one datatype (`Js.Value`).
- It spells out the JavaScript rules every decision goes through:
  - truthiness and `||`;
  - property access, which throws on `null` and `undefined`;
  - `String(v)`;
  - arrays answering their index keys.
- It states each rule of the scripts over those values.

The modules:

| module | file | what it holds |
|---|---|---|
| `Text` | text.dfy | `split`, `join`, ASCII `toUpperCase`, `startsWith`, decimal text of numbers |
| `Js` | js.dfy | the JSON/`undefined` value, truthiness, `||`, `v[k]`, `String(v)` |
| `Locale` | locale.dfy | language, country, region, flag and angle tables and the rules on them |
| `Hydrator` | hydrator.dfy | `updateContent`: key walk, region variants, what each element gets |
| `Companies` | companies.dfy | `loadCompanies`: the in-place overlay of the company fixture |
| `Contacts` | contacts.dfy | `loadContacts`: locale entry, country filter, order-preserving filtering |
| `Socials` | socials.dfy | `updateSocials`: which list, which icons |
| `Loader` | loader.dfy | class `Session`: `loadLang`, `applyLocale`, start-up, the language menu, region buttons, the older region select |
| `SocialsPatch` | socials_patch.dfy | `update_socials.py` without its file I/O |

The imperative parts of the scripts are methods with loops or a class with state. The
methods are proved against specification functions, and the lemmas state the properties of
those functions:

- the key walk (`Hydrator.ResolveKey`);
- the element loop (`Hydrator.UpdateContent`);
- the company `forEach` mutation (`Companies.CompanyList.LoadCompanies`);
- the contacts filter (`Contacts.FilterLocations`);
- the module-level language state (`Loader.Session`);
- the Python patch loop (`SocialsPatch.RewriteSocials`).

The model follows the code also where its behaviour is easy to overlook:

- The older `updateContent` leaves an element untouched for a terminal that is neither text nor a list. Its `value = ''` has no effect.
- `applyLocale` stores the chosen language before the bundle loads. The stored language is therefore the chosen one even when neither it nor English loads.
- A stored region that ends in its dash (`en-`) gives no country filter in the newer contacts page.
- The older region select keeps a stored region across a language change. `US` survives a switch to Spanish, and the Spanish contact page then filters by `US`.
- In the newer script a language switch stores the new language's default region, so a chosen region does not survive it.
- A region button in the newer script applies its locale twice: once on the click and once when the globe animation ends. The bundle is therefore requested twice.
- Every successful load in the newer script adds another 'change' listener to the language menu, on top of the one added at start-up. A language switch runs one globe and one `applyLocale` per listener, so after a normal start it requests the new bundle at least twice, and each successful switch doubles the listeners.

## Model

| member | source | states |
|---|---|---|
| Text.Split | dist/assets/js/app.js:141 | `key.split('.')` gives at least one piece, no piece holds the separator, and one piece exactly when the separator is absent |
| Text.JoinSplit | dist/assets/js/app.js:141 | splitting loses nothing: joining the pieces with the separator gives the key back |
| Text.IndexKeyOfNat | dist/assets/js/app.js:148 | the decimal text of every natural number is a canonical array index key that denotes that number |
| Text.NatOfIndexKey | dist/assets/js/app.js:148 | every canonical index key is the decimal text of the number it denotes (one-to-one) |
| Js.OrChain | dist/assets/js/app.js:153 | `a \|\| b` is truthy exactly when one operand is, is one of its operands, is `a` when `a` is truthy, and a chain may be grouped either way |
| Js.Lookup | dist/assets/js/app.js:148 | a property read yields the value of the first property with that key, and `undefined` when there is none |
| Js.Member | dist/assets/js/app.js:144-148 | `v[k]` throws exactly on `null`/`undefined`; an object answers with its property (or `undefined`), an array or string with its element (a one-character string) at an in-range index and its `length`, and with `undefined` for any other key; a boolean or number with `undefined` |
| Js.GetIndex | dist/assets/js/app.js:148 | reading an array element by its decimal property name is reading it by position, `undefined` past the end |
| Locale.CountryTableClosed | dist/assets/js/app.js:5-86 | every language of `COUNTRY_TO_LANG` is one of `LANGUAGES` |
| Locale.DetectLang | dist/assets/js/app.js:303-319 | the detected language is always supported: the country's language, else (unknown country or failed lookup) English |
| Locale.StartupCandidate | dist/assets/js/app.js:666 | the first language considered is the stored one, else the browser's primary subtag, else English (nothing stored and an empty subtag), and never empty |
| Locale.StartupLang | dist/assets/js/app.js:666-672 | the start-up language is supported; a supported candidate (`Locale.StartupCandidate`) is used; an unsupported candidate, such as an unsupported stored language, goes to the geolocation guess without consulting the browser; with neither a stored nor a browser language the candidate is English |
| Locale.LegacyStartupLang | assets/js/app.js:363-370 | the older start-up uses the stored language if supported, else the geolocation guess, never the browser's |
| Locale.GetDefaultRegion | dist/assets/js/app.js:354-361 | a default region exists exactly for `en`/`es`/`pt` and starts with the language and a dash |
| Locale.LegacyDefaultRegion | assets/js/app.js:401 | the older default is the country of the newer default region for `en`/`es`/`pt`, and `PT` for every other language |
| Locale.FlagRoundTrip | dist/assets/js/app.js:31-38 | a flag emoji spells its country code in regional-indicator symbols, which read back to the code |
| Locale.GetFlagFromCode | dist/assets/js/app.js:45-47 | a country in the flag table gets its own flag, every other code the globe |
| Locale.FlagIdentifiesCountry | dist/assets/js/app.js:45-47 | the flag shown identifies the country, and the globe identifies none |
| Locale.LangFlag | dist/assets/js/app.js:8-29 | a language has a menu flag exactly when it has a globe country, and its first flag spells that country; a single-flag entry is exactly that country's flag |
| Locale.TwoFlagEntries | dist/assets/js/app.js:8-29 | the English and Portuguese entries are the flags of their two regions, in region order, joined by ` / ` |
| Locale.RegionFlag | dist/assets/js/app.js:780-793 | a region has a flag exactly when it is a known region, and the flag spells its country |
| Locale.LangSelectText | dist/assets/js/app.js:768-796 | for `en`/`es`/`pt` the stored (else default) region's flag, the language flag when the stored region is unknown; other languages their flag, else the upper-case code; never empty |
| Locale.GetRegionAngle | dist/assets/js/app.js:384-397 | the globe angle is a multiple of 15 below 360: the table angle of the region's or language's country, 0 for an unknown one |
| Locale.EveryLanguageHasAnAngle | dist/assets/js/app.js:347-352 | every supported language maps to a country with an angle of its own |
| Locale.LanguageFacesDefaultRegion | dist/assets/js/app.js:384-397 | the globe faces the same way for `en`, `es`, `pt` as for their default regions |
| Locale.Regions | dist/assets/js/app.js:730-749 | regions exist exactly for `en`/`es`/`pt`, the default first, each a distinct known region of the language |
| Locale.RegionButtons | dist/assets/js/app.js:712-767 | one button per region of `Locale.Regions(lang)`, in order, so buttons exist exactly for `en`/`es`/`pt`, default region first, each a known region of the language; active exactly when stored, at most one active |
| Locale.LegacyRegionOptions | assets/js/app.js:387-394 | the older options are, one by one, the countries of the newer regions, the older default first |
| Locale.LegacyOptionsAreRegionCountries | assets/js/app.js:387-400 | the older options are the upper-cased country parts of the newer regions in the same order, and the older default is the newer default's country |
| Locale.RegionName | assets/js/app.js:49-59 | a truthy bundle `contact.regions[code]` is the name; when `contact`, `regions` or that entry is falsy, the built-in name, else the code; it throws only on a `null` bundle |
| Locale.SocialKey | dist/assets/js/app.js:265-269 | the socials key is the stored region only for `en`/`es`/`pt` when it starts with `lang-`, else the language |
| Hydrator.ResolveKey | dist/assets/js/app.js:140-149 | the key loop computes exactly the walk of the split key through the bundle |
| Hydrator.Walk | dist/assets/js/app.js:143-149 | no pieces leave the bundle; a non-object before a piece gives `''`; one piece on an object is its property; a missing property before more pieces gives `''` |
| Hydrator.WalkComposes | dist/assets/js/app.js:143-149 | walking `a + b` is walking `b` from where `a` ended, also when `a` stopped early |
| Hydrator.StaysEmpty | dist/assets/js/app.js:144-146 | once the walk sits on `''` it stays there |
| Hydrator.WalkStopsAtNonObject | dist/assets/js/app.js:144-146 | a step on a non-object before the key ends makes the key resolve to `''` |
| Hydrator.WalkMissingKey | dist/assets/js/app.js:148 | a missing property gives `undefined`, and any further piece gives `''` |
| Hydrator.WalkFindsKey | dist/assets/js/app.js:148 | a piece naming a property of the object reached gives the value of the first property with that name |
| Hydrator.WalkIndexesArrays | dist/assets/js/app.js:148 | a numeric piece selects an array element, `undefined` past the end |
| Hydrator.Narrow | dist/assets/js/app.js:151-153 | an object terminal becomes its region entry if truthy, else `default` if truthy, else its first own value if truthy, else `''`; other terminals pass unchanged |
| Hydrator.VariantRegion | dist/assets/js/app.js:152 | variants are read for the stored `tfot_region` when non-empty, else for the upper-cased language |
| Hydrator.Render | dist/assets/js/app.js:155-161 | text is written verbatim, a list as `<li>` items; the older script leaves every other terminal alone, the newer writes `''` for a falsy one and `String(value)` for any other truthy one |
| Hydrator.ListItemsConcat | dist/assets/js/app.js:157-158 | the list markup has one `<li>` per element in order (markup of a concatenation is the concatenation) |
| Hydrator.TextAndListsInBothRevisions | assets/js/app.js:142-148 | both revisions write text terminals verbatim and lists as `<li>` items; only the newer rewrites other terminals |
| Hydrator.MissingKeyEffect | dist/assets/js/app.js:159-161 | a missing last piece of the key leaves the element alone in the older script and empties it in the newer, never failing |
| Hydrator.LegacyChangesOnlyTextAndLists | assets/js/app.js:142-148 | in the older script an element changes exactly when the key resolves to text or to a list |
| Hydrator.RegionalVariantEffect | dist/assets/js/app.js:151-161 | the newer script rewrites every element; a text variant for the region is shown as is; an empty object empties the element |
| Hydrator.ElementEffect | dist/assets/js/app.js:139-161 | a key resolving to text or a list has the same effect in both revisions; the older changes only those elements, the newer every element |
| Hydrator.UpdateContent | dist/assets/js/app.js:139-162 | every tagged element gets the effect of its own key, in document order, variants read for the stored region or the upper-cased language |
| Companies.OverlayOf | dist/assets/js/app.js:203-223 | a `companies` array wins; parallel `names` and `descriptions` need both to be arrays; otherwise no overlay |
| Companies.Overlaid | dist/assets/js/app.js:203-223 | the overlay keeps `name`/`description`/`category`, skips a falsy record, gives every record it overlays a truthy `title`/`desc` when the name/description is truthy, and sets `cat` to the category for parallel arrays |
| Companies.Filled | dist/assets/js/app.js:226-230 | the fallback keeps a truthy `title`/`desc`/`cat`, and each is truthy afterwards exactly when it or its fixture field was |
| Companies.FilledIdempotent | dist/assets/js/app.js:226-230 | the fallback pass changes nothing when repeated |
| Companies.Localized | dist/assets/js/app.js:203-230 | the list keeps its length and order and every record's `name`, `description`, `category` |
| Companies.LocalizedFields | dist/assets/js/app.js:203-230 | each `title`/`desc`/`cat` is the overlay value if truthy, else the fixture field; past the end of `names`/`descriptions` the fixture values stay |
| Companies.LocalizedTitlesPresent | assets/js/app.js:180-207 | a record with a non-empty `name`/`description`/`category` always ends with a non-empty `title`/`desc`/`cat` |
| Companies.CompanyList.LoadCompanies | dist/assets/js/app.js:194-230 | the in-place overlay and fallback loops leave exactly the localized list; a failed fetch keeps the old list, a `null` bundle leaves the raw fixture and renders nothing |
| Contacts.CountryFilter | dist/assets/js/app.js:582-593 | filtering only for `en`/`es`/`pt` and a non-empty code; an absent or empty stored `tfot_region` filters by the language's default country (`US`/`ES`/`PT`); a stored `xx-yy` filters by the upper-cased `yy`, and shows everything when that part is empty; a stored region without a dash filters by its upper-cased self |
| Contacts.LegacyCountryFilter | assets/js/app.js:338-341 | the older filter applies exactly for `en`/`es`/`pt`, by the stored `region` or `US`/`ES`/`PT` |
| Contacts.DefaultRegionCode | dist/assets/js/app.js:588 | the default region of `en`/`es`/`pt` has a dash and its country part is the older script's default country |
| Contacts.DefaultFiltersAgree | dist/assets/js/app.js:588 | with nothing stored both revisions filter by the same country |
| Contacts.RegionFiltersAgree | dist/assets/js/app.js:588-593 | a region of the newer selector filters like the matching option of the older selector |
| Contacts.DanglingDashShowsAll | dist/assets/js/app.js:590-593 | a stored region ending in its dash yields no filter, so every location is shown |
| Contacts.Keep | dist/assets/js/app.js:594-596 | the filter throws exactly when a location is `null`, and never grows the list |
| Contacts.KeepMembers | dist/assets/js/app.js:594-596 | the filter keeps exactly the locations whose `country_code` is the code |
| Contacts.KeepConcat | dist/assets/js/app.js:594-596 | the filter preserves order: filtering a concatenation concatenates the filtered parts |
| Contacts.KeepIdempotent | assets/js/app.js:340 | filtering twice by the same country changes nothing |
| Contacts.FilterLocations | dist/assets/js/app.js:594-596 | the filter loop computes the specified filter, stopping at a `null` entry |
| Contacts.FindEntry | dist/assets/js/app.js:582 | the entry found is the first one whose `locale` is the language; nothing is found exactly when every entry is readable with another locale; it throws exactly when a `null` entry comes before any match |
| Contacts.ShownContacts | dist/assets/js/app.js:575-596 | no entry means nothing shown; shown locations are the entry's `locations`, filtered exactly as the filter function does when there is a country; it fails exactly on unreadable data, a `null` entry before the match, non-array `locations`, or a `null` location when filtering |
| Contacts.ContactsAgreeAcrossRevisions | assets/js/app.js:332-341 | a region chosen in the newer selector shows exactly what the older page showed for the matching option |
| Socials.IconClass | dist/assets/js/app.js:272-281 | a known network gets its mapped icon, any other the share icon, never an empty class |
| Socials.TwitterIsX | dist/assets/js/app.js:274 | `Twitter` and `X` show the same icon |
| Socials.LinksOf | dist/assets/js/app.js:271-283 | one link per network, in order, labelled with the network's text |
| Socials.HtmlConcat | dist/assets/js/app.js:282-286 | the footer markup lists the links in order |
| Socials.SocialsTable | dist/assets/js/app.js:264 | the socials table is present only when `footer` and `footer.socials` are truthy |
| Socials.ChosenList | dist/assets/js/app.js:265-270 | the region list if truthy, else the language list if truthy, else `[]` |
| Socials.RenderSocials | dist/assets/js/app.js:262-288 | no containers means nothing read; a `null` bundle throws; otherwise links render exactly when the chosen list is an array |
| Socials.LegacyRenderSocials | assets/js/app.js:229-250 | the older script renders exactly when `socials[currentLang]` is an array, and leaves the footer unchanged when the list is missing |
| Socials.RegionListWins | dist/assets/js/app.js:265-269 | a region list of the language wins over the language's own list |
| Socials.RevisionsAgreeWithoutRegionList | assets/js/app.js:231-232 | where the older script renders, the newer renders the same links unless the region has its own list |
| Socials.MissingListEmptiesFooter | dist/assets/js/app.js:270 | with no list for the language or region, the newer script empties the footer links and the older keeps them |
| Loader.LoadOutcome | dist/assets/js/app.js:89-128 | a load ends with the language or English loaded, else `{}`; the language is requested first, English only on a non-English failure, no bundle twice |
| Loader.EnglishBacksEveryLoad | dist/assets/js/app.js:117-121 | when English is deliverable every load ends with a supported bundle |
| Loader.StartLoadsSupportedLanguage | assets/js/app.js:363-370 | in both revisions the page starts with a supported language or none |
| Loader.LegacySavedRegion | assets/js/app.js:401-402 | the older select saves a non-empty stored `region`, else `Locale.LegacyDefaultRegion(lang)`, never empty |
| Loader.LegacyRegionOutlivesLanguage | assets/js/app.js:401-404 | a `US` region stored on the English page survives a switch to Spanish and then filters the Spanish contacts |
| Loader.Session.constructor | dist/assets/js/app.js:61-62 | the script starts with the stored language (else English), an empty bundle and no language-menu listener |
| Loader.Session.LoadLang | dist/assets/js/app.js:89-128 | bundle, current language and stored language change together on success; a non-English failure retries English once; a failed English load leaves `{}`; in the newer script each successful load adds a language-menu listener |
| Loader.Session.AfterLoad | dist/assets/js/app.js:99 | a load stores the loaded language under the revision's key and touches nothing else, except that the older contact page also stores its region |
| Loader.Session.LegacyInitRegionSelector | assets/js/app.js:379-404 | options of the current language; the saved region is selected exactly when it is one of them; the saved region is written back |
| Loader.Session.ApplyLocale | dist/assets/js/app.js:363-366 | language and region are stored before loading, so the stored language is the chosen one even if loading fails |
| Loader.Session.SwitchLanguage | dist/assets/js/app.js:322-342 | choosing another language applies it with its default region once per registered listener, requesting the bundle each time and replacing the stored region; a successful switch doubles the listeners; choosing the current one changes nothing |
| Loader.Session.ChooseRegion | dist/assets/js/app.js:760-763 | a region button applies its language and region twice, so the bundle is requested twice, and stores the region |
| Loader.Session.Start | dist/assets/js/app.js:666-672 | the start-up language is loaded through `applyLocale` with the stored region, or through geolocation without touching the region; a language-menu listener is added |
| Loader.Session.LegacyStart | assets/js/app.js:363-376 | the older start-up loads the stored or guessed language, and on the contact page saves a region for the initial language first; one language-menu listener is added |
| SocialsPatch.Patched | dist/assets/lang/update_socials.py:21-23 | only an eligible list changes: its length and first two entries stay, the third becomes `Twitter`, and it is then no longer eligible |
| SocialsPatch.Rewritten | dist/assets/lang/update_socials.py:18-24 | keys and order stay, and afterwards no listed language has an eligible list left |
| SocialsPatch.RewriteTouchesOnlyEligibleLists | dist/assets/lang/update_socials.py:9-23 | keys and order stay; only eligible lists of listed languages change, and only in the third entry |
| SocialsPatch.EligibleListsGetTwitter | dist/assets/lang/update_socials.py:20-23 | every eligible list of a listed language ends with `Twitter` third |
| SocialsPatch.RewriteIdempotent | dist/assets/lang/update_socials.py:21-23 | rewriting twice is rewriting once |
| SocialsPatch.RewriteSocials | dist/assets/lang/update_socials.py:18-24 | the nested loop computes the rewrite, and `updated` holds exactly when something changed |
| SocialsPatch.SetField | dist/assets/lang/update_socials.py:23 | assigning an existing key replaces the value of its first entry only; every other entry, every key and the order stay |
| SocialsPatch.SecondRunWritesNothing | dist/assets/lang/update_socials.py:17-29 | after one run a second run finds nothing to change |
| SocialsPatch.PatchedData | dist/assets/lang/update_socials.py:17-24 | a file's object keeps its keys and order, only its `footer` entry may change, and when `footer.socials` is an object the new `footer.socials` is `SocialsPatch.Rewritten` of it |
| SocialsPatch.UpdateFile | dist/assets/lang/update_socials.py:17-29 | the file is written exactly when the data changed; data without `footer.socials` is untouched |

## Left out

- Network I/O is not modelled. Each fetch result becomes an input:
  - the translation bundles, `companies.json` and `contacts.json`;
  - the IP geolocation country, `None` when the lookup fails.

  A bundle that cannot be fetched or parsed is a language missing from `bundles`.
- `localStorage` becomes a `map<string, string>` or an `Option<string>` parameter.
- DOM work is not modelled:
  - querying and element creation;
  - `setRTL`, and the option list `initLangSwitcher` builds (its listener count is modelled, and the menu is assumed present);
  - `initForms`, careers (`loadCareers`) and the company card markup.

  Rendered output is kept as sequences of effects, links or locations.
- Animations are not modelled: `animateSections`, `showPortfolioAnimation`, `initNavTransitions`, staggering timers and injected CSS, and the drawing and timing of `showGlobe`. The `applyLocale` call that ends `showGlobe` is modelled, as the second half of `Loader.Session.SwitchLanguage` and `Loader.Session.ChooseRegion`; its globe angle is `Locale.GetRegionAngle`.
- The Google Maps embed URLs are not modelled. They need floating-point `lat`/`lng`.
- Async interleaving is not modelled. Each `loadLang` is atomic here, which covers:
  - overlapping `loadLang`/`applyLocale` calls;
  - the `.then` of `applyLocale` running before the English fallback finishes;
  - the contact-page and company refreshes that follow it.
- `Loader.Session.SwitchLanguage`: the listeners' `applyLocale` calls run one after another here. In the page their globes end about together and their loads overlap. A page without the language menu registers no listener, which the model does not distinguish.
- `Loader.Session.LoadLang`: a rendering call that throws after a successful parse is not modelled. Such a call, for example `updateSocials` on a bundle that is JSON `null`, sends the real script into the English fallback. The model assumes rendering succeeds.
- `Contacts.ShownContacts`: the card rendering is not modelled. The real script can still throw there, for example on a non-string `country_code` in the newer script. The model also assumes the contacts container is present.
- The older language menu (`loadLang` on change, with the company and careers refreshes) is `Loader.Session.LoadLang`; the refreshes are not modelled.
- Objects are assumed to have distinct keys, as `JSON.parse` and `json.load` produce them. Lookup takes the first entry.
- Properties inherited from prototypes are not modelled. Examples are `constructor` as a key of `iconMap` or as a translation key.
- Numbers are kept as their `String()` text, since the scripts only test and show them.
- Strings are sequences of code points rather than UTF-16 units.
- `toUpperCase` is modelled for ASCII only.
- `Companies.CompanyList.LoadCompanies`: fixture records are assumed to be objects. A `null` record would make the real script throw.
- `SocialsPatch.UpdateFile` only rewrites `footer` and `socials` that are JSON objects, and only lists. Python would raise, or mutate differently, for other types: a string `footer`, a dict or string network value.
- The file globbing, `json.load`/`json.dump` and printing of `update_socials.py` are file I/O and are not modelled.
- `build.js` is not part of this model.
