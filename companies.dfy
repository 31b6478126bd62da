/** `loadCompanies`: the company fixture is overlaid, record by record and in place, with
    the localized fields of the bundle, then every record missing a `title`, `desc` or
    `cat` takes the fixture's `name`, `description` or `category`. The overlay has three
    shapes, tried in a fixed order: a `companies.companies` array of records, else
    parallel `companies.names` and `companies.descriptions` arrays, else none.
    Both revisions of the script do exactly this. */
module Companies {
  import opened Js

  /** A fixture record with the fields the overlay reads and writes; `title`, `desc` and
      `cat` are whatever the fixture had (normally `undefined`). */
  datatype Company = Company(
    name: Value, description: Value, category: Value,
    title: Value, desc: Value, cat: Value)

  /** The shape of `translations.companies`, decided once per load. */
  datatype Overlay =
    | ByRecords(records: seq<Value>)
    | ByNames(names: seq<Value>, descriptions: seq<Value>)
    | NoOverlay

  /** The dispatch on the bundle's `companies` entry: the records array wins over the
      parallel arrays, which need both `names` and `descriptions` to be arrays. */
  function OverlayOf(localized: Value): (o: Overlay)
    ensures o.ByRecords? <==> Truthy(localized) && Get(localized, "companies").Arr?
    ensures o.ByRecords? ==> o.records == Get(localized, "companies").items
    ensures o.ByNames? <==>
              Truthy(localized) && !Get(localized, "companies").Arr?
              && Get(localized, "names").Arr? && Get(localized, "descriptions").Arr?
    ensures o.ByNames? ==>
              o.names == Get(localized, "names").items
              && o.descriptions == Get(localized, "descriptions").items
  {
    if !Truthy(localized) then NoOverlay
    else
      var records := Get(localized, "companies");
      if Truthy(records) && records.Arr? then ByRecords(records.items)
      else
        var names := Get(localized, "names");
        var descriptions := Get(localized, "descriptions");
        if Truthy(names) && names.Arr? && Truthy(descriptions) && descriptions.Arr?
        then ByNames(names.items, descriptions.items)
        else NoOverlay
  }

  /** The overlay step for the record at `index`. */
  function Overlaid(c: Company, o: Overlay, index: nat): (r: Company)
    ensures r.name == c.name && r.description == c.description && r.category == c.category
    ensures o.NoOverlay? ==> r == c
    ensures o.ByRecords? && !Truthy(At(o.records, index)) ==> r == c
    ensures (o.ByNames? || (o.ByRecords? && Truthy(At(o.records, index)))) ==>
              (Truthy(c.name) ==> Truthy(r.title)) && (Truthy(c.description) ==> Truthy(r.desc))
    ensures o.ByNames? ==> r.cat == c.category
  {
    match o
    case ByRecords(records) =>
      var trans := At(records, index);
      if Truthy(trans) then
        c.(title := Or(Get(trans, "title"), c.name),
           desc := Or(Get(trans, "desc"), c.description),
           cat := Or(Get(trans, "cat"), c.category))
      else c
    case ByNames(names, descriptions) =>
      c.(title := Or(At(names, index), c.name),
         desc := Or(At(descriptions, index), c.description),
         cat := c.category)
    case NoOverlay => c
  }

  /** The fallback pass for undefined translations. */
  function Filled(c: Company): (r: Company)
    ensures r.name == c.name && r.description == c.description && r.category == c.category
    ensures Truthy(r.title) <==> Truthy(c.title) || Truthy(c.name)
    ensures Truthy(r.desc) <==> Truthy(c.desc) || Truthy(c.description)
    ensures Truthy(r.cat) <==> Truthy(c.cat) || Truthy(c.category)
    ensures Truthy(c.title) ==> r.title == c.title
    ensures Truthy(c.desc) ==> r.desc == c.desc
    ensures Truthy(c.cat) ==> r.cat == c.cat
  {
    c.(title := Or(c.title, c.name), desc := Or(c.desc, c.description), cat := Or(c.cat, c.category))
  }

  /** The fallback pass changes nothing the second time. */
  lemma FilledIdempotent(c: Company)
    ensures Filled(Filled(c)) == Filled(c)
  {
  }

  /** The list `loadCompanies` leaves behind for a bundle that is not `null`. */
  function Localized(translations: Value, fixture: seq<Company>): (r: seq<Company>)
    requires !IsNullish(translations)
    ensures |r| == |fixture|
    ensures forall i :: 0 <= i < |r| ==>
              r[i].name == fixture[i].name && r[i].description == fixture[i].description
              && r[i].category == fixture[i].category
  {
    var o := OverlayOf(Get(translations, "companies"));
    seq(|fixture|, i requires 0 <= i < |fixture| => Filled(Overlaid(fixture[i], o, i)))
  }

  /** The final fields of every record: the overlay's value when truthy, else the
      fixture's own field. With a records array a missing or empty record keeps whatever
      the fixture had; with parallel arrays `cat` is always the fixture's category and a
      record past the end of an array keeps the fixture's name or description. */
  lemma {:induction false} LocalizedFields(translations: Value, fixture: seq<Company>, i: nat)
    requires !IsNullish(translations) && i < |fixture|
    ensures var o := OverlayOf(Get(translations, "companies"));
            var c := fixture[i];
            var r := Localized(translations, fixture)[i];
            match o
            case ByRecords(records) =>
              if Truthy(At(records, i)) then
                r.title == Or(Get(At(records, i), "title"), c.name)
                && r.desc == Or(Get(At(records, i), "desc"), c.description)
                && r.cat == Or(Get(At(records, i), "cat"), c.category)
              else r == Filled(c)
            case ByNames(names, descriptions) =>
              r.title == Or(At(names, i), c.name) && r.desc == Or(At(descriptions, i), c.description)
              && r.cat == c.category
              && (i >= |names| ==> r.title == c.name)
              && (i >= |descriptions| ==> r.desc == c.description)
            case NoOverlay => r == Filled(c)
  {
    var o := OverlayOf(Get(translations, "companies"));
    var c := fixture[i];
    var r := Localized(translations, fixture)[i];
    assert r == Filled(Overlaid(c, o, i));
    match o
    case ByRecords(records) =>
      if Truthy(At(records, i)) {
        var t := At(records, i);
        OrChain(Get(t, "title"), c.name, c.name);
        OrChain(Get(t, "desc"), c.description, c.description);
        OrChain(Get(t, "cat"), c.category, c.category);
      }
    case ByNames(names, descriptions) =>
      OrChain(At(names, i), c.name, c.name);
      OrChain(At(descriptions, i), c.description, c.description);
      OrChain(c.category, c.category, c.category);
    case NoOverlay =>
  }

  /** Every record whose fixture `name` (or `description`) is non-empty ends up with a
      non-empty `title` (or `desc`). */
  lemma {:induction false} LocalizedTitlesPresent(translations: Value, fixture: seq<Company>, i: nat)
    requires !IsNullish(translations) && i < |fixture|
    ensures Truthy(fixture[i].name) ==> Truthy(Localized(translations, fixture)[i].title)
    ensures Truthy(fixture[i].description) ==> Truthy(Localized(translations, fixture)[i].desc)
    ensures Truthy(fixture[i].category) ==> Truthy(Localized(translations, fixture)[i].cat)
  {
    var o := OverlayOf(Get(translations, "companies"));
    assert Localized(translations, fixture)[i] == Filled(Overlaid(fixture[i], o, i));
  }

  /** Holds the module-level `companies` list. */
  class CompanyList {
    var companies: seq<Company>

    constructor ()
      ensures companies == []
    {
      companies := [];
    }

    /** `loadCompanies`: `fixture` is `None` when `companies.json` cannot be fetched or
        parsed (the list is then left as it was). A `null` bundle makes
        `translations.companies` throw after the fixture was stored: the list is the raw
        fixture and nothing is rendered. The result says whether the cards are rendered. */
    method LoadCompanies(translations: Value, fixture: Option<seq<Company>>) returns (rendered: bool)
      modifies this
      ensures rendered <==> fixture.Some? && !IsNullish(translations)
      ensures fixture.None? ==> companies == old(companies)
      ensures fixture.Some? && IsNullish(translations) ==> companies == fixture.value
      ensures rendered ==> companies == Localized(translations, fixture.value)
    {
      if fixture.None? {
        return false;
      }
      var fixed := fixture.value;
      companies := fixed;
      if IsNullish(translations) {
        return false;
      }
      var o := OverlayOf(Get(translations, "companies"));
      var i := 0;
      while i < |companies|
        invariant 0 <= i <= |companies| == |fixed|
        invariant forall j :: 0 <= j < i ==> companies[j] == Overlaid(fixed[j], o, j)
        invariant forall j :: i <= j < |companies| ==> companies[j] == fixed[j]
      {
        companies := companies[i := Overlaid(companies[i], o, i)];
        i := i + 1;
      }
      i := 0;
      while i < |companies|
        invariant 0 <= i <= |companies| == |fixed|
        invariant forall j :: 0 <= j < i ==> companies[j] == Filled(Overlaid(fixed[j], o, j))
        invariant forall j :: i <= j < |companies| ==> companies[j] == Overlaid(fixed[j], o, j)
      {
        companies := companies[i := Filled(companies[i])];
        i := i + 1;
      }
      return true;
    }
  }
}
