/** `updateContent`: every element tagged with a dotted translation key gets the text or
    list the key resolves to in the loaded bundle. The key is split on `.` and walked
    through the bundle; the newer script (dist/assets/js/app.js) first narrows an object
    it lands on to one regional variant, the older one (assets/js/app.js) does not, and
    the two treat a terminal that is neither text nor a list differently. */
module Hydrator {
  import opened Text
  import opened Js

  /** The walk of the key loop: each piece indexes the current value while that value is an
      object or an array; meeting anything else before the pieces run out yields `''`. */
  function Walk(v: Value, keys: seq<string>): (r: Value)
    ensures keys == [] ==> r == v
    ensures keys != [] && !(v.Arr? || v.Obj?) ==> r == Str("")
    ensures |keys| == 1 && v.Obj? ==> r == Lookup(v.fields, keys[0])
    ensures |keys| > 1 && v.Obj? && !HasKey(v.fields, keys[0]) ==> r == Str("")
    decreases |keys|
  {
    if keys == [] then v
    else if IsNullish(v) || !IsObjectType(v) then Str("")
    else Walk(Get(v, keys[0]), keys[1..])
  }

  /** The key loop itself, rebinding `value` piece by piece. */
  method ResolveKey(bundle: Value, key: string) returns (value: Value)
    ensures value == Walk(bundle, Split(key, '.'))
  {
    var keys := Split(key, '.');
    value := bundle;
    var i := 0;
    while i < |keys|
      invariant 0 <= i <= |keys|
      invariant Walk(value, keys[i..]) == Walk(bundle, keys)
    {
      if IsNullish(value) || !IsObjectType(value) {
        value := Str("");
        break;
      }
      assert keys[i..][1..] == keys[i + 1..];
      value := Get(value, keys[i]);
      i := i + 1;
    }
  }

  /** The walk goes piece by piece: walking `a + b` is walking `b` from where `a` ended.
      This holds also when `a` stopped early, because a stopped walk sits on `''`. */
  lemma {:induction false} WalkComposes(v: Value, a: seq<string>, b: seq<string>)
    ensures Walk(v, a + b) == Walk(Walk(v, a), b)
    decreases |a|
  {
    if a == [] {
      assert a + b == b;
    } else if IsNullish(v) || !IsObjectType(v) {
      assert (a + b) != [];
      StaysEmpty(b);
    } else {
      assert (a + b)[1..] == a[1..] + b;
      WalkComposes(Get(v, a[0]), a[1..], b);
    }
  }

  /** Once the walk sits on `''` it stays there. */
  lemma StaysEmpty(keys: seq<string>)
    ensures Walk(Str(""), keys) == Str("")
  {
  }

  /** A step that lands on something other than an object or array before the pieces are
      exhausted makes the whole key resolve to `''`. */
  lemma {:induction false} WalkStopsAtNonObject(v: Value, keys: seq<string>, i: nat)
    requires i < |keys|
    requires !(Walk(v, keys[..i]).Arr? || Walk(v, keys[..i]).Obj?)
    ensures Walk(v, keys) == Str("")
  {
    assert keys == keys[..i] + keys[i..];
    WalkComposes(v, keys[..i], keys[i..]);
    StaysEmpty(keys[i..][1..]);
  }

  /** A piece naming no property of the object reached so far gives `undefined`, and any
      further piece then gives `''`. */
  lemma {:induction false} WalkMissingKey(v: Value, keys: seq<string>, i: nat)
    requires i < |keys|
    requires Walk(v, keys[..i]).Obj? && !HasKey(Walk(v, keys[..i]).fields, keys[i])
    ensures Walk(v, keys[..i + 1]) == Undefined
    ensures i + 1 < |keys| ==> Walk(v, keys) == Str("")
  {
    assert keys[..i + 1] == keys[..i] + [keys[i]];
    WalkComposes(v, keys[..i], [keys[i]]);
    if i + 1 < |keys| {
      WalkStopsAtNonObject(v, keys, i + 1);
    }
  }

  /** A piece naming a property of the object reached so far gives the value of the first
      property with that name. */
  lemma {:induction false} WalkFindsKey(v: Value, keys: seq<string>, i: nat, j: nat)
    requires i < |keys| && Walk(v, keys[..i]).Obj?
    requires j < |Walk(v, keys[..i]).fields| && Walk(v, keys[..i]).fields[j].0 == keys[i]
    requires IsFirstKey(Walk(v, keys[..i]).fields, j)
    ensures Walk(v, keys[..i + 1]) == Walk(v, keys[..i]).fields[j].1
  {
    assert keys[..i + 1] == keys[..i] + [keys[i]];
    WalkComposes(v, keys[..i], [keys[i]]);
  }

  /** Arrays are objects too: a numeric piece selects an element, `undefined` past the end. */
  lemma {:induction false} WalkIndexesArrays(v: Value, prefix: seq<string>, n: nat)
    requires Walk(v, prefix).Arr?
    ensures Walk(v, prefix + [NatToString(n)]) == At(Walk(v, prefix).items, n)
  {
    WalkComposes(v, prefix, [NatToString(n)]);
    GetIndex(Walk(v, prefix).items, n);
  }

  // ----- Region variants (dist only) -----

  /** The region a variant object is read for: the stored `tfot_region`, else the current
      language upper-cased. */
  function VariantRegion(storedRegion: Option<string>, lang: string): (region: string)
    ensures storedRegion.Some? && storedRegion.value != "" ==> region == storedRegion.value
    ensures (storedRegion.None? || storedRegion.value == "") ==> region == Upper(lang)
  {
    StoredOr(storedRegion, Upper(lang))
  }

  /** An object terminal is narrowed to `value[region] || value.default ||
      Object.values(value)[0] || ''`; arrays and non-objects pass unchanged. */
  function Narrow(v: Value, region: string): (r: Value)
    ensures !v.Obj? ==> r == v
    ensures v.Obj? ==> r == Str("") || (Truthy(r) && exists i :: 0 <= i < |v.fields| && v.fields[i].1 == r)
    ensures v.Obj? && Truthy(Get(v, region)) ==> r == Get(v, region)
    ensures v.Obj? && !Truthy(Get(v, region)) && Truthy(Get(v, "default")) ==> r == Get(v, "default")
    ensures v.Obj? && v.fields == [] ==> r == Str("")
    ensures v.Obj? && !Truthy(Get(v, region)) && !Truthy(Get(v, "default")) ==>
              r == (if v.fields != [] && Truthy(v.fields[0].1) then v.fields[0].1 else Str(""))
  {
    if v.Obj? then
      Or(Or(Or(Get(v, region), Get(v, "default")), FirstValue(v.fields)), Str(""))
    else v
  }

  // ----- What an element gets -----

  /** What an element's content becomes. */
  datatype Effect =
    | SetText(text: string)   // `el.textContent = ...`
    | SetHtml(html: string)   // `el.innerHTML = ...`
    | Unchanged               // the element keeps its content

  /** The two revisions: the older one without region variants, the newer one reading
      variant objects for `region`. */
  datatype Revision = Legacy | Regional(region: string)

  /** `value.map(v => `<li>${v}</li>`).join('')`. */
  function ListItems(items: seq<Value>): string
  {
    if items == [] then "" else "<li>" + Stringify(items[0]) + "</li>" + ListItems(items[1..])
  }

  /** The list is built element by element, in order: the markup of a concatenation is the
      concatenation of the markups. */
  lemma {:induction false} ListItemsConcat(a: seq<Value>, b: seq<Value>)
    ensures ListItems(a + b) == ListItems(a) + ListItems(b)
    decreases |a|
  {
    if a == [] {
      assert a + b == b;
    } else {
      assert (a + b)[1..] == a[1..] + b;
      ListItemsConcat(a[1..], b);
    }
  }

  /** The terminal a key resolves to, after narrowing in the newer revision. */
  function Terminal(rev: Revision, bundle: Value, key: string): Value
  {
    var v := Walk(bundle, Split(key, '.'));
    match rev
    case Legacy => v
    case Regional(region) => Narrow(v, region)
  }

  /** The classification of the terminal: text, a list, or the revision's fallback (the
      older leaves the element alone, the newer writes `value || ''`). */
  function Render(rev: Revision, v: Value): (e: Effect)
    ensures e.Unchanged? <==> rev.Legacy? && !v.Str? && !v.Arr?
    ensures v.Str? ==> e == SetText(v.s)
    ensures v.Arr? ==> e == SetHtml(ListItems(v.items))
    ensures rev.Regional? && !Truthy(v) ==> e == SetText("")
    ensures rev.Regional? && Truthy(v) && !v.Str? && !v.Arr? ==> e == SetText(Stringify(v))
  {
    if v.Str? then SetText(v.s)
    else if v.Arr? then SetHtml(ListItems(v.items))
    else if rev.Legacy? then Unchanged
    else SetText(if Truthy(v) then Stringify(v) else "")
  }

  /** What one tagged element gets. Text and list terminals are treated alike by both
      revisions (the newer one narrows only objects); only the newer one rewrites every
      element. */
  function ElementEffect(rev: Revision, bundle: Value, key: string): (e: Effect)
    ensures var w := Walk(bundle, Split(key, '.'));
            (w.Str? || w.Arr?) ==> e == Render(Legacy, w)
    ensures rev.Legacy? ==> (e.Unchanged? <==> !(Walk(bundle, Split(key, '.')).Str? || Walk(bundle, Split(key, '.')).Arr?))
    ensures rev.Regional? ==> !e.Unchanged?
  {
    Render(rev, Terminal(rev, bundle, key))
  }

  /** A text terminal is written verbatim and a list terminal becomes one `<li>` per
      element, in order, in both revisions; they differ only on other terminals. */
  lemma {:induction false} TextAndListsInBothRevisions(rev: Revision, v: Value)
    ensures v.Str? ==> Render(rev, v) == SetText(v.s)
    ensures v.Arr? ==> Render(rev, v) == SetHtml(ListItems(v.items))
    ensures v.Arr? && v.items != [] ==>
              Render(rev, v).html == "<li>" + Stringify(v.items[0]) + "</li>" + ListItems(v.items[1..])
    ensures !v.Str? && !v.Arr? ==> (Render(rev, v) == Unchanged <==> rev.Legacy?)
  {
  }

  /** A key missing from the bundle: the older script leaves the element alone, the newer
      one empties it. Neither fails. */
  lemma {:induction false} MissingKeyEffect(rev: Revision, bundle: Value, key: string)
    requires Walk(bundle, Split(key, '.')) == Undefined
    ensures ElementEffect(rev, bundle, key) == (if rev.Legacy? then Unchanged else SetText(""))
  {
  }

  /** In the older script an element changes exactly when the key resolves to text or to
      a list. */
  lemma {:induction false} LegacyChangesOnlyTextAndLists(bundle: Value, key: string)
    ensures ElementEffect(Legacy, bundle, key).SetText? <==> Walk(bundle, Split(key, '.')).Str?
    ensures ElementEffect(Legacy, bundle, key).SetHtml? <==> Walk(bundle, Split(key, '.')).Arr?
    ensures ElementEffect(Legacy, bundle, key).Unchanged? <==>
              !(Walk(bundle, Split(key, '.')).Str? || Walk(bundle, Split(key, '.')).Arr?)
  {
  }

  /** In the newer script every element is rewritten; a region variant with text is shown
      as that text, and an object with neither that variant, nor `default`, nor any
      value empties the element. */
  lemma {:induction false} RegionalVariantEffect(region: string, bundle: Value, key: string)
    ensures !ElementEffect(Regional(region), bundle, key).Unchanged?
    ensures var v := Walk(bundle, Split(key, '.'));
            v.Obj? && Get(v, region).Str? && Get(v, region).s != "" ==>
              ElementEffect(Regional(region), bundle, key) == SetText(Get(v, region).s)
    ensures var v := Walk(bundle, Split(key, '.'));
            v.Obj? && v.fields == [] ==> ElementEffect(Regional(region), bundle, key) == SetText("")
  {
  }

  /** The revision an `updateContent` call renders with: the older one, or the newer one
      reading variants for the stored region, else for the upper-cased language. */
  function RevisionFor(legacy: bool, storedRegion: Option<string>, lang: string): Revision
  {
    if legacy then Legacy else Regional(VariantRegion(storedRegion, lang))
  }

  /** `updateContent`'s loop over the tagged elements, given their keys in document order;
      `storedRegion` is `tfot_region` and `lang` the current language, both read per element
      by the newer script. */
  method UpdateContent(legacy: bool, storedRegion: Option<string>, lang: string, bundle: Value,
                       keys: seq<string>) returns (effects: seq<Effect>)
    ensures |effects| == |keys|
    ensures forall i :: 0 <= i < |keys| ==>
              effects[i] == ElementEffect(RevisionFor(legacy, storedRegion, lang), bundle, keys[i])
  {
    var rev := RevisionFor(legacy, storedRegion, lang);
    effects := [];
    for i := 0 to |keys|
      invariant |effects| == i
      invariant forall j :: 0 <= j < i ==> effects[j] == ElementEffect(rev, bundle, keys[j])
    {
      var value := ResolveKey(bundle, keys[i]);
      if !legacy && value.Obj? {
        var region := VariantRegion(storedRegion, lang);
        value := Narrow(value, region);
      }
      effects := effects + [Render(rev, value)];
    }
  }
}
