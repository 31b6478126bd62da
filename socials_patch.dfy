/** update_socials.py: in a parsed language file, every network list of a language from a
    fixed set that has exactly three entries and no `Twitter` gets `Twitter` as its third
    entry; the file is written back only when some list changed. A Python dict is an
    object of the JSON model (key lookup finds the first entry with that key, as for the
    keys `json.load` produces, which are distinct), a Python list an array. */
module SocialsPatch {
  import opened Js

  /** `langs_without_twitter`. */
  const LangsWithoutTwitter: seq<string> :=
    ["ru", "zh", "fr", "de", "hi", "ko", "he", "sw", "pt", "es", "it"]

  const Twitter: Value := Str("Twitter")

  /** The test of the loop: a list of exactly three networks without `Twitter`. */
  predicate Eligible(networks: Value)
  {
    networks.Arr? && |networks.items| == 3 && Twitter !in networks.items
  }

  /** `socials[lang][2] = 'Twitter'` when the list is eligible. */
  function Patched(networks: Value): (r: Value)
    ensures !Eligible(networks) ==> r == networks
    ensures Eligible(networks) ==>
              r.Arr? && |r.items| == 3 && r.items[0] == networks.items[0]
              && r.items[1] == networks.items[1] && r.items[2] == Twitter
    ensures Eligible(networks) ==> r != networks
    ensures !Eligible(r)
  {
    if Eligible(networks) then Arr(networks.items[2 := Twitter]) else networks
  }

  /** The `socials` object after the languages in `done` were processed. */
  function PatchedFor(socials: seq<(string, Value)>, done: seq<string>): (r: seq<(string, Value)>)
    ensures |r| == |socials|
  {
    seq(|socials|, k requires 0 <= k < |socials| =>
      if socials[k].0 in done && IsFirstKey(socials, k) then (socials[k].0, Patched(socials[k].1))
      else socials[k])
  }

  /** The `socials` object after the whole loop. */
  function Rewritten(socials: seq<(string, Value)>): (r: seq<(string, Value)>)
    ensures |r| == |socials|
    ensures forall k :: 0 <= k < |r| ==> r[k].0 == socials[k].0
    ensures forall k :: 0 <= k < |r| && socials[k].0 in LangsWithoutTwitter && IsFirstKey(socials, k) ==>
              !Eligible(r[k].1)
  {
    PatchedFor(socials, LangsWithoutTwitter)
  }

  /** What the rewrite may touch: keys and order stay; only the list of a listed
      language, and only an eligible one, changes; and it changes in its third entry
      only, which becomes `Twitter`. */
  lemma {:induction false} RewriteTouchesOnlyEligibleLists(socials: seq<(string, Value)>, k: nat)
    requires k < |socials|
    ensures |Rewritten(socials)| == |socials| && Rewritten(socials)[k].0 == socials[k].0
    ensures socials[k].0 !in LangsWithoutTwitter ==> Rewritten(socials)[k] == socials[k]
    ensures !Eligible(socials[k].1) ==> Rewritten(socials)[k] == socials[k]
    ensures Rewritten(socials)[k] != socials[k] ==>
              socials[k].0 in LangsWithoutTwitter && Eligible(socials[k].1)
              && Rewritten(socials)[k].1.items == socials[k].1.items[2 := Twitter]
  {
    var r := Rewritten(socials)[k];
    if socials[k].0 in LangsWithoutTwitter && IsFirstKey(socials, k) && Eligible(socials[k].1) {
      assert r.1 == Arr(socials[k].1.items[2 := Twitter]);
    }
  }

  /** Every eligible list of a listed language ends up with `Twitter` in third place. */
  lemma {:induction false} EligibleListsGetTwitter(socials: seq<(string, Value)>, k: nat)
    requires k < |socials| && socials[k].0 in LangsWithoutTwitter && IsFirstKey(socials, k)
    requires Eligible(socials[k].1)
    ensures Rewritten(socials)[k].1.Arr? && Rewritten(socials)[k].1.items[2] == Twitter
    ensures Twitter in Rewritten(socials)[k].1.items
  {
    assert Rewritten(socials)[k].1.items[2] == Twitter;
  }

  /** Running the script a second time changes nothing. */
  lemma {:induction false} RewriteIdempotent(socials: seq<(string, Value)>)
    ensures Rewritten(Rewritten(socials)) == Rewritten(socials)
  {
    var once := Rewritten(socials);
    forall k | 0 <= k < |once|
      ensures Rewritten(once)[k] == once[k]
    {
      assert once[k].0 == socials[k].0;
      if once[k].0 in LangsWithoutTwitter && IsFirstKey(once, k) {
        assert IsFirstKey(socials, k) by {
          forall m | 0 <= m < k
            ensures socials[m].0 != socials[k].0
          {
            assert once[m].0 == socials[m].0;
          }
        }
      }
    }
  }

  /** The nested loop over `langs_without_twitter` and the dict lookup of each, patching
      the lists in place; `updated` records whether any list was patched. */
  method RewriteSocials(socials: seq<(string, Value)>) returns (out: seq<(string, Value)>, updated: bool)
    ensures out == Rewritten(socials)
    ensures updated <==> out != socials
  {
    out := socials;
    updated := false;
    for i := 0 to |LangsWithoutTwitter|
      invariant out == PatchedFor(socials, LangsWithoutTwitter[..i])
      invariant updated <==> exists k :: 0 <= k < |out| && out[k] != socials[k]
    {
      var lang := LangsWithoutTwitter[i];
      var j := 0;
      while j < |out| && out[j].0 != lang
        invariant 0 <= j <= |out|
        invariant forall m :: 0 <= m < j ==> out[m].0 != lang
      {
        j := j + 1;
      }
      ghost var before := out;
      assert forall k :: 0 <= k < |out| ==> out[k].0 == socials[k].0;
      if j < |out| && Eligible(out[j].1) {
        out := out[j := (lang, Patched(out[j].1))];
        updated := true;
        assert out[j] != socials[j] by {
          assert out[j].1 == Patched(before[j].1);
          assert Patched(before[j].1) != before[j].1;
        }
      }
      assert out == PatchedFor(socials, LangsWithoutTwitter[..i + 1]) by {
        assert LangsWithoutTwitter[..i + 1] == LangsWithoutTwitter[..i] + [lang];
        forall k | 0 <= k < |out|
          ensures out[k] == PatchedFor(socials, LangsWithoutTwitter[..i + 1])[k]
        {
          if k == j && j < |before| {
            assert IsFirstKey(socials, k) by {
              forall m | 0 <= m < k
                ensures socials[m].0 != socials[k].0
              {
                assert before[m].0 == socials[m].0;
              }
            }
          }
        }
      }
    }
    assert LangsWithoutTwitter[..|LangsWithoutTwitter|] == LangsWithoutTwitter;
    if out != socials {
      var k :| 0 <= k < |out| && out[k] != socials[k];
    }
  }

  /** `d[k] = v` for a key the dict has: the first entry with that key gets the value. */
  function SetField(fields: seq<(string, Value)>, k: string, v: Value): (r: seq<(string, Value)>)
    ensures |r| == |fields|
    ensures forall i :: 0 <= i < |r| ==> r[i].0 == fields[i].0
    ensures forall i :: 0 <= i < |r| ==>
              r[i] == (if fields[i].0 == k && IsFirstKey(fields, i) then (k, v) else fields[i])
    ensures HasKey(fields, k) ==> Lookup(r, k) == v
  {
    if fields == [] then []
    else if fields[0].0 == k then
      var r := [(k, v)] + fields[1..];
      assert forall i :: 1 <= i < |fields| && fields[i].0 == k ==> !IsFirstKey(fields, i);
      r
    else
      var tail := fields[1..];
      var r := [fields[0]] + SetField(tail, k, v);
      assert forall i :: 1 <= i < |fields| ==> (IsFirstKey(fields, i) <==> fields[0].0 != fields[i].0 && IsFirstKey(tail, i - 1));
      r
  }

  /** The whole file: rewritten when `footer.socials` is there and some list changed,
      otherwise left exactly as it was. */
  function PatchedData(data: Value): (r: Value)
    ensures !data.Obj? ==> r == data
    ensures data.Obj? ==>
              r.Obj? && |r.fields| == |data.fields|
              && forall i :: 0 <= i < |data.fields| ==>
                   r.fields[i].0 == data.fields[i].0
                   && (data.fields[i].0 != "footer" ==> r.fields[i] == data.fields[i])
    ensures (data.Obj? && Lookup(data.fields, "footer").Obj?
             && Lookup(Lookup(data.fields, "footer").fields, "socials").Obj?) ==>
              r.Obj? && Lookup(r.fields, "footer").Obj?
              && Lookup(Lookup(r.fields, "footer").fields, "socials")
                 == Obj(Rewritten(Lookup(Lookup(data.fields, "footer").fields, "socials").fields))
  {
    if data.Obj? && HasKey(data.fields, "footer") then
      var footer := Lookup(data.fields, "footer");
      if footer.Obj? && HasKey(footer.fields, "socials") then
        var socials := Lookup(footer.fields, "socials");
        if socials.Obj? && Rewritten(socials.fields) != socials.fields then
          NestedSet(data.fields, footer.fields, Obj(Rewritten(socials.fields)));
          Obj(SetField(data.fields, "footer",
                       Obj(SetField(footer.fields, "socials", Obj(Rewritten(socials.fields))))))
        else data
      else
        assert footer.Obj? ==> Lookup(footer.fields, "socials") == Undefined;
        data
    else
      assert data.Obj? ==> Lookup(data.fields, "footer") == Undefined;
      data
  }

  /** Setting `footer.socials` of a file that has both makes that the value read back. */
  lemma NestedSet(fields: seq<(string, Value)>, footer: seq<(string, Value)>, socials: Value)
    requires HasKey(fields, "footer") && HasKey(footer, "socials")
    ensures var r := SetField(fields, "footer", Obj(SetField(footer, "socials", socials)));
            Lookup(r, "footer").Obj? && Lookup(Lookup(r, "footer").fields, "socials") == socials
  {
  }

  lemma KeysKept(fields: seq<(string, Value)>, k: string, v: Value, key: string)
    ensures HasKey(SetField(fields, k, v), key) <==> HasKey(fields, key)
  {
    var r := SetField(fields, k, v);
    if HasKey(fields, key) {
      var i :| 0 <= i < |fields| && fields[i].0 == key;
      assert r[i].0 == key;
    }
    if HasKey(r, key) {
      var i :| 0 <= i < |r| && r[i].0 == key;
      assert fields[i].0 == key;
    }
  }

  /** After one run a second run finds nothing to change and writes nothing. */
  lemma {:induction false} SecondRunWritesNothing(data: Value)
    ensures PatchedData(PatchedData(data)) == PatchedData(data)
  {
    if data.Obj? && HasKey(data.fields, "footer") {
      var footer := Lookup(data.fields, "footer");
      if footer.Obj? && HasKey(footer.fields, "socials") {
        var socials := Lookup(footer.fields, "socials");
        if socials.Obj? && Rewritten(socials.fields) != socials.fields {
          var newFooter := Obj(SetField(footer.fields, "socials", Obj(Rewritten(socials.fields))));
          var once := PatchedData(data);
          KeysKept(data.fields, "footer", newFooter, "footer");
          KeysKept(footer.fields, "socials", Obj(Rewritten(socials.fields)), "socials");
          assert Lookup(once.fields, "footer") == newFooter;
          assert Lookup(newFooter.fields, "socials") == Obj(Rewritten(socials.fields));
          RewriteIdempotent(socials.fields);
        }
      }
    }
  }

  /** The script's work on one parsed file: the data to write and whether to write it. */
  method UpdateFile(data: Value) returns (newData: Value, write: bool)
    ensures newData == PatchedData(data)
    ensures write <==> newData != data
    ensures (!(data.Obj? && HasKey(data.fields, "footer")
               && Lookup(data.fields, "footer").Obj?
               && HasKey(Lookup(data.fields, "footer").fields, "socials")))
              ==> newData == data && !write
  {
    newData, write := data, false;
    if !data.Obj? || !HasKey(data.fields, "footer") {
      return;
    }
    var footer := Lookup(data.fields, "footer");
    if !footer.Obj? || !HasKey(footer.fields, "socials") {
      return;
    }
    var socials := Lookup(footer.fields, "socials");
    if !socials.Obj? {
      return;
    }
    var out, updated := RewriteSocials(socials.fields);
    if updated {
      newData := Obj(SetField(data.fields, "footer", Obj(SetField(footer.fields, "socials", Obj(out)))));
      write := true;
      KeysKept(data.fields, "footer", Obj(SetField(footer.fields, "socials", Obj(out))), "footer");
      KeysKept(footer.fields, "socials", Obj(out), "socials");
      assert Lookup(newData.fields, "footer") != footer by {
        assert Lookup(Lookup(newData.fields, "footer").fields, "socials") == Obj(out);
      }
    }
  }
}
