/** `updateSocials`: every `.social-links` container is filled with one icon link per
    network of the bundle's `footer.socials` list for the language, or in the newer script
    (dist/assets/js/app.js) for the stored region when it belongs to the language. */
module Socials {
  import opened Text
  import opened Js
  import opened Locale

  /** The `iconMap` literal: a network's Font Awesome class. */
  const IconMap: map<string, string> := map[
    "VK" := "fab fa-vk", "Telegram" := "fab fa-telegram", "Instagram" := "fab fa-instagram",
    "Twitter" := "fab fa-x-twitter", "X" := "fab fa-x-twitter", "LinkedIn" := "fab fa-linkedin",
    "Facebook" := "fab fa-facebook", "Snapchat" := "fab fa-snapchat",
    "YouTube" := "fab fa-youtube",
    "WeChat" := "fab fa-weixin", "Weibo" := "fab fa-weibo", "Douyin" := "fab fa-tiktok",
    "Xing" := "fab fa-xing", "WhatsApp" := "fab fa-whatsapp", "Line" := "fab fa-line",
    "KakaoTalk" := "fas fa-comments", "Naver" := "fas fa-globe",
    "OK" := "fab fa-odnoklassniki"]

  /** The share icon every network missing from the map gets. */
  const DefaultIcon: string := "fas fa-share"

  /** `iconMap[network] || 'fas fa-share'`; the map is indexed by `String(network)`. */
  function IconClass(network: Value): (icon: string)
    ensures Stringify(network) in IconMap ==> icon == IconMap[Stringify(network)]
    ensures Stringify(network) !in IconMap ==> icon == DefaultIcon
    ensures icon != ""
  {
    var key := Stringify(network);
    if key in IconMap && IconMap[key] != "" then IconMap[key] else DefaultIcon
  }

  /** Twitter, now X, keeps its icon under both names. */
  lemma TwitterIsX()
    ensures IconClass(Str("Twitter")) == IconClass(Str("X")) == "fab fa-x-twitter"
  {
  }

  /** One link: its `aria-label` is the network as text, its icon the mapped class. */
  datatype Link = Link(network: string, icon: string)

  /** The markup of one link. */
  function Anchor(link: Link): string
  {
    "<a href=\"#\" aria-label=\"" + link.network + "\"><i class=\"" + link.icon + "\"></i></a>"
  }

  /** `networks.map(...)`, kept as the list of links; the containers get their anchors
      concatenated in this order. */
  function LinksOf(networks: seq<Value>): (links: seq<Link>)
    ensures |links| == |networks|
    ensures forall i :: 0 <= i < |networks| ==>
              links[i].network == Stringify(networks[i]) && links[i].icon == IconClass(networks[i])
  {
    seq(|networks|, i requires 0 <= i < |networks| =>
      Link(Stringify(networks[i]), IconClass(networks[i])))
  }

  /** The markup written into every container. */
  function Html(links: seq<Link>): string
  {
    if links == [] then "" else Anchor(links[0]) + Html(links[1..])
  }

  /** The markup lists the links in order: the markup of a concatenation is the
      concatenation of the markups. */
  lemma {:induction false} HtmlConcat(a: seq<Link>, b: seq<Link>)
    ensures Html(a + b) == Html(a) + Html(b)
    decreases |a|
  {
    if a == [] {
      assert a + b == b;
    } else {
      assert (a + b)[1..] == a[1..] + b;
      HtmlConcat(a[1..], b);
    }
  }

  /** What `updateSocials` does to the footer. */
  datatype SocialsEffect =
    | Kept                    // the containers keep their content
    | Rendered(links: seq<Link>)
    | Fails                   // a `TypeError`: nothing is written

  /** `translations.footer.socials` when both are present (truthy); `None` also for a
      `null` bundle, which the callers treat as an error first. */
  function SocialsTable(translations: Value): (table: Option<Value>)
    ensures table.Some? ==>
              !IsNullish(translations) && Truthy(Get(translations, "footer"))
              && table.value == Get(Get(translations, "footer"), "socials") && Truthy(table.value)
    ensures table.None? && !IsNullish(translations) ==>
              !Truthy(Get(translations, "footer")) || !Truthy(Get(Get(translations, "footer"), "socials"))
  {
    if IsNullish(translations) then None
    else
      var footer := Get(translations, "footer");
      if !Truthy(footer) then None
      else
        var socials := Get(footer, "socials");
        if Truthy(socials) then Some(socials) else None
  }

  /** The list the newer script reads: `socials[socialKey] || socials[currentLang] || []`. */
  function ChosenList(socials: Value, lang: string, storedRegion: Option<string>): (list: Value)
    requires Truthy(socials)
    ensures list == Arr([]) || Truthy(list)
    ensures Truthy(Get(socials, SocialKey(lang, storedRegion))) ==> list == Get(socials, SocialKey(lang, storedRegion))
    ensures !Truthy(Get(socials, SocialKey(lang, storedRegion))) && Truthy(Get(socials, lang)) ==>
              list == Get(socials, lang)
    ensures !Truthy(Get(socials, SocialKey(lang, storedRegion))) && !Truthy(Get(socials, lang)) ==>
              list == Arr([])
  {
    Or(Or(Get(socials, SocialKey(lang, storedRegion)), Get(socials, lang)), Arr([]))
  }

  /** The newer script: the chosen list is rendered when it is an array (any other value
      has no `map` and throws); `hasContainers` says whether the page has any
      `.social-links`, without which the bundle is not even read. */
  function RenderSocials(translations: Value, lang: string, storedRegion: Option<string>,
                         hasContainers: bool): (effect: SocialsEffect)
    ensures !hasContainers ==> effect == Kept
    ensures hasContainers && IsNullish(translations) ==> effect == Fails
    ensures hasContainers && !IsNullish(translations) && SocialsTable(translations).None? ==> effect == Kept
    ensures effect.Rendered? <==>
              hasContainers && SocialsTable(translations).Some?
              && ChosenList(SocialsTable(translations).value, lang, storedRegion).Arr?
    ensures effect.Rendered? ==>
              effect.links == LinksOf(ChosenList(SocialsTable(translations).value, lang, storedRegion).items)
  {
    if !hasContainers then Kept
    else if IsNullish(translations) then Fails
    else
      match SocialsTable(translations)
      case None => Kept
      case Some(socials) =>
        var networks := ChosenList(socials, lang, storedRegion);
        if networks.Arr? then Rendered(LinksOf(networks.items)) else Fails
  }

  /** The older script: only when `socials[currentLang]` is present, and then it must be
      an array. */
  function LegacyRenderSocials(translations: Value, lang: string, hasContainers: bool): (effect: SocialsEffect)
    ensures !hasContainers ==> effect == Kept
    ensures hasContainers && IsNullish(translations) ==> effect == Fails
    ensures effect.Rendered? <==>
              hasContainers && SocialsTable(translations).Some?
              && Get(SocialsTable(translations).value, lang).Arr?
    ensures effect.Rendered? ==>
              effect.links == LinksOf(Get(SocialsTable(translations).value, lang).items)
  {
    if !hasContainers then Kept
    else if IsNullish(translations) then Fails
    else
      match SocialsTable(translations)
      case None => Kept
      case Some(socials) =>
        var networks := Get(socials, lang);
        if !Truthy(networks) then Kept
        else if networks.Arr? then Rendered(LinksOf(networks.items))
        else Fails
  }

  /** A region list that belongs to the language wins over the language's own list. */
  lemma {:induction false} RegionListWins(translations: Value, socials: Value, lang: string, region: string)
    requires SocialsTable(translations) == Some(socials)
    requires lang in MultiRegion && StartsWith(region, lang + "-") && Get(socials, region).Arr?
    ensures RenderSocials(translations, lang, Some(region), true) == Rendered(LinksOf(Get(socials, region).items))
  {
    assert SocialKey(lang, Some(region)) == region;
  }

  /** Where the older script renders a language's list, the newer one renders the same
      links unless the stored region has a list of its own: the region lists are the only
      thing the newer revision adds. */
  lemma {:induction false} RevisionsAgreeWithoutRegionList(translations: Value, socials: Value,
                                                          lang: string, storedRegion: Option<string>)
    requires SocialsTable(translations) == Some(socials)
    requires LegacyRenderSocials(translations, lang, true).Rendered?
    requires !Truthy(Get(socials, SocialKey(lang, storedRegion))) || SocialKey(lang, storedRegion) == lang
    ensures RenderSocials(translations, lang, storedRegion, true) == LegacyRenderSocials(translations, lang, true)
  {
  }

  /** A language with neither a list of its own nor a region list: the newer script empties
      the footer links, the older one leaves them as they were. */
  lemma {:induction false} MissingListEmptiesFooter(translations: Value, socials: Value,
                                                    lang: string, storedRegion: Option<string>)
    requires SocialsTable(translations) == Some(socials)
    requires !Truthy(Get(socials, SocialKey(lang, storedRegion))) && !Truthy(Get(socials, lang))
    ensures RenderSocials(translations, lang, storedRegion, true) == Rendered([])
    ensures LegacyRenderSocials(translations, lang, true) == Kept
  {
  }
}
