/**
 * The listing side of `download_trend`: the request parameters of each
 * category page, the artifact name of a category, dropping bundles and
 * reading the app id out of an entry's logo URL.
 */
module TrendListing {
  import opened Base
  import opened Text
  import opened Dicts
  import opened SteamModel

  datatype ParamValue = IntParam(i: int) | StrParam(s: string)

  /** A query-parameter dict. */
  type Params = Dict<string, ParamValue>

  /** `default_params = {'hidef2p':1, 'json':1, 'page':1, 'filter':'topsellers'}`. */
  function DefaultParams(): (p: Params)
    ensures p.Valid()
  {
    Dict(["hidef2p", "json", "page", "filter"],
         map["hidef2p" := IntParam(1), "json" := IntParam(1), "page" := IntParam(1),
             "filter" := StrParam("topsellers")])
  }

  function FilterUpdate(f: string): (p: Params)
    ensures p.Valid()
  {
    Dict(["filter"], map["filter" := StrParam(f)])
  }

  /** `params_list`: the five category updates, in crawl order. */
  function ParamsList(): (l: seq<Params>)
    ensures |l| == 5
    ensures forall i :: 0 <= i < 5 ==> l[i].Valid() && "filter" in l[i].entries && l[i].entries["filter"].StrParam?
  {
    [FilterUpdate("topsellers"), FilterUpdate("globaltopsellers"), FilterUpdate("popularnew"),
     FilterUpdate("popularcommingsoon"),
     Dict(["filter", "specials"], map["filter" := StrParam(""), "specials" := IntParam(1)])]
  }

  /** `params = default_params.copy(); params.update(update); params['page'] = page`. */
  function PageParams(update: Params, page: int): (p: Params)
    requires update.Valid()
    ensures p.Valid()
  {
    DefaultParams().Update(update).Put("page", IntParam(page))
  }

  /**
   * The parameters of a page request: `page` is the page number, every key
   * of the category's update has the update's value, and every other key
   * has its default value.
   */
  lemma PageParamsSpec(update: Params, page: int)
    requires update.Valid()
    ensures PageParams(update, page).entries["page"] == IntParam(page)
    ensures forall k :: k in PageParams(update, page).entries <==> k in DefaultParams().entries || k in update.entries
    ensures forall k :: k != "page" && k in update.entries ==> PageParams(update, page).entries[k] == update.entries[k]
    ensures forall k :: k != "page" && k in DefaultParams().entries && k !in update.entries ==>
                         PageParams(update, page).entries[k] == DefaultParams().entries[k]
  {
    forall k {
      UpdateAt(DefaultParams(), update, k);
    }
  }

  /** `update['filter'] or 'specials'`. */
  function CategoryName(update: Params): string
    requires "filter" in update.entries && update.entries["filter"].StrParam?
  {
    var f := update.entries["filter"].s;
    if f == "" then "specials" else f
  }

  /** `f"{name}_{date_str}.pkl"`. */
  function ArtifactName(update: Params, date: string): string
    requires "filter" in update.entries && update.entries["filter"].StrParam?
  {
    CategoryName(update) + "_" + date + ".pkl"
  }

  /** A search response: its status and, when its body is JSON with an `items` list, that list. */
  datatype SearchResponse = SearchResponse(status: int, items: Option<seq<SearchItem>>)

  /** `get_search_results(params).get('items', [])`: a failed or unparsable request gives no entries. */
  function SearchItemsOf(r: SearchResponse): (items: seq<SearchItem>)
    ensures r.status != 200 ==> items == []
    ensures r.status == 200 && r.items.Some? ==> items == r.items.value
  {
    if r.status != 200 then [] else if r.items.Some? then r.items.value else []
  }

  predicate IsBundle(item: SearchItem) {
    Contains(item.logo, "bundles")
  }

  /** `non_bundle_items`: the entries whose logo does not mention `bundles`, in order. */
  function NonBundle(items: seq<SearchItem>): (r: seq<SearchItem>)
  {
    if items == [] then []
    else NonBundle(items[..|items| - 1]) + (if IsBundle(items[|items| - 1]) then [] else [items[|items| - 1]])
  }

  lemma {:induction false} NonBundleSpec(items: seq<SearchItem>)
    ensures forall x :: x in NonBundle(items) <==> x in items && !IsBundle(x)
    ensures IsSubsequence(NonBundle(items), items)
    ensures |NonBundle(items)| <= |items|
  {
    if items == [] {
      SubsequenceEmpty(items);
    } else {
      var p := items[..|items| - 1];
      var x := items[|items| - 1];
      NonBundleSpec(p);
      assert items == p + [x];
      SubsequenceSnoc(NonBundle(p), p, x, !IsBundle(x));
    }
  }

  // ---- `re.search(r"steam/\w+/(\d+)", logo)` ----

  /** `\w` over ASCII: letters, digits and underscore. */
  predicate IsWordChar(c: char) {
    ('a' <= c <= 'z') || ('A' <= c <= 'Z') || IsDigit(c) || c == '_'
  }

  /** The end of the longest run of characters satisfying the class, starting at `j`. */
  function WordRunEnd(s: string, j: nat): (k: nat)
    requires j <= |s|
    ensures j <= k <= |s|
    ensures forall t :: j <= t < k ==> IsWordChar(s[t])
    ensures k < |s| ==> !IsWordChar(s[k])
    decreases |s| - j
  {
    if j < |s| && IsWordChar(s[j]) then WordRunEnd(s, j + 1) else j
  }

  /**
   * The pattern matches at `i`: `steam/`, then a run of word characters
   * (which cannot contain `/`, so the greedy `\w+` takes the whole run),
   * then `/` and at least one digit.
   */
  predicate LogoMatchAt(s: string, i: nat) {
    && i + 6 <= |s| && s[i..i + 6] == "steam/"
    && var k := WordRunEnd(s, i + 6);
       k > i + 6 && k + 1 < |s| && s[k] == '/' && IsDigit(s[k + 1])
  }

  /** The digits `(\d+)` captures for a match at `i`. */
  function CapturedDigits(s: string, i: nat): (d: string)
    requires LogoMatchAt(s, i)
    ensures |d| > 0 && forall t :: 0 <= t < |d| ==> IsDigit(d[t])
  {
    var k := WordRunEnd(s, i + 6);
    s[k + 1..DigitRunEnd(s, k + 1)]
  }

  /** The leftmost match at or after `from`, as `re.search` finds it. */
  function FirstLogoMatch(s: string, from: nat): (r: Option<nat>)
    ensures r.None? ==> forall i :: from <= i <= |s| ==> !LogoMatchAt(s, i)
    ensures r.Some? ==> from <= r.value && LogoMatchAt(s, r.value)
    ensures r.Some? ==> forall i :: from <= i < r.value ==> !LogoMatchAt(s, i)
    decreases |s| - from
  {
    if from + 6 > |s| then None
    else if LogoMatchAt(s, from) then Some(from)
    else FirstLogoMatch(s, from + 1)
  }

  /** `int(m.group(1)) if m else None`. */
  function AppIdFromLogo(logo: string): Option<int>
  {
    match FirstLogoMatch(logo, 0)
    case None => None
    case Some(i) => Some(DigitsValue(CapturedDigits(logo, i)))
  }

  /**
   * No id exactly when the pattern matches nowhere; otherwise the id is the
   * value of the digits captured by the leftmost match.
   */
  lemma AppIdFromLogoSpec(logo: string)
    ensures AppIdFromLogo(logo).None? <==> forall i :: 0 <= i <= |logo| ==> !LogoMatchAt(logo, i)
    ensures AppIdFromLogo(logo).Some? ==>
              exists i: nat :: && LogoMatchAt(logo, i)
                               && (forall j :: 0 <= j < i ==> !LogoMatchAt(logo, j))
                               && AppIdFromLogo(logo).value == DigitsValue(CapturedDigits(logo, i))
  {
  }

  /** Every entry with `item['appid']` set from its logo. */
  function Tagged(items: seq<SearchItem>): (r: seq<SearchItem>)
  {
    if items == [] then [] else Tagged(items[..|items| - 1]) + [items[|items| - 1].(appid := AppIdFromLogo(items[|items| - 1].logo))]
  }

  /** Tagging keeps the entries and their order and only sets each one's `appid`. */
  lemma {:induction false} TaggedSpec(items: seq<SearchItem>)
    ensures |Tagged(items)| == |items|
    ensures forall t :: 0 <= t < |items| ==> Tagged(items)[t] == items[t].(appid := AppIdFromLogo(items[t].logo))
  {
    if items != [] {
      TaggedSpec(items[..|items| - 1]);
    }
  }

  /** The tagging loop: each entry's `appid` is overwritten in place, one entry at a time. */
  method TagAppIds(items: seq<SearchItem>) returns (tagged: seq<SearchItem>)
    ensures tagged == Tagged(items)
  {
    tagged := items;
    var t := 0;
    while t < |tagged|
      invariant 0 <= t <= |tagged| == |items|
      invariant forall u :: 0 <= u < t ==> tagged[u] == items[u].(appid := AppIdFromLogo(items[u].logo))
      invariant forall u :: t <= u < |items| ==> tagged[u] == items[u]
    {
      tagged := tagged[t := tagged[t].(appid := AppIdFromLogo(tagged[t].logo))];
      t := t + 1;
    }
    TaggedSpec(items);
  }

  /** The entries one page contributes to the category's artifact. */
  function PageItems(r: SearchResponse): seq<SearchItem> {
    Tagged(NonBundle(SearchItemsOf(r)))
  }
}
