/**
 * The aggregations of the Flask views: the listing shown by `index`
 * (latest search folder, then each app once across all categories), the
 * genre and tag counts with their top-10 / next-20 split, and the price bins.
 */
module WebApp {
  import opened Base
  import opened Text
  import opened Order
  import opened Dicts
  import opened SteamModel
  import opened Retriever

  // ---- `index`: the latest search-results folder ----

  /** A name `search_base.glob('search_results_*')` matches. */
  predicate IsSearchFolder(name: string) {
    StartsWith(name, "search_results_")
  }

  function SearchFolders(names: seq<string>): (r: seq<string>)
    ensures forall n :: n in r <==> n in names && IsSearchFolder(n)
  {
    if names == [] then []
    else
      var rest := SearchFolders(names[..|names| - 1]);
      var last := names[|names| - 1];
      assert forall n :: n in names <==> n in names[..|names| - 1] || n == last;
      if IsSearchFolder(last) then rest + [last] else rest
  }

  /**
   * `sorted(search_base.glob('search_results_*'))[-1]`, or none when the
   * base folder is missing (`None`) or holds no such entry. The entries
   * share their parent, so the paths compare as their names do.
   */
  function LatestSearchFolder(base: Option<seq<string>>): (r: Option<string>)
    ensures r.None? <==> base.None? || forall n :: n in base.value ==> !IsSearchFolder(n)
    ensures r.Some? ==> base.Some? && r.value in base.value && IsSearchFolder(r.value)
    ensures r.Some? ==> forall n :: n in base.value && IsSearchFolder(n) ==> !StrLt(r.value, n)
  {
    if base.None? then None
    else
      var dirs := SearchFolders(base.value);
      if dirs == [] then None
      else
        StrLtIsStrictTotal();
        Some(Greatest(dirs, StrLt))
  }

  // ---- `index`: each app once across the categories ----

  /** The truthy app ids among the entries. */
  function IdsOf(items: seq<SearchItem>): set<int> {
    if items == [] then {}
    else
      var x := items[|items| - 1];
      IdsOf(items[..|items| - 1]) + (if TruthyId(x.appid) then {x.appid.value} else {})
  }

  /** An id is collected exactly when some entry carries it and it is truthy. */
  lemma {:induction false} IdsOfSpec(items: seq<SearchItem>, id: int)
    ensures id in IdsOf(items) <==> exists i :: 0 <= i < |items| && items[i].appid == Some(id) && id != 0
  {
    if items != [] {
      var p := items[..|items| - 1];
      IdsOfSpec(p, id);
      assert forall i :: 0 <= i < |p| ==> items[i] == p[i];
    }
  }

  lemma IdsOfSnoc(items: seq<SearchItem>, x: SearchItem)
    ensures IdsOf(items + [x]) == IdsOf(items) + (if TruthyId(x.appid) then {x.appid.value} else {})
  {
    assert (items + [x])[..|items|] == items;
  }

  lemma IdsOfMember(items: seq<SearchItem>, x: SearchItem)
    requires x in items && TruthyId(x.appid)
    ensures x.appid.value in IdsOf(items)
  {
    var i :| 0 <= i < |items| && items[i] == x;
    IdsOfSpec(items, x.appid.value);
  }

  /**
   * The entries the inner loop keeps when `seen` already holds the ids of
   * the earlier categories: those with a truthy id not seen before, in order.
   */
  function Kept(items: seq<SearchItem>, seen: set<int>): seq<SearchItem> {
    if items == [] then []
    else
      var p := items[..|items| - 1];
      var x := items[|items| - 1];
      Kept(p, seen) + (if TruthyId(x.appid) && x.appid.value !in seen + IdsOf(p) then [x] else [])
  }

  /** A category's kept entries are an order-preserving subsequence of its entries. */
  lemma {:induction false} KeptIsSubsequence(items: seq<SearchItem>, seen: set<int>)
    ensures IsSubsequence(Kept(items, seen), items)
  {
    if items == [] {
      SubsequenceEmpty(items);
    } else {
      var p := items[..|items| - 1];
      var x := items[|items| - 1];
      KeptIsSubsequence(p, seen);
      assert items == p + [x];
      var keep := TruthyId(x.appid) && x.appid.value !in seen + IdsOf(p);
      assert Kept(items, seen) == if keep then Kept(p, seen) + [x] else Kept(p, seen);
      SubsequenceSnoc(Kept(p, seen), p, x, keep);
    }
  }

  /** Every kept entry has a truthy id that was not seen before. */
  lemma {:induction false} KeptAreNew(items: seq<SearchItem>, seen: set<int>)
    ensures forall x :: x in Kept(items, seen) ==> TruthyId(x.appid) && x.appid.value !in seen
  {
    if items != [] {
      KeptAreNew(items[..|items| - 1], seen);
    }
  }

  /** The kept entries carry exactly the category's new ids. */
  lemma {:induction false} KeptIds(items: seq<SearchItem>, seen: set<int>)
    ensures IdsOf(Kept(items, seen)) == IdsOf(items) - seen
  {
    if items != [] {
      var p := items[..|items| - 1];
      var x := items[|items| - 1];
      KeptIds(p, seen);
      if TruthyId(x.appid) && x.appid.value !in seen + IdsOf(p) {
        assert Kept(items, seen) == Kept(p, seen) + [x];
        IdsOfSnoc(Kept(p, seen), x);
      } else {
        assert Kept(items, seen) == Kept(p, seen);
      }
    }
  }

  /** No two kept entries of a category share an id. */
  lemma {:induction false} KeptDistinct(items: seq<SearchItem>, seen: set<int>)
    ensures forall i, j :: 0 <= i < j < |Kept(items, seen)| ==> Kept(items, seen)[i].appid != Kept(items, seen)[j].appid
  {
    if items != [] {
      var p := items[..|items| - 1];
      var x := items[|items| - 1];
      KeptDistinct(p, seen);
      var kp := Kept(p, seen);
      var k := Kept(items, seen);
      if TruthyId(x.appid) && x.appid.value !in seen + IdsOf(p) {
        assert k == kp + [x];
        KeptIds(p, seen);
        KeptAreNew(p, seen);
        forall i | 0 <= i < |kp| ensures kp[i].appid != x.appid {
          IdsOfMember(kp, kp[i]);
        }
      }
    }
  }

  /** Where the first entry with this id sits, or `|items|` when none has it. */
  function FirstWithId(items: seq<SearchItem>, id: Option<int>): (i: nat)
    ensures i <= |items|
    ensures i < |items| ==> items[i].appid == id
    ensures forall j :: 0 <= j < i ==> items[j].appid != id
  {
    if items == [] then 0
    else
      var p := items[..|items| - 1];
      var i := FirstWithId(p, id);
      assert forall j :: 0 <= j < |p| ==> items[j] == p[j];
      if i < |p| then i else if items[|items| - 1].appid == id then |p| else |items|
  }

  /** Each kept entry is the first entry of its category with that id. */
  lemma {:induction false} KeptIsFirst(items: seq<SearchItem>, seen: set<int>)
    ensures forall t :: 0 <= t < |Kept(items, seen)| ==>
              var i := FirstWithId(items, Kept(items, seen)[t].appid);
              i < |items| && items[i] == Kept(items, seen)[t]
  {
    if items != [] {
      var p := items[..|items| - 1];
      var x := items[|items| - 1];
      KeptIsFirst(p, seen);
      var kp := Kept(p, seen);
      var keep := TruthyId(x.appid) && x.appid.value !in seen + IdsOf(p);
      assert Kept(items, seen) == kp + (if keep then [x] else []);
      forall t | 0 <= t < |Kept(items, seen)|
        ensures var i := FirstWithId(items, Kept(items, seen)[t].appid);
                i < |items| && items[i] == Kept(items, seen)[t]
      {
        if t < |kp| {
          assert Kept(items, seen)[t] == kp[t];
          var i := FirstWithId(p, kp[t].appid);
          assert items[i] == p[i];
        } else {
          assert Kept(items, seen)[t] == x;
          var i := FirstWithId(p, x.appid);
          if i < |p| {
            IdsOfMember(p, p[i]);
          }
        }
      }
    }
  }

  /** The ids shown by the categories before the `k`-th. */
  function SeenBefore(raw: Dict<string, seq<SearchItem>>, k: nat): set<int>
    requires raw.Valid() && k <= |raw.keys|
  {
    if k == 0 then {} else SeenBefore(raw, k - 1) + IdsOf(raw.entries[raw.keys[k - 1]])
  }

  /** What `index` shows for the `k`-th category. */
  function DedupedAt(raw: Dict<string, seq<SearchItem>>, k: nat): seq<SearchItem>
    requires raw.Valid() && k < |raw.keys|
  {
    Kept(raw.entries[raw.keys[k]], SeenBefore(raw, k))
  }

  lemma {:induction false} SeenBeforeGrows(raw: Dict<string, seq<SearchItem>>, c: nat, d: nat)
    requires raw.Valid() && c < d <= |raw.keys|
    ensures IdsOf(raw.entries[raw.keys[c]]) <= SeenBefore(raw, d)
    decreases d
  {
    if c < d - 1 {
      SeenBeforeGrows(raw, c, d - 1);
    }
  }

  /** Two different categories never show the same app id: the first category that has it wins. */
  lemma CategoriesDisjoint(raw: Dict<string, seq<SearchItem>>, c: nat, d: nat)
    requires raw.Valid() && c < d < |raw.keys|
    ensures IdsOf(DedupedAt(raw, c)) !! IdsOf(DedupedAt(raw, d))
  {
    KeptIds(raw.entries[raw.keys[c]], SeenBefore(raw, c));
    KeptIds(raw.entries[raw.keys[d]], SeenBefore(raw, d));
    SeenBeforeGrows(raw, c, d);
  }

  /** The ids shown by the first `k` categories. */
  function ShownIds(raw: Dict<string, seq<SearchItem>>, k: nat): set<int>
    requires raw.Valid() && k <= |raw.keys|
  {
    if k == 0 then {} else ShownIds(raw, k - 1) + IdsOf(DedupedAt(raw, k - 1))
  }

  /** No app is lost: every truthy id of the first `k` categories is shown by one of them. */
  lemma {:induction false} EveryIdShown(raw: Dict<string, seq<SearchItem>>, k: nat)
    requires raw.Valid() && k <= |raw.keys|
    ensures ShownIds(raw, k) == SeenBefore(raw, k)
  {
    if k > 0 {
      EveryIdShown(raw, k - 1);
      KeptIds(raw.entries[raw.keys[k - 1]], SeenBefore(raw, k - 1));
    }
  }

  /** The inner loop of `index` over one category's games. */
  method DedupGames(games: seq<SearchItem>, seen0: set<int>) returns (unique: seq<SearchItem>, seen: set<int>)
    ensures unique == Kept(games, seen0)
    ensures seen == seen0 + IdsOf(games)
  {
    unique := [];
    seen := seen0;
    var j := 0;
    while j < |games|
      invariant 0 <= j <= |games|
      invariant unique == Kept(games[..j], seen0)
      invariant seen == seen0 + IdsOf(games[..j])
    {
      var game := games[j];
      var appId := game.appid;
      if TruthyId(appId) && appId.value !in seen {
        seen := seen + {appId.value};
        unique := unique + [game];
      }
      assert games[..j + 1][..j] == games[..j];
      j := j + 1;
    }
    assert games[..j] == games;
  }

  /** What `index` shows for the first `k` categories, in order. */
  function DedupedLists(raw: Dict<string, seq<SearchItem>>, k: nat): (r: seq<seq<SearchItem>>)
    requires raw.Valid() && k <= |raw.keys|
    ensures |r| == k
  {
    if k == 0 then [] else DedupedLists(raw, k - 1) + [DedupedAt(raw, k - 1)]
  }

  lemma {:induction false} DedupedListsAt(raw: Dict<string, seq<SearchItem>>, k: nat, d: nat)
    requires raw.Valid() && d < k <= |raw.keys|
    ensures DedupedLists(raw, k)[d] == DedupedAt(raw, d)
  {
    if d < k - 1 {
      DedupedListsAt(raw, k - 1, d);
    }
  }

  /** The loop state of `index` after the first `k` categories. */
  ghost predicate DedupedSoFar(raw: Dict<string, seq<SearchItem>>, k: nat,
                               categories: Dict<string, seq<SearchItem>>, seen: set<int>)
    requires raw.Valid()
  {
    && k <= |raw.keys|
    && categories == FromPairs(raw.keys[..k], DedupedLists(raw, k))
    && seen == SeenBefore(raw, k)
  }

  lemma DedupedStep(raw: Dict<string, seq<SearchItem>>, k: nat, categories: Dict<string, seq<SearchItem>>,
                    seen: set<int>, unique: seq<SearchItem>)
    requires raw.Valid() && k < |raw.keys| && DedupedSoFar(raw, k, categories, seen)
    requires unique == Kept(raw.entries[raw.keys[k]], seen)
    ensures categories.Valid()
    ensures DedupedSoFar(raw, k + 1, categories.Put(raw.keys[k], unique), seen + IdsOf(raw.entries[raw.keys[k]]))
  {
    assert raw.keys[..k + 1] == raw.keys[..k] + [raw.keys[k]];
    FromPairsSnoc(raw.keys[..k], DedupedLists(raw, k), raw.keys[k], unique);
  }

  /** The dedup loop of `index`: every category in order, sharing one `seen_ids` set. */
  method DedupCategories(raw: Dict<string, seq<SearchItem>>) returns (categories: Dict<string, seq<SearchItem>>)
    requires raw.Valid()
    ensures categories == FromPairs(raw.keys, DedupedLists(raw, |raw.keys|))
  {
    categories := Empty();
    var seen: set<int> := {};
    var k := 0;
    while k < |raw.keys|
      invariant DedupedSoFar(raw, k, categories, seen)
      decreases |raw.keys| - k
    {
      var category := raw.keys[k];
      var unique, seen' := DedupGames(raw.entries[category], seen);
      DedupedStep(raw, k, categories, seen, unique);
      categories, seen := categories.Put(category, unique), seen';
      k := k + 1;
    }
    assert raw.keys[..k] == raw.keys;
  }

  /** The listing keeps the categories in their order, each with its own deduplicated entries. */
  lemma DedupedListing(raw: Dict<string, seq<SearchItem>>)
    requires raw.Valid()
    ensures FromPairs(raw.keys, DedupedLists(raw, |raw.keys|)).keys == raw.keys
    ensures forall k :: 0 <= k < |raw.keys| ==> FromPairs(raw.keys, DedupedLists(raw, |raw.keys|)).entries[raw.keys[k]] == DedupedAt(raw, k)
  {
    FromPairsSpec(raw.keys, DedupedLists(raw, |raw.keys|));
    forall k | 0 <= k < |raw.keys| {
      DedupedListsAt(raw, |raw.keys|, k);
    }
  }

  /**
   * `index`: the categories of the latest search folder, each app shown
   * once; none when there is no search folder. The retriever it creates
   * also loads the checkpoints, which the listing does not use.
   */
  method Index(base: Option<seq<string>>, folders: map<string, map<string, seq<SearchItem>>>,
               checkpoints: Option<Dict<FilePath, Blob>>) returns (categories: Dict<string, seq<SearchItem>>)
    requires CheckpointsTyped(checkpoints)
    ensures LatestSearchFolder(base).None? ==> categories == Empty()
    ensures LatestSearchFolder(base).Some? ==>
              var name := LatestSearchFolder(base).value;
              var raw := LoadAllFrom(Some(name), if name in folders then folders[name] else map[]);
              && raw.Ok? && categories.Valid() && categories.keys == raw.value.keys == SearchCategories
              && forall k :: 0 <= k < |SearchCategories| ==> categories.entries[SearchCategories[k]] == DedupedAt(raw.value, k)
  {
    var latest := LatestSearchFolder(base);
    var raw: Dict<string, seq<SearchItem>>;
    if latest.Some? {
      var files := if latest.value in folders then folders[latest.value] else map[];
      var retriever := new SteamDataRetriever(checkpoints, latest, files);
      var loaded := retriever.LoadAllSearchResults();
      LoadAllFromSpec(latest, files);
      raw := loaded.value;
    } else {
      raw := Empty();
    }
    categories := DedupCategories(raw);
    DedupedListing(raw);
  }

  // ---- `genre_breakdown` and `tag_analysis`: counting ----

  /** Which list of `{'description': ...}` objects is counted. */
  datatype DescField = Genres | Categories

  /** `app.get('genres', [])` or `app.get('categories', [])`. */
  function DescsOf(app: App, field: DescField): seq<Desc> {
    match field
    case Genres => if app.genres.Some? then app.genres.value else []
    case Categories => if app.categories.Some? then app.categories.value else []
  }

  /** `genre.get('description', 'Unknown')`. */
  function DescName(d: Desc): string {
    if d.description.Some? then d.description.value else "Unknown"
  }

  function NamesOf(descs: seq<Desc>): (names: seq<string>)
    ensures |names| == |descs| && forall i :: 0 <= i < |descs| ==> names[i] == DescName(descs[i])
  {
    if descs == [] then [] else NamesOf(descs[..|descs| - 1]) + [DescName(descs[|descs| - 1])]
  }

  /** One name per (app, list element) pair, in loop order. */
  function AllNames(apps: seq<App>, field: DescField): seq<string> {
    if apps == [] then [] else AllNames(apps[..|apps| - 1], field) + NamesOf(DescsOf(apps[|apps| - 1], field))
  }

  /** The `Counter` after `counter[name] += 1` for each name in turn. */
  function Tally(names: seq<string>): (c: Dict<string, nat>)
    ensures c.Valid()
  {
    if names == [] then Empty()
    else
      Increment(Tally(names[..|names| - 1]), names[|names| - 1])
  }

  /** The names in order of first occurrence. */
  function Distinct(names: seq<string>): seq<string> {
    if names == [] then []
    else
      var p := names[..|names| - 1];
      var x := names[|names| - 1];
      Distinct(p) + (if x in p then [] else [x])
  }

  /** Exactly the names that occur are counted. */
  lemma {:induction false} TallyKeys(names: seq<string>)
    ensures forall k :: k in Tally(names).entries <==> k in names
  {
    if names != [] {
      TallyKeys(names[..|names| - 1]);
      LastSplit(names);
    }
  }

  /** A name's count is its number of occurrences. */
  lemma {:induction false} TallyCounts(names: seq<string>, k: string)
    requires k in Tally(names).entries
    ensures Tally(names).entries[k] == multiset(names)[k]
  {
    if names != [] {
      var p := names[..|names| - 1];
      var x := names[|names| - 1];
      TallyKeys(p);
      if k in Tally(p).entries {
        TallyCounts(p, k);
      }
      LastSplit(names);
      assert multiset(names) == multiset(p) + multiset{x};
    }
  }

  /** The counter lists the names in order of first occurrence. */
  lemma {:induction false} TallyOrder(names: seq<string>)
    ensures Tally(names).keys == Distinct(names)
  {
    if names != [] {
      TallyOrder(names[..|names| - 1]);
      TallyKeys(names[..|names| - 1]);
    }
  }

  /**
   * A name's count is its number of occurrences, only names that occur are
   * counted, and the counter lists them in order of first occurrence.
   */
  lemma TallySpec(names: seq<string>)
    ensures forall k :: k in Tally(names).entries <==> k in names
    ensures forall k :: k in Tally(names).entries ==> Tally(names).entries[k] == multiset(names)[k]
    ensures Tally(names).keys == Distinct(names)
  {
    TallyKeys(names);
    forall k | k in Tally(names).entries ensures Tally(names).entries[k] == multiset(names)[k] {
      TallyCounts(names, k);
    }
    TallyOrder(names);
  }

  /** `counter[name] += 1` on a `Counter`. */
  function Increment(counter: Dict<string, nat>, name: string): (c: Dict<string, nat>)
    requires counter.Valid()
    ensures c.Valid()
  {
    counter.Put(name, (if name in counter.entries then counter.entries[name] else 0) + 1)
  }

  lemma TallySnoc(names: seq<string>, name: string)
    ensures Tally(names + [name]) == Increment(Tally(names), name)
  {
    assert (names + [name])[..|names|] == names;
  }

  /** The inner loop's state: the names before this app, then the first `j` of its own, are counted. */
  ghost predicate CountedSoFar(before: seq<string>, descs: seq<Desc>, j: nat, counter: Dict<string, nat>) {
    j <= |descs| && counter == Tally(before + NamesOf(descs[..j]))
  }

  lemma CountStep(before: seq<string>, descs: seq<Desc>, j: nat, counter: Dict<string, nat>)
    requires CountedSoFar(before, descs, j, counter) && j < |descs|
    ensures counter.Valid()
    ensures CountedSoFar(before, descs, j + 1, Increment(counter, DescName(descs[j])))
  {
    var name := DescName(descs[j]);
    assert descs[..j + 1][..j] == descs[..j];
    AppendAssoc(before, NamesOf(descs[..j]), [name]);
    TallySnoc(before + NamesOf(descs[..j]), name);
  }

  lemma AllNamesStep(apps: seq<App>, i: nat, field: DescField)
    requires i < |apps|
    ensures AllNames(apps[..i + 1], field) == AllNames(apps[..i], field) + NamesOf(DescsOf(apps[i], field))
  {
    assert apps[..i + 1][..i] == apps[..i];
  }

  /** The outer loop's state: the first `i` apps are counted. */
  ghost predicate CountedApps(apps: seq<App>, i: nat, field: DescField, counter: Dict<string, nat>) {
    i <= |apps| && counter == Tally(AllNames(apps[..i], field))
  }

  lemma CountAppStart(apps: seq<App>, i: nat, field: DescField, counter: Dict<string, nat>)
    requires CountedApps(apps, i, field, counter) && i < |apps|
    ensures CountedSoFar(AllNames(apps[..i], field), DescsOf(apps[i], field), 0, counter)
  {
    var before := AllNames(apps[..i], field);
    assert before + NamesOf(DescsOf(apps[i], field)[..0]) == before;
  }

  lemma CountAppEnd(apps: seq<App>, i: nat, field: DescField, counter: Dict<string, nat>)
    requires i < |apps|
    requires CountedSoFar(AllNames(apps[..i], field), DescsOf(apps[i], field), |DescsOf(apps[i], field)|, counter)
    ensures CountedApps(apps, i + 1, field, counter)
  {
    var descs := DescsOf(apps[i], field);
    assert descs[..|descs|] == descs;
    AllNamesStep(apps, i, field);
  }

  /** The counting loop of `genre_breakdown` (`Genres`) and `tag_analysis` (`Categories`). */
  method CountDescriptions(apps: seq<App>, field: DescField) returns (counter: Dict<string, nat>)
    ensures counter == Tally(AllNames(apps, field))
  {
    counter := Empty();
    var i := 0;
    while i < |apps|
      invariant CountedApps(apps, i, field, counter)
      decreases |apps| - i
    {
      var descs := DescsOf(apps[i], field);
      ghost var before := AllNames(apps[..i], field);
      CountAppStart(apps, i, field, counter);
      var j := 0;
      while j < |descs|
        invariant CountedSoFar(before, descs, j, counter)
        decreases |descs| - j
      {
        CountStep(before, descs, j, counter);
        counter := Increment(counter, DescName(descs[j]));
        j := j + 1;
      }
      CountAppEnd(apps, i, field, counter);
      i := i + 1;
    }
    assert apps[..i] == apps;
  }

  /** An entry of `most_common`: a name and its count. */
  datatype Count = Count(name: string, count: nat)

  function ItemsOf(keys: seq<string>, m: map<string, nat>): (items: seq<Count>)
    requires forall k :: k in keys ==> k in m
    ensures |items| == |keys| && forall i :: 0 <= i < |keys| ==> items[i] == Count(keys[i], m[keys[i]])
  {
    if keys == [] then [] else ItemsOf(keys[..|keys| - 1], m) + [Count(keys[|keys| - 1], m[keys[|keys| - 1]])]
  }

  /** `counter.items()`, in key order. */
  function Items(counter: Dict<string, nat>): seq<Count>
    requires counter.Valid()
  {
    ItemsOf(counter.keys, counter.entries)
  }

  /** Every key of the counter is listed among the items with its count. */
  lemma ItemsMember(counter: Dict<string, nat>, k: string)
    requires counter.Valid() && k in counter.entries
    ensures Count(k, counter.entries[k]) in Items(counter)
  {
    var i :| 0 <= i < |counter.keys| && counter.keys[i] == k;
    assert Items(counter)[i] == Count(k, counter.entries[k]);
  }

  /** Every item is a key of the counter with its count. */
  lemma ItemsAreEntries(counter: Dict<string, nat>, e: Count)
    requires counter.Valid() && e in Items(counter)
    ensures e.name in counter.entries && e.count == counter.entries[e.name]
  {
  }

  predicate SortedDesc(s: seq<Count>) {
    forall i, j :: 0 <= i < j < |s| ==> s[i].count >= s[j].count
  }

  /** Place `x` after every entry counting at least as much. */
  function InsertDesc(x: Count, s: seq<Count>): (r: seq<Count>)
    ensures |r| == |s| + 1
  {
    if s == [] then [x]
    else if s[0].count >= x.count then [s[0]] + InsertDesc(x, s[1..])
    else [x] + s
  }

  /** `sorted(items, key=count, reverse=True)`: a stable sort, largest count first. */
  function SortDesc(s: seq<Count>): (r: seq<Count>)
    ensures |r| == |s|
  {
    if s == [] then [] else InsertDesc(s[|s| - 1], SortDesc(s[..|s| - 1]))
  }

  /** The entries with count `v`, in order. */
  function WithCount(s: seq<Count>, v: nat): seq<Count> {
    if s == [] then [] else (if s[0].count == v then [s[0]] else []) + WithCount(s[1..], v)
  }

  lemma {:induction false} WithCountAppend(a: seq<Count>, b: seq<Count>, v: nat)
    ensures WithCount(a + b, v) == WithCount(a, v) + WithCount(b, v)
  {
    if a == [] {
      assert a + b == b;
    } else {
      var c := a + b;
      var head := if a[0].count == v then [a[0]] else [];
      assert c[1..] == a[1..] + b;
      WithCountAppend(a[1..], b, v);
      assert WithCount(c, v) == head + WithCount(c[1..], v);
      AppendAssoc(head, WithCount(a[1..], v), WithCount(b, v));
    }
  }

  lemma {:induction false} WithCountNone(s: seq<Count>, v: nat)
    requires forall i :: 0 <= i < |s| ==> s[i].count != v
    ensures WithCount(s, v) == []
  {
    if s != [] {
      WithCountNone(s[1..], v);
    }
  }

  lemma {:induction false} InsertDescPermutes(x: Count, s: seq<Count>)
    ensures multiset(InsertDesc(x, s)) == multiset(s) + multiset{x}
  {
    if s != [] && s[0].count >= x.count {
      InsertDescPermutes(x, s[1..]);
      assert s == [s[0]] + s[1..];
    }
  }

  lemma {:induction false} InsertDescMembers(x: Count, s: seq<Count>)
    ensures forall y :: y in InsertDesc(x, s) <==> y in s || y == x
  {
    if s != [] && s[0].count >= x.count {
      InsertDescMembers(x, s[1..]);
      assert s == [s[0]] + s[1..];
    }
  }

  lemma {:induction false} InsertDescSorted(x: Count, s: seq<Count>)
    requires SortedDesc(s)
    ensures SortedDesc(InsertDesc(x, s))
  {
    if s != [] && s[0].count >= x.count {
      InsertDescSorted(x, s[1..]);
      InsertDescMembers(x, s[1..]);
      var t := InsertDesc(x, s[1..]);
      assert forall i :: 0 <= i < |t| ==> t[i] in t;
      assert forall y :: y in s[1..] ==> y.count <= s[0].count;
      assert forall i :: 0 <= i < |t| ==> t[i].count <= s[0].count;
    }
  }

  lemma {:induction false} InsertDescStable(x: Count, s: seq<Count>, v: nat)
    requires SortedDesc(s)
    ensures WithCount(InsertDesc(x, s), v) == WithCount(s, v) + (if x.count == v then [x] else [])
  {
    var last := if x.count == v then [x] else [];
    if s == [] {
      assert WithCount([x], v) == last + WithCount([], v);
    } else if s[0].count >= x.count {
      var r := InsertDesc(x, s[1..]);
      var head := if s[0].count == v then [s[0]] else [];
      InsertDescStable(x, s[1..], v);
      assert ([s[0]] + r)[1..] == r;
      assert WithCount([s[0]] + r, v) == head + WithCount(r, v);
      AppendAssoc(head, WithCount(s[1..], v), last);
    } else {
      assert ([x] + s)[1..] == s;
      if x.count == v {
        WithCountNone(s, v);
      }
    }
  }

  lemma {:induction false} SortDescPermutes(s: seq<Count>)
    ensures multiset(SortDesc(s)) == multiset(s)
  {
    if s != [] {
      var p := s[..|s| - 1];
      var x := s[|s| - 1];
      SortDescPermutes(p);
      InsertDescPermutes(x, SortDesc(p));
      LastSplit(s);
    }
  }

  lemma {:induction false} SortDescSorted(s: seq<Count>)
    ensures SortedDesc(SortDesc(s))
  {
    if s != [] {
      SortDescSorted(s[..|s| - 1]);
      InsertDescSorted(s[|s| - 1], SortDesc(s[..|s| - 1]));
    }
  }

  lemma {:induction false} SortDescStable(s: seq<Count>, v: nat)
    ensures WithCount(SortDesc(s), v) == WithCount(s, v)
  {
    if s != [] {
      var p := s[..|s| - 1];
      var x := s[|s| - 1];
      SortDescStable(p, v);
      SortDescSorted(p);
      InsertDescStable(x, SortDesc(p), v);
      LastSplit(s);
      WithCountAppend(p, [x], v);
      assert WithCount([x], v) == (if x.count == v then [x] else []) + WithCount([], v);
    }
  }

  /**
   * Sorting keeps the entries (a permutation), puts larger counts first, and
   * keeps entries with equal counts in their original order.
   */
  lemma SortDescSpec(s: seq<Count>)
    ensures multiset(SortDesc(s)) == multiset(s)
    ensures |SortDesc(s)| == |s|
    ensures SortedDesc(SortDesc(s))
    ensures forall v :: WithCount(SortDesc(s), v) == WithCount(s, v)
  {
    SortDescPermutes(s);
    SortDescSorted(s);
    forall v ensures WithCount(SortDesc(s), v) == WithCount(s, v) {
      SortDescStable(s, v);
    }
  }

  function Min(a: int, b: int): int {
    if a <= b then a else b
  }

  /** `counter.most_common(n)`: the first `n` entries of the stable descending sort. */
  function MostCommon(counter: Dict<string, nat>, n: nat): seq<Count>
    requires counter.Valid()
  {
    var sorted := SortDesc(Items(counter));
    sorted[..Min(n, |sorted|)]
  }

  /** The names of the entries, in order. */
  function NamesIn(s: seq<Count>): (names: seq<string>)
    ensures |names| == |s| && forall i :: 0 <= i < |s| ==> names[i] == s[i].name
  {
    if s == [] then [] else NamesIn(s[..|s| - 1]) + [s[|s| - 1].name]
  }

  /** Sorting moves entries but neither adds nor drops one. */
  lemma SortDescMembers(s: seq<Count>, e: Count)
    ensures e in SortDesc(s) <==> e in s
  {
    SortDescPermutes(s);
    assert e in multiset(SortDesc(s)) <==> e in multiset(s);
  }

  /**
   * `most_common(n)` has `min(n, len(counter))` entries, each a key with its
   * count, largest first.
   */
  lemma MostCommonSpec(counter: Dict<string, nat>, n: nat)
    requires counter.Valid()
    ensures |MostCommon(counter, n)| == Min(n, |counter.keys|)
    ensures SortedDesc(MostCommon(counter, n))
    ensures forall t :: 0 <= t < |MostCommon(counter, n)| ==>
              var e := MostCommon(counter, n)[t];
              e.name in counter.entries && e.count == counter.entries[e.name]
  {
    var items := Items(counter);
    SortDescSorted(items);
    var sorted := SortDesc(items);
    forall t | 0 <= t < |MostCommon(counter, n)|
      ensures var e := MostCommon(counter, n)[t]; e.name in counter.entries && e.count == counter.entries[e.name]
    {
      SortDescMembers(items, sorted[t]);
      ItemsAreEntries(counter, sorted[t]);
    }
  }

  /** In a descending sequence, an entry whose name is not among the first `m` counts no more than any of them. */
  lemma TopOfSorted(sorted: seq<Count>, m: nat, e: Count, t: nat)
    requires SortedDesc(sorted) && t < m <= |sorted|
    requires e in sorted && e.name !in NamesIn(sorted[..m])
    ensures e.count <= sorted[t].count
  {
    var j :| 0 <= j < |sorted| && sorted[j] == e;
    assert forall u :: 0 <= u < m ==> NamesIn(sorted[..m])[u] == sorted[u].name;
    assert j >= m;
  }

  /** No key left out of `most_common(n)` counts more than any key it lists. */
  lemma MostCommonIsTop(counter: Dict<string, nat>, n: nat, k: string, t: nat)
    requires counter.Valid() && k in counter.entries && k !in NamesIn(MostCommon(counter, n))
    requires t < |MostCommon(counter, n)|
    ensures counter.entries[k] <= MostCommon(counter, n)[t].count
  {
    var items := Items(counter);
    var e := Count(k, counter.entries[k]);
    ItemsMember(counter, k);
    SortDescSorted(items);
    SortDescMembers(items, e);
    TopOfSorted(SortDesc(items), Min(n, |items|), e, t);
  }

  /** The view's split: `most_common(30)[:10]` and `most_common(30)[10:30]`. */
  function Split(mc: seq<Count>): (r: (seq<Count>, seq<Count>))
    ensures |r.0| <= 10 && r.0 + r.1 == mc
    ensures |mc| <= 30 ==> |r.1| <= 20
    ensures |r.1| > 0 ==> |r.0| == 10
  {
    var cut := Min(10, |mc|);
    assert mc[..cut] + mc[cut..] == mc;
    (mc[..cut], mc[cut..])
  }

  /** `genre_breakdown` (`Genres`) and `tag_analysis` (`Categories`) over `apps_dict.values()`. */
  method Breakdown(apps: seq<App>, field: DescField) returns (top: seq<Count>, other: seq<Count>)
    ensures top + other == MostCommon(Tally(AllNames(apps, field)), 30)
    ensures |top| <= 10 && |other| <= 20 && (other != [] ==> |top| == 10)
    ensures forall i, j :: 0 <= i < |top| && 0 <= j < |other| ==> top[i].count >= other[j].count
  {
    var counter := CountDescriptions(apps, field);
    var sorted := MostCommon(counter, 30);
    MostCommonSpec(counter, 30);
    var split := Split(sorted);
    top, other := split.0, split.1;
    forall i, j | 0 <= i < |top| && 0 <= j < |other| ensures top[i].count >= other[j].count {
      assert top[i] == sorted[i] && other[j] == sorted[|top| + j];
    }
  }

  // ---- `price_analysis` ----

  /** The bins, in the order the view lists them. */
  const BinLabels: seq<string> := ["Free", "$0–5", "$5–10", "$10–20", "$20–30", "$30–50", "$50–70", "$70+"]

  /** The priced bin of a price in cents: 1 for `$0–5` up to 7 for `$70+`. */
  function CentsBin(cents: int): (b: nat)
    ensures 1 <= b <= 7
  {
    if cents <= 500 then 1
    else if cents <= 1000 then 2
    else if cents <= 2000 then 3
    else if cents <= 3000 then 4
    else if cents <= 5000 then 5
    else if cents <= 7000 then 6
    else 7
  }

  /** The same choice made on the dollar price `initial / 100`, as the view compares it. */
  function DollarBin(price: real): nat {
    if price <= 5.0 then 1
    else if price <= 10.0 then 2
    else if price <= 20.0 then 3
    else if price <= 30.0 then 4
    else if price <= 50.0 then 5
    else if price <= 70.0 then 6
    else 7
  }

  /** Comparing cents with whole-dollar bounds times 100 is exactly comparing dollars. */
  lemma CentsBinIsDollarBin(cents: int)
    ensures CentsBin(cents) == DollarBin(cents as real / 100.0)
  {
  }

  /** The bin an app increments: `Free` before anything else, none without a price. */
  function PriceBin(app: App): (b: Option<nat>)
    ensures b.Some? ==> b.value < |BinLabels|
    ensures b == Some(0) <==> app.isFree
    ensures b.None? <==> !app.isFree && app.priceOverview.None?
  {
    if app.isFree then Some(0)
    else if app.priceOverview.Some? then
      var initial := app.priceOverview.value.initial;
      Some(CentsBin(if initial.Some? then initial.value else 0))
    else None
  }

  /** How many apps fall in bin `b`. */
  function BinCount(apps: seq<App>, b: nat): nat {
    if apps == [] then 0 else BinCount(apps[..|apps| - 1], b) + (if PriceBin(apps[|apps| - 1]) == Some(b) then 1 else 0)
  }

  /** How many apps fall in no bin. */
  function Unbinned(apps: seq<App>): nat {
    if apps == [] then 0 else Unbinned(apps[..|apps| - 1]) + (if PriceBin(apps[|apps| - 1]).None? then 1 else 0)
  }

  function SumBins(apps: seq<App>, n: nat): nat {
    if n == 0 then 0 else SumBins(apps, n - 1) + BinCount(apps, n - 1)
  }

  lemma {:induction false} SumBinsSnoc(p: seq<App>, x: App, n: nat)
    ensures SumBins(p + [x], n) == SumBins(p, n) + (if PriceBin(x).Some? && PriceBin(x).value < n then 1 else 0)
  {
    if n > 0 {
      SumBinsSnoc(p, x, n - 1);
      assert (p + [x])[..|p|] == p;
    }
  }

  lemma {:induction false} SumBinsEmpty(n: nat)
    ensures SumBins([], n) == 0
  {
    if n > 0 {
      SumBinsEmpty(n - 1);
    }
  }

  /** Each app is counted in exactly one bin or in none, so the bins add up to at most the number of apps. */
  lemma {:induction false} BinsAddUp(apps: seq<App>)
    ensures SumBins(apps, |BinLabels|) + Unbinned(apps) == |apps|
  {
    if apps != [] {
      var p := apps[..|apps| - 1];
      var x := apps[|apps| - 1];
      BinsAddUp(p);
      LastSplit(apps);
      SumBinsSnoc(p, x, |BinLabels|);
      assert Unbinned(apps) == Unbinned(p) + (if PriceBin(x).None? then 1 else 0);
      assert PriceBin(x).Some? ==> PriceBin(x).value < |BinLabels|;
    } else {
      SumBinsEmpty(|BinLabels|);
    }
  }

  /** The counting loop of `price_analysis`; `bins[b]` is the count of `BinLabels[b]`. */
  method PriceAnalysis(apps: seq<App>) returns (bins: seq<nat>)
    ensures |bins| == |BinLabels|
    ensures forall b :: 0 <= b < |BinLabels| ==> bins[b] == BinCount(apps, b)
  {
    bins := Repeat(0, |BinLabels|);
    var i := 0;
    while i < |apps|
      invariant 0 <= i <= |apps|
      invariant |bins| == |BinLabels|
      invariant forall b :: 0 <= b < |BinLabels| ==> bins[b] == BinCount(apps[..i], b)
    {
      var app := apps[i];
      var bin := PriceBin(app);
      if bin.Some? {
        bins := bins[bin.value := bins[bin.value] + 1];
      }
      assert apps[..i + 1][..i] == apps[..i];
      i := i + 1;
    }
    assert apps[..i] == apps;
  }
}
