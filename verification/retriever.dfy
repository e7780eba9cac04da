/**
 * `SteamDataRetriever`: the read-only query layer over the crawled data.
 * Creating one loads the latest checkpoints found anywhere under the
 * checkpoint folder; afterwards its methods read `apps_dict` and the
 * category artifacts of one search-results folder and change nothing.
 */
module Retriever {
  import opened Base
  import opened Order
  import opened Text
  import opened Dicts
  import opened SteamModel
  import opened TrendCheckpoints

  /** A file found by `os.walk` under the checkpoint folder: the directories below the folder, then its name. */
  datatype FilePath = FilePath(dirs: seq<string>, name: string)

  function Parts(p: FilePath): (parts: seq<string>)
    ensures |parts| == |p.dirs| + 1 && parts[|p.dirs|] == p.name
  {
    p.dirs + [p.name]
  }

  /**
   * `a < b` for two paths under the same folder: their components compared
   * lexicographically, each component as a string.
   */
  predicate PathLt(a: FilePath, b: FilePath) {
    LexLess(Parts(a), Parts(b), StrLt)
  }

  lemma PartsInjective(a: FilePath, b: FilePath)
    requires Parts(a) == Parts(b)
    ensures a == b
  {
    assert a.dirs == Parts(a)[..|a.dirs|];
    assert b.dirs == Parts(b)[..|b.dirs|];
  }

  lemma PathLtIsStrictTotal()
    ensures StrictTotalOrder(PathLt)
  {
    StrLtIsStrictTotal();
    LexIsStrictTotal(StrLt);
    var lex := (a: seq<string>, b: seq<string>) => LexLess(a, b, StrLt);
    assert StrictTotalOrder(lex);
    forall a: FilePath, b: FilePath ensures a == b || PathLt(a, b) || PathLt(b, a) {
      assert Parts(a) == Parts(b) || lex(Parts(a), Parts(b)) || lex(Parts(b), Parts(a));
      if Parts(a) == Parts(b) {
        PartsInjective(a, b);
      }
    }
    forall a: FilePath, b: FilePath, c: FilePath | PathLt(a, b) && PathLt(b, c) ensures PathLt(a, c) {
      assert lex(Parts(a), Parts(b)) && lex(Parts(b), Parts(c));
    }
    forall a: FilePath ensures !PathLt(a, a) {
      assert !lex(Parts(a), Parts(a));
    }
  }

  /** The walked `.p` files whose name holds the prefix and `ckpt`, in walk order. */
  function CandidatePaths(files: seq<FilePath>, prefix: string): (c: seq<FilePath>)
    ensures forall p :: p in c <==> p in files && IsCheckpointOf(p.name, prefix)
  {
    if files == [] then []
    else
      var rest := CandidatePaths(files[..|files| - 1], prefix);
      var last := files[|files| - 1];
      assert forall p :: p in files <==> p in files[..|files| - 1] || p == last;
      if IsCheckpointOf(last.name, prefix) then rest + [last] else rest
  }

  /** `sorted(candidates)[-1]` if there is a candidate, else `None`. */
  function LatestPath(files: seq<FilePath>, prefix: string): (r: Option<FilePath>)
    ensures r.None? <==> forall p :: p in files ==> !IsCheckpointOf(p.name, prefix)
    ensures r.Some? ==> r.value in files && IsCheckpointOf(r.value.name, prefix)
    ensures r.Some? ==> forall p :: p in files && IsCheckpointOf(p.name, prefix) ==> !PathLt(r.value, p)
  {
    var cands := CandidatePaths(files, prefix);
    if cands == [] then None
    else
      PathLtIsStrictTotal();
      Some(Greatest(cands, PathLt))
  }

  /** The three paths `_check_latest_checkpoints` returns. */
  datatype CheckpointPaths = CheckpointPaths(apps: Option<FilePath>, excluded: Option<FilePath>, errors: Option<FilePath>)

  /**
   * `_check_latest_checkpoints`: no paths when the folder does not exist
   * (`None`), else the latest checkpoint of each kind among all the files
   * under it.
   */
  function CheckLatestCheckpoints(folder: Option<seq<FilePath>>): (r: CheckpointPaths)
    ensures folder.None? ==> r == CheckpointPaths(None, None, None)
    ensures folder.Some? ==> r.apps == LatestPath(folder.value, AppsDictPrefix)
    ensures folder.Some? ==> r.excluded == LatestPath(folder.value, ExcludedAppsPrefix)
    ensures folder.Some? ==> r.errors == LatestPath(folder.value, ErrorAppsPrefix)
  {
    if folder.None? then CheckpointPaths(None, None, None)
    else CheckpointPaths(LatestPath(folder.value, AppsDictPrefix), LatestPath(folder.value, ExcludedAppsPrefix),
                         LatestPath(folder.value, ErrorAppsPrefix))
  }

  /** The files under the checkpoint folder, in walk order, when it exists. */
  function Listing(folder: Option<Dict<FilePath, Blob>>): Option<seq<FilePath>> {
    if folder.None? then None else Some(folder.value.keys)
  }

  /** Each kind's latest checkpoint, if any, unpickles to the kind of value its field holds. */
  ghost predicate CheckpointsTyped(folder: Option<Dict<FilePath, Blob>>) {
    folder.Some? ==>
      var d := folder.value;
      var paths := CheckLatestCheckpoints(Listing(folder));
      && d.Valid()
      && (paths.apps.Some? ==> d.entries[paths.apps.value].AppsBlob? && d.entries[paths.apps.value].apps.Valid())
      && (paths.excluded.Some? ==> d.entries[paths.excluded.value].IdsBlob?)
      && (paths.errors.Some? ==> d.entries[paths.errors.value].IdsBlob?)
  }

  /** `self.search_categories`. */
  const SearchCategories: seq<string> := ["topsellers", "globaltopsellers", "popularnew", "popularcomingsoon", "specials"]

  /** `load_search_category` raises `ValueError` for a missing folder or an unknown category. */
  datatype Error = NoSearchFolder | UnknownCategory(category: string) | AttributeError

  /** `name[-8:]`: the last eight characters, or the whole name when it is shorter. */
  function Suffix(name: string): (s: string)
    ensures |name| <= 8 ==> s == name
    ensures |name| > 8 ==> |s| == 8 && name == name[..|name| - 8] + s
  {
    if |name| <= 8 then name else name[|name| - 8..]
  }

  /** `f"{category}_{suffix}.pkl"`. */
  function SearchFileName(category: string, folderName: string): string {
    category + "_" + Suffix(folderName) + ".pkl"
  }

  /**
   * `load_search_category` on a folder (its name, `None` when none was
   * given) and the files directly inside it: `ValueError` without a folder
   * or for a category not in the list; otherwise the file named after the
   * category and the folder's last eight characters, or `[]` when missing.
   */
  function LoadCategoryFrom(folder: Option<string>, files: map<string, seq<SearchItem>>, category: string)
    : (r: Result<seq<SearchItem>, Error>)
    ensures r == Err(NoSearchFolder) <==> folder.None?
    ensures r == Err(UnknownCategory(category)) <==> folder.Some? && category !in SearchCategories
    ensures r.Ok? <==> folder.Some? && category in SearchCategories
    ensures r.Ok? ==> var f := SearchFileName(category, folder.value);
                      r.value == if f in files then files[f] else []
  {
    if folder.None? then Err(NoSearchFolder)
    else if category !in SearchCategories then Err(UnknownCategory(category))
    else
      var f := SearchFileName(category, folder.value);
      if f !in files then Ok([]) else Ok(files[f])
  }

  /** `{cat: self.load_search_category(cat) for cat in cats}`, raising the first error. */
  function LoadEach(folder: Option<string>, files: map<string, seq<SearchItem>>, cats: seq<string>)
    : (r: Result<Dict<string, seq<SearchItem>>, Error>)
    ensures r.Ok? ==> r.value.Valid()
  {
    if cats == [] then Ok(Empty())
    else
      var prev := LoadEach(folder, files, cats[..|cats| - 1]);
      var last := cats[|cats| - 1];
      if prev.Err? then prev
      else
        var v := LoadCategoryFrom(folder, files, last);
        if v.Err? then Err(v.error) else Ok(prev.value.Put(last, v.value))
  }

  /**
   * With a folder, the comprehension over distinct known categories
   * succeeds, keeps the categories in order as its keys and maps each to
   * what `load_search_category` returns for it.
   */
  lemma {:induction false} LoadEachInFolder(folder: string, files: map<string, seq<SearchItem>>, cats: seq<string>)
    requires NoDup(cats)
    requires forall c :: c in cats ==> c in SearchCategories
    ensures LoadEach(Some(folder), files, cats).Ok?
    ensures LoadEach(Some(folder), files, cats).value.keys == cats
    ensures forall c :: c in cats ==>
              LoadEach(Some(folder), files, cats).value.entries[c] == LoadCategoryFrom(Some(folder), files, c).value
  {
    if cats != [] {
      var p := cats[..|cats| - 1];
      var last := cats[|cats| - 1];
      assert cats == p + [last];
      assert NoDup(p) && last !in p by {
        assert forall i :: 0 <= i < |p| ==> p[i] == cats[i] != cats[|cats| - 1];
      }
      LoadEachInFolder(folder, files, p);
      var prev := LoadEach(Some(folder), files, p).value;
      var v := LoadCategoryFrom(Some(folder), files, last);
      assert v.Ok?;
      var r := prev.Put(last, v.value);
      assert LoadEach(Some(folder), files, cats) == Ok(r);
      forall c | c in cats
        ensures r.entries[c] == LoadCategoryFrom(Some(folder), files, c).value
      {
        if c != last {
          assert c in p;
        }
      }
    }
  }

  /** Without a folder the first category already raises. */
  lemma {:induction false} LoadEachNoFolder(files: map<string, seq<SearchItem>>, cats: seq<string>)
    requires cats != []
    ensures LoadEach(None, files, cats) == Err(NoSearchFolder)
  {
    if |cats| > 1 {
      LoadEachNoFolder(files, cats[..|cats| - 1]);
    }
  }

  /** `load_all_search_results`. */
  function LoadAllFrom(folder: Option<string>, files: map<string, seq<SearchItem>>): Result<Dict<string, seq<SearchItem>>, Error> {
    LoadEach(folder, files, SearchCategories)
  }

  /**
   * `load_all_search_results` raises `ValueError` exactly when there is no
   * folder; otherwise its keys are the five categories, in order, each
   * mapped to what `load_search_category` returns for it.
   */
  lemma LoadAllFromSpec(folder: Option<string>, files: map<string, seq<SearchItem>>)
    ensures LoadAllFrom(folder, files).Err? <==> folder.None?
    ensures LoadAllFrom(folder, files).Err? ==> LoadAllFrom(folder, files).error == NoSearchFolder
    ensures LoadAllFrom(folder, files).Ok? ==>
              && LoadAllFrom(folder, files).value.Valid()
              && LoadAllFrom(folder, files).value.keys == SearchCategories
              && forall c :: c in SearchCategories ==>
                   LoadAllFrom(folder, files).value.entries[c] == LoadCategoryFrom(folder, files, c).value
  {
    var cats := SearchCategories;
    assert NoDup(cats) by {
      assert cats[0][0] == 't' && cats[1][0] == 'g' && cats[2][0] == 'p' && cats[3][0] == 'p' && cats[4][0] == 's';
      assert cats[2][7] == 'n' && cats[3][7] == 'c';
    }
    if folder.None? {
      LoadEachNoFolder(files, cats);
    } else {
      LoadEachInFolder(folder.value, files, cats);
    }
  }

  /** What a filter looks for; each compares lower-cased text. */
  datatype Query =
    | ByName(term: string)
    | ByType(appType: string)
    | WithGenre(genre: string)
    | WithTag(tag: string)
    | ByDeveloper(developer: string)
    | ByPublisher(publisher: string)

  /** Some description in the list contains the (lower-cased) term. */
  predicate DescsMention(descs: seq<Desc>, term: string) {
    exists i :: 0 <= i < |descs| && descs[i].description.Some? && Contains(Lower(descs[i].description.value), term)
  }

  /** Some name in the list contains the (lower-cased) term. */
  predicate NamesMention(names: seq<string>, term: string) {
    exists i :: 0 <= i < |names| && Contains(Lower(names[i]), term)
  }

  /** The condition under which each filter appends an app. */
  predicate Matches(app: App, q: Query) {
    match q
    case ByName(t) => app.name.Some? && Contains(Lower(app.name.value), Lower(t))
    case ByType(t) => app.appType.Some? && Lower(app.appType.value) == Lower(t)
    case WithGenre(g) => app.genres.Some? && DescsMention(app.genres.value, Lower(g))
    case WithTag(t) => app.categories.Some? && DescsMention(app.categories.value, Lower(t))
    case ByDeveloper(d) => app.developers.Some? && NamesMention(app.developers.value, Lower(d))
    case ByPublisher(p) => app.publishers.Some? && NamesMention(app.publishers.value, Lower(p))
  }

  /** The apps that match, in order, each as often as it occurs. */
  function Select(apps: seq<App>, q: Query): seq<App> {
    if apps == [] then []
    else Select(apps[..|apps| - 1], q) + (if Matches(apps[|apps| - 1], q) then [apps[|apps| - 1]] else [])
  }

  /** A filter's result: exactly the matching apps, in their order. */
  lemma {:induction false} SelectSpec(apps: seq<App>, q: Query)
    ensures forall a :: a in Select(apps, q) <==> a in apps && Matches(a, q)
    ensures IsSubsequence(Select(apps, q), apps)
    ensures |Select(apps, q)| <= |apps|
  {
    if apps == [] {
      SubsequenceEmpty(apps);
    } else {
      var p := apps[..|apps| - 1];
      var x := apps[|apps| - 1];
      SelectSpec(p, q);
      assert apps == p + [x];
      SubsequenceSnoc(Select(p, q), p, x, Matches(x, q));
    }
  }

  /** Each matching app is in the result once per occurrence (once per dict entry), no more. */
  lemma {:induction false} SelectCounts(apps: seq<App>, q: Query, a: App)
    ensures multiset(Select(apps, q))[a] == if Matches(a, q) then multiset(apps)[a] else 0
  {
    if apps != [] {
      var p := apps[..|apps| - 1];
      var x := apps[|apps| - 1];
      SelectCounts(p, q, a);
      assert apps == p + [x];
      assert multiset(apps) == multiset(p) + multiset{x};
      var tail := if Matches(x, q) then [x] else [];
      assert Select(apps, q) == Select(p, q) + tail;
      assert multiset(Select(apps, q)) == multiset(Select(p, q)) + multiset(tail);
    }
  }

  /** Lower-casing twice is lower-casing once. */
  lemma LowerIdempotent(s: string)
    ensures Lower(Lower(s)) == Lower(s)
  {
  }

  /** Every filter ignores the case of its argument. */
  lemma MatchesIgnoresCase(app: App, q: Query, r: Query)
    requires (q.ByName? && r == ByName(Lower(q.term))) || (q.ByType? && r == ByType(Lower(q.appType)))
          || (q.WithGenre? && r == WithGenre(Lower(q.genre))) || (q.WithTag? && r == WithTag(Lower(q.tag)))
          || (q.ByDeveloper? && r == ByDeveloper(Lower(q.developer)))
          || (q.ByPublisher? && r == ByPublisher(Lower(q.publisher)))
    ensures Matches(app, q) == Matches(app, r)
  {
    match q
    case ByName(t) => LowerIdempotent(t);
    case ByType(t) => LowerIdempotent(t);
    case WithGenre(t) => LowerIdempotent(t);
    case WithTag(t) => LowerIdempotent(t);
    case ByDeveloper(t) => LowerIdempotent(t);
    case ByPublisher(t) => LowerIdempotent(t);
  }

  /** `get_data_stats`. */
  datatype Stats = Stats(totalApps: nat, excludedApps: nat, errorApps: nat)

  class SteamDataRetriever {
    /** The files under the checkpoint folder and their contents; `None` when it does not exist. */
    const checkpointFolder: Option<Dict<FilePath, Blob>>
    /** The search-results folder's name; `None` when none was given. */
    const searchDataFolder: Option<string>
    /** The files directly inside the search-results folder. */
    const searchFiles: map<string, seq<SearchItem>>

    var appsDict: AppsDict
    var excludedAppsList: seq<int>
    /** `None` while the attribute has never been assigned. */
    var errorAppsList: Option<seq<int>>

    ghost predicate Valid()
      reads this
    {
      appsDict.Valid()
    }

    /** `__init__`: empty ledgers, then `_load_latest_checkpoints`. */
    constructor (checkpointFolder: Option<Dict<FilePath, Blob>>, searchDataFolder: Option<string>,
                 searchFiles: map<string, seq<SearchItem>>)
      requires CheckpointsTyped(checkpointFolder)
      ensures Valid()
      ensures this.checkpointFolder == checkpointFolder && this.searchDataFolder == searchDataFolder
      ensures this.searchFiles == searchFiles
      ensures var paths := CheckLatestCheckpoints(Listing(checkpointFolder));
              && (paths.apps.None? ==> appsDict == Empty())
              && (paths.apps.Some? ==> appsDict == checkpointFolder.value.entries[paths.apps.value].apps)
              && (paths.excluded.None? ==> excludedAppsList == [])
              && (paths.excluded.Some? ==> excludedAppsList == checkpointFolder.value.entries[paths.excluded.value].ids)
              && (paths.errors.None? ==> errorAppsList.None?)
              && (paths.errors.Some? ==> errorAppsList == Some(checkpointFolder.value.entries[paths.errors.value].ids))
    {
      this.checkpointFolder := checkpointFolder;
      this.searchDataFolder := searchDataFolder;
      this.searchFiles := searchFiles;
      appsDict := Empty();
      excludedAppsList := [];
      errorAppsList := None;
      new;
      LoadLatestCheckpoints();
    }

    /** `_load_latest_checkpoints`: each field from its latest checkpoint, when there is one. */
    method LoadLatestCheckpoints()
      requires Valid() && CheckpointsTyped(checkpointFolder)
      modifies this`appsDict, this`excludedAppsList, this`errorAppsList
      ensures Valid()
      ensures var paths := CheckLatestCheckpoints(Listing(checkpointFolder));
              && (paths.apps.None? ==> appsDict == old(appsDict))
              && (paths.apps.Some? ==> appsDict == checkpointFolder.value.entries[paths.apps.value].apps)
              && (paths.excluded.None? ==> excludedAppsList == old(excludedAppsList))
              && (paths.excluded.Some? ==> excludedAppsList == checkpointFolder.value.entries[paths.excluded.value].ids)
              && (paths.errors.None? ==> errorAppsList == old(errorAppsList))
              && (paths.errors.Some? ==> errorAppsList == Some(checkpointFolder.value.entries[paths.errors.value].ids))
    {
      var paths := CheckLatestCheckpoints(Listing(checkpointFolder));
      if paths.apps.Some? {
        appsDict := checkpointFolder.value.entries[paths.apps.value].apps;
      }
      if paths.excluded.Some? {
        excludedAppsList := checkpointFolder.value.entries[paths.excluded.value].ids;
      }
      if paths.errors.Some? {
        errorAppsList := Some(checkpointFolder.value.entries[paths.errors.value].ids);
      }
    }

    /** `load_search_category(category)` on this retriever's search-results folder. */
    function LoadSearchCategory(category: string): (r: Result<seq<SearchItem>, Error>)
      reads this
    {
      LoadCategoryFrom(searchDataFolder, searchFiles, category)
    }

    /** `load_all_search_results()` on this retriever's search-results folder. */
    function LoadAllSearchResults(): (r: Result<Dict<string, seq<SearchItem>>, Error>)
      reads this
    {
      LoadAllFrom(searchDataFolder, searchFiles)
    }

    /** `get_all_app_ids()`: every key of `apps_dict` once, in dict order (the keys are already integers). */
    function AllAppIds(): (ids: seq<int>)
      reads this
      requires Valid()
      ensures |ids| == |appsDict.entries|
      ensures forall id :: id in ids <==> id in appsDict.entries
      ensures NoDup(ids)
    {
      var ks := appsDict.keys;
      assert |ks| == |appsDict.entries| by {
        assert appsDict.entries.Keys == set x | x in ks;
        DistinctCard(ks);
      }
      ks
    }

    /** `get_app_details(app_id)`: the details stored under the id, or `None`. */
    function AppDetails(appId: int): (r: Option<App>)
      reads this
      ensures r.Some? <==> appId in appsDict.entries
      ensures r.Some? ==> r.value == appsDict.entries[appId]
    {
      appsDict.Get(appId)
    }

    /** `get_data_stats`: `AttributeError` while `error_apps_list` was never assigned. */
    function DataStats(): (r: Result<Stats, Error>)
      reads this
      requires Valid()
      ensures r.Err? <==> errorAppsList.None?
      ensures r.Err? ==> r.error == AttributeError
      ensures r.Ok? ==> && r.value.totalApps == |appsDict.keys|
                        && r.value.excludedApps == |excludedAppsList|
                        && r.value.errorApps == |errorAppsList.value|
    {
      if errorAppsList.None? then Err(AttributeError)
      else Ok(Stats(|appsDict.keys|, |excludedAppsList|, |errorAppsList.value|))
    }

    /** The `for app_id, app_data in self.apps_dict.items()` loop shared by the filters. */
    method Filter(q: Query) returns (results: seq<App>)
      requires Valid()
      ensures results == Select(appsDict.Values(), q)
    {
      var apps := appsDict.Values();
      results := [];
      var i := 0;
      while i < |apps|
        invariant 0 <= i <= |apps|
        invariant results == Select(apps[..i], q)
      {
        var keep := AppMatches(apps[i], q);
        if keep {
          results := results + [apps[i]];
        }
        assert apps[..i + 1][..i] == apps[..i];
        i := i + 1;
      }
      assert apps[..i] == apps;
    }

    /** The test inside the loop; the list filters stop at the first element that mentions the term. */
    static method AppMatches(app: App, q: Query) returns (keep: bool)
      ensures keep == Matches(app, q)
    {
      match q
      case ByName(t) =>
        keep := app.name.Some? && Contains(Lower(app.name.value), Lower(t));
      case ByType(t) =>
        keep := app.appType.Some? && Lower(app.appType.value) == Lower(t);
      case WithGenre(g) =>
        keep := false;
        if app.genres.Some? {
          keep := FindDesc(app.genres.value, Lower(g));
        }
      case WithTag(t) =>
        keep := false;
        if app.categories.Some? {
          keep := FindDesc(app.categories.value, Lower(t));
        }
      case ByDeveloper(d) =>
        keep := false;
        if app.developers.Some? {
          keep := FindName(app.developers.value, Lower(d));
        }
      case ByPublisher(p) =>
        keep := false;
        if app.publishers.Some? {
          keep := FindName(app.publishers.value, Lower(p));
        }
    }

    /** `for gen in genres: if 'description' in gen and term in ...: ...; break`. */
    static method FindDesc(descs: seq<Desc>, term: string) returns (found: bool)
      ensures found <==> DescsMention(descs, term)
    {
      var i := 0;
      while i < |descs|
        invariant 0 <= i <= |descs|
        invariant forall j :: 0 <= j < i ==> !(descs[j].description.Some? && Contains(Lower(descs[j].description.value), term))
      {
        if descs[i].description.Some? && Contains(Lower(descs[i].description.value), term) {
          return true;
        }
        i := i + 1;
      }
      return false;
    }

    /** `for dev in developers: if term in dev.lower(): ...; break`. */
    static method FindName(names: seq<string>, term: string) returns (found: bool)
      ensures found <==> NamesMention(names, term)
    {
      var i := 0;
      while i < |names|
        invariant 0 <= i <= |names|
        invariant forall j :: 0 <= j < i ==> !Contains(Lower(names[j]), term)
      {
        if Contains(Lower(names[i]), term) {
          return true;
        }
        i := i + 1;
      }
      return false;
    }

    /** `search_apps_by_name`. */
    method SearchAppsByName(searchTerm: string) returns (results: seq<App>)
      requires Valid()
      ensures results == Select(appsDict.Values(), ByName(searchTerm))
    {
      results := Filter(ByName(searchTerm));
    }

    /** `filter_apps_by_type`. */
    method FilterAppsByType(appType: string) returns (results: seq<App>)
      requires Valid()
      ensures results == Select(appsDict.Values(), ByType(appType))
    {
      results := Filter(ByType(appType));
    }

    /** `get_apps_with_genre`. */
    method GetAppsWithGenre(genre: string) returns (results: seq<App>)
      requires Valid()
      ensures results == Select(appsDict.Values(), WithGenre(genre))
    {
      results := Filter(WithGenre(genre));
    }

    /** `get_apps_with_tag`. */
    method GetAppsWithTag(tag: string) returns (results: seq<App>)
      requires Valid()
      ensures results == Select(appsDict.Values(), WithTag(tag))
    {
      results := Filter(WithTag(tag));
    }

    /** `get_apps_by_developer`. */
    method GetAppsByDeveloper(developer: string) returns (results: seq<App>)
      requires Valid()
      ensures results == Select(appsDict.Values(), ByDeveloper(developer))
    {
      results := Filter(ByDeveloper(developer));
    }

    /** `get_apps_by_publisher`. */
    method GetAppsByPublisher(publisher: string) returns (results: seq<App>)
      requires Valid()
      ensures results == Select(appsDict.Values(), ByPublisher(publisher))
    {
      results := Filter(ByPublisher(publisher));
    }
  }
}
