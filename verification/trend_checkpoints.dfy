/**
 * The checkpoint store of the trending crawler
 * (`check_latest_checkpoints`, `save_checkpoints` and the loading step of
 * `download_trend`). The checkpoint folder is modelled as the ordered
 * listing of the files directly inside it with their unpickled contents.
 */
module TrendCheckpoints {
  import opened Base
  import opened Order
  import opened Text
  import opened Dicts
  import opened SteamModel

  const AppsDictPrefix := "apps_dict"
  const ExcludedAppsPrefix := "excluded_apps_list"
  const ErrorAppsPrefix := "error_apps_list"

  /** The three ledgers a crawl carries: app details, excluded ids, error ids. */
  datatype Ledgers = Ledgers(apps: AppsDict, excluded: seq<int>, errors: seq<int>)

  /** A file matched by `folder.glob('*.p')` whose name holds both the prefix and `ckpt`. */
  predicate IsCheckpointOf(name: string, prefix: string) {
    EndsWith(name, ".p") && Contains(name, prefix) && Contains(name, "ckpt")
  }

  /** `cands` of `latest(prefix)`, in listing order. */
  function Candidates(names: seq<string>, prefix: string): (c: seq<string>)
    ensures forall n :: n in c <==> n in names && IsCheckpointOf(n, prefix)
  {
    if names == [] then []
    else
      var rest := Candidates(names[..|names| - 1], prefix);
      var last := names[|names| - 1];
      assert forall n :: n in names <==> n in names[..|names| - 1] || n == last;
      if IsCheckpointOf(last, prefix) then rest + [last] else rest
  }

  /** `latest(prefix)`: `sorted(cands)[-1] if cands else None`. */
  function Latest(names: seq<string>, prefix: string): (r: Option<string>)
    ensures r.None? <==> forall n :: n in names ==> !IsCheckpointOf(n, prefix)
    ensures r.Some? ==> r.value in names && IsCheckpointOf(r.value, prefix)
    ensures r.Some? ==> forall n :: n in names && IsCheckpointOf(n, prefix) ==> !StrLt(r.value, n)
  {
    var cands := Candidates(names, prefix);
    if cands == [] then None
    else
      StrLtIsStrictTotal();
      Some(Greatest(cands, StrLt))
  }

  /** The name `save_checkpoints` writes for one ledger. */
  function FinName(prefix: string): string {
    prefix + "-ckpt-fin.p"
  }

  /** `save_checkpoints`: write the three ledgers under their fixed names, in this order. */
  function SaveCheckpoints(dir: Dict<string, Blob>, l: Ledgers): (d: Dict<string, Blob>)
    requires dir.Valid()
    ensures d.Valid()
    ensures d.entries == dir.entries[FinName(AppsDictPrefix) := AppsBlob(l.apps)]
                                    [FinName(ExcludedAppsPrefix) := IdsBlob(l.excluded)]
                                    [FinName(ErrorAppsPrefix) := IdsBlob(l.errors)]
  {
    dir.Put(FinName(AppsDictPrefix), AppsBlob(l.apps))
       .Put(FinName(ExcludedAppsPrefix), IdsBlob(l.excluded))
       .Put(FinName(ErrorAppsPrefix), IdsBlob(l.errors))
  }

  /** Each ledger's latest checkpoint, if any, holds the kind of value that ledger is. */
  ghost predicate LoadsTyped(dir: Dict<string, Blob>) {
    && dir.Valid()
    && (Latest(dir.keys, AppsDictPrefix).Some? ==>
          var b := dir.entries[Latest(dir.keys, AppsDictPrefix).value]; b.AppsBlob? && b.apps.Valid())
    && (Latest(dir.keys, ExcludedAppsPrefix).Some? ==> dir.entries[Latest(dir.keys, ExcludedAppsPrefix).value].IdsBlob?)
    && (Latest(dir.keys, ErrorAppsPrefix).Some? ==> dir.entries[Latest(dir.keys, ErrorAppsPrefix).value].IdsBlob?)
  }

  /** The loading step of `download_trend`: each ledger from its latest checkpoint, else empty. */
  function LoadCheckpoints(dir: Dict<string, Blob>): (l: Ledgers)
    requires LoadsTyped(dir)
    ensures l.apps.Valid()
    ensures Latest(dir.keys, AppsDictPrefix).None? ==> l.apps == Empty()
    ensures Latest(dir.keys, ExcludedAppsPrefix).None? ==> l.excluded == []
    ensures Latest(dir.keys, ErrorAppsPrefix).None? ==> l.errors == []
  {
    var a := Latest(dir.keys, AppsDictPrefix);
    var e := Latest(dir.keys, ExcludedAppsPrefix);
    var r := Latest(dir.keys, ErrorAppsPrefix);
    Ledgers(if a.Some? then dir.entries[a.value].apps else Empty(),
            if e.Some? then dir.entries[e.value].ids else [],
            if r.Some? then dir.entries[r.value].ids else [])
  }

  /** The apps checkpoint name is a checkpoint of the apps ledger only. */
  lemma AppsFinNameIsOwn()
    ensures IsCheckpointOf(FinName(AppsDictPrefix), AppsDictPrefix)
    ensures !IsCheckpointOf(FinName(AppsDictPrefix), ExcludedAppsPrefix)
    ensures !IsCheckpointOf(FinName(AppsDictPrefix), ErrorAppsPrefix)
  {
    var a := FinName(AppsDictPrefix);
    assert OccursAt(a, AppsDictPrefix, 0) && OccursAt(a, "ckpt", 10);
    FinSuffixChars();
    assert 'x' !in AppsDictPrefix && 'o' !in AppsDictPrefix;
    NotContainedByChar(a, ExcludedAppsPrefix, 'x');
    NotContainedByChar(a, ErrorAppsPrefix, 'o');
  }

  /** The excluded-list checkpoint name is a checkpoint of the excluded ledger only. */
  lemma ExcludedFinNameIsOwn()
    ensures IsCheckpointOf(FinName(ExcludedAppsPrefix), ExcludedAppsPrefix)
    ensures !IsCheckpointOf(FinName(ExcludedAppsPrefix), AppsDictPrefix)
    ensures !IsCheckpointOf(FinName(ExcludedAppsPrefix), ErrorAppsPrefix)
  {
    var e := FinName(ExcludedAppsPrefix);
    assert OccursAt(e, ExcludedAppsPrefix, 0) && OccursAt(e, "ckpt", 19);
    FinSuffixChars();
    ExcludedFinNameSeparators();
    NotContainedByPair(e, AppsDictPrefix, 4);
    assert 'o' !in ExcludedAppsPrefix;
    NotContainedByChar(e, ErrorAppsPrefix, 'o');
  }

  /** In the excluded-list checkpoint name no `_` is followed by `d`. */
  lemma ExcludedFinNameSeparators()
    ensures var e := FinName(ExcludedAppsPrefix);
            forall i :: 0 <= i < |e| - 1 ==> e[i] != '_' || e[i + 1] != 'd'
  {
    var e := FinName(ExcludedAppsPrefix);
    forall i | 0 <= i < |e| - 1 ensures e[i] != '_' || e[i + 1] != 'd' {
      if e[i] == '_' {
        assert i == 8 || i == 13;
      }
    }
  }

  /** The error-list checkpoint name is a checkpoint of the error ledger only. */
  lemma ErrorFinNameIsOwn()
    ensures IsCheckpointOf(FinName(ErrorAppsPrefix), ErrorAppsPrefix)
    ensures !IsCheckpointOf(FinName(ErrorAppsPrefix), AppsDictPrefix)
    ensures !IsCheckpointOf(FinName(ErrorAppsPrefix), ExcludedAppsPrefix)
  {
    var r := FinName(ErrorAppsPrefix);
    assert OccursAt(r, ErrorAppsPrefix, 0) && OccursAt(r, "ckpt", 16);
    FinSuffixChars();
    assert 'd' !in ErrorAppsPrefix && 'x' !in ErrorAppsPrefix;
    NotContainedByChar(r, AppsDictPrefix, 'd');
    NotContainedByChar(r, ExcludedAppsPrefix, 'x');
  }

  lemma FinSuffixChars()
    ensures 'd' !in "-ckpt-fin.p" && 'o' !in "-ckpt-fin.p" && 'x' !in "-ckpt-fin.p"
  {
  }

  /** No checkpoint of `prefix` already in the folder sorts after the name `save_checkpoints` uses. */
  ghost predicate FinIsLatestOf(dir: Dict<string, Blob>, prefix: string) {
    forall n :: n in dir.keys && IsCheckpointOf(n, prefix) ==> !StrLt(FinName(prefix), n)
  }

  lemma LatestAfterSave(dir: Dict<string, Blob>, l: Ledgers, prefix: string)
    requires dir.Valid()
    requires prefix == AppsDictPrefix || prefix == ExcludedAppsPrefix || prefix == ErrorAppsPrefix
    requires FinIsLatestOf(dir, prefix)
    ensures Latest(SaveCheckpoints(dir, l).keys, prefix) == Some(FinName(prefix))
  {
    var d := SaveCheckpoints(dir, l);
    var fin := FinName(prefix);
    FinIsOnlyOwnCheckpoint(prefix);
    assert forall n :: n in d.keys ==> n in dir.keys || IsFinName(n);
    assert fin in d.keys;
    var v := Latest(d.keys, prefix).value;
    StrLtIrreflexive(fin);
    assert forall n :: n in d.keys && IsCheckpointOf(n, prefix) ==> !StrLt(fin, n);
    StrLtTrichotomous(v, fin);
  }

  predicate IsFinName(n: string) {
    n == FinName(AppsDictPrefix) || n == FinName(ExcludedAppsPrefix) || n == FinName(ErrorAppsPrefix)
  }

  lemma FinIsOnlyOwnCheckpoint(prefix: string)
    requires prefix == AppsDictPrefix || prefix == ExcludedAppsPrefix || prefix == ErrorAppsPrefix
    ensures IsCheckpointOf(FinName(prefix), prefix)
    ensures forall n :: IsFinName(n) && IsCheckpointOf(n, prefix) ==> n == FinName(prefix)
  {
    AppsFinNameIsOwn();
    ExcludedFinNameIsOwn();
    ErrorFinNameIsOwn();
  }

  /**
   * What `save_checkpoints` writes is what the next run loads, provided no
   * checkpoint already in the folder sorts after the fixed `-ckpt-fin.p` names.
   */
  lemma SaveThenLoad(dir: Dict<string, Blob>, l: Ledgers)
    requires dir.Valid() && l.apps.Valid()
    requires FinIsLatestOf(dir, AppsDictPrefix)
    requires FinIsLatestOf(dir, ExcludedAppsPrefix)
    requires FinIsLatestOf(dir, ErrorAppsPrefix)
    ensures LoadsTyped(SaveCheckpoints(dir, l))
    ensures LoadCheckpoints(SaveCheckpoints(dir, l)) == l
  {
    var d := SaveCheckpoints(dir, l);
    LatestAfterSave(dir, l, AppsDictPrefix);
    LatestAfterSave(dir, l, ExcludedAppsPrefix);
    LatestAfterSave(dir, l, ErrorAppsPrefix);
    FinNamesDistinct();
    assert d.entries[FinName(AppsDictPrefix)] == AppsBlob(l.apps);
    assert d.entries[FinName(ExcludedAppsPrefix)] == IdsBlob(l.excluded);
    assert d.entries[FinName(ErrorAppsPrefix)] == IdsBlob(l.errors);
  }

  lemma FinNamesDistinct()
    ensures FinName(AppsDictPrefix) != FinName(ExcludedAppsPrefix)
    ensures FinName(AppsDictPrefix) != FinName(ErrorAppsPrefix)
    ensures FinName(ExcludedAppsPrefix) != FinName(ErrorAppsPrefix)
  {
    assert FinName(AppsDictPrefix)[1] == 'p';
    assert FinName(ExcludedAppsPrefix)[1] == 'x';
    assert FinName(ErrorAppsPrefix)[1] == 'r';
  }
}
