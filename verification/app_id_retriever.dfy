/**
 * `get_app_ids`: the ids of every named application in Steam's app list.
 * The HTTP request is a parameter: its status code and the decoded JSON
 * body, or `None` when decoding fails.
 */
module AppIdRetriever {
  import opened Base

  /** The `name` member of one app entry. */
  datatype Name = Missing | Null | Text(s: string)

  /** One element of `applist.apps`; `appid` is `None` when the key is absent. */
  datatype AppEntry = AppEntry(appid: Option<int>, name: Name)

  /** The decoded body as `data['applist']['apps']` sees it. */
  datatype AppList = NoAppList | NoApps | Apps(entries: seq<AppEntry>)

  /** How `get_app_ids` ends. */
  datatype Outcome =
    | ReturnedNone              // status other than 200
    | ReturnedEmptyDict         // the body is not JSON
    | KeyError(key: string)     // a subscript found no such key
    | ReturnedIds(ids: seq<int>)

  /** Python's truth value of a name: `None` and the empty string are false. */
  predicate Truthy(n: Name) {
    n.Text? && n.s != ""
  }

  predicate IsNamed(e: AppEntry) {
    Truthy(e.name)
  }

  /** An entry whose `appid` or `name` subscript raises. */
  predicate Malformed(e: AppEntry) {
    e.appid.None? || e.name.Missing?
  }

  /** The `for` loop over the first entries: the ids appended so far, or the `KeyError` that stopped it. */
  function Collect(entries: seq<AppEntry>): (r: Outcome)
    ensures r.ReturnedIds? || r.KeyError?
    ensures r.ReturnedIds? ==> |r.ids| <= |entries|
  {
    if entries == [] then ReturnedIds([])
    else
      var e := entries[|entries| - 1];
      match Collect(entries[..|entries| - 1])
      case ReturnedIds(ids) =>
        if e.appid.None? then KeyError("appid")
        else if e.name.Missing? then KeyError("name")
        else if !IsNamed(e) then ReturnedIds(ids)
        else ReturnedIds(ids + [e.appid.value])
      case other => other
  }

  /** A `KeyError` ends the loop: later entries do not change the outcome. */
  lemma {:induction false} CollectStopsAtError(entries: seq<AppEntry>, k: nat)
    requires k <= |entries|
    requires Collect(entries[..k]).KeyError?
    ensures Collect(entries) == Collect(entries[..k])
    decreases |entries| - k
  {
    if k < |entries| {
      assert entries[..k + 1][..k] == entries[..k];
      CollectStopsAtError(entries, k + 1);
    } else {
      assert entries[..k] == entries;
    }
  }

  /** `get_app_ids()`. */
  method GetAppIds(status: int, body: Option<AppList>) returns (r: Outcome)
    ensures r == ReturnedNone <==> status != 200
    ensures r == ReturnedEmptyDict <==> status == 200 && body.None?
    ensures status == 200 && body == Some(NoAppList) ==> r == KeyError("applist")
    ensures status == 200 && body == Some(NoApps) ==> r == KeyError("apps")
    ensures status == 200 && body.Some? && body.value.Apps? ==> r == Collect(body.value.entries)
  {
    if status != 200 {
      return ReturnedNone;
    }
    if body.None? {
      return ReturnedEmptyDict;
    }
    var data := body.value;
    if data.NoAppList? {
      return KeyError("applist");
    }
    if data.NoApps? {
      return KeyError("apps");
    }
    var apps := data.entries;
    var ids: seq<int> := [];
    var i := 0;
    while i < |apps|
      invariant 0 <= i <= |apps|
      invariant Collect(apps[..i]) == ReturnedIds(ids)
    {
      var app := apps[i];
      assert apps[..i + 1][..i] == apps[..i];
      if app.appid.None? {
        CollectStopsAtError(apps, i + 1);
        return KeyError("appid");
      }
      var appid := app.appid.value;
      if app.name.Missing? {
        CollectStopsAtError(apps, i + 1);
        return KeyError("name");
      }
      var name := app.name;
      if !Truthy(name) {
        i := i + 1;
        continue;
      }
      ids := ids + [appid];
      i := i + 1;
    }
    assert apps[..i] == apps;
    return ReturnedIds(ids);
  }

  /** The loop raises exactly when some entry lacks `appid` or `name`. */
  lemma {:induction false} CollectRaises(entries: seq<AppEntry>)
    ensures Collect(entries).KeyError? <==> exists i :: 0 <= i < |entries| && Malformed(entries[i])
  {
    if entries != [] {
      var p := entries[..|entries| - 1];
      CollectRaises(p);
      assert forall i :: 0 <= i < |p| ==> p[i] == entries[i];
      if exists i :: 0 <= i < |entries| && Malformed(entries[i]) {
        var i :| 0 <= i < |entries| && Malformed(entries[i]);
        if i < |p| {
          assert Malformed(p[i]);
        }
      }
    }
  }

  /** The positions of the named entries, in increasing order. */
  function NamedPositions(entries: seq<AppEntry>): (idx: seq<nat>)
    ensures forall k :: 0 <= k < |idx| ==> idx[k] < |entries|
  {
    if entries == [] then []
    else
      var n := |entries| - 1;
      NamedPositions(entries[..n]) + (if IsNamed(entries[n]) then [n] else [])
  }

  /**
   * `ids` lists the `appid` of the entries at `idx`, which are exactly the
   * named entries, each once and in input order.
   */
  ghost predicate PicksNamed(entries: seq<AppEntry>, ids: seq<int>, idx: seq<nat>) {
    && |idx| == |ids|
    && (forall k :: 0 <= k < |idx| ==>
          && idx[k] < |entries|
          && IsNamed(entries[idx[k]])
          && entries[idx[k]].appid == Some(ids[k]))
    && (forall k, l :: 0 <= k < l < |idx| ==> idx[k] < idx[l])
    && (forall i :: 0 <= i < |entries| && IsNamed(entries[i]) ==> i in idx)
  }

  lemma PicksNamedSnoc(entries: seq<AppEntry>, ids: seq<int>, idx: seq<nat>, e: AppEntry)
    requires PicksNamed(entries, ids, idx)
    requires e.appid.Some?
    ensures IsNamed(e) ==> PicksNamed(entries + [e], ids + [e.appid.value], idx + [|entries|])
    ensures !IsNamed(e) ==> PicksNamed(entries + [e], ids, idx)
  {
    var es := entries + [e];
    assert forall i :: 0 <= i < |entries| ==> es[i] == entries[i];
  }

  /**
   * When no entry raises, the result is the `appid` of exactly the named
   * entries, in input order; an empty or null name drops its entry, and a
   * repeated id is kept as often as it is named.
   */
  lemma {:induction false} CollectPicksNamed(entries: seq<AppEntry>)
    requires forall i :: 0 <= i < |entries| ==> !Malformed(entries[i])
    ensures Collect(entries).ReturnedIds?
    ensures PicksNamed(entries, Collect(entries).ids, NamedPositions(entries))
  {
    if entries != [] {
      var n := |entries| - 1;
      var p := entries[..n];
      var e := entries[n];
      assert forall i :: 0 <= i < |p| ==> p[i] == entries[i];
      CollectPicksNamed(p);
      var ids := Collect(p).ids;
      assert Collect(entries) == if IsNamed(e) then ReturnedIds(ids + [e.appid.value]) else ReturnedIds(ids);
      assert NamedPositions(entries) == NamedPositions(p) + if IsNamed(e) then [n] else [];
      assert p + [e] == entries;
      PicksNamedSnoc(p, ids, NamedPositions(p), e);
    } else {
      assert Collect(entries) == ReturnedIds([]);
    }
  }

  /** Every named entry's id is in the result, and only those. */
  lemma IdsAreNamed(entries: seq<AppEntry>, id: int)
    requires forall i :: 0 <= i < |entries| ==> !Malformed(entries[i])
    ensures Collect(entries).ReturnedIds?
    ensures id in Collect(entries).ids <==>
              exists i :: 0 <= i < |entries| && IsNamed(entries[i]) && entries[i].appid == Some(id)
  {
    CollectPicksNamed(entries);
    var ids := Collect(entries).ids;
    var idx := NamedPositions(entries);
    if id in ids {
      var k :| 0 <= k < |ids| && ids[k] == id;
      assert IsNamed(entries[idx[k]]) && entries[idx[k]].appid == Some(id);
    }
    if exists i :: 0 <= i < |entries| && IsNamed(entries[i]) && entries[i].appid == Some(id) {
      var i :| 0 <= i < |entries| && IsNamed(entries[i]) && entries[i].appid == Some(id);
      assert i in idx;
      var k :| 0 <= k < |idx| && idx[k] == i;
      assert ids[k] == id;
    }
  }

  /** Two named entries with the same id give that id twice: duplicates are not removed. */
  lemma DuplicatesKept(entries: seq<AppEntry>, i: nat, j: nat)
    requires forall t :: 0 <= t < |entries| ==> !Malformed(entries[t])
    requires i < j < |entries| && IsNamed(entries[i]) && IsNamed(entries[j])
    requires entries[i].appid == entries[j].appid
    ensures Collect(entries).ReturnedIds?
    ensures var ids := Collect(entries).ids;
            exists k, l :: 0 <= k < l < |ids| && ids[k] == ids[l] && Some(ids[k]) == entries[i].appid
  {
    CollectPicksNamed(entries);
    var ids := Collect(entries).ids;
    var idx := NamedPositions(entries);
    assert i in idx && j in idx;
    var k :| 0 <= k < |idx| && idx[k] == i;
    var l :| 0 <= l < |idx| && idx[l] == j;
    assert k < l;
  }
}
