/**
 * `download_trend` as an object: the local state of one call (the three
 * ledgers, the `done` counter, the callbacks made, the requests sent and the
 * two folders it writes) and the loops that update it. The network, the stop
 * event and the existing files are fixed when the object is made.
 */
module TrendCrawl {
  import opened Base
  import opened Text
  import opened Dicts
  import opened SteamModel
  import opened TrendCheckpoints
  import opened TrendListing
  import opened TrendFetch

  /** How a call ends: normally, on the stop event, by an exception, or because a script ran out. */
  datatype Outcome = Completed | Stopped | Failed(error: Raise) | ScriptEnded | SingleApp(details: Details)

  /** `stop_event and stop_event.is_set()` at the `n`-th check; no event, or none scripted, is never set. */
  predicate StopAt(flags: seq<bool>, n: nat) {
    n < |flags| && flags[n]
  }

  /** The callback as the crawl hands it to `get_app_details`. */
  function NotifyOf(hasCallback: bool, done: int): (n: Notify)
    ensures n.Silent? <==> !hasCallback
    ensures n.Bound? ==> n.done == done
  {
    if hasCallback then Bound(done) else Silent
  }

  /** What the single-app mode returns, or how it ends. */
  function SingleOutcome(f: Fetch): (out: Outcome)
    ensures f.Returned? <==> out.SingleApp?
    ensures f.Returned? ==> out.details == f.details
    ensures f.Raised? <==> out.Failed?
  {
    match f
    case Returned(d) => SingleApp(d)
    case Raised(e) => Failed(e)
    case Pending => ScriptEnded
  }

  /** The number of entries whose `appid` is truthy. */
  function TruthyCount(items: seq<SearchItem>): (n: nat)
    ensures n <= |items|
  {
    if items == [] then 0 else TruthyCount(items[..|items| - 1]) + (if TruthyId(items[|items| - 1].appid) then 1 else 0)
  }

  /** Without a callback, fetching makes no callbacks. */
  lemma {:induction false} SilentFetchIsQuiet(rs: seq<DetailResponse>, from: nat, appid: int)
    requires from <= |rs|
    ensures FetchEvents(rs, from, appid, Silent) == []
    decreases |rs| - from
  {
    if from < |rs| {
      SilentFetchIsQuiet(rs, from + 1, appid);
    }
  }

  /** Counting one entry more, and a prefix counts no more than the whole. */
  lemma PrefixCounts(items: seq<SearchItem>, t: nat)
    requires t < |items|
    ensures TruthyCount(items[..t + 1]) == TruthyCount(items[..t]) + (if TruthyId(items[t].appid) then 1 else 0)
    ensures TruthyCount(items[..t + 1]) <= TruthyCount(items)
  {
    assert items[..t + 1][..t] == items[..t];
    TruthyCountPrefix(items, t + 1);
  }

  lemma {:induction false} TruthyCountPrefix(items: seq<SearchItem>, t: nat)
    requires t <= |items|
    ensures TruthyCount(items[..t]) <= TruthyCount(items)
    decreases |items|
  {
    if t < |items| {
      TruthyCountPrefix(items[..|items| - 1], t);
      assert items[..|items| - 1][..t] == items[..t];
    } else {
      assert items[..t] == items;
    }
  }

  /** The entries of the pages answered by `rs[lo..hi]`, one page after another. */
  function AllPages(rs: seq<SearchResponse>, lo: nat, hi: nat): (items: seq<SearchItem>)
    requires lo <= hi <= |rs|
    decreases hi
  {
    if hi == lo then [] else AllPages(rs, lo, hi - 1) + PageItems(rs[hi - 1])
  }

  /**
   * A search request: the category's update and the page number. The
   * parameters it sends are `PageParams(update, page)`.
   */
  datatype SearchRequest = SearchRequest(update: Params, page: int)

  /** The requests of pages `1..n`, in that order. */
  function PageRequests(update: Params, n: nat): (rs: seq<SearchRequest>)
    ensures |rs| == n
    ensures forall t :: 0 <= t < n ==> rs[t] == SearchRequest(update, t + 1)
  {
    if n == 0 then [] else PageRequests(update, n - 1) + [SearchRequest(update, n)]
  }

  /**
   * The first `n` pages of a category have been requested, in order, after
   * the requests `log0`, and `items` holds their entries.
   */
  ghost predicate PagesSoFar(rs: seq<SearchResponse>, log0: seq<SearchRequest>, log: seq<SearchRequest>, update: Params,
                             n: nat, items: seq<SearchItem>) {
    && |log| == |log0| + n <= |rs|
    && log == log0 + PageRequests(update, n)
    && items == AllPages(rs, |log0|, |log|)
  }

  /** Requesting page `n + 1` and collecting its entries. */
  lemma PagesSoFarStep(rs: seq<SearchResponse>, log0: seq<SearchRequest>, log: seq<SearchRequest>, update: Params,
                       n: nat, items: seq<SearchItem>, tagged: seq<SearchItem>)
    requires PagesSoFar(rs, log0, log, update, n, items)
    requires |log| < |rs| && tagged == PageItems(rs[|log|])
    ensures PagesSoFar(rs, log0, log + [SearchRequest(update, n + 1)], update, n + 1, items + tagged)
  {
    AppendAssoc(log0, PageRequests(update, n), [SearchRequest(update, n + 1)]);
  }

  /** Every callback has `total = 500`, and `done` never decreases from one callback to the next. */
  ghost predicate ProgressOrdered(events: seq<Progress>, done: int) {
    && (forall i :: 0 <= i < |events| ==> events[i].total == Total && events[i].done <= done)
    && (forall i :: 0 < i < |events| ==> events[i - 1].done <= events[i].done)
  }

  lemma ProgressExtend(events: seq<Progress>, done: int, status: Status)
    requires ProgressOrdered(events, done)
    ensures ProgressOrdered(events + [Progress(Total, done, status)], done)
  {
    var all := events + [Progress(Total, done, status)];
    assert forall i :: 0 <= i < |events| ==> all[i] == events[i];
  }

  /**
   * The loop has reached answer `at` and made the callbacks `seen`, and what
   * `get_app_details` still does on the answers from `at` on completes the
   * whole call `whole` with its callbacks `all`; the call started at answer `start`.
   */
  ghost predicate Resumes(whole: FetchRun, all: seq<Progress>, rs: seq<DetailResponse>, start: nat, at: nat, appid: int,
                          notify: Notify, seen: seq<Progress>)
    requires start <= at <= |rs|
  {
    var tail := FetchSpec(rs, at, appid, notify);
    && whole.result == tail.result
    && whole.answered == at - start + tail.answered
    && all == seen + FetchEvents(rs, at, appid, notify)
  }

  /** One more answer: a retry leaves the rest of the call to the remaining answers, a final answer ends it. */
  lemma ResumeStep(whole: FetchRun, all: seq<Progress>, rs: seq<DetailResponse>, start: nat, at: nat, appid: int,
                   notify: Notify, seen: seq<Progress>)
    requires start <= at < |rs| && Resumes(whole, all, rs, start, at, appid, notify, seen)
    ensures var step := AnswerStep(rs[at], appid, notify);
            && (step.Retry? ==> Resumes(whole, all, rs, start, at + 1, appid, notify, seen + step.events))
            && (step.Final? ==> whole == FetchRun(step.result, at + 1 - start) && all == seen + step.events)
  {
    var step := AnswerStep(rs[at], appid, notify);
    if step.Retry? {
      AppendAssoc(seen, step.events, FetchEvents(rs, at + 1, appid, notify));
    }
  }

  /** No answer left: the call is still retrying. */
  lemma ResumeEnd(whole: FetchRun, all: seq<Progress>, rs: seq<DetailResponse>, start: nat, appid: int, notify: Notify,
                  seen: seq<Progress>)
    requires start <= |rs| && Resumes(whole, all, rs, start, |rs|, appid, notify, seen)
    ensures whole == FetchRun(Pending, |rs| - start) && all == seen
  {
    assert seen + [] == seen;
  }

  /** Keys kept through two steps are kept. */
  lemma KeysKept<V>(a: map<string, V>, b: map<string, V>, c: map<string, V>)
    requires forall n :: n in a ==> n in b
    requires forall n :: n in b ==> n in c
    ensures forall n :: n in a ==> n in c
  {
  }

  /** The artifacts of the first `c` categories stay when the folder only gains names and the next one is added. */
  lemma ArtifactsKept<V>(params: seq<Params>, date: string, c: nat, a: map<string, V>, b: map<string, V>)
    requires c < |params|
    requires forall d :: 0 <= d < |params| ==> "filter" in params[d].entries && params[d].entries["filter"].StrParam?
    requires forall d :: 0 <= d < c ==> ArtifactName(params[d], date) in a
    requires forall n :: n in a ==> n in b
    requires ArtifactName(params[c], date) in b
    ensures forall d :: 0 <= d < c + 1 ==> ArtifactName(params[d], date) in b
  {
  }

  /** Every entry with a truthy id has its app in `apps_dict` or on the excluded list. */
  ghost predicate Recorded(items: seq<SearchItem>, l: Ledgers) {
    forall i :: 0 <= i < |items| && TruthyId(items[i].appid) ==>
      items[i].appid.value in l.apps.entries || items[i].appid.value in l.excluded
  }

  /** Growing ledgers keep every recorded entry recorded. */
  lemma RecordedGrows(items: seq<SearchItem>, a: Ledgers, b: Ledgers)
    requires Recorded(items, a) && Grows(a, b)
    ensures Recorded(items, b)
  {
    forall i | 0 <= i < |items| && TruthyId(items[i].appid) && items[i].appid.value in a.excluded
      ensures items[i].appid.value in b.excluded
    {
      var k :| 0 <= k < |a.excluded| && a.excluded[k] == items[i].appid.value;
      assert b.excluded[k] == a.excluded[k];
    }
  }

  lemma RecordedAppend(xs: seq<SearchItem>, ys: seq<SearchItem>, l: Ledgers)
    requires Recorded(xs, l) && Recorded(ys, l)
    ensures Recorded(xs + ys, l)
  {
    var all := xs + ys;
    assert forall i :: 0 <= i < |xs| ==> all[i] == xs[i];
    assert forall i :: |xs| <= i < |all| ==> all[i] == ys[i - |xs|];
  }

  /** No stop check from the `lo`-th up to the `hi`-th found the stop event set. */
  predicate NoStopBetween(flags: seq<bool>, lo: nat, hi: nat) {
    forall k :: lo <= k < hi ==> !StopAt(flags, k)
  }

  /** What the item loop is given: whether there is a callback, the stop event's answers and the `appdetails` answers. */
  datatype ItemInputs = ItemInputs(hasCallback: bool, stopFlags: seq<bool>, detailScript: seq<DetailResponse>)

  /** The part of the crawl's state the item loop reads and writes. */
  datatype ItemState = ItemState(stopChecks: nat, detailRequests: nat, ledgers: Ledgers, done: int)

  ghost predicate Fits(inputs: ItemInputs, s: ItemState) {
    s.detailRequests <= |inputs.detailScript| && s.ledgers.apps.Valid()
  }

  /**
   * The body of the item loop for a truthy id: `get_app_details` on the next
   * answers, the ledger update, and `done += 1` when there is a callback.
   */
  function FetchItem(inputs: ItemInputs, s: ItemState, aid: int): (r: (Outcome, ItemState))
    requires Fits(inputs, s)
    ensures Fits(inputs, r.1) && Grows(s.ledgers, r.1.ledgers) && r.1.stopChecks == s.stopChecks
    ensures r.0.Completed? || r.0.Failed? || r.0.ScriptEnded?
    ensures r.0.Completed? ==> aid in r.1.ledgers.apps.entries || aid in r.1.ledgers.excluded
    ensures !r.0.Completed? ==> r.1.ledgers == s.ledgers && r.1.done == s.done
    ensures r.0.Completed? ==>
              var run := FetchSpec(inputs.detailScript, s.detailRequests, aid, NotifyOf(inputs.hasCallback, s.done));
              && run.result.Returned?
              && Record(s.ledgers, aid, run.result.details) == Ok(r.1.ledgers)
              && r.1.done == s.done + (if inputs.hasCallback then 1 else 0)
  {
    FetchSpecAnswered(inputs.detailScript, s.detailRequests, aid, NotifyOf(inputs.hasCallback, s.done));
    var run := FetchSpec(inputs.detailScript, s.detailRequests, aid, NotifyOf(inputs.hasCallback, s.done));
    var fetched := s.(detailRequests := s.detailRequests + run.answered);
    match run.result
    case Pending => (ScriptEnded, fetched)
    case Raised(e) => (Failed(e), fetched)
    case Returned(d) =>
      match Record(s.ledgers, aid, d)
      case Err(e) => (Failed(e), fetched)
      case Ok(l) => (Completed, fetched.(ledgers := l, done := s.done + if inputs.hasCallback then 1 else 0))
  }

  /** One pass of the item loop: the stop check, skipping a falsy id, then `FetchItem`. */
  function ItemStep(inputs: ItemInputs, s: ItemState, item: SearchItem): (r: (Outcome, ItemState))
    requires Fits(inputs, s)
    ensures Fits(inputs, r.1) && Grows(s.ledgers, r.1.ledgers) && r.1.stopChecks == s.stopChecks + 1
    ensures r.0.Completed? || r.0.Stopped? || r.0.Failed? || r.0.ScriptEnded?
    ensures r.0.Stopped? <==> StopAt(inputs.stopFlags, s.stopChecks)
    ensures r.0.Stopped? || !TruthyId(item.appid) ==> r.1.ledgers == s.ledgers && r.1.detailRequests == s.detailRequests
    ensures r.0.Completed? ==> r.1.done == s.done + (if inputs.hasCallback && TruthyId(item.appid) then 1 else 0)
    ensures !r.0.Completed? ==> r.1.done == s.done
    ensures r.0.Completed? && TruthyId(item.appid) ==>
              var run := FetchSpec(inputs.detailScript, s.detailRequests, item.appid.value, NotifyOf(inputs.hasCallback, s.done));
              && run.result.Returned?
              && Record(s.ledgers, item.appid.value, run.result.details) == Ok(r.1.ledgers)
    ensures r.0.Completed? ==> Recorded([item], r.1.ledgers)
  {
    var checked := s.(stopChecks := s.stopChecks + 1);
    if StopAt(inputs.stopFlags, s.stopChecks) then (Stopped, checked)
    else if !TruthyId(item.appid) then (Completed, checked)
    else FetchItem(inputs, checked, item.appid.value)
  }

  /** The item loop of one page, item after item, until an item does not complete. */
  function ItemsSpec(inputs: ItemInputs, s: ItemState, items: seq<SearchItem>): (r: (Outcome, ItemState))
    requires Fits(inputs, s)
    ensures Fits(inputs, r.1) && Grows(s.ledgers, r.1.ledgers)
    decreases |items|
  {
    if items == [] then (Completed, s)
    else
      var first := ItemStep(inputs, s, items[0]);
      if !first.0.Completed? then first
      else
        var rest := ItemsSpec(inputs, first.1, items[1..]);
        GrowsTransitive(s.ledgers, first.1.ledgers, rest.1.ledgers);
        rest
  }

  /** The item loop takes its first item, and goes on with the rest only when that one completes. */
  lemma ItemsSpecFirst(inputs: ItemInputs, s: ItemState, items: seq<SearchItem>)
    requires Fits(inputs, s) && items != []
    ensures var first := ItemStep(inputs, s, items[0]);
            ItemsSpec(inputs, s, items) == if first.0.Completed? then ItemsSpec(inputs, first.1, items[1..]) else first
  {
  }

  /** A page whose item loop completes has every entry with a truthy id in `apps_dict` or on the excluded list. */
  lemma {:induction false} ItemsSpecRecords(inputs: ItemInputs, s: ItemState, items: seq<SearchItem>)
    requires Fits(inputs, s)
    ensures ItemsSpec(inputs, s, items).0.Completed? ==> Recorded(items, ItemsSpec(inputs, s, items).1.ledgers)
    ensures ItemsSpec(inputs, s, items).0.Completed? ==>
              NoStopBetween(inputs.stopFlags, s.stopChecks, ItemsSpec(inputs, s, items).1.stopChecks)
    decreases |items|
  {
    if items != [] {
      var first := ItemStep(inputs, s, items[0]);
      if first.0.Completed? {
        var rest := ItemsSpec(inputs, first.1, items[1..]);
        ItemsSpecRecords(inputs, first.1, items[1..]);
        assert ItemsSpec(inputs, s, items) == rest;
        if rest.0.Completed? {
          RecordedGrows([items[0]], first.1.ledgers, rest.1.ledgers);
          RecordedAppend([items[0]], items[1..], rest.1.ledgers);
          assert [items[0]] + items[1..] == items;
        }
      }
    }
  }

  /**
   * The search requests of the categories in `params` from position `from`
   * on, in order: each category whose artifact is already among `written` is
   * skipped, and each crawled one asks for pages 1 to 4 and adds its artifact.
   */
  function CategoryRequests(params: seq<Params>, from: nat, date: string, written: set<string>): seq<SearchRequest>
    requires from <= |params|
    requires forall d :: 0 <= d < |params| ==> "filter" in params[d].entries && params[d].entries["filter"].StrParam?
    decreases |params| - from
  {
    if from == |params| then []
    else
      var name := ArtifactName(params[from], date);
      if name in written then CategoryRequests(params, from + 1, date, written)
      else PageRequests(params[from], 4) + CategoryRequests(params, from + 1, date, written + {name})
  }

  /**
   * The requests of the categories before `c` have been sent after `log0`,
   * starting from the artifacts `written0`, and `written` holds the
   * artifacts now present: the rest follows from category `c` on.
   */
  ghost predicate RequestsSoFar(params: seq<Params>, date: string, c: nat, log0: seq<SearchRequest>, written0: set<string>,
                                log: seq<SearchRequest>, written: set<string>)
    requires c <= |params|
    requires forall d :: 0 <= d < |params| ==> "filter" in params[d].entries && params[d].entries["filter"].StrParam?
  {
    log0 + CategoryRequests(params, 0, date, written0) == log + CategoryRequests(params, c, date, written)
  }

  /** Category `c` done: skipped when its artifact was present, otherwise its four pages sent and its artifact added. */
  lemma RequestsStep<V>(params: seq<Params>, date: string, c: nat, log0: seq<SearchRequest>, written0: set<string>,
                        log: seq<SearchRequest>, dir: map<string, V>, log': seq<SearchRequest>, dir': map<string, V>)
    requires c < |params|
    requires forall d :: 0 <= d < |params| ==> "filter" in params[d].entries && params[d].entries["filter"].StrParam?
    requires RequestsSoFar(params, date, c, log0, written0, log, dir.Keys)
    requires ArtifactName(params[c], date) in dir ==> log' == log && dir' == dir
    requires ArtifactName(params[c], date) !in dir ==>
               && log' == log + PageRequests(params[c], 4)
               && ArtifactName(params[c], date) in dir'
               && dir' == dir[ArtifactName(params[c], date) := dir'[ArtifactName(params[c], date)]]
    ensures RequestsSoFar(params, date, c + 1, log0, written0, log', dir'.Keys)
  {
    var name := ArtifactName(params[c], date);
    if name !in dir {
      assert dir'.Keys == dir.Keys + {name};
      AppendAssoc(log, PageRequests(params[c], 4), CategoryRequests(params, c + 1, date, dir'.Keys));
    }
  }

  /**
   * From `dir0` to `dir`: no file is removed or overwritten, and every file
   * written holds entries whose truthy ids are recorded in `l`.
   */
  ghost predicate FolderKept(dir0: map<string, seq<SearchItem>>, dir: map<string, seq<SearchItem>>, l: Ledgers) {
    && (forall n :: n in dir0 ==> n in dir && dir[n] == dir0[n])
    && (forall n :: n in dir && n !in dir0 ==> Recorded(dir[n], l))
  }

  lemma FolderKeptTransitive(a: map<string, seq<SearchItem>>, b: map<string, seq<SearchItem>>, c: map<string, seq<SearchItem>>,
                             l: Ledgers, l': Ledgers)
    requires FolderKept(a, b, l) && FolderKept(b, c, l') && Grows(l, l')
    ensures FolderKept(a, c, l')
  {
    forall n | n in b && n !in a
      ensures Recorded(b[n], l')
    {
      RecordedGrows(b[n], l, l');
    }
  }

  /** Pages 1 to 4 of every category, one category after another. */
  function AllRequests(params: seq<Params>): (rs: seq<SearchRequest>)
    ensures |rs| == 4 * |params|
    ensures forall c, p :: 0 <= c < |params| && 1 <= p <= 4 ==> rs[4 * c + p - 1] == SearchRequest(params[c], p)
  {
    if params == [] then []
    else
      var rest := AllRequests(params[1..]);
      var all := PageRequests(params[0], 4) + rest;
      forall c, p | 1 <= c < |params| && 1 <= p <= 4
        ensures all[4 * c + p - 1] == SearchRequest(params[c], p)
      {
        assert all[4 * c + p - 1] == rest[4 * (c - 1) + p - 1];
        assert params[1..][c - 1] == params[c];
      }
      all
  }

  /**
   * When the artifacts of the categories from `from` on are all new and
   * pairwise different, none of them is skipped: each asks for its four
   * pages, in order.
   */
  lemma {:induction false} CategoryRequestsAllNew(params: seq<Params>, from: nat, date: string, written: set<string>)
    requires from <= |params|
    requires forall d :: 0 <= d < |params| ==> "filter" in params[d].entries && params[d].entries["filter"].StrParam?
    requires forall d :: from <= d < |params| ==> ArtifactName(params[d], date) !in written
    requires forall c, d :: from <= c < d < |params| ==> ArtifactName(params[c], date) != ArtifactName(params[d], date)
    ensures CategoryRequests(params, from, date, written) == AllRequests(params[from..])
    decreases |params| - from
  {
    if from < |params| {
      var name := ArtifactName(params[from], date);
      CategoryRequestsAllNew(params, from + 1, date, written + {name});
      assert params[from..][0] == params[from] && params[from..][1..] == params[from + 1..];
    }
  }

  class TrendDownload {
    /** `progress_callback` was given. */
    const hasCallback: bool
    /** `datetime.now().strftime('%Y%m%d')`. */
    const date: string
    /** The answers of the stop event, check by check. */
    const stopFlags: seq<bool>
    /** The answers of the search endpoint, request by request. */
    const searchScript: seq<SearchResponse>
    /** The answers of the `appdetails` endpoint, request by request. */
    const detailScript: seq<DetailResponse>

    var stopChecks: nat
    /** The parameters of every search request sent so far. */
    var searchLog: seq<SearchRequest>
    var detailRequests: nat
    var ledgers: Ledgers
    var done: int
    /** The callbacks made so far. */
    var events: seq<Progress>
    /** The files directly inside the checkpoint folder. */
    var checkpointDir: Dict<string, Blob>
    /** The files of this day's search-results folder. */
    var searchDir: Dict<string, seq<SearchItem>>

    ghost predicate Valid()
      reads this
    {
      && ledgers.apps.Valid() && checkpointDir.Valid() && searchDir.Valid()
      && |searchLog| <= |searchScript| && detailRequests <= |detailScript|
      && 0 <= done && ProgressOrdered(events, done)
    }

    constructor (hasCallback: bool, date: string, stopFlags: seq<bool>, searchScript: seq<SearchResponse>,
                 detailScript: seq<DetailResponse>, checkpointDir: Dict<string, Blob>,
                 searchDir: Dict<string, seq<SearchItem>>)
      requires checkpointDir.Valid() && searchDir.Valid()
      ensures Valid() && Fresh()
      ensures this.hasCallback == hasCallback && this.date == date && this.stopFlags == stopFlags
      ensures this.searchScript == searchScript && this.detailScript == detailScript
      ensures this.checkpointDir == checkpointDir && this.searchDir == searchDir
    {
      this.hasCallback := hasCallback;
      this.date := date;
      this.stopFlags := stopFlags;
      this.searchScript := searchScript;
      this.detailScript := detailScript;
      this.checkpointDir := checkpointDir;
      this.searchDir := searchDir;
      stopChecks := 0;
      searchLog := [];
      detailRequests := 0;
      ledgers := Ledgers(Empty(), [], []);
      done := 0;
      events := [];
    }

    /** Nothing has happened yet: the state at the start of `download_trend`. */
    ghost predicate Fresh()
      reads this
    {
      stopChecks == 0 && searchLog == [] && detailRequests == 0 && done == 0 && events == []
      && ledgers == Ledgers(Empty(), [], [])
    }

    /** What the item loop is given. */
    function Inputs(): ItemInputs {
      ItemInputs(hasCallback, stopFlags, detailScript)
    }

    /** The part of the state the item loop reads and writes. */
    function State(): ItemState
      reads this
    {
      ItemState(stopChecks, detailRequests, ledgers, done)
    }

    method StopRequested() returns (stop: bool)
      modifies this`stopChecks
      ensures stop == StopAt(stopFlags, old(stopChecks))
      ensures stopChecks == old(stopChecks) + 1
    {
      stop := StopAt(stopFlags, stopChecks);
      stopChecks := stopChecks + 1;
    }

    /** `get_app_details(appid)`: request until an answer other than 429 or 403. */
    method GetAppDetails(appid: int, notify: Notify) returns (f: Fetch)
      requires Valid() && (notify.Bound? ==> notify.done == done)
      modifies this`detailRequests, this`events
      ensures Valid()
      ensures var run := FetchSpec(detailScript, old(detailRequests), appid, notify);
              && f == run.result
              && detailRequests == old(detailRequests) + run.answered
      ensures events == old(events) + FetchEvents(detailScript, old(detailRequests), appid, notify)
    {
      ghost var start := detailRequests;
      ghost var whole := FetchSpec(detailScript, start, appid, notify);
      ghost var all := FetchEvents(detailScript, start, appid, notify);
      ghost var seen: seq<Progress> := [];
      f := Pending;
      var finished := false;
      while !finished && detailRequests < |detailScript|
        invariant Valid()
        invariant start <= detailRequests <= |detailScript|
        invariant events == old(events) + seen
        invariant !finished ==> f == Pending && Resumes(whole, all, detailScript, start, detailRequests, appid, notify, seen)
        invariant finished ==> whole == FetchRun(f, detailRequests - start) && all == seen
        decreases |detailScript| - detailRequests
      {
        f, finished, seen := FetchNext(appid, notify, whole, all, start, old(events), seen);
      }
      if !finished {
        ResumeEnd(whole, all, detailScript, start, appid, notify, seen);
      }
    }

    /** The body of the request loop: one request and the action on its answer. */
    method FetchNext(appid: int, notify: Notify, ghost whole: FetchRun, ghost all: seq<Progress>, ghost start: nat,
                     ghost events0: seq<Progress>, ghost seen: seq<Progress>)
      returns (f: Fetch, finished: bool, ghost seen': seq<Progress>)
      requires Valid() && (notify.Bound? ==> notify.done == done)
      requires start <= detailRequests < |detailScript|
      requires events == events0 + seen
      requires Resumes(whole, all, detailScript, start, detailRequests, appid, notify, seen)
      modifies this`detailRequests, this`events
      ensures Valid()
      ensures detailRequests == old(detailRequests) + 1
      ensures events == events0 + seen'
      ensures !finished ==> f == Pending && Resumes(whole, all, detailScript, start, detailRequests, appid, notify, seen')
      ensures finished ==> whole == FetchRun(f, detailRequests - start) && all == seen'
    {
      var r := detailScript[detailRequests];
      ResumeStep(whole, all, detailScript, start, detailRequests, appid, notify, seen);
      detailRequests := detailRequests + 1;
      var step := Answer(r, appid, notify);
      AppendAssoc(events0, seen, step.events);
      seen' := seen + step.events;
      f, finished := Pending, false;
      if step.Final? {
        f, finished := step.result, true;
      }
    }

    /** One pass of the loop body: act on one answer. */
    method Answer(r: DetailResponse, appid: int, notify: Notify) returns (step: Step)
      requires Valid() && (notify.Bound? ==> notify.done == done)
      modifies this`events
      ensures Valid()
      ensures step == AnswerStep(r, appid, notify)
      ensures events == old(events) + step.events
    {
      if r.status == 200 {
        if r.body.None? {
          return Final(Raised(JsonDecodeError), []);
        }
        var key := IntToString(appid);
        if key !in r.body.value {
          return Final(Raised(KeyError), []);
        }
        var envelope := r.body.value[key];
        if envelope.success.None? {
          return Final(Raised(KeyError), []);
        }
        match notify {
          case Unbound =>
            return Final(Raised(NameError), []);
          case Silent =>
            return Final(Returned(AppDetails(envelope)), []);
          case Bound(d) =>
            Notified(Fetched(appid));
            return Final(Returned(AppDetails(envelope)), [Progress(Total, d, Fetched(appid))]);
        }
      } else if r.status == 429 || r.status == 403 {
        match notify {
          case Unbound =>
            return Final(Raised(NameError), []);
          case Silent =>
            return Retry([]);
          case Bound(d) =>
            var status := if r.status == 429 then TooManyRequests(appid) else Forbidden(appid);
            Notified(status);
            return Retry([Progress(Total, d, status)]);
        }
      } else {
        match notify {
          case Unbound =>
            return Final(Raised(NameError), []);
          case Silent =>
            return Final(Returned(NoDetails), []);
          case Bound(d) =>
            Notified(ErrorIn(appid));
            return Final(Returned(NoDetails), [Progress(Total, d, ErrorIn(appid))]);
        }
      }
    }

    /** `progress_callback(total, done, status)`. */
    method Notified(status: Status)
      requires Valid()
      modifies this`events
      ensures Valid()
      ensures events == old(events) + [Progress(Total, done, status)]
    {
      ProgressExtend(events, done, status);
      events := events + [Progress(Total, done, status)];
    }

    /** One pass of the item loop: stop check, skip a falsy id, then fetch and record. */
    method ProcessItem(item: SearchItem) returns (out: Outcome)
      requires Valid()
      modifies this`stopChecks, this`detailRequests, this`events, this`ledgers, this`done
      ensures Valid()
      ensures old(events) <= events && (!hasCallback ==> events == old(events))
      ensures out.Stopped? || !TruthyId(item.appid) ==> events == old(events)
      ensures (out, State()) == ItemStep(Inputs(), old(State()), item)
    {
      var stop := StopRequested();
      if stop {
        return Stopped;
      }
      if !TruthyId(item.appid) {
        return Completed;
      }
      out := FetchAndRecord(item.appid.value);
    }

    /** The body of the item loop for a truthy id: fetch the details, record them, count. */
    method FetchAndRecord(aid: int) returns (out: Outcome)
      requires Valid()
      modifies this`detailRequests, this`events, this`ledgers, this`done
      ensures Valid()
      ensures old(events) <= events && (!hasCallback ==> events == old(events))
      ensures (out, State()) == FetchItem(Inputs(), old(State()), aid)
    {
      if !hasCallback {
        SilentFetchIsQuiet(detailScript, detailRequests, aid);
      }
      var f := GetAppDetails(aid, NotifyOf(hasCallback, done));
      match f {
        case Pending =>
          return ScriptEnded;
        case Raised(e) =>
          return Failed(e);
        case Returned(details) =>
          out := RecordFetched(aid, details);
      }
    }

    /** `apps_dict[appid] = …` or `excluded_apps.append(appid)`, then the count and the `added` callback. */
    method RecordFetched(aid: int, details: Details) returns (out: Outcome)
      requires Valid()
      modifies this`events, this`ledgers, this`done
      ensures Valid()
      ensures Record(old(ledgers), aid, details).Err? ==>
                out == Failed(Record(old(ledgers), aid, details).error)
                && ledgers == old(ledgers) && done == old(done) && events == old(events)
      ensures Record(old(ledgers), aid, details).Ok? ==>
                && out == Completed && ledgers == Record(old(ledgers), aid, details).value
                && done == old(done) + (if hasCallback then 1 else 0)
                && events == old(events) + (if hasCallback then [Progress(Total, done, Added(aid))] else [])
    {
      var r := Record(ledgers, aid, details);
      if r.Err? {
        return Failed(r.error);
      }
      ledgers := r.value;
      if hasCallback {
        done := done + 1;
        Notified(Added(aid));
      }
      return Completed;
    }

    /** The item loop of one page. */
    method CrawlItems(items: seq<SearchItem>) returns (out: Outcome)
      requires Valid()
      modifies this`stopChecks, this`detailRequests, this`events, this`ledgers, this`done
      ensures Valid()
      ensures out.Completed? || out.Stopped? || out.Failed? || out.ScriptEnded?
      ensures Grows(old(ledgers), ledgers)
      ensures old(done) <= done <= old(done) + TruthyCount(items)
      ensures out.Completed? ==> done == old(done) + (if hasCallback then TruthyCount(items) else 0)
      ensures old(events) <= events && (!hasCallback ==> events == old(events))
      ensures (out, State()) == ItemsSpec(Inputs(), old(State()), items)
      ensures out.Completed? ==> Recorded(items, ledgers) && NoStopBetween(stopFlags, old(stopChecks), stopChecks)
      ensures old(stopChecks) <= stopChecks
    {
      ghost var whole := ItemsSpec(Inputs(), State(), items);
      ItemsSpecRecords(Inputs(), State(), items);
      var t := 0;
      while t < |items|
        invariant 0 <= t <= |items|
        invariant Valid()
        invariant Grows(old(ledgers), ledgers)
        invariant done == old(done) + (if hasCallback then TruthyCount(items[..t]) else 0)
        invariant old(events) <= events && (!hasCallback ==> events == old(events))
        invariant ItemsSpec(Inputs(), State(), items[t..]) == whole
        invariant old(stopChecks) <= stopChecks
      {
        ghost var before := ledgers;
        PrefixCounts(items, t);
        ItemsSpecFirst(Inputs(), State(), items[t..]);
        assert items[t..][1..] == items[t + 1..];
        var o := ProcessItem(items[t]);
        GrowsTransitive(old(ledgers), before, ledgers);
        if !o.Completed? {
          return o;
        }
        t := t + 1;
      }
      assert items[..t] == items;
      return Completed;
    }

    /** One pass of the page loop: stop check, search request, bundle filter, tagging, item loop. */
    method CrawlPage(update: Params, page: int) returns (out: Outcome, tagged: seq<SearchItem>)
      requires Valid() && update.Valid()
      modifies this`stopChecks, this`searchLog, this`detailRequests, this`events, this`ledgers, this`done
      ensures Valid()
      ensures out.Completed? || out.Stopped? || out.Failed? || out.ScriptEnded?
      ensures Grows(old(ledgers), ledgers) && old(done) <= done
      ensures old(events) <= events && (!hasCallback ==> events == old(events))
      ensures old(searchLog) <= searchLog
      ensures out.Completed? ==>
                && |old(searchLog)| < |searchScript|
                && searchLog == old(searchLog) + [SearchRequest(update, page)]
                && tagged == PageItems(searchScript[|old(searchLog)|])
      ensures stopChecks > old(stopChecks)
      ensures StopAt(stopFlags, old(stopChecks)) ==>
                out.Stopped? && searchLog == old(searchLog) && ledgers == old(ledgers) && done == old(done) && events == old(events)
      ensures !StopAt(stopFlags, old(stopChecks)) && |old(searchLog)| == |searchScript| ==> out.ScriptEnded?
      ensures !StopAt(stopFlags, old(stopChecks)) && |old(searchLog)| < |searchScript| ==>
                (out, State()) == ItemsSpec(Inputs(), old(State()).(stopChecks := old(stopChecks) + 1),
                                            PageItems(searchScript[|old(searchLog)|]))
      ensures out.Completed? ==> Recorded(tagged, ledgers) && NoStopBetween(stopFlags, old(stopChecks), stopChecks)
    {
      tagged := [];
      var stop := StopRequested();
      if stop {
        return Stopped, tagged;
      }
      if |searchLog| == |searchScript| {
        return ScriptEnded, tagged;
      }
      var response := searchScript[|searchLog|];
      searchLog := searchLog + [SearchRequest(update, page)];
      tagged := TagAppIds(NonBundle(SearchItemsOf(response)));
      out := CrawlItems(tagged);
    }

    /** `for page in page_list`: pages 1 to 4, collecting the entries of each. */
    method CrawlPages(update: Params) returns (out: Outcome, itemsAll: seq<SearchItem>)
      requires Valid() && update.Valid()
      modifies this`stopChecks, this`searchLog, this`detailRequests, this`events, this`ledgers, this`done
      ensures Valid()
      ensures out.Completed? || out.Stopped? || out.Failed? || out.ScriptEnded?
      ensures Grows(old(ledgers), ledgers) && old(done) <= done
      ensures old(events) <= events && (!hasCallback ==> events == old(events))
      ensures out.Completed? ==>
                && |old(searchLog)| <= |searchLog|
                && searchLog == old(searchLog) + PageRequests(update, 4)
                && itemsAll == AllPages(searchScript, |old(searchLog)|, |searchLog|)
      ensures stopChecks > old(stopChecks)
      ensures StopAt(stopFlags, old(stopChecks)) ==>
                out.Stopped? && searchLog == old(searchLog) && ledgers == old(ledgers) && done == old(done) && events == old(events)
      ensures out.Completed? ==> Recorded(itemsAll, ledgers) && NoStopBetween(stopFlags, old(stopChecks), stopChecks)
    {
      itemsAll := [];
      ghost var log0 := searchLog;
      var page := 1;
      while page <= 4
        invariant 1 <= page <= 5
        invariant Valid()
        invariant PagesSoFar(searchScript, log0, searchLog, update, page - 1, itemsAll)
        invariant Grows(old(ledgers), ledgers) && old(done) <= done
        invariant old(events) <= events && (!hasCallback ==> events == old(events))
        invariant page == 1 ==> stopChecks == old(stopChecks) && searchLog == old(searchLog) && ledgers == old(ledgers)
                                && done == old(done) && events == old(events)
        invariant page > 1 ==> stopChecks > old(stopChecks)
        invariant Recorded(itemsAll, ledgers) && NoStopBetween(stopFlags, old(stopChecks), stopChecks)
      {
        out, itemsAll := CrawlNextPage(update, page, itemsAll, log0, old(ledgers), old(done), old(events), old(stopChecks));
        if !out.Completed? {
          return;
        }
        page := page + 1;
      }
      out := Completed;
    }

    /**
     * The body of the page loop: page `page`, and its entries added to
     * `itemsAll`, keeping what the loop holds of the state `log0`,
     * `ledgers0`, `done0`, `events0`, `checks0` it started from.
     */
    method CrawlNextPage(update: Params, page: int, itemsAll: seq<SearchItem>, ghost log0: seq<SearchRequest>,
                         ghost ledgers0: Ledgers, ghost done0: int, ghost events0: seq<Progress>, ghost checks0: nat)
      returns (out: Outcome, itemsAll': seq<SearchItem>)
      requires Valid() && update.Valid() && 1 <= page
      requires PagesSoFar(searchScript, log0, searchLog, update, page - 1, itemsAll)
      requires Grows(ledgers0, ledgers) && done0 <= done
      requires events0 <= events && (!hasCallback ==> events == events0)
      requires Recorded(itemsAll, ledgers) && NoStopBetween(stopFlags, checks0, stopChecks)
      modifies this`stopChecks, this`searchLog, this`detailRequests, this`events, this`ledgers, this`done
      ensures Valid()
      ensures Grows(ledgers0, ledgers) && done0 <= done
      ensures events0 <= events && (!hasCallback ==> events == events0)
      ensures stopChecks > old(stopChecks)
      ensures out.Completed? || out.Stopped? || out.Failed? || out.ScriptEnded?
      ensures StopAt(stopFlags, old(stopChecks)) ==>
                out.Stopped? && searchLog == old(searchLog) && ledgers == old(ledgers) && done == old(done) && events == old(events)
      ensures out.Completed? ==>
                && PagesSoFar(searchScript, log0, searchLog, update, page, itemsAll')
                && Recorded(itemsAll', ledgers) && NoStopBetween(stopFlags, checks0, stopChecks)
    {
      ghost var before, log, checks := ledgers, searchLog, stopChecks;
      var tagged;
      out, tagged := CrawlPage(update, page);
      GrowsTransitive(ledgers0, before, ledgers);
      itemsAll' := itemsAll + tagged;
      if out.Completed? {
        PagesSoFarStep(searchScript, log0, log, update, page - 1, itemsAll, tagged);
        RecordedGrows(itemsAll, before, ledgers);
        RecordedAppend(itemsAll, tagged, ledgers);
        assert NoStopBetween(stopFlags, checks, stopChecks);
      }
    }

    /**
     * One category: stop check; skip it when its artifact already exists;
     * otherwise pages 1 to 4, then the artifact and the checkpoints.
     */
    method CrawlCategory(update: Params) returns (out: Outcome)
      requires Valid() && update.Valid() && "filter" in update.entries && update.entries["filter"].StrParam?
      modifies this`stopChecks, this`searchLog, this`detailRequests, this`events, this`ledgers, this`done
      modifies this`checkpointDir, this`searchDir
      ensures Valid()
      ensures out.Completed? || out.Stopped? || out.Failed? || out.ScriptEnded?
      ensures Grows(old(ledgers), ledgers) && old(done) <= done
      ensures old(events) <= events && (!hasCallback ==> events == old(events))
      ensures FolderKept(old(searchDir.entries), searchDir.entries, ledgers)
      ensures out.Completed? ==> ArtifactName(update, date) in searchDir.entries
      ensures !out.Completed? ==> searchDir == old(searchDir) && checkpointDir == old(checkpointDir)
      ensures StopAt(stopFlags, old(stopChecks)) ==>
                out.Stopped? && ledgers == old(ledgers) && done == old(done) && events == old(events) && searchLog == old(searchLog)
      ensures !StopAt(stopFlags, old(stopChecks)) && ArtifactName(update, date) in old(searchDir.entries) ==>
                && out.Completed? && ledgers == old(ledgers) && searchLog == old(searchLog)
                && searchDir == old(searchDir) && checkpointDir == old(checkpointDir)
                && done == old(done) + (if hasCallback then 100 else 0)
      ensures out.Completed? && ArtifactName(update, date) !in old(searchDir.entries) ==>
                && searchLog == old(searchLog) + PageRequests(update, 4)
                && searchDir.entries == old(searchDir.entries)[ArtifactName(update, date) := AllPages(searchScript, |old(searchLog)|, |searchLog|)]
                && checkpointDir == SaveCheckpoints(old(checkpointDir), ledgers)
    {
      var stop := StopRequested();
      if stop {
        return Stopped;
      }
      var name := ArtifactName(update, date);
      if name in searchDir.entries {
        if hasCallback {
          done := done + 100;
          Notified(Skipped);
        }
        return Completed;
      }
      var itemsAll;
      out, itemsAll := CrawlPages(update);
      if !out.Completed? {
        return out;
      }
      FinishCategory(name, itemsAll);
      return Completed;
    }

    /** After the last page: report `finalizing`, write the category's artifact, save the checkpoints. */
    method FinishCategory(name: string, itemsAll: seq<SearchItem>)
      requires Valid()
      modifies this`events, this`checkpointDir, this`searchDir
      ensures Valid()
      ensures events == old(events) + (if hasCallback then [Progress(Total, done, Finalizing)] else [])
      ensures searchDir.entries == old(searchDir.entries)[name := itemsAll]
      ensures checkpointDir == SaveCheckpoints(old(checkpointDir), ledgers)
    {
      if hasCallback {
        Notified(Finalizing);
      }
      searchDir := searchDir.Put(name, itemsAll);
      checkpointDir := SaveCheckpoints(checkpointDir, ledgers);
    }

    /**
     * `download_trend(progress_callback, stop_event, app_details, appid)`:
     * with `app_details` and a truthy `appid`, fetch that one app; otherwise
     * load the checkpoints and crawl the five categories in order.
     */
    method DownloadTrend(appDetails: bool, appid: Option<int>) returns (out: Outcome)
      requires Valid() && Fresh() && LoadsTyped(checkpointDir)
      modifies this`stopChecks, this`searchLog, this`detailRequests, this`events, this`ledgers, this`done
      modifies this`checkpointDir, this`searchDir
      ensures Valid()
      ensures appDetails && TruthyId(appid) ==>
                && out == SingleOutcome(FetchSpec(detailScript, 0, appid.value, if hasCallback then Unbound else Silent).result)
                && ledgers == old(ledgers) && events == []
                && searchDir == old(searchDir) && checkpointDir == old(checkpointDir)
      ensures appDetails && TruthyId(appid) && hasCallback && detailScript != [] ==>
                out == Failed(if !Retries(detailScript[0].status) && Decide(detailScript[0], appid.value).Raised?
                              then Decide(detailScript[0], appid.value).error else NameError)
      ensures !(appDetails && TruthyId(appid)) ==>
                && Grows(LoadCheckpoints(old(checkpointDir)), ledgers)
                && (hasCallback ==> events != [] && events[0] == Progress(Total, 0, Starting))
                && (!hasCallback ==> events == [])
                && FolderKept(old(searchDir.entries), searchDir.entries, ledgers)
                && (out.Completed? ==> forall c :: 0 <= c < 5 ==> ArtifactName(ParamsList()[c], date) in searchDir.entries)
                && (out.Completed? ==> searchLog == CategoryRequests(ParamsList(), 0, date, old(searchDir.entries.Keys)))
    {
      if appDetails && TruthyId(appid) {
        out := FetchSingle(appid.value);
      } else {
        out := CrawlAll();
      }
    }

    /** The crawl mode: load the checkpoints, report `starting`, then the five categories in order. */
    method CrawlAll() returns (out: Outcome)
      requires Valid() && Fresh() && LoadsTyped(checkpointDir)
      modifies this`stopChecks, this`searchLog, this`detailRequests, this`events, this`ledgers, this`done
      modifies this`checkpointDir, this`searchDir
      ensures Valid()
      ensures Grows(LoadCheckpoints(old(checkpointDir)), ledgers)
      ensures hasCallback ==> events != [] && events[0] == Progress(Total, 0, Starting)
      ensures !hasCallback ==> events == []
      ensures FolderKept(old(searchDir.entries), searchDir.entries, ledgers)
      ensures out.Completed? ==> forall c :: 0 <= c < 5 ==> ArtifactName(ParamsList()[c], date) in searchDir.entries
      ensures out.Completed? ==> searchLog == CategoryRequests(ParamsList(), 0, date, old(searchDir.entries.Keys))
    {
      ledgers := LoadCheckpoints(checkpointDir);
      if hasCallback {
        Notified(Starting);
      }
      ghost var started := events;
      assert hasCallback ==> started == [Progress(Total, 0, Starting)];
      ghost var requests := CategoryRequests(ParamsList(), 0, date, searchDir.entries.Keys);
      assert [] + requests == requests;
      out := CrawlCategories(ParamsList());
      assert started <= events;
    }

    /** The single-app mode: `get_app_details(appid)` with `total` and `done` not yet bound. */
    method FetchSingle(appid: int) returns (out: Outcome)
      requires Valid() && detailRequests == 0
      modifies this`detailRequests, this`events
      ensures Valid()
      ensures out == SingleOutcome(FetchSpec(detailScript, 0, appid, if hasCallback then Unbound else Silent).result)
      ensures events == old(events)
      ensures hasCallback && detailScript != [] ==>
                out == Failed(if !Retries(detailScript[0].status) && Decide(detailScript[0], appid).Raised?
                              then Decide(detailScript[0], appid).error else NameError)
    {
      var notify := if hasCallback then Unbound else Silent;
      FetchSpecContract(detailScript, 0, appid, notify);
      var f := GetAppDetails(appid, notify);
      return SingleOutcome(f);
    }

    /** `for update in params_list`: the categories in order. */
    method CrawlCategories(params: seq<Params>) returns (out: Outcome)
      requires Valid()
      requires forall c :: 0 <= c < |params| ==>
                 params[c].Valid() && "filter" in params[c].entries && params[c].entries["filter"].StrParam?
      modifies this`stopChecks, this`searchLog, this`detailRequests, this`events, this`ledgers, this`done
      modifies this`checkpointDir, this`searchDir
      ensures Valid()
      ensures Grows(old(ledgers), ledgers)
      ensures old(events) <= events && (!hasCallback ==> events == old(events))
      ensures FolderKept(old(searchDir.entries), searchDir.entries, ledgers)
      ensures out.Completed? ==> forall c :: 0 <= c < |params| ==> ArtifactName(params[c], date) in searchDir.entries
      ensures out.Completed? ==> searchLog == old(searchLog) + CategoryRequests(params, 0, date, old(searchDir.entries.Keys))
    {
      var c := 0;
      while c < |params|
        invariant 0 <= c <= |params|
        invariant Valid()
        invariant Grows(old(ledgers), ledgers)
        invariant old(events) <= events && (!hasCallback ==> events == old(events))
        invariant FolderKept(old(searchDir.entries), searchDir.entries, ledgers)
        invariant forall d :: 0 <= d < c ==> ArtifactName(params[d], date) in searchDir.entries
        invariant RequestsSoFar(params, date, c, old(searchLog), old(searchDir.entries.Keys), searchLog, searchDir.entries.Keys)
      {
        out := CrawlNext(params, c, old(searchLog), old(searchDir.entries), old(ledgers), old(events));
        if !out.Completed? {
          return out;
        }
        c := c + 1;
      }
      return Completed;
    }

    /**
     * The body of the category loop: category `c`, keeping what the loop
     * holds of the state `log0`, `dir0`, `ledgers0`, `events0` it started from.
     */
    method CrawlNext(params: seq<Params>, c: nat, ghost log0: seq<SearchRequest>, ghost dir0: map<string, seq<SearchItem>>,
                     ghost ledgers0: Ledgers, ghost events0: seq<Progress>)
      returns (out: Outcome)
      requires Valid() && c < |params|
      requires forall d :: 0 <= d < |params| ==> "filter" in params[d].entries && params[d].entries["filter"].StrParam?
      requires params[c].Valid()
      requires Grows(ledgers0, ledgers)
      requires events0 <= events && (!hasCallback ==> events == events0)
      requires FolderKept(dir0, searchDir.entries, ledgers)
      requires forall d :: 0 <= d < c ==> ArtifactName(params[d], date) in searchDir.entries
      requires RequestsSoFar(params, date, c, log0, dir0.Keys, searchLog, searchDir.entries.Keys)
      modifies this`stopChecks, this`searchLog, this`detailRequests, this`events, this`ledgers, this`done
      modifies this`checkpointDir, this`searchDir
      ensures Valid()
      ensures Grows(ledgers0, ledgers)
      ensures events0 <= events && (!hasCallback ==> events == events0)
      ensures FolderKept(dir0, searchDir.entries, ledgers)
      ensures out.Completed? ==>
                && (forall d :: 0 <= d < c + 1 ==> ArtifactName(params[d], date) in searchDir.entries)
                && RequestsSoFar(params, date, c + 1, log0, dir0.Keys, searchLog, searchDir.entries.Keys)
    {
      ghost var before, dir, evs, log := ledgers, searchDir.entries, events, searchLog;
      out := CrawlCategory(params[c]);
      GrowsTransitive(ledgers0, before, ledgers);
      FolderKeptTransitive(dir0, dir, searchDir.entries, before, ledgers);
      assert events0 <= evs <= events;
      if out.Completed? {
        RequestsStep(params, date, c, log0, dir0.Keys, log, dir, searchLog, searchDir.entries);
        ArtifactsKept(params, date, c, dir, searchDir.entries);
      }
    }
  }
}
