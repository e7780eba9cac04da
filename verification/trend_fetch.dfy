/**
 * The per-app step of the trending crawl: the `get_app_details` retry loop
 * over the store's `appdetails` answers, and how its result updates the
 * ledgers. The answers are a finite script consumed in order; a script that
 * runs out while the loop is still retrying leaves the call `Pending`.
 */
module TrendFetch {
  import opened Base
  import opened Text
  import opened Dicts
  import opened SteamModel
  import opened TrendCheckpoints

  /** `total = 500`. */
  const Total := 500

  /** The object at `str(appid)` in an `appdetails` answer; `success` and `data` may be missing. */
  datatype Envelope = Envelope(success: Option<bool>, data: Option<App>)

  /** An `appdetails` answer: its status and, when the body parses as JSON, the parsed object. */
  datatype DetailResponse = DetailResponse(status: int, body: Option<map<string, Envelope>>)

  /** What `get_app_details` returns: `{}` or the envelope. */
  datatype Details = NoDetails | AppDetails(envelope: Envelope)

  /** The exceptions the crawl can raise. */
  datatype Raise = KeyError | JsonDecodeError | NameError

  /** A call of `get_app_details`: it returns, raises, or is still retrying when the script ends. */
  datatype Fetch = Returned(details: Details) | Raised(error: Raise) | Pending

  /**
   * The callback as `get_app_details` sees it: absent; present while
   * `total`/`done` are still unbound (so calling it raises `NameError`);
   * present with the current `done`.
   */
  datatype Notify = Silent | Unbound | Bound(done: int)

  /** The `status` argument of a callback, before it is formatted. */
  datatype Status =
    | Fetched(appid: int)
    | TooManyRequests(appid: int)
    | Forbidden(appid: int)
    | ErrorIn(appid: int)
    | Added(appid: int)
    | Starting
    | Skipped
    | Finalizing

  /** The text the crawl passes for each status. */
  function StatusText(s: Status): string {
    match s
    case Fetched(a) => "fetched " + IntToString(a)
    case TooManyRequests(a) => "Too many requests. Put App ID " + IntToString(a) + " back in queue. Sleep for 10 sec"
    case Forbidden(a) => "Forbidden to access. Put App ID " + IntToString(a) + " back to deque. Sleep for 5 min."
    case ErrorIn(a) => "Error in App Id: " + IntToString(a) + ". Put the app to error apps list."
    case Added(a) => "Added App ID: " + IntToString(a)
    case Starting => "starting"
    case Skipped => ""
    case Finalizing => "finalizing"
  }

  /** One `progress_callback(total, done, status)` call. */
  datatype Progress = Progress(total: int, done: int, status: Status)

  /** How one call of `get_app_details` ends, and the number of answers it consumed. */
  datatype FetchRun = FetchRun(result: Fetch, answered: nat)

  predicate Retries(status: int) {
    status == 429 || status == 403
  }

  /**
   * The outcome of a non-retry answer before the callback: on 200 the body is
   * parsed, indexed by `str(appid)` and its `success` read for the log line;
   * any other status gives `{}`.
   */
  function Decide(r: DetailResponse, appid: int): (f: Fetch)
    ensures f.Returned? && f.details.AppDetails? <==>
              && r.status == 200 && r.body.Some? && IntToString(appid) in r.body.value
              && r.body.value[IntToString(appid)].success.Some?
    ensures f.Returned? && f.details.AppDetails? ==> f.details.envelope == r.body.value[IntToString(appid)]
    ensures f == Returned(NoDetails) <==> r.status != 200
    ensures f == Raised(JsonDecodeError) <==> r.status == 200 && r.body.None?
    ensures f == Raised(KeyError) <==>
              && r.status == 200 && r.body.Some?
              && (IntToString(appid) !in r.body.value || r.body.value[IntToString(appid)].success.None?)
    ensures !f.Pending?
  {
    if r.status != 200 then Returned(NoDetails)
    else if r.body.None? then Raised(JsonDecodeError)
    else if IntToString(appid) !in r.body.value then Raised(KeyError)
    else if r.body.value[IntToString(appid)].success.None? then Raised(KeyError)
    else Returned(AppDetails(r.body.value[IntToString(appid)]))
  }

  /** What one answer does: the loop goes on after the callbacks, or it ends with a result. */
  datatype Step = Retry(events: seq<Progress>) | Final(result: Fetch, events: seq<Progress>)

  /**
   * One iteration of the retry loop: 429 and 403 go round again, any other
   * answer ends the loop with its `Decide` outcome; the callback, when
   * there is one, is made once, and raises while `total` is unbound.
   */
  function AnswerStep(r: DetailResponse, appid: int, notify: Notify): Step
  {
    if Retries(r.status) then
      match notify
      case Unbound => Final(Raised(NameError), [])
      case Silent => Retry([])
      case Bound(d) => Retry([Progress(Total, d, if r.status == 429 then TooManyRequests(appid) else Forbidden(appid))])
    else
      var f := Decide(r, appid);
      if f.Raised? then Final(f, [])
      else
        match notify
        case Unbound => Final(Raised(NameError), [])
        case Silent => Final(f, [])
        case Bound(d) => Final(f, [Progress(Total, d, if r.status == 200 then Fetched(appid) else ErrorIn(appid))])
  }

  /**
   * 429 and 403 go round again unless the callback raises; any other answer
   * ends the loop with its `Decide` outcome; each answer makes at most one
   * callback, none when the loop ends by an exception, and it carries `total`
   * and the `done` the callback was given.
   */
  lemma AnswerStepSpec(r: DetailResponse, appid: int, notify: Notify)
    ensures var step := AnswerStep(r, appid, notify);
            && (step.Retry? <==> Retries(r.status) && !notify.Unbound?)
            && (step.Final? && !notify.Unbound? ==> step.result == Decide(r, appid))
            && (step.Final? && notify.Unbound? ==> step.result.Raised?)
            && |step.events| <= 1
            && (step.events != [] <==> notify.Bound? && !(step.Final? && step.result.Raised?))
            && (forall e :: e in step.events ==> e.total == Total && e.done == notify.done)
  {
  }

  /** The `while True` loop of `get_app_details` on the answers from index `from` on, answer by answer. */
  function FetchSpec(rs: seq<DetailResponse>, from: nat, appid: int, notify: Notify): FetchRun
    requires from <= |rs|
    decreases |rs| - from
  {
    if from == |rs| then FetchRun(Pending, 0)
    else
      match AnswerStep(rs[from], appid, notify)
      case Final(f, _) => FetchRun(f, 1)
      case Retry(_) =>
        var rest := FetchSpec(rs, from + 1, appid, notify);
        FetchRun(rest.result, rest.answered + 1)
  }

  /** The callbacks the same loop makes, in order. */
  function FetchEvents(rs: seq<DetailResponse>, from: nat, appid: int, notify: Notify): seq<Progress>
    requires from <= |rs|
    decreases |rs| - from
  {
    if from == |rs| then []
    else
      match AnswerStep(rs[from], appid, notify)
      case Final(_, ev) => ev
      case Retry(ev) => ev + FetchEvents(rs, from + 1, appid, notify)
  }

  /**
   * `get_app_details` re-requests on 429 and 403 and stops at the first other
   * answer, whose `Decide` outcome it returns; it is `Pending` exactly when
   * every remaining answer asked for a retry. Each answer produces at most
   * one callback, all carrying the `done` of the call, and none without a
   * callback. With an unbound `total` the first answer already raises.
   */
  lemma FetchSpecContract(rs: seq<DetailResponse>, from: nat, appid: int, notify: Notify)
    requires from <= |rs|
    ensures var run := FetchSpec(rs, from, appid, notify);
            && run.answered <= |rs| - from
            && (run.answered == 0 <==> from == |rs|)
            && (forall i :: from <= i < from + run.answered - 1 ==> Retries(rs[i].status))
            && (run.result.Pending? <==> (notify.Unbound? ==> from == |rs|) && forall i :: from <= i < |rs| ==> Retries(rs[i].status))
            && (run.result.Pending? ==> run.answered == |rs| - from)
            && (run.result.Returned? ==> && !notify.Unbound? && !Retries(rs[from + run.answered - 1].status)
                                         && run.result == Decide(rs[from + run.answered - 1], appid))
            && (notify.Unbound? && from < |rs| ==> run.result.Raised?)
    ensures var run := FetchSpec(rs, from, appid, notify);
            var events := FetchEvents(rs, from, appid, notify);
            && |events| <= run.answered
            && (!notify.Bound? ==> events == [])
            && (notify.Bound? && !run.result.Raised? ==> |events| == run.answered)
            && (forall e :: e in events ==> e.total == Total && e.done == notify.done)
  {
    FetchSpecAnswered(rs, from, appid, notify);
    FetchSpecPending(rs, from, appid, notify);
    FetchEventsSpec(rs, from, appid, notify);
  }

  /** The answers a call consumes: retries up to its last one, whose `Decide` outcome is returned. */
  lemma {:induction false} FetchSpecAnswered(rs: seq<DetailResponse>, from: nat, appid: int, notify: Notify)
    requires from <= |rs|
    ensures var run := FetchSpec(rs, from, appid, notify);
            && run.answered <= |rs| - from
            && (run.answered == 0 <==> from == |rs|)
            && (forall i :: from <= i < from + run.answered - 1 ==> Retries(rs[i].status))
            && (run.result.Returned? ==> && !notify.Unbound? && !Retries(rs[from + run.answered - 1].status)
                                         && run.result == Decide(rs[from + run.answered - 1], appid))
    decreases |rs| - from
  {
    if from < |rs| {
      AnswerStepSpec(rs[from], appid, notify);
      var step := AnswerStep(rs[from], appid, notify);
      if step.Retry? {
        FetchSpecAnswered(rs, from + 1, appid, notify);
        var rest := FetchSpec(rs, from + 1, appid, notify);
        assert FetchSpec(rs, from, appid, notify) == FetchRun(rest.result, rest.answered + 1);
        assert Retries(rs[from].status);
        if rest.result.Returned? {
          var last := from + rest.answered;
          assert from + 1 + rest.answered - 1 == last == from + (rest.answered + 1) - 1;
        }
      } else {
        assert FetchSpec(rs, from, appid, notify) == FetchRun(step.result, 1);
        assert from + 1 - 1 == from;
      }
    }
  }

  /** A call is still retrying exactly when every remaining answer asks for a retry. */
  lemma {:induction false} FetchSpecPending(rs: seq<DetailResponse>, from: nat, appid: int, notify: Notify)
    requires from <= |rs|
    ensures var run := FetchSpec(rs, from, appid, notify);
            && (run.result.Pending? <==> (notify.Unbound? ==> from == |rs|) && forall i :: from <= i < |rs| ==> Retries(rs[i].status))
            && (run.result.Pending? ==> run.answered == |rs| - from)
            && (notify.Unbound? && from < |rs| ==> run.result.Raised?)
    decreases |rs| - from
  {
    if from < |rs| {
      AnswerStepSpec(rs[from], appid, notify);
      if AnswerStep(rs[from], appid, notify).Retry? {
        FetchSpecPending(rs, from + 1, appid, notify);
      }
    }
  }

  /** The callbacks of a call: at most one per answer, one per answer unless it raised, none without a callback. */
  lemma {:induction false} FetchEventsSpec(rs: seq<DetailResponse>, from: nat, appid: int, notify: Notify)
    requires from <= |rs|
    ensures var run := FetchSpec(rs, from, appid, notify);
            var events := FetchEvents(rs, from, appid, notify);
            && |events| <= run.answered
            && (!notify.Bound? ==> events == [])
            && (notify.Bound? && !run.result.Raised? ==> |events| == run.answered)
            && (forall e :: e in events ==> e.total == Total && e.done == notify.done)
    decreases |rs| - from
  {
    if from < |rs| {
      AnswerStepSpec(rs[from], appid, notify);
      if AnswerStep(rs[from], appid, notify).Retry? {
        FetchEventsSpec(rs, from + 1, appid, notify);
      }
    }
  }

  /** `if details and details['success'] == True`. */
  predicate Succeeded(d: Details) {
    d.AppDetails? && d.envelope.success == Some(true)
  }

  /**
   * The ledger update for one app: on success `apps_dict[aid] = details["data"]`
   * (a `KeyError` when `data` is missing); otherwise `aid` is appended to
   * the excluded list unless already there.
   */
  function Record(l: Ledgers, aid: int, d: Details): (r: Result<Ledgers, Raise>)
    requires l.apps.Valid()
    ensures r.Err? <==> Succeeded(d) && d.envelope.data.None?
    ensures r.Ok? && Succeeded(d) ==>
              && r.value.apps.entries == l.apps.entries[aid := d.envelope.data.value]
              && r.value.excluded == l.excluded
    ensures r.Ok? && !Succeeded(d) ==>
              && r.value.apps == l.apps
              && aid in r.value.excluded
              && r.value.excluded == (if aid in l.excluded then l.excluded else l.excluded + [aid])
    ensures r.Ok? ==> Grows(l, r.value) && TouchesOnly(l, r.value, {aid})
  {
    if Succeeded(d) then
      if d.envelope.data.None? then Err(KeyError)
      else Ok(l.(apps := l.apps.Put(aid, d.envelope.data.value)))
    else if aid in l.excluded then Ok(l)
    else Ok(l.(excluded := l.excluded + [aid]))
  }

  /**
   * What a crawl may do to the ledgers: the error list is untouched, the
   * excluded list only gains elements at its end and stays free of
   * duplicates, and no app is ever removed.
   */
  ghost predicate Grows(before: Ledgers, after: Ledgers) {
    && after.apps.Valid()
    && after.errors == before.errors
    && before.excluded <= after.excluded
    && (NoDup(before.excluded) ==> NoDup(after.excluded))
    && (forall k :: k in before.apps.entries ==> k in after.apps.entries)
  }

  /** Only the apps in `ids` are added, changed or newly excluded. */
  ghost predicate TouchesOnly(before: Ledgers, after: Ledgers, ids: set<int>) {
    && (forall k :: k !in ids ==> (k in after.apps.entries <==> k in before.apps.entries))
    && (forall k :: k !in ids && k in before.apps.entries ==> after.apps.entries[k] == before.apps.entries[k])
    && (forall x :: x in after.excluded ==> x in before.excluded || x in ids)
  }

  lemma GrowsTransitive(a: Ledgers, b: Ledgers, c: Ledgers)
    requires Grows(a, b) && Grows(b, c)
    ensures Grows(a, c)
  {
  }
}
