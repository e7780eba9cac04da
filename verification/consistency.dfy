/**
 * How the parts of the system fit together: the names the crawler writes
 * against the names the reader and the web page look for, and the crawler's
 * status texts against the page's countdown test.
 */
module Consistency {
  import opened Base
  import opened Text
  import opened SteamModel
  import opened TrendCheckpoints
  import opened TrendListing
  import opened TrendFetch
  import opened Retriever
  import opened WebApp
  import opened DownloadTrendJs
  import opened TrendCrawl

  /** `search_results_{execute_time}`: the folder one crawl writes its search results into. */
  function SearchFolderName(date: string): (name: string)
    ensures StartsWith(name, "search_results_")
  {
    "search_results_" + date
  }

  /** The crawl's folder is one the web page considers when it picks the latest. */
  lemma CrawlFolderIsSearchFolder(date: string)
    ensures IsSearchFolder(SearchFolderName(date))
  {
  }

  /** A file name some crawl writes for one of its five categories, on some date. */
  ghost predicate IsCrawlerArtifact(f: string) {
    exists i: nat, d: string :: i < 5 && f == ArtifactName(ParamsList()[i], d)
  }

  /** The last eight characters of the folder name are the eight-digit date. */
  lemma SuffixOfSearchFolder(date: string)
    requires |date| == 8
    ensures Suffix(SearchFolderName(date)) == date
  {
    var name := SearchFolderName(date);
    assert name[|name| - 8..] == date;
  }

  /**
   * For four of the five categories the reader asks for exactly the file
   * the crawler wrote: the category names agree and the folder's suffix is
   * the crawl date.
   */
  lemma ReaderFindsCrawlerFile(date: string, i: nat)
    requires |date| == 8 && i < 5 && i != 3
    ensures SearchFileName(SearchCategories[i], SearchFolderName(date)) == ArtifactName(ParamsList()[i], date)
  {
    SuffixOfSearchFolder(date);
    CrawlerCategory(i);
  }

  /** The names the crawler gives its five categories, in crawl order. */
  const CrawlerCategories: seq<string> := ["topsellers", "globaltopsellers", "popularnew", "popularcommingsoon", "specials"]

  lemma CrawlerCategory(i: nat)
    requires i < 5
    ensures CategoryName(ParamsList()[i]) == CrawlerCategories[i]
  {
  }

  /**
   * The coming-soon category is spelt `popularcomingsoon` by the reader
   * and `popularcommingsoon` by the crawler, so the reader's file name is
   * never one the crawler writes, whatever the folder and the date.
   */
  lemma ComingSoonNeverWritten(folder: string, i: nat, d: string)
    requires i < 5
    ensures SearchFileName("popularcomingsoon", folder) != ArtifactName(ParamsList()[i], d)
  {
    CrawlerCategory(i);
    var c := CrawlerCategories[i];
    var suffix := Suffix(folder);
    if i == 3 {
      NamesDiffer("popularcomingsoon", c, suffix, d, 10);
    } else if i == 2 {
      NamesDiffer("popularcomingsoon", c, suffix, d, 7);
    } else {
      NamesDiffer("popularcomingsoon", c, suffix, d, 0);
    }
  }

  /**
   * The five categories are written under five different names, so a crawl
   * that starts with none of them on disk asks for all four pages of every
   * category, in order.
   */
  lemma FirstCrawlAsksEveryPage(date: string)
    ensures CategoryRequests(ParamsList(), 0, date, {}) == AllRequests(ParamsList())
  {
    var params := ParamsList();
    forall c, d | 0 <= c < d < 5
      ensures ArtifactName(params[c], date) != ArtifactName(params[d], date)
    {
      CrawlerCategory(c);
      CrawlerCategory(d);
      NamesDiffer(CrawlerCategories[c], CrawlerCategories[d], date, date, if c == 2 && d == 3 then 7 else 0);
    }
    CategoryRequestsAllNew(params, 0, date, {});
    assert params[0..] == params;
  }

  /** Two `{name}_{rest}.pkl` names differ when the names differ at some position of both. */
  lemma NamesDiffer(c1: string, c2: string, r1: string, r2: string, k: nat)
    requires k < |c1| && k < |c2| && c1[k] != c2[k]
    ensures c1 + "_" + r1 + ".pkl" != c2 + "_" + r2 + ".pkl"
  {
    assert (c1 + "_" + r1 + ".pkl")[k] == c1[k];
    assert (c2 + "_" + r2 + ".pkl")[k] == c2[k];
  }

  /** From a folder holding only crawler files, the coming-soon category always loads as the empty list. */
  lemma ComingSoonLoadsEmpty(folder: string, files: map<string, seq<SearchItem>>)
    requires forall f :: f in files ==> IsCrawlerArtifact(f)
    ensures LoadCategoryFrom(Some(folder), files, "popularcomingsoon") == Ok([])
  {
    var f := SearchFileName("popularcomingsoon", folder);
    if f in files {
      var i: nat, d: string :| i < 5 && f == ArtifactName(ParamsList()[i], d);
      ComingSoonNeverWritten(folder, i, d);
    }
  }

  /** ... and the index page then shows no coming-soon games. */
  lemma ComingSoonShownEmpty(name: string, files: map<string, seq<SearchItem>>)
    requires forall f :: f in files ==> IsCrawlerArtifact(f)
    ensures LoadAllFrom(Some(name), files).Ok?
    ensures LoadAllFrom(Some(name), files).value.Valid()
    ensures LoadAllFrom(Some(name), files).value.keys == SearchCategories
    ensures DedupedAt(LoadAllFrom(Some(name), files).value, 3) == []
  {
    LoadAllFromSpec(Some(name), files);
    ComingSoonLoadsEmpty(name, files);
    var raw := LoadAllFrom(Some(name), files).value;
    assert raw.keys[3] == "popularcomingsoon";
    assert raw.entries["popularcomingsoon"] == [];
  }

  /** No search-result file is a checkpoint candidate: it ends in `.pkl`, not `.p`. */
  lemma ArtifactIsNoCheckpoint(i: nat, d: string, prefix: string)
    requires i < 5
    ensures !IsCheckpointOf(ArtifactName(ParamsList()[i], d), prefix)
  {
    var n := ArtifactName(ParamsList()[i], d);
    assert n[|n| - 2..] == "kl";
  }

  /** The leftmost match is at `p` when the pattern matches there and nowhere before. */
  lemma FirstMatchIs(s: string, p: nat)
    requires MatchAt(s, p)
    requires forall k :: 0 <= k < p ==> !MatchAt(s, k)
    ensures FirstMatch(s, 0) == Some(p)
  {
  }

  /** No position of a stretch without digits starts a match. */
  lemma NoDigitsNoMatch(s: string, t: nat, e: nat)
    requires t <= e <= |s|
    requires forall k :: t <= k < e ==> !IsDigit(s[k])
    ensures forall k :: t <= k < e ==> !MatchAt(s, k)
  {
  }

  /** The digits of `str(a)` sit between `t` and `t + |str(a)|`, with a minus sign first when `a < 0`. */
  lemma IntToStringDigits(a: int)
    ensures var d := IntToString(a);
            && (a >= 0 ==> forall k :: 0 <= k < |d| ==> IsDigit(d[k]))
            && (a < 0 ==> d[0] == '-' && forall k :: 1 <= k < |d| ==> IsDigit(d[k]))
  {
    NatToStringSpec(if a >= 0 then a else -a);
  }

  /**
   * No match starts before `e + n` when `s` holds no digit before `t`, only
   * digits from `t` to `e`, then ` b`, and no digit from `e` to `e + n`.
   */
  lemma NoMatchBefore(s: string, t: nat, e: nat, n: nat)
    requires t <= e && 2 <= n && e + n <= |s|
    requires forall k :: 0 <= k < t ==> !IsDigit(s[k])
    requires forall k :: t <= k < e ==> IsDigit(s[k])
    requires s[e] == ' ' && s[e + 1] == 'b'
    requires forall k :: e <= k < e + n ==> !IsDigit(s[k])
    ensures forall k :: 0 <= k < e + n ==> !MatchAt(s, k)
  {
    NoDigitsNoMatch(s, 0, t);
    assert SpacesBetween(s, e, e + 1);
    assert !IsSpace(s[e + 1]) && LowerChar(s[e + 1]) != 's';
    NoMatchInRun(s, t, e, e + 1);
    NoDigitsNoMatch(s, e, e + n);
  }

  /** No match starts before position `n` of the text that follows `prefix + str(a)`, when neither holds a digit there. */
  lemma NoMatchThroughId(prefix: string, a: int, rest: string, n: nat)
    requires forall k :: 0 <= k < |prefix| ==> !IsDigit(prefix[k])
    requires 2 <= n <= |rest| && rest[0] == ' ' && rest[1] == 'b'
    requires forall k :: 0 <= k < n ==> !IsDigit(rest[k])
    ensures var s := prefix + IntToString(a) + rest;
            forall k :: 0 <= k < |prefix| + |IntToString(a)| + n ==> !MatchAt(s, k)
  {
    var d := IntToString(a);
    var s := prefix + d + rest;
    var e := |prefix| + |d|;
    var t := if a >= 0 then |prefix| else |prefix| + 1;
    IntToStringDigits(a);
    assert forall k :: 0 <= k < |prefix| ==> s[k] == prefix[k];
    assert forall k :: 0 <= k < |d| ==> s[|prefix| + k] == d[k];
    assert forall k :: 0 <= k < |rest| ==> s[e + k] == rest[k];
    assert forall k :: 0 <= k < t ==> !IsDigit(s[k]);
    assert forall k :: t <= k < e ==> IsDigit(s[k]);
    NoMatchBefore(s, t, e, n);
  }

  lemma TooManyRequestsText()
    ensures forall k :: 0 <= k < 30 ==> !IsDigit("Too many requests. Put App ID "[k])
    ensures forall k :: 0 <= k < 26 ==> !IsDigit(" back in queue. Sleep for 10 sec"[k])
  {
  }

  lemma ForbiddenText()
    ensures forall k :: 0 <= k < 32 ==> !IsDigit("Forbidden to access. Put App ID "[k])
    ensures forall k :: 0 <= k < 26 ==> !IsDigit(" back to deque. Sleep for 5 min."[k])
    ensures forall k :: 27 <= k < 32 ==> !IsDigit(" back to deque. Sleep for 5 min."[k])
  {
  }

  /**
   * The crawler's text for a 429 answer starts the page's countdown for
   * the ten seconds the crawler sleeps.
   */
  lemma TooManyRequestsCountsDown(a: int)
    ensures NextStep(StatusText(TooManyRequests(a))) == Countdown(10)
  {
    var prefix := "Too many requests. Put App ID ";
    var rest := " back in queue. Sleep for 10 sec";
    var d := IntToString(a);
    var s := prefix + d + rest;
    assert s == StatusText(TooManyRequests(a));
    TooManyRequestsText();
    NoMatchThroughId(prefix, a, rest, 26);
    var p := |prefix| + |d| + 26;
    assert s[p..] == "10 sec";
    TenSecondsAt(s, p);
    FirstMatchIs(s, p);
  }

  /** `10 sec` at `p` matches, and its captured digits read ten. */
  lemma TenSecondsAt(s: string, p: nat)
    requires p <= |s| && s[p..] == "10 sec"
    ensures MatchAt(s, p)
    ensures DigitRunEnd(s, p) == p + 2 && DigitsValue(s[p..p + 2]) == 10
  {
    assert s[p] == '1' && s[p + 1] == '0' && s[p + 2] == ' ' && s[p + 3] == 's';
    assert DigitRunEnd(s, p + 2) == p + 2;
    assert SpaceRunEnd(s, p + 3) == p + 3;
    assert SpaceRunEnd(s, p + 2) == p + 3;
    assert s[p..p + 2] == "10";
    assert DigitsValue("10") == 10 by {
      assert "10"[..1] == "1";
    }
  }

  /**
   * The crawler's text for a 403 answer has no countdown: its five-minute
   * sleep is given in minutes, so the page simply polls again.
   */
  lemma ForbiddenPollsAgain(a: int)
    ensures NextStep(StatusText(Forbidden(a))) == PollAgain
  {
    var prefix := "Forbidden to access. Put App ID ";
    var rest := " back to deque. Sleep for 5 min.";
    var d := IntToString(a);
    var s := prefix + d + rest;
    assert s == StatusText(Forbidden(a));
    ForbiddenText();
    NoMatchThroughId(prefix, a, rest, 26);
    var p := |prefix| + |d| + 26;
    assert s[p..] == "5 min.";
    assert s[p] == '5' && s[p + 1] == ' ' && s[p + 2] == 'm';
    NoMatchInRun(s, p, p + 1, p + 2);
    assert forall k :: p + 1 <= k < |s| ==> s[k] == rest[k - |prefix| - |d|];
    NoDigitsNoMatch(s, p + 1, |s|);
    assert forall k :: 0 <= k ==> !MatchAt(s, k);
  }
}
