/**
 * The arithmetic and the decisions of the trend download page script: the
 * `formatEta` duration formatter, the time-to-finish estimate, and the test
 * of a progress status that either starts a sleep countdown, polls again or
 * stops polling. The DOM, timers and `fetch` calls are not modelled; the
 * clock enters as a parameter.
 */
module DownloadTrendJs {
  import opened Base
  import opened Text

  // ---------------------------------------------------------------------
  // JavaScript arithmetic on integers

  /** `Math.floor(a / b)` for a positive divisor. */
  function FloorDiv(a: int, b: int): (q: int)
    requires b > 0
    ensures q * b <= a < q * b + b
  {
    a / b
  }

  /** A multiple of `b` leaves no remainder. */
  lemma MultipleModIsZero(k: int, b: int)
    requires b > 0
    ensures (k * b) % b == 0
  {
    var x := k * b;
    var d := k - x / b;
    assert x == b * (x / b) + x % b;
    assert b * d == x % b by {
      assert b * d == b * k - b * (x / b);
    }
    assert d >= 1 ==> b * d >= b by {
      assert b * d == b + b * (d - 1);
    }
    assert d <= -1 ==> b * d < 0 by {
      assert b * d == -b + b * (d + 1);
    }
  }

  /** JavaScript's `a % b`: the remainder takes the sign of the dividend and differs from it by a multiple of `b`. */
  function JsRem(a: int, b: int): (r: int)
    requires b > 0
    ensures a >= 0 ==> 0 <= r < b
    ensures a < 0 ==> -b < r <= 0
    ensures (a - r) % b == 0
  {
    if a >= 0 then
      assert a - a % b == (a / b) * b;
      MultipleModIsZero(a / b, b);
      a % b
    else
      assert a + (-a) % b == -((-a) / b) * b;
      MultipleModIsZero(-((-a) / b), b);
      -((-a) % b)
  }

  // ---------------------------------------------------------------------
  // formatEta

  /** The four values `formatEta` computes before it builds its parts. */
  datatype Eta = Eta(days: int, hours: int, mins: int, secs: int)

  /** The divisions and the `%=` updates of `sec`, in the order the script runs them. */
  function Decompose(seconds: int): Eta {
    var days := FloorDiv(seconds, 86400);
    var s1 := JsRem(seconds, 86400);
    var hours := FloorDiv(s1, 3600);
    var s2 := JsRem(s1, 3600);
    var mins := FloorDiv(s2, 60);
    Eta(days, hours, mins, JsRem(s2, 60))
  }

  /** One pushed part before it is written out: a value and its unit letter. */
  datatype Piece = Piece(value: int, unit: char)

  /** The template `${v}d`: the value in decimal, then the unit letter. */
  function PieceText(p: Piece): (t: string)
    ensures |t| >= 2 && t[|t| - 1] == p.unit
  {
    IntToString(p.value) + [p.unit]
  }

  /** The part of a value tested for truthiness: pushed only when non-zero. */
  function IfNonZero(v: int, unit: char): seq<Piece> {
    if v != 0 then [Piece(v, unit)] else []
  }

  /** The parts pushed: a non-zero day, hour and minute value, then the seconds, always. */
  function Pieces(e: Eta): seq<Piece> {
    IfNonZero(e.days, 'd') + IfNonZero(e.hours, 'h') + IfNonZero(e.mins, 'm') + [Piece(e.secs, 's')]
  }

  /** What `formatEta(seconds)` returns. */
  function EtaText(seconds: int): string {
    JoinSpaces(Map(PieceText, Pieces(Decompose(seconds))))
  }

  /** `formatEta`: `sec` is reassigned by each `%=` and `parts` grows by one push at a time. */
  method FormatEta(seconds: int) returns (text: string)
    ensures text == EtaText(seconds)
  {
    var sec := seconds;
    var days := FloorDiv(sec, 86400);
    sec := JsRem(sec, 86400);
    var hours := FloorDiv(sec, 3600);
    sec := JsRem(sec, 3600);
    var mins := FloorDiv(sec, 60);
    sec := JsRem(sec, 60);
    var parts: seq<string> := [];
    ghost var pieces: seq<Piece> := [];
    if days != 0 {
      MapSnoc(PieceText, pieces, Piece(days, 'd'));
      parts, pieces := parts + [PieceText(Piece(days, 'd'))], pieces + [Piece(days, 'd')];
    }
    ghost var d := IfNonZero(days, 'd');
    assert pieces == d && parts == Map(PieceText, pieces);
    if hours != 0 {
      MapSnoc(PieceText, pieces, Piece(hours, 'h'));
      parts, pieces := parts + [PieceText(Piece(hours, 'h'))], pieces + [Piece(hours, 'h')];
    }
    ghost var h := IfNonZero(hours, 'h');
    assert pieces == d + h && parts == Map(PieceText, pieces);
    if mins != 0 {
      MapSnoc(PieceText, pieces, Piece(mins, 'm'));
      parts, pieces := parts + [PieceText(Piece(mins, 'm'))], pieces + [Piece(mins, 'm')];
    }
    ghost var m := IfNonZero(mins, 'm');
    assert pieces == d + h + m && parts == Map(PieceText, pieces);
    MapSnoc(PieceText, pieces, Piece(sec, 's'));
    parts, pieces := parts + [PieceText(Piece(sec, 's'))], pieces + [Piece(sec, 's')];
    assert Decompose(seconds) == Eta(days, hours, mins, sec);
    assert pieces == Pieces(Eta(days, hours, mins, sec));
    text := JoinSpaces(parts);
  }

  /** The calendar reading of a duration: whole days, then hours, minutes and seconds below their limits. */
  ghost predicate IsSplitOf(e: Eta, seconds: int) {
    && e.days >= 0
    && 0 <= e.hours < 24
    && 0 <= e.mins < 60
    && 0 <= e.secs < 60
    && e.days * 86400 + e.hours * 3600 + e.mins * 60 + e.secs == seconds
  }

  /** For a non-negative input the four values are its days, hours, minutes and seconds. */
  lemma DecomposeNonNegative(seconds: int)
    requires seconds >= 0
    ensures IsSplitOf(Decompose(seconds), seconds)
  {
    var e := Decompose(seconds);
    var s1 := JsRem(seconds, 86400);
    var s2 := JsRem(s1, 3600);
    assert seconds == e.days * 86400 + s1;
    assert s1 == e.hours * 3600 + s2;
    assert s2 == e.mins * 60 + e.secs;
  }

  /** There is only one such reading, so `formatEta` finds the calendar one. */
  lemma {:induction false} SplitIsUnique(e: Eta, f: Eta, seconds: int)
    requires IsSplitOf(e, seconds) && IsSplitOf(f, seconds)
    ensures e == f
  {
    assert e.days == seconds / 86400 == f.days;
    assert e.hours == (seconds - e.days * 86400) / 3600 == f.hours;
    assert e.mins == (seconds - e.days * 86400 - e.hours * 3600) / 60 == f.mins;
  }

  lemma MinusOneParts()
    ensures Map(PieceText, Pieces(Eta(-1, -1, -1, -1))) == ["-1d", "-1h", "-1m", "-1s"]
  {
    var e := Eta(-1, -1, -1, -1);
    assert DigitChar(1) == '1';
    assert IntToString(-1) == "-1";
    var ps := Pieces(e);
    assert ps == [Piece(-1, 'd'), Piece(-1, 'h'), Piece(-1, 'm'), Piece(-1, 's')];
    var ts := Map(PieceText, ps);
    assert ts[0] == "-1d" && ts[1] == "-1h" && ts[2] == "-1m" && ts[3] == "-1s";
  }

  /** A negative input mixes the floored quotients with truncated remainders. */
  lemma NegativeSecond()
    ensures Decompose(-1) == Eta(-1, -1, -1, -1)
    ensures Map(PieceText, Pieces(Decompose(-1))) == ["-1d", "-1h", "-1m", "-1s"]
  {
    assert Decompose(-1) == Eta(-1, -1, -1, -1);
    MinusOneParts();
  }

  /** Under a minute the text is the bare seconds. */
  lemma UnderAMinute(seconds: int)
    requires 0 <= seconds < 60
    ensures EtaText(seconds) == IntToString(seconds) + "s"
  {
    var e := Eta(0, 0, 0, seconds);
    assert Decompose(seconds) == e;
    assert Pieces(e) == [Piece(seconds, 's')];
    assert Map(PieceText, [Piece(seconds, 's')])[0] == IntToString(seconds) + "s";
  }

  /** The value a unit letter stands for. */
  function Field(e: Eta, unit: char): int {
    if unit == 'd' then e.days
    else if unit == 'h' then e.hours
    else if unit == 'm' then e.mins
    else e.secs
  }

  /** The position of a unit letter in the order days, hours, minutes, seconds. */
  function Rank(unit: char): nat {
    if unit == 'd' then 0
    else if unit == 'h' then 1
    else if unit == 'm' then 2
    else 3
  }

  /**
   * Every part carries the value of its own unit; the units come in the
   * order d, h, m, s; the seconds part is always there and last.
   */
  lemma PiecesShape(e: Eta)
    ensures var ps := Pieces(e);
            && |ps| >= 1
            && ps[|ps| - 1] == Piece(e.secs, 's')
            && (forall i :: 0 <= i < |ps| ==> ps[i].unit in "dhms" && ps[i].value == Field(e, ps[i].unit))
            && (forall i :: 0 <= i < |ps| - 1 ==> Rank(ps[i].unit) < Rank(ps[i + 1].unit))
  {
  }

  /** A day, hour or minute part is there exactly when its value is non-zero. */
  lemma PiecesPresence(e: Eta)
    ensures (exists p :: p in Pieces(e) && p.unit == 'd') <==> e.days != 0
    ensures (exists p :: p in Pieces(e) && p.unit == 'h') <==> e.hours != 0
    ensures (exists p :: p in Pieces(e) && p.unit == 'm') <==> e.mins != 0
  {
    if e.days != 0 {
      assert Pieces(e)[0] == Piece(e.days, 'd');
    }
    if e.hours != 0 {
      assert Piece(e.hours, 'h') in Pieces(e);
    }
    if e.mins != 0 {
      assert Piece(e.mins, 'm') in Pieces(e);
    }
  }

  lemma IntToStringHasNoSpace(n: int)
    ensures ' ' !in IntToString(n)
  {
    NatToStringSpec(if n >= 0 then n else -n);
  }

  // ---------------------------------------------------------------------
  // Joining with single spaces, and reading the parts back

  /** `s.split(' ')`. */
  function SplitSpaces(s: string): (r: seq<string>)
    ensures |r| >= 1
  {
    if s == [] then [""]
    else
      var rest := SplitSpaces(s[1..]);
      if s[0] == ' ' then [""] + rest else [[s[0]] + rest[0]] + rest[1..]
  }

  lemma {:induction false} SplitNoSpace(a: string, b: string)
    requires ' ' !in a
    ensures SplitSpaces(a + b) == [a + SplitSpaces(b)[0]] + SplitSpaces(b)[1..]
    decreases |a|
  {
    var sb := SplitSpaces(b);
    if a != [] {
      SplitNoSpace(a[1..], b);
      assert (a + b)[1..] == a[1..] + b;
      assert (a + b)[0] == a[0] != ' ';
      var rest := SplitSpaces(a[1..] + b);
      assert rest == [a[1..] + sb[0]] + sb[1..];
      assert [a[0]] + (a[1..] + sb[0]) == a + sb[0];
    } else {
      assert a + b == b;
      assert a + sb[0] == sb[0];
      assert [sb[0]] + sb[1..] == sb;
    }
  }

  lemma SplitSeparated(a: string, b: string)
    requires ' ' !in a
    ensures SplitSpaces(a + " " + b) == [a] + SplitSpaces(b)
  {
    SplitNoSpace(a, " " + b);
    assert (" " + b)[1..] == b;
    assert SplitSpaces(" " + b) == [""] + SplitSpaces(b);
    assert a + "" == a;
    assert a + " " + b == a + (" " + b);
  }

  /** Splitting the joined parts on `' '` gives the parts back: the join puts exactly one space between parts. */
  lemma {:induction false} JoinSplitRoundTrip(ps: seq<string>)
    requires ps != []
    requires forall i :: 0 <= i < |ps| ==> ' ' !in ps[i]
    ensures SplitSpaces(JoinSpaces(ps)) == ps
    decreases |ps|
  {
    if |ps| == 1 {
      SplitNoSpace(ps[0], "");
      assert ps[0] + "" == ps[0];
    } else {
      JoinSplitRoundTrip(ps[1..]);
      SplitSeparated(ps[0], JoinSpaces(ps[1..]));
      assert ps == [ps[0]] + ps[1..];
    }
  }

  /** The text of `formatEta` splits on spaces into exactly its parts. */
  lemma EtaTextSplits(seconds: int)
    ensures SplitSpaces(EtaText(seconds)) == Map(PieceText, Pieces(Decompose(seconds)))
  {
    var ps := Pieces(Decompose(seconds));
    PiecesShape(Decompose(seconds));
    var ts := Map(PieceText, ps);
    forall i | 0 <= i < |ts|
      ensures ' ' !in ts[i]
    {
      IntToStringHasNoSpace(ps[i].value);
    }
    JoinSplitRoundTrip(ts);
  }

  // ---------------------------------------------------------------------
  // The estimate in handleProgress

  /** `Math.ceil((total - done) * SEC_PER_ITEM)` with `SEC_PER_ITEM = 300 / 200`, which is exactly 1.5. */
  function EtaSeconds(total: int, done: int): int {
    (3 * (total - done) + 1) / 2
  }

  /** The estimate is the least integer at or above one and a half seconds per remaining item. */
  lemma EtaSecondsIsCeiling(total: int, done: int)
    ensures var e := EtaSeconds(total, done);
            && (e as real) >= ((total - done) as real) * 1.5
            && ((e - 1) as real) < ((total - done) as real) * 1.5
    ensures total >= done ==> EtaSeconds(total, done) >= 0
  {
    var r := total - done;
    var e := EtaSeconds(total, done);
    assert 3 * r <= 2 * e <= 3 * r + 1;
    assert (2 * e) as real == 2.0 * (e as real);
    assert (3 * r) as real == 3.0 * (r as real);
  }

  // ---------------------------------------------------------------------
  // status.match(/(\d+)\s*sec/i)

  /** JavaScript's `\s` over ASCII: space, tab, line feed, vertical tab, form feed, carriage return. */
  predicate IsSpace(c: char) {
    c == ' ' || c == '\t' || c == '\n' || c == '\U{000B}' || c == '\U{000C}' || c == '\r'
  }

  function SpaceRunEnd(s: string, j: nat): (k: nat)
    requires j <= |s|
    ensures j <= k <= |s|
    ensures forall t :: j <= t < k ==> IsSpace(s[t])
    ensures k < |s| ==> !IsSpace(s[k])
    decreases |s| - j
  {
    if j < |s| && IsSpace(s[j]) then SpaceRunEnd(s, j + 1) else j
  }

  /** `sec` under the `i` flag. */
  predicate SecAt(s: string, k: nat) {
    k + 3 <= |s| && LowerChar(s[k]) == 's' && LowerChar(s[k + 1]) == 'e' && LowerChar(s[k + 2]) == 'c'
  }

  /** The pattern matches at `i` taking every digit and every space it meets, as the greedy quantifiers do. */
  predicate MatchAt(s: string, i: nat) {
    i < |s| && IsDigit(s[i]) && SecAt(s, SpaceRunEnd(s, DigitRunEnd(s, i)))
  }

  ghost predicate DigitsBetween(s: string, i: nat, e: nat) {
    i <= e <= |s| && forall t :: i <= t < e ==> IsDigit(s[t])
  }

  ghost predicate SpacesBetween(s: string, e: nat, w: nat) {
    e <= w <= |s| && forall t :: e <= t < w ==> IsSpace(s[t])
  }

  /** The pattern can match at `i` in some way: at least one digit, any spaces, then `sec`. */
  ghost predicate RegexMatchAt(s: string, i: nat, e: nat, w: nat) {
    i < e && DigitsBetween(s, i, e) && SpacesBetween(s, e, w) && SecAt(s, w)
  }

  lemma {:induction false} DigitsWithinRun(s: string, i: nat, e: nat)
    requires DigitsBetween(s, i, e)
    ensures e <= DigitRunEnd(s, i)
    decreases e - i
  {
    if i < e {
      DigitsWithinRun(s, i + 1, e);
    }
  }

  lemma {:induction false} SpacesWithinRun(s: string, e: nat, w: nat)
    requires SpacesBetween(s, e, w)
    ensures w <= SpaceRunEnd(s, e)
    decreases w - e
  {
    if e < w {
      SpacesWithinRun(s, e + 1, w);
    }
  }

  /**
   * Backtracking cannot help: the pattern matches at `i` exactly when the
   * greedy reading does, and then in one way only, so the captured digits
   * are the whole run.
   */
  lemma GreedyMatchIsTheMatch(s: string, i: nat)
    ensures MatchAt(s, i) ==> RegexMatchAt(s, i, DigitRunEnd(s, i), SpaceRunEnd(s, DigitRunEnd(s, i)))
    ensures forall e: nat, w: nat :: RegexMatchAt(s, i, e, w) ==>
              MatchAt(s, i) && e == DigitRunEnd(s, i) && w == SpaceRunEnd(s, e)
  {
    forall e: nat, w: nat | RegexMatchAt(s, i, e, w)
      ensures MatchAt(s, i) && e == DigitRunEnd(s, i) && w == SpaceRunEnd(s, e)
    {
      assert LowerChar(s[w]) == 's';
      DigitsWithinRun(s, i, e);
      SpacesWithinRun(s, e, w);
    }
  }

  /**
   * A run of digits followed by spaces and then a character other than `s`
   * or `S` holds no match: each of its positions reads the same run.
   */
  lemma NoMatchInRun(s: string, t: nat, e: nat, w: nat)
    requires t <= e < w < |s|
    requires forall k :: t <= k < e ==> IsDigit(s[k])
    requires !IsDigit(s[e])
    requires SpacesBetween(s, e, w) && !IsSpace(s[w]) && LowerChar(s[w]) != 's'
    ensures forall k :: t <= k < e ==> !MatchAt(s, k)
  {
    forall k | t <= k < e
      ensures !MatchAt(s, k)
    {
      DigitsWithinRun(s, k, e);
      SpacesWithinRun(s, e, w);
      assert DigitRunEnd(s, k) == e;
    }
  }

  /** The leftmost position at or after `from` where the pattern matches, as `String.prototype.match` finds it. */
  function FirstMatch(s: string, from: nat): (r: Option<nat>)
    ensures r.None? ==> forall i :: from <= i ==> !MatchAt(s, i)
    ensures r.Some? ==> from <= r.value && MatchAt(s, r.value)
    ensures r.Some? ==> forall i :: from <= i < r.value ==> !MatchAt(s, i)
    decreases |s| - from
  {
    if from >= |s| then None
    else if MatchAt(s, from) then Some(from)
    else FirstMatch(s, from + 1)
  }

  /** What the page does after a progress answer, besides redrawing the bar. */
  datatype Next =
    | Countdown(seconds: nat)  // sleep for the captured number of seconds, then poll
    | PollAgain                // poll again in a second
    | Stop                     // no further poll

  /** The branch of `handleProgress` taken on `status`. */
  function NextStep(status: string): Next {
    match FirstMatch(status, 0)
    case Some(i) => Countdown(DigitsValue(status[i..DigitRunEnd(status, i)]))
    case None => if status != "completed" then PollAgain else Stop
  }

  /**
   * A countdown starts exactly when the pattern matches somewhere, for the
   * number its leftmost match captures; polling stops only on the exact
   * status `completed`; every other status polls again.
   */
  lemma NextStepSpec(status: string)
    ensures NextStep(status).Countdown? <==> exists i: nat, e: nat, w: nat :: RegexMatchAt(status, i, e, w)
    ensures NextStep(status).Countdown? ==>
              exists i: nat, e: nat, w: nat ::
                && RegexMatchAt(status, i, e, w)
                && (forall j: nat, e': nat, w': nat :: j < i ==> !RegexMatchAt(status, j, e', w'))
                && NextStep(status).seconds == DigitsValue(status[i..e])
    ensures NextStep(status) == Stop <==> status == "completed"
    ensures NextStep(status) == PollAgain <==>
              status != "completed" && forall i: nat, e: nat, w: nat :: !RegexMatchAt(status, i, e, w)
  {
    match FirstMatch(status, 0)
    case Some(i) =>
      GreedyMatchIsTheMatch(status, i);
      var e := DigitRunEnd(status, i);
      var w := SpaceRunEnd(status, e);
      assert RegexMatchAt(status, i, e, w);
      forall j: nat, e': nat, w': nat | j < i
        ensures !RegexMatchAt(status, j, e', w')
      {
        GreedyMatchIsTheMatch(status, j);
      }
      assert status != "completed" by {
        if status == "completed" {
          assert false;
        }
      }
    case None =>
      forall i: nat, e: nat, w: nat
        ensures !RegexMatchAt(status, i, e, w)
      {
        GreedyMatchIsTheMatch(status, i);
      }
  }

  // ---------------------------------------------------------------------
  // showSleepCountdown

  /** `Math.ceil(diff / 1000)`. */
  function CeilThousandths(diff: int): int {
    (diff + 999) / 1000
  }

  /** The whole seconds shown cover the remaining milliseconds with less than a second to spare. */
  lemma CeilThousandthsBounds(diff: int)
    ensures (CeilThousandths(diff) - 1) * 1000 < diff <= CeilThousandths(diff) * 1000
    ensures diff > 0 ==> CeilThousandths(diff) >= 1
  {
  }

  /** One tick of the sleep countdown: redraw with the seconds left, or poll when the sleep is over. */
  datatype Tick = Sleeping(text: string) | Poll

  /**
   * `showSleepCountdown`, with the milliseconds still to sleep
   * (`sleepingUntil - Date.now()`) given by the caller.
   */
  function SleepTick(total: int, done: int, diff: int): (t: Tick)
    ensures t.Sleeping? <==> diff > 0
  {
    if diff > 0 then
      Sleeping("Time to Finish: " + EtaText(EtaSeconds(total, done))
               + " \U{2014} paused, " + IntToString(CeilThousandths(diff)) + "s")
    else Poll
  }

  /** The line `handleProgress` shows when no countdown starts. */
  function StatusLine(total: int, done: int, status: string): string {
    "Time to Finish: " + EtaText(EtaSeconds(total, done)) + " \U{2014} " + status
  }
}
