/**
 * Timeline continuity of long-running episodes: an episode with at least
 * five events spanning a year or more is analysed for an unusual first
 * event, events after a resolution, and how many of its major transitions
 * carry details. Dates are day numbers.
 */
module EpisodeContinuity {
  import opened Wrappers
  import opened Sorting

  /** One row of an episode. A missing `Details` or `RelatedEpisode` is the empty string. */
  datatype Event = Event(date: int, event: string, item: string, category: string, details: string, relatedEpisode: string)

  /** The warnings the analysis can raise, with the values their messages name. */
  datatype Warning =
    | UnusualStart(event: string)
    | PostResolutionEvent(event: string, date: int)

  /** The analysis record; `issues` is never filled, so every analysed episode is coherent. */
  datatype Analysis = Analysis(
    episodeId: string,
    item: string,
    category: string,
    eventCount: nat,
    firstDate: int,
    lastDate: int,
    durationDays: int,
    eventSequence: seq<string>,
    issues: seq<Warning>,
    warnings: seq<Warning>,
    isCoherent: bool,
    detailCompleteness: real,
    hasRelatedLinks: bool)

  const InitialEvents: seq<string> := ["diagnosed", "suspected", "noted", "started"]
  const ResolutionEvents: seq<string> := ["resolved", "stopped"]
  const MajorEvents: seq<string> := ["diagnosed", "started", "stopped", "resolved", "worsened"]

  /** Events are sorted by their date. */
  function DateKey(e: Event): int
  {
    e.date
  }

  predicate IsResolution(e: Event)
  {
    e.event in ResolutionEvents
  }

  predicate IsMajor(e: Event)
  {
    e.event in MajorEvents
  }

  /** A major transition whose details run past twenty characters. */
  predicate IsDetailedMajor(e: Event)
  {
    IsMajor(e) && |e.details| > 20
  }

  predicate HasRelated(e: Event)
  {
    e.relatedEpisode != ""
  }

  // ---------------------------------------------------------------------
  // Counting, as `sum(1 for e in events if ...)`
  // ---------------------------------------------------------------------

  /** The number of events satisfying `p`. */
  function Count(p: Event -> bool, s: seq<Event>): (c: nat)
    ensures c <= |s|
  {
    if s == [] then 0 else (if p(s[0]) then 1 else 0) + Count(p, s[1..])
  }

  lemma {:induction false} CountConcat(p: Event -> bool, a: seq<Event>, b: seq<Event>)
    ensures Count(p, a + b) == Count(p, a) + Count(p, b)
  {
    if a != [] {
      assert (a + b)[1..] == a[1..] + b;
      CountConcat(p, a[1..], b);
    } else {
      assert a + b == b;
    }
  }

  /** The count over all events is the count over all but the last, plus the last. */
  lemma CountLast(p: Event -> bool, s: seq<Event>)
    requires s != []
    ensures Count(p, s) == Count(p, s[..|s| - 1]) + (if p(s[|s| - 1]) then 1 else 0)
  {
    var n := |s| - 1;
    assert s == s[..n] + [s[n]];
    CountConcat(p, s[..n], [s[n]]);
  }

  /** Taking out the element at `j` takes one copy of it out of the multiset. */
  lemma RemoveAt(b: seq<Event>, j: nat)
    requires j < |b|
    ensures multiset(b) == multiset(b[..j] + b[j + 1..]) + multiset{b[j]}
  {
    assert b == b[..j] + [b[j]] + b[j + 1..];
  }

  /** One copy of the same element can be cancelled from both sides. */
  lemma Cancel(m1: multiset<Event>, m2: multiset<Event>, x: Event)
    requires m1 + multiset{x} == m2 + multiset{x}
    ensures m1 == m2
  {
    forall y ensures m1[y] == m2[y] {
      assert (m1 + multiset{x})[y] == (m2 + multiset{x})[y];
    }
  }

  /** A count does not depend on the order of the events. */
  lemma {:induction false} CountPermutation(p: Event -> bool, a: seq<Event>, b: seq<Event>)
    requires multiset(a) == multiset(b)
    ensures Count(p, a) == Count(p, b)
    decreases |a|
  {
    if a == [] {
      assert |b| == |multiset(b)| == 0;
    } else {
      var x := a[0];
      assert x in multiset(b);
      var j :| 0 <= j < |b| && b[j] == x;
      var rest := b[..j] + b[j + 1..];
      RemoveAt(b, j);
      assert a == [x] + a[1..];
      assert multiset(a[1..]) + multiset{x} == multiset(rest) + multiset{x};
      Cancel(multiset(a[1..]), multiset(rest), x);
      CountPermutation(p, a[1..], rest);
      assert b == b[..j] + [x] + b[j + 1..];
      CountConcat(p, b[..j] + [x], b[j + 1..]);
      CountConcat(p, b[..j], [x]);
      CountConcat(p, b[..j], b[j + 1..]);
    }
  }

  /** Whatever satisfies `p` satisfies `q`, so fewer events satisfy `p`. */
  lemma {:induction false} CountMonotone(p: Event -> bool, q: Event -> bool, s: seq<Event>)
    requires forall e :: p(e) ==> q(e)
    ensures Count(p, s) <= Count(q, s)
  {
    if s != [] {
      CountMonotone(p, q, s[1..]);
    }
  }

  /** `any(...)`: some event satisfies `p` exactly when the count is positive. */
  lemma {:induction false} CountPositive(p: Event -> bool, s: seq<Event>)
    ensures Count(p, s) > 0 <==> exists e :: e in s && p(e)
  {
    if s != [] {
      CountPositive(p, s[1..]);
      assert forall e :: e in s <==> e == s[0] || e in s[1..];
    }
  }

  // ---------------------------------------------------------------------
  // The span of an episode
  // ---------------------------------------------------------------------

  /** `sorted` holds the (non-empty) events in date order. */
  predicate SortedPermutation(events: seq<Event>, sorted: seq<Event>)
  {
    events != [] && multiset(sorted) == multiset(events) && SortedBy(sorted, DateKey)
  }

  /** Moreover, events of one date keep their original order, as Python's stable `sorted` keeps them. */
  ghost predicate StableDateOrder(events: seq<Event>, sorted: seq<Event>)
  {
    events != [] && StablySorted(events, sorted, DateKey)
  }

  /** The first and last of the date-sorted events are events carrying the earliest and latest dates. */
  lemma SortedEnds(events: seq<Event>, sorted: seq<Event>)
    requires SortedPermutation(events, sorted)
    ensures |sorted| == |events|
    ensures sorted[0] in events && sorted[|sorted| - 1] in events
    ensures forall e :: e in events ==> sorted[0].date <= e.date <= sorted[|sorted| - 1].date
  {
    assert |sorted| == |multiset(sorted)| == |multiset(events)| == |events|;
    assert sorted[0] in multiset(sorted);
    assert sorted[|sorted| - 1] in multiset(sorted);
    forall e | e in events ensures sorted[0].date <= e.date <= sorted[|sorted| - 1].date {
      assert e in multiset(sorted);
      var i :| 0 <= i < |sorted| && sorted[i] == e;
      assert DateKey(sorted[0]) <= DateKey(sorted[i]) <= DateKey(sorted[|sorted| - 1]);
    }
  }

  /** `duration_days / 365.25 < 1.0` */
  predicate UnderAYear(days: int)
  {
    (days as real) / 365.25 < 1.0
  }

  /** In whole days, the span is under a year exactly when it is at most 365 days. */
  lemma UnderAYearInDays(days: int)
    ensures UnderAYear(days) <==> days <= 365
  {
    var y := (days as real) / 365.25;
    assert y * 365.25 == days as real;
    if days <= 365 {
      assert y * 365.25 < 365.25;
    } else {
      assert y * 365.25 >= 366.0;
    }
  }

  // ---------------------------------------------------------------------
  // Warnings and detail completeness
  // ---------------------------------------------------------------------

  /** The warning about the first date-sorted event, if it is not an initial event. */
  function StartWarnings(first: Event): seq<Warning>
  {
    if first.event in InitialEvents then [] else [UnusualStart(first.event)]
  }

  /** The post-resolution warnings for the first `n` sorted events: a resolution that is not the last event. */
  function PostResolutionWarnings(s: seq<Event>, n: nat): seq<Warning>
    requires n <= |s|
  {
    if n == 0 then []
    else
      var e := s[n - 1];
      PostResolutionWarnings(s, n - 1) +
        (if IsResolution(e) && n - 1 < |s| - 1 then [PostResolutionEvent(e.event, e.date)] else [])
  }

  /** A warning names a resolution that some later-indexed event follows, and each such resolution is named. */
  lemma {:induction false} PostResolutionMembers(s: seq<Event>, n: nat, w: Warning)
    requires n <= |s|
    ensures w in PostResolutionWarnings(s, n) <==>
      exists i :: 0 <= i < n && i < |s| - 1 && IsResolution(s[i]) && w == PostResolutionEvent(s[i].event, s[i].date)
  {
    if n > 0 {
      PostResolutionMembers(s, n - 1, w);
    }
  }

  /** One warning per resolution among the first `n` events, as long as the last event is not reached. */
  lemma {:induction false} PostResolutionCount(s: seq<Event>, n: nat)
    requires n < |s|
    ensures |PostResolutionWarnings(s, n)| == Count(IsResolution, s[..n])
  {
    if n > 0 {
      PostResolutionCount(s, n - 1);
      assert s[..n] == s[..n - 1] + [s[n - 1]];
      CountConcat(IsResolution, s[..n - 1], [s[n - 1]]);
    }
  }

  /** `transitions_with_details / major_transitions * 100`, or 0 without major transitions. */
  function DetailCompleteness(detailed: nat, major: nat): real
  {
    if major > 0 then (detailed as real) / (major as real) * 100.0 else 0.0
  }

  /** The completeness is the detailed share of the major transitions, as a percentage. */
  lemma DetailCompletenessBounds(detailed: nat, major: nat)
    ensures major == 0 ==> DetailCompleteness(detailed, major) == 0.0
    ensures major > 0 ==> DetailCompleteness(detailed, major) * (major as real) == 100.0 * (detailed as real)
    ensures detailed <= major ==> 0.0 <= DetailCompleteness(detailed, major) <= 100.0
  {
    if major > 0 {
      var q := (detailed as real) / (major as real);
      assert q * (major as real) == detailed as real;
      if detailed <= major {
        assert q <= 1.0;
      }
    }
  }

  /** The names of the events, in sorted order. */
  function EventSequence(s: seq<Event>): (names: seq<string>)
    ensures |names| == |s| && forall i :: 0 <= i < |s| ==> names[i] == s[i].event
  {
    seq(|s|, i requires 0 <= i < |s| => s[i].event)
  }

  // ---------------------------------------------------------------------
  // The analysis
  // ---------------------------------------------------------------------

  /** The analysis record of an episode, from its events in date order. */
  function Report(episodeId: string, sorted: seq<Event>): Analysis
    requires sorted != []
  {
    var first := sorted[0];
    var last := sorted[|sorted| - 1];
    var issues: seq<Warning> := [];
    Analysis(
      episodeId, first.item, first.category, |sorted|, first.date, last.date, last.date - first.date,
      EventSequence(sorted), issues,
      StartWarnings(first) + PostResolutionWarnings(sorted, |sorted|),
      |issues| == 0,
      DetailCompleteness(Count(IsDetailedMajor, sorted), Count(IsMajor, sorted)),
      Count(HasRelated, sorted) > 0)
  }

  /** What `analyze_episode_continuity` returns for one episode's events. */
  function Analyze(episodeId: string, events: seq<Event>): Option<Analysis>
  {
    if |events| < 5 then None
    else
      var sorted := SortBy(events, DateKey);
      if UnderAYear(sorted[|sorted| - 1].date - sorted[0].date) then None
      else Some(Report(episodeId, sorted))
  }

  /** The warning loop over the date-sorted events. */
  method CollectWarnings(sorted: seq<Event>) returns (warnings: seq<Warning>)
    requires sorted != []
    ensures warnings == StartWarnings(sorted[0]) + PostResolutionWarnings(sorted, |sorted|)
  {
    warnings := [];
    if sorted[0].event !in InitialEvents {
      warnings := warnings + [UnusualStart(sorted[0].event)];
    }
    var i := 0;
    while i < |sorted|
      invariant 0 <= i <= |sorted|
      invariant warnings == StartWarnings(sorted[0]) + PostResolutionWarnings(sorted, i)
    {
      var e := sorted[i];
      if e.event in ResolutionEvents && i < |sorted| - 1 {
        warnings := warnings + [PostResolutionEvent(e.event, e.date)];
      }
      i := i + 1;
    }
  }

  /** `analyze_episode_continuity`: `None` for short or brief episodes, otherwise the analysis. */
  method AnalyzeEpisodeContinuity(episodeId: string, events: seq<Event>) returns (r: Option<Analysis>)
    ensures r == Analyze(episodeId, events)
  {
    if |events| < 5 {
      return None;
    }
    var sorted := SortBy(events, DateKey);
    var first := sorted[0];
    var last := sorted[|sorted| - 1];
    var days := last.date - first.date;
    if (days as real) / 365.25 < 1.0 {
      return None;
    }
    var issues: seq<Warning> := [];
    var warnings := CollectWarnings(sorted);
    var detailed := Count(IsDetailedMajor, sorted);
    var major := Count(IsMajor, sorted);
    var completeness := if major > 0 then (detailed as real) / (major as real) * 100.0 else 0.0;
    var linked := Count(HasRelated, sorted) > 0;
    r := Some(Analysis(
      episodeId, first.item, first.category, |sorted|, first.date, last.date, days,
      EventSequence(sorted), issues, warnings, |issues| == 0, completeness, linked));
  }

  /** An episode is analysed exactly when it has five or more events, two of them more than 365 days apart. */
  lemma AnalyzedIff(episodeId: string, events: seq<Event>)
    ensures Analyze(episodeId, events).Some? <==>
      |events| >= 5 && exists e1, e2 :: e1 in events && e2 in events && e2.date - e1.date > 365
  {
    if |events| >= 5 {
      var sorted := SortBy(events, DateKey);
      SortedEnds(events, sorted);
      var first := sorted[0];
      var last := sorted[|sorted| - 1];
      UnderAYearInDays(last.date - first.date);
      if exists e1, e2 :: e1 in events && e2 in events && e2.date - e1.date > 365 {
        var e1, e2 :| e1 in events && e2 in events && e2.date - e1.date > 365;
        assert first.date <= e1.date && e2.date <= last.date;
      }
    }
  }

  /**
   * An analysis is the report of the episode's events in date order, with
   * the events of one date in their original order; that order is unique.
   */
  lemma AnalysisIsReport(episodeId: string, events: seq<Event>)
    requires Analyze(episodeId, events).Some?
    ensures StableDateOrder(events, SortBy(events, DateKey))
    ensures forall sorted :: StableDateOrder(events, sorted) ==> Analyze(episodeId, events).value == Report(episodeId, sorted)
  {
    SortByIsStableSort(events, SortBy(events, DateKey), DateKey);
    forall sorted | StableDateOrder(events, sorted) ensures Analyze(episodeId, events).value == Report(episodeId, sorted) {
      SortByIsStableSort(events, sorted, DateKey);
    }
  }

  /**
   * The report counts every event, spans from an earliest to a latest event,
   * and takes item, category and first event from the first event, in input
   * order, that carries the earliest date.
   */
  lemma ReportSummary(episodeId: string, events: seq<Event>, sorted: seq<Event>)
    requires StableDateOrder(events, sorted)
    ensures var a := Report(episodeId, sorted);
      a.episodeId == episodeId && a.eventCount == |events| && a.durationDays == a.lastDate - a.firstDate
    ensures var a := Report(episodeId, sorted);
      forall e :: e in events ==> a.firstDate <= e.date <= a.lastDate
    ensures var a := Report(episodeId, sorted);
      exists i :: 0 <= i < |events| && events[i].date == a.firstDate && (forall j :: 0 <= j < i ==> events[j].date != a.firstDate) &&
        events[i].item == a.item && events[i].category == a.category && events[i].event == a.eventSequence[0]
    ensures var a := Report(episodeId, sorted);
      exists e :: e in events && e.date == a.lastDate && e.event == a.eventSequence[|a.eventSequence| - 1]
    ensures var a := Report(episodeId, sorted);
      a.issues == [] && a.isCoherent
  {
    SortedEnds(events, sorted);
    var d := DateKey(sorted[0]);
    SortedWithKeyHead(sorted, DateKey);
    assert WithKey(events, DateKey, d) == WithKey(sorted, DateKey, d);
    WithKeyFirst(events, DateKey, d);
  }

  /** Detail completeness and related links do not depend on the order of the events. */
  lemma ReportDetails(episodeId: string, events: seq<Event>, sorted: seq<Event>)
    requires SortedPermutation(events, sorted)
    ensures var a := Report(episodeId, sorted);
      a.detailCompleteness == DetailCompleteness(Count(IsDetailedMajor, events), Count(IsMajor, events)) &&
      0.0 <= a.detailCompleteness <= 100.0
    ensures Report(episodeId, sorted).hasRelatedLinks <==> exists e :: e in events && e.relatedEpisode != ""
  {
    CountPermutation(IsDetailedMajor, sorted, events);
    CountPermutation(IsMajor, sorted, events);
    CountMonotone(IsDetailedMajor, IsMajor, events);
    DetailCompletenessBounds(Count(IsDetailedMajor, events), Count(IsMajor, events));
    CountPositive(HasRelated, sorted);
    forall e ensures e in sorted <==> e in events {
      assert e in sorted <==> e in multiset(sorted);
      assert e in events <==> e in multiset(events);
    }
  }

  /** The unusual-start warning is raised exactly when the first sorted event is not an initial event. */
  lemma ReportUnusualStart(episodeId: string, events: seq<Event>, sorted: seq<Event>)
    requires SortedPermutation(events, sorted)
    ensures var a := Report(episodeId, sorted);
      (exists w :: w in a.warnings && w.UnusualStart?) <==> a.eventSequence[0] !in InitialEvents
  {
    SortedEnds(events, sorted);
    var a := Report(episodeId, sorted);
    var post := PostResolutionWarnings(sorted, |sorted|);
    forall w | w in post ensures !w.UnusualStart? {
      PostResolutionMembers(sorted, |sorted|, w);
    }
    if sorted[0].event !in InitialEvents {
      assert a.warnings[0] == UnusualStart(sorted[0].event);
    }
  }

  /** Every resolution dated before the last event is warned about. */
  lemma ReportWarnsResolutions(episodeId: string, events: seq<Event>, sorted: seq<Event>)
    requires SortedPermutation(events, sorted)
    ensures var a := Report(episodeId, sorted);
      forall e :: e in events && IsResolution(e) && e.date < a.lastDate ==>
        PostResolutionEvent(e.event, e.date) in a.warnings
  {
    SortedEnds(events, sorted);
    var a := Report(episodeId, sorted);
    forall e | e in events && IsResolution(e) && e.date < a.lastDate
      ensures PostResolutionEvent(e.event, e.date) in a.warnings
    {
      assert e in multiset(sorted);
      var i :| 0 <= i < |sorted| && sorted[i] == e;
      assert i < |sorted| - 1;
      var w := PostResolutionEvent(e.event, e.date);
      PostResolutionMembers(sorted, |sorted|, w);
      assert w in PostResolutionWarnings(sorted, |sorted|);
      assert a.warnings == StartWarnings(sorted[0]) + PostResolutionWarnings(sorted, |sorted|);
    }
  }

  /** Every post-resolution warning names a resolution of the episode. */
  lemma ReportWarningsNameResolutions(episodeId: string, events: seq<Event>, sorted: seq<Event>)
    requires SortedPermutation(events, sorted)
    ensures var a := Report(episodeId, sorted);
      forall w :: w in a.warnings && w.PostResolutionEvent? ==>
        exists e :: e in events && IsResolution(e) && w == PostResolutionEvent(e.event, e.date)
  {
    var a := Report(episodeId, sorted);
    var post := PostResolutionWarnings(sorted, |sorted|);
    forall w | w in a.warnings && w.PostResolutionEvent?
      ensures exists e :: e in events && IsResolution(e) && w == PostResolutionEvent(e.event, e.date)
    {
      assert w in post;
      PostResolutionMembers(sorted, |sorted|, w);
      var i :| 0 <= i < |sorted| && i < |sorted| - 1 && IsResolution(sorted[i]) && w == PostResolutionEvent(sorted[i].event, sorted[i].date);
      assert sorted[i] in multiset(events);
    }
  }

  /** One warning per resolution except the last sorted event, plus the unusual start when there is one. */
  lemma ReportWarningCount(episodeId: string, events: seq<Event>, sorted: seq<Event>)
    requires SortedPermutation(events, sorted)
    ensures var a := Report(episodeId, sorted);
      |a.warnings| == (if a.eventSequence[0] in InitialEvents then 0 else 1) + Count(IsResolution, events) -
        (if a.eventSequence[|a.eventSequence| - 1] in ResolutionEvents then 1 else 0)
  {
    SortedEnds(events, sorted);
    var n := |sorted| - 1;
    var post := PostResolutionWarnings(sorted, |sorted|);
    LastNeverWarned(sorted);
    PostResolutionCount(sorted, n);
    assert |post| == Count(IsResolution, sorted[..n]);
    CountPermutation(IsResolution, sorted, events);
    CountLast(IsResolution, sorted);
    assert Count(IsResolution, events) == |post| + (if IsResolution(sorted[n]) then 1 else 0);
    var a := Report(episodeId, sorted);
    assert a.warnings == StartWarnings(sorted[0]) + post;
    assert a.eventSequence[0] == sorted[0].event && a.eventSequence[|a.eventSequence| - 1] == sorted[n].event;
  }

  /** The last sorted event never adds a post-resolution warning. */
  lemma LastNeverWarned(s: seq<Event>)
    requires s != []
    ensures PostResolutionWarnings(s, |s|) == PostResolutionWarnings(s, |s| - 1)
  {
  }
}
