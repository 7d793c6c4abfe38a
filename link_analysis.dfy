/**
 * Phase 3 of the quality review: episode-link statistics over the timeline
 * rows, with one issue per reference to a missing episode and one per
 * treatment that links to nothing.
 */
module LinkAnalysis {
  import opened Strings
  import TV = TimelineValidator

  datatype LinkIssue =
    | OrphanedReference(date: int, episodeId: string, item: string, reference: string)
    | UnlinkedTreatment(date: int, episodeId: string, item: string)
  {
    function IssueType(): string
    {
      if OrphanedReference? then "orphaned_reference" else "unlinked_treatment"
    }

    function Severity(): string
    {
      if OrphanedReference? then "high" else "medium"
    }

    function Description(): string
    {
      if OrphanedReference? then "References non-existent episode: " + reference
      else "Treatment not linked to any condition"
    }
  }

  /** The counters of `stats`; `link_completeness` is `Completeness`. */
  datatype Stats = Stats(
    totalEpisodes: nat,
    episodesWithLinks: nat,
    orphanedReferences: nat,
    treatmentsWithConditionLinks: nat,
    treatmentsWithoutLinks: nat)

  /** The keys of `episode_map`: every non-empty `EpisodeID`. */
  function EpisodeIds(rows: seq<TV.Row>): set<string>
  {
    set r | r in rows && r.episodeId != "" :: r.episodeId
  }

  /** The rows that have an `EpisodeID`. */
  function WithId(rows: seq<TV.Row>): (r: seq<TV.Row>)
    ensures |r| <= |rows|
  {
    if rows == [] then []
    else WithId(rows[..|rows| - 1]) + (if rows[|rows| - 1].episodeId != "" then [rows[|rows| - 1]] else [])
  }

  /** `[r.strip() for r in parts if r.strip()]` */
  function NonBlank(parts: seq<string>): (ids: seq<string>)
    ensures forall x :: x in ids ==> x != ""
  {
    if parts == [] then []
    else NonBlank(parts[..|parts| - 1]) + (if Strip(parts[|parts| - 1]) != "" then [Strip(parts[|parts| - 1])] else [])
  }

  /** The comma-separated related ids, stripped, blanks dropped. */
  function RelatedIds(related: string): seq<string>
  {
    NonBlank(Split(related, ','))
  }

  /** The orphan issues of one row: one per reference with no episode, in reference order. */
  function Orphans(row: TV.Row, refs: seq<string>, ids: set<string>): (r: seq<LinkIssue>)
    ensures forall x :: x in r ==> x.OrphanedReference? && x.reference in refs && x.reference !in ids
    ensures forall x :: x in r ==> x.date == row.date && x.episodeId == row.episodeId && x.item == row.item
    ensures |r| <= |refs|
  {
    if refs == [] then []
    else
      var last := refs[|refs| - 1];
      Orphans(row, refs[..|refs| - 1], ids) +
      (if last !in ids then [OrphanedReference(row.date, row.episodeId, row.item, last)] else [])
  }

  /** The issues one row contributes. */
  function RowIssues(row: TV.Row, ids: set<string>): seq<LinkIssue>
  {
    if row.episodeId == "" then []
    else
      (if row.relatedEpisode != "" then Orphans(row, RelatedIds(row.relatedEpisode), ids) else []) +
      (if row.category == "treatment" && row.relatedEpisode == "" then [UnlinkedTreatment(row.date, row.episodeId, row.item)] else [])
  }

  /** The issues of the first `n` rows, given the episode ids of all rows. */
  function Issues(rows: seq<TV.Row>, ids: set<string>, n: nat): seq<LinkIssue>
    requires n <= |rows|
  {
    if n == 0 then [] else Issues(rows, ids, n - 1) + RowIssues(rows[n - 1], ids)
  }

  /** What one row with an `EpisodeID` adds to the counters. */
  function Step(s: Stats, row: TV.Row, ids: set<string>): Stats
  {
    var linked := row.relatedEpisode != "";
    var treatment := row.category == "treatment";
    Stats(s.totalEpisodes,
      s.episodesWithLinks + (if linked then 1 else 0),
      s.orphanedReferences + (if linked then |Orphans(row, RelatedIds(row.relatedEpisode), ids)| else 0),
      s.treatmentsWithConditionLinks + (if treatment && linked then 1 else 0),
      s.treatmentsWithoutLinks + (if treatment && !linked then 1 else 0))
  }

  /** The counters after the first `n` rows of the loop. */
  function Counters(rows: seq<TV.Row>, ids: set<string>, n: nat): Stats
    requires n <= |rows|
  {
    if n == 0 then Stats(|WithId(rows)|, 0, 0, 0, 0)
    else
      var s := Counters(rows, ids, n - 1);
      if rows[n - 1].episodeId == "" then s else Step(s, rows[n - 1], ids)
  }

  /** The inner loop: the references of one linked row that name no episode. */
  method CheckReferences(row: TV.Row, refs: seq<string>, ids: set<string>) returns (found: seq<LinkIssue>)
    ensures found == Orphans(row, refs, ids)
  {
    found := [];
    var k := 0;
    while k < |refs|
      invariant 0 <= k <= |refs|
      invariant found == Orphans(row, refs[..k], ids)
    {
      assert refs[..k + 1][..k] == refs[..k];
      if refs[k] !in ids {
        found := found + [OrphanedReference(row.date, row.episodeId, row.item, refs[k])];
      }
      k := k + 1;
    }
    assert refs[..k] == refs;
  }

  /** `analyze_linking`: the statistics and the issues, row by row. */
  method AnalyzeLinking(rows: seq<TV.Row>) returns (stats: Stats, issues: seq<LinkIssue>)
    ensures stats == Counters(rows, EpisodeIds(rows), |rows|)
    ensures issues == Issues(rows, EpisodeIds(rows), |rows|)
  {
    var episodeMap := CollectIds(rows);
    stats := Stats(|WithId(rows)|, 0, 0, 0, 0);
    issues := [];
    var i := 0;
    while i < |rows|
      invariant 0 <= i <= |rows|
      invariant stats == Counters(rows, episodeMap, i)
      invariant issues == Issues(rows, episodeMap, i)
    {
      Advance(rows, episodeMap, i);
      var ep := rows[i];
      if ep.episodeId == "" {
        i := i + 1;
        continue;
      }
      stats, issues := CheckRow(ep, episodeMap, stats, issues);
      i := i + 1;
    }
  }

  /** The first loop: the keys of `episode_map`. */
  method CollectIds(rows: seq<TV.Row>) returns (episodeMap: set<string>)
    ensures episodeMap == EpisodeIds(rows)
  {
    episodeMap := {};
    var j := 0;
    while j < |rows|
      invariant 0 <= j <= |rows|
      invariant episodeMap == EpisodeIds(rows[..j])
    {
      assert rows[..j + 1] == rows[..j] + [rows[j]];
      if rows[j].episodeId != "" {
        episodeMap := episodeMap + {rows[j].episodeId};
      }
      j := j + 1;
    }
    assert rows[..j] == rows;
  }

  /** The body of the main loop for a row with an `EpisodeID`. */
  method CheckRow(ep: TV.Row, episodeMap: set<string>, stats: Stats, issues: seq<LinkIssue>)
    returns (stats': Stats, issues': seq<LinkIssue>)
    requires ep.episodeId != ""
    ensures stats' == Step(stats, ep, episodeMap)
    ensures issues' == issues + RowIssues(ep, episodeMap)
  {
    stats', issues' := stats, issues;
    var related := ep.relatedEpisode;
    if related != "" {
      stats' := stats'.(episodesWithLinks := stats'.episodesWithLinks + 1);
      var found := CheckReferences(ep, RelatedIds(related), episodeMap);
      issues' := issues' + found;
      stats' := stats'.(orphanedReferences := stats'.orphanedReferences + |found|);
    }
    if ep.category == "treatment" {
      if related != "" {
        stats' := stats'.(treatmentsWithConditionLinks := stats'.treatmentsWithConditionLinks + 1);
      } else {
        stats' := stats'.(treatmentsWithoutLinks := stats'.treatmentsWithoutLinks + 1);
        issues' := issues' + [UnlinkedTreatment(ep.date, ep.episodeId, ep.item)];
      }
    }
  }

  /** One more row: a row without an `EpisodeID` is skipped, any other takes one `Step`. */
  lemma Advance(rows: seq<TV.Row>, ids: set<string>, m: nat)
    requires m < |rows|
    ensures Counters(rows, ids, m + 1) ==
      if rows[m].episodeId == "" then Counters(rows, ids, m) else Step(Counters(rows, ids, m), rows[m], ids)
    ensures Issues(rows, ids, m + 1) == Issues(rows, ids, m) + RowIssues(rows[m], ids)
  {
  }

  /** `link_completeness` as a fraction of 100: `with / total` of the treatments, or 0 without treatments. */
  function Completeness(s: Stats): (r: (nat, nat))
    ensures r.1 > 0 && r.0 <= 100 * r.1
    ensures s.treatmentsWithConditionLinks + s.treatmentsWithoutLinks == 0 ==> r.0 == 0
    ensures s.treatmentsWithoutLinks == 0 && s.treatmentsWithConditionLinks > 0 ==> r.0 == 100 * r.1
  {
    var total := s.treatmentsWithConditionLinks + s.treatmentsWithoutLinks;
    if total == 0 then (0, 1) else (100 * s.treatmentsWithConditionLinks, total)
  }

  // ---------------------------------------------------------------------------
  // What the counters mean
  // ---------------------------------------------------------------------------

  function CountOrphans(issues: seq<LinkIssue>): nat
  {
    if issues == [] then 0
    else CountOrphans(issues[..|issues| - 1]) + (if issues[|issues| - 1].OrphanedReference? then 1 else 0)
  }

  function CountUnlinked(issues: seq<LinkIssue>): nat
  {
    if issues == [] then 0
    else CountUnlinked(issues[..|issues| - 1]) + (if issues[|issues| - 1].UnlinkedTreatment? then 1 else 0)
  }

  lemma {:induction false} CountsAppend(a: seq<LinkIssue>, b: seq<LinkIssue>)
    ensures CountOrphans(a + b) == CountOrphans(a) + CountOrphans(b)
    ensures CountUnlinked(a + b) == CountUnlinked(a) + CountUnlinked(b)
    decreases |b|
  {
    if b == [] {
      assert a + b == a;
    } else {
      assert (a + b)[..|a + b| - 1] == a + b[..|b| - 1];
      CountsAppend(a, b[..|b| - 1]);
    }
  }

  lemma {:induction false} OrphansCount(row: TV.Row, refs: seq<string>, ids: set<string>)
    ensures CountOrphans(Orphans(row, refs, ids)) == |Orphans(row, refs, ids)|
    ensures CountUnlinked(Orphans(row, refs, ids)) == 0
  {
    if refs != [] {
      var last := refs[|refs| - 1];
      OrphansCount(row, refs[..|refs| - 1], ids);
      CountsAppend(Orphans(row, refs[..|refs| - 1], ids),
        if last !in ids then [OrphanedReference(row.date, row.episodeId, row.item, last)] else []);
    }
  }

  /** The treatment rows with an `EpisodeID`. */
  function Treatments(rows: seq<TV.Row>, n: nat): nat
    requires n <= |rows|
  {
    if n == 0 then 0
    else Treatments(rows, n - 1) + (if rows[n - 1].episodeId != "" && rows[n - 1].category == "treatment" then 1 else 0)
  }

  /** The rows with an `EpisodeID` and a non-empty `RelatedEpisode`. */
  function Linked(rows: seq<TV.Row>, n: nat): nat
    requires n <= |rows|
  {
    if n == 0 then 0
    else Linked(rows, n - 1) + (if rows[n - 1].episodeId != "" && rows[n - 1].relatedEpisode != "" then 1 else 0)
  }

  /** One row's step adds its own orphan and unlinked issues to the counters. */
  lemma StepMeaning(s: Stats, row: TV.Row, ids: set<string>)
    requires row.episodeId != ""
    ensures Step(s, row, ids).orphanedReferences == s.orphanedReferences + CountOrphans(RowIssues(row, ids))
    ensures Step(s, row, ids).treatmentsWithoutLinks == s.treatmentsWithoutLinks + CountUnlinked(RowIssues(row, ids))
  {
    var orphans := if row.relatedEpisode != "" then Orphans(row, RelatedIds(row.relatedEpisode), ids) else [];
    var unlinked := if row.category == "treatment" && row.relatedEpisode == "" then [UnlinkedTreatment(row.date, row.episodeId, row.item)] else [];
    if row.relatedEpisode != "" {
      OrphansCount(row, RelatedIds(row.relatedEpisode), ids);
    }
    CountsAppend(orphans, unlinked);
    assert RowIssues(row, ids) == orphans + unlinked;
    assert CountOrphans(unlinked) == 0 && CountUnlinked(unlinked) == |unlinked|;
  }

  /** `total_episodes` counts the rows with an `EpisodeID`; the loop leaves it alone. */
  lemma {:induction false} TotalEpisodesMeaning(rows: seq<TV.Row>, ids: set<string>, n: nat)
    requires n <= |rows|
    ensures Counters(rows, ids, n).totalEpisodes == |WithId(rows)|
  {
    if n > 0 {
      var m := n - 1;
      TotalEpisodesMeaning(rows, ids, m);
      Advance(rows, ids, m);
    }
  }

  /** `episodes_with_links` counts the linked rows; the two treatment counters split the treatments. */
  lemma {:induction false} RowCountersMeaning(rows: seq<TV.Row>, ids: set<string>, n: nat)
    requires n <= |rows|
    ensures Counters(rows, ids, n).episodesWithLinks == Linked(rows, n)
    ensures Counters(rows, ids, n).treatmentsWithConditionLinks + Counters(rows, ids, n).treatmentsWithoutLinks == Treatments(rows, n)
  {
    if n > 0 {
      var m := n - 1;
      RowCountersMeaning(rows, ids, m);
      Advance(rows, ids, m);
    }
  }

  /**
   * `orphaned_references` is the number of orphan issues, and
   * `treatments_without_links` the number of unlinked-treatment issues.
   */
  lemma {:induction false} IssueCountersMeaning(rows: seq<TV.Row>, ids: set<string>, n: nat)
    requires n <= |rows|
    ensures Counters(rows, ids, n).orphanedReferences == CountOrphans(Issues(rows, ids, n))
    ensures Counters(rows, ids, n).treatmentsWithoutLinks == CountUnlinked(Issues(rows, ids, n))
  {
    if n == 0 {
      assert Issues(rows, ids, 0) == [];
      assert Counters(rows, ids, 0).orphanedReferences == 0;
    } else {
      var m := n - 1;
      IssueCountersMeaning(rows, ids, m);
      IssueCountersStep(rows, ids, m);
    }
  }

  /** The inductive step of `IssueCountersMeaning`. */
  lemma IssueCountersStep(rows: seq<TV.Row>, ids: set<string>, m: nat)
    requires m < |rows|
    requires Counters(rows, ids, m).orphanedReferences == CountOrphans(Issues(rows, ids, m))
    requires Counters(rows, ids, m).treatmentsWithoutLinks == CountUnlinked(Issues(rows, ids, m))
    ensures Counters(rows, ids, m + 1).orphanedReferences == CountOrphans(Issues(rows, ids, m + 1))
    ensures Counters(rows, ids, m + 1).treatmentsWithoutLinks == CountUnlinked(Issues(rows, ids, m + 1))
  {
    var front, last := Issues(rows, ids, m), RowIssues(rows[m], ids);
    assert Issues(rows, ids, m + 1) == front + last;
    CountsAppend(front, last);
    CountersStep(rows, ids, m + 1);
  }

  /** Row `n - 1` moves both issue counters by the issues it raises. */
  lemma CountersStep(rows: seq<TV.Row>, ids: set<string>, n: nat)
    requires 0 < n <= |rows|
    ensures Counters(rows, ids, n).orphanedReferences ==
      Counters(rows, ids, n - 1).orphanedReferences + CountOrphans(RowIssues(rows[n - 1], ids))
    ensures Counters(rows, ids, n).treatmentsWithoutLinks ==
      Counters(rows, ids, n - 1).treatmentsWithoutLinks + CountUnlinked(RowIssues(rows[n - 1], ids))
  {
    if rows[n - 1].episodeId != "" {
      StepMeaning(Counters(rows, ids, n - 1), rows[n - 1], ids);
    }
  }

  /** `total_episodes` counts the rows with an `EpisodeID`, whatever else they hold. */
  lemma {:induction false} WithIdCount(rows: seq<TV.Row>, r: TV.Row)
    ensures |WithId(rows + [r])| == |WithId(rows)| + (if r.episodeId != "" then 1 else 0)
  {
    var whole := rows + [r];
    assert whole[..|whole| - 1] == rows;
  }

  /** A row without an `EpisodeID` changes no counter and adds no issue. */
  lemma RowWithoutIdIgnored(rows: seq<TV.Row>, ids: set<string>, n: nat)
    requires 0 < n <= |rows| && rows[n - 1].episodeId == ""
    ensures Counters(rows, ids, n) == Counters(rows, ids, n - 1)
    ensures Issues(rows, ids, n) == Issues(rows, ids, n - 1)
  {
  }

  /** Row `r` raises the orphan issue `x`: a reference of its links that names no episode. */
  predicate Raises(r: TV.Row, ids: set<string>, x: LinkIssue)
  {
    x.OrphanedReference? && r.episodeId != "" && r.relatedEpisode != "" &&
    x == OrphanedReference(r.date, r.episodeId, r.item, x.reference) &&
    x.reference in RelatedIds(r.relatedEpisode) && x.reference !in ids
  }

  lemma RowRaises(r: TV.Row, ids: set<string>, x: LinkIssue)
    requires x.OrphanedReference?
    ensures x in RowIssues(r, ids) <==> Raises(r, ids, x)
  {
    if Raises(r, ids, x) {
      OrphanFound(r, RelatedIds(r.relatedEpisode), ids, x.reference);
    }
  }

  /** An orphan issue is raised exactly when some row raises it. */
  lemma {:induction false} OrphanMembers(rows: seq<TV.Row>, ids: set<string>, n: nat, x: LinkIssue)
    requires n <= |rows| && x.OrphanedReference?
    ensures x in Issues(rows, ids, n) <==> exists i :: 0 <= i < n && Raises(rows[i], ids, x)
  {
    if n == 0 {
      assert Issues(rows, ids, 0) == [];
    } else {
      OrphanMembers(rows, ids, n - 1, x);
      OrphanMembersStep(rows, ids, n, x);
    }
  }

  /** The inductive step of `OrphanMembers`. */
  lemma OrphanMembersStep(rows: seq<TV.Row>, ids: set<string>, n: nat, x: LinkIssue)
    requires 0 < n <= |rows| && x.OrphanedReference?
    requires x in Issues(rows, ids, n - 1) <==> exists i :: 0 <= i < n - 1 && Raises(rows[i], ids, x)
    ensures x in Issues(rows, ids, n) <==> exists i :: 0 <= i < n && Raises(rows[i], ids, x)
  {
    RowRaises(rows[n - 1], ids, x);
    var front, last := Issues(rows, ids, n - 1), RowIssues(rows[n - 1], ids);
    assert Issues(rows, ids, n) == front + last;
    if exists i :: 0 <= i < n && Raises(rows[i], ids, x) {
      var i :| 0 <= i < n && Raises(rows[i], ids, x);
      if i < n - 1 {
        assert x in front;
      } else {
        assert x in last;
      }
    }
  }

  /** A reference with no episode, on a row, gives that row an orphan issue. */
  lemma {:induction false} OrphanFound(row: TV.Row, refs: seq<string>, ids: set<string>, ref: string)
    requires ref in refs && ref !in ids
    ensures OrphanedReference(row.date, row.episodeId, row.item, ref) in Orphans(row, refs, ids)
  {
    var front := refs[..|refs| - 1];
    if ref != refs[|refs| - 1] {
      assert ref in front;
      OrphanFound(row, front, ids, ref);
    }
  }
}
