/**
 * Report synthesis of the quality review: the issues of phases 1 to 4 are
 * gathered into one list of records, grouped by category, weighted by
 * severity and ranked, and counted per severity.
 */
module IssueReports {
  import opened Wrappers
  import opened Seqs
  import opened Sorting
  import VC = ValidationCompliance

  /** The weights of the seven phases in the overall quality score. */
  const PhaseWeights: seq<(string, nat)> :=
    [("phase1", 20), ("phase2", 20), ("phase3", 15), ("phase4", 15), ("phase5", 10), ("phase6", 10), ("phase7", 10)]

  function WeightTotal(ws: seq<(string, nat)>): nat
  {
    if ws == [] then 0 else ws[0].1 + WeightTotal(ws[1..])
  }

  /** The phase weights add up to 100. */
  lemma PhaseWeightsTotal()
    ensures WeightTotal(PhaseWeights) == 100
  {
  }

  /** An issue as phases 2 to 4 report it. */
  datatype Finding = Finding(severity: string, issueType: string, description: string)

  /** The phase results `collect_all_issues` reads; an absent phase is `None`. */
  datatype AllResults = AllResults(
    phase1: Option<(VC.Categorized, VC.Categorized)>,
    phase2: Option<seq<(string, Finding)>>,
    phase3: Option<(seq<Finding>, seq<Finding>)>,
    phase4: Option<(seq<Finding>, seq<Finding>)>)

  /** One entry of `all_issues`. */
  datatype Record = Record(phase: string, profile: string, severity: string, category: string, description: string)

  const Phase1: string := "Phase 1: Validation"
  const Phase2: string := "Phase 2: Data Preservation"
  const Phase3: string := "Phase 3: Episode Linking"
  const Phase4: string := "Phase 4: Categorization"

  function PhaseRank(phase: string): nat
  {
    if phase == Phase1 then 1 else if phase == Phase2 then 2 else if phase == Phase3 then 3 else 4
  }

  /** The severity of a phase-1 issue: high for continuity and related-episode issues, medium otherwise. */
  function Phase1Severity(category: string): (s: string)
    ensures s == "high" <==> category in {"episode_continuity", "related_episodes"}
    ensures s != "high" ==> s == "medium"
  {
    if category in {"episode_continuity", "related_episodes"} then "high" else "medium"
  }

  /** The phase-1 buckets in the order of `by_category`. */
  const BucketOrder: seq<VC.Bucket> :=
    [VC.EpisodeContinuity, VC.RelatedEpisodes, VC.CsvStructure, VC.ChronologicalOrder, VC.ComprehensiveStack, VC.Other]

  function BucketRecords(profile: string, b: VC.Bucket, issues: seq<VC.Issue>): (r: seq<Record>)
    ensures |r| == |issues|
    ensures forall i :: 0 <= i < |r| ==>
      r[i] == Record(Phase1, profile, Phase1Severity(VC.BucketName(b)), VC.BucketName(b), issues[i].message)
  {
    seq(|issues|, i requires 0 <= i < |issues| =>
      Record(Phase1, profile, Phase1Severity(VC.BucketName(b)), VC.BucketName(b), issues[i].message))
  }

  /** The records of the first `n` buckets of one profile's phase-1 results. */
  function Phase1Records(profile: string, c: VC.Categorized, n: nat): (r: seq<Record>)
    requires n <= |BucketOrder|
    ensures forall x :: x in r ==> x.phase == Phase1 && x.profile == profile
  {
    if n == 0 then [] else Phase1Records(profile, c, n - 1) + BucketRecords(profile, BucketOrder[n - 1], c.Get(BucketOrder[n - 1]))
  }

  function FindingRecords(phase: string, profile: string, fs: seq<Finding>): (r: seq<Record>)
    ensures |r| == |fs|
    ensures forall i :: 0 <= i < |r| ==> r[i] == Record(phase, profile, fs[i].severity, fs[i].issueType, fs[i].description)
  {
    seq(|fs|, i requires 0 <= i < |fs| => Record(phase, profile, fs[i].severity, fs[i].issueType, fs[i].description))
  }

  function Phase2Records(ps: seq<(string, Finding)>): (r: seq<Record>)
    ensures |r| == |ps|
    ensures forall i :: 0 <= i < |r| ==> r[i] == Record(Phase2, ps[i].0, ps[i].1.severity, ps[i].1.issueType, ps[i].1.description)
  {
    seq(|ps|, i requires 0 <= i < |ps| => Record(Phase2, ps[i].0, ps[i].1.severity, ps[i].1.issueType, ps[i].1.description))
  }

  function Part1(r: AllResults): seq<Record>
  {
    match r.phase1
    case None => []
    case Some((t, c)) => Phase1Records("Tiago", t, |BucketOrder|) + Phase1Records("Cristina", c, |BucketOrder|)
  }

  function Part2(r: AllResults): seq<Record>
  {
    match r.phase2
    case None => []
    case Some(ps) => Phase2Records(ps)
  }

  function PartOf(phase: string, p: Option<(seq<Finding>, seq<Finding>)>): seq<Record>
  {
    match p
    case None => []
    case Some((t, c)) => FindingRecords(phase, "Tiago", t) + FindingRecords(phase, "Cristina", c)
  }

  /** `collect_all_issues`: the records of phases 1 to 4, in that order. */
  function AllIssues(r: AllResults): seq<Record>
  {
    Part1(r) + Part2(r) + PartOf(Phase3, r.phase3) + PartOf(Phase4, r.phase4)
  }

  /** The number of issues the phase results report. */
  function InputCount(r: AllResults): nat
  {
    (match r.phase1 case None => 0 case Some((t, c)) => t.Size() + c.Size()) +
    (match r.phase2 case None => 0 case Some(ps) => |ps|) +
    (match r.phase3 case None => 0 case Some((t, c)) => |t| + |c|) +
    (match r.phase4 case None => 0 case Some((t, c)) => |t| + |c|)
  }

  lemma Phase1RecordsCount(profile: string, c: VC.Categorized)
    ensures |Phase1Records(profile, c, |BucketOrder|)| == c.Size()
  {
    assert |Phase1Records(profile, c, 1)| == |c.episodeContinuity|;
    assert |Phase1Records(profile, c, 2)| == |c.episodeContinuity| + |c.relatedEpisodes|;
    assert |Phase1Records(profile, c, 3)| == |c.episodeContinuity| + |c.relatedEpisodes| + |c.csvStructure|;
    assert |Phase1Records(profile, c, 4)| == |c.episodeContinuity| + |c.relatedEpisodes| + |c.csvStructure| + |c.chronologicalOrder|;
    assert |Phase1Records(profile, c, 5)| ==
      |c.episodeContinuity| + |c.relatedEpisodes| + |c.csvStructure| + |c.chronologicalOrder| + |c.comprehensiveStack|;
  }

  /** Exactly one record per input issue. */
  lemma AllIssuesCount(r: AllResults)
    ensures |AllIssues(r)| == InputCount(r)
  {
    match r.phase1
    case None =>
    case Some((t, c)) =>
      Phase1RecordsCount("Tiago", t);
      Phase1RecordsCount("Cristina", c);
  }

  predicate PhaseOrdered(rs: seq<Record>)
  {
    forall i, j :: 0 <= i < j < |rs| ==> PhaseRank(rs[i].phase) <= PhaseRank(rs[j].phase)
  }

  predicate AllOfRank(rs: seq<Record>, k: nat)
  {
    forall i :: 0 <= i < |rs| ==> PhaseRank(rs[i].phase) == k
  }

  /** Records of a lower rank followed by records of a higher rank stay in phase order. */
  lemma OrderedAppend(a: seq<Record>, b: seq<Record>, k: nat)
    requires PhaseOrdered(a) && forall i :: 0 <= i < |a| ==> PhaseRank(a[i].phase) <= k
    requires AllOfRank(b, k)
    ensures PhaseOrdered(a + b)
    ensures forall i :: 0 <= i < |a + b| ==> PhaseRank((a + b)[i].phase) <= k
  {
  }

  /** `all_issues` lists the records phase by phase. */
  lemma AllIssuesPhaseOrder(r: AllResults)
    ensures PhaseOrdered(AllIssues(r))
  {
    var p1 := Part1(r);
    assert AllOfRank(p1, 1) by {
      forall i | 0 <= i < |p1| ensures PhaseRank(p1[i].phase) == 1 {
        assert p1[i] in p1;
      }
    }
    assert AllOfRank(Part2(r), 2);
    assert AllOfRank(PartOf(Phase3, r.phase3), 3);
    assert AllOfRank(PartOf(Phase4, r.phase4), 4);
    OrderedAppend([], p1, 1);
    OrderedAppend(p1, Part2(r), 2);
    OrderedAppend(p1 + Part2(r), PartOf(Phase3, r.phase3), 3);
    OrderedAppend(p1 + Part2(r) + PartOf(Phase3, r.phase3), PartOf(Phase4, r.phase4), 4);
  }

  /** The innermost phase-1 loop: the issues of one bucket. */
  method AppendBucket(acc: seq<Record>, profile: string, b: VC.Bucket, issues: seq<VC.Issue>) returns (r: seq<Record>)
    ensures r == acc + BucketRecords(profile, b, issues)
  {
    var category := VC.BucketName(b);
    r := acc;
    var i := 0;
    while i < |issues|
      invariant 0 <= i <= |issues|
      invariant r == acc + BucketRecords(profile, b, issues[..i])
    {
      r := r + [Record(Phase1, profile, Phase1Severity(category), category, issues[i].message)];
      i := i + 1;
      assert BucketRecords(profile, b, issues[..i]) == BucketRecords(profile, b, issues[..i - 1]) + [BucketRecords(profile, b, issues[..i])[i - 1]];
    }
    assert issues[..i] == issues;
  }

  /** The phase-1 loop over one profile's buckets. */
  method AppendPhase1(acc: seq<Record>, profile: string, c: VC.Categorized) returns (r: seq<Record>)
    ensures r == acc + Phase1Records(profile, c, |BucketOrder|)
  {
    r := acc;
    var k := 0;
    while k < |BucketOrder|
      invariant 0 <= k <= |BucketOrder|
      invariant r == acc + Phase1Records(profile, c, k)
    {
      var b := BucketOrder[k];
      ghost var before := r;
      r := AppendBucket(r, profile, b, c.Get(b));
      assert r == acc + (Phase1Records(profile, c, k) + BucketRecords(profile, b, c.Get(b)));
      k := k + 1;
    }
  }

  /** The phase-2 loop. */
  method AppendPhase2(acc: seq<Record>, ps: seq<(string, Finding)>) returns (r: seq<Record>)
    ensures r == acc + Phase2Records(ps)
  {
    r := acc;
    var i := 0;
    while i < |ps|
      invariant 0 <= i <= |ps|
      invariant r == acc + Phase2Records(ps[..i])
    {
      r := r + [Record(Phase2, ps[i].0, ps[i].1.severity, ps[i].1.issueType, ps[i].1.description)];
      i := i + 1;
      assert Phase2Records(ps[..i]) == Phase2Records(ps[..i - 1]) + [Phase2Records(ps[..i])[i - 1]];
    }
    assert ps[..i] == ps;
  }

  /** The loop of phases 3 and 4 over one profile's issues. */
  method AppendFindings(acc: seq<Record>, phase: string, profile: string, fs: seq<Finding>) returns (r: seq<Record>)
    ensures r == acc + FindingRecords(phase, profile, fs)
  {
    r := acc;
    var i := 0;
    while i < |fs|
      invariant 0 <= i <= |fs|
      invariant r == acc + FindingRecords(phase, profile, fs[..i])
    {
      r := r + [Record(phase, profile, fs[i].severity, fs[i].issueType, fs[i].description)];
      i := i + 1;
      assert FindingRecords(phase, profile, fs[..i]) == FindingRecords(phase, profile, fs[..i - 1]) + [FindingRecords(phase, profile, fs[..i])[i - 1]];
    }
    assert fs[..i] == fs;
  }

  method AddPart1(acc: seq<Record>, r: AllResults) returns (out: seq<Record>)
    ensures out == acc + Part1(r)
  {
    out := acc;
    if r.phase1.Some? {
      var t := AppendPhase1([], "Tiago", r.phase1.value.0);
      var c := AppendPhase1(t, "Cristina", r.phase1.value.1);
      out := acc + c;
    }
  }

  method AddPart2(acc: seq<Record>, r: AllResults) returns (out: seq<Record>)
    ensures out == acc + Part2(r)
  {
    out := acc;
    if r.phase2.Some? {
      out := AppendPhase2(acc, r.phase2.value);
    }
  }

  method AddPartOf(acc: seq<Record>, phase: string, p: Option<(seq<Finding>, seq<Finding>)>) returns (out: seq<Record>)
    ensures out == acc + PartOf(phase, p)
  {
    out := acc;
    if p.Some? {
      var t := AppendFindings([], phase, "Tiago", p.value.0);
      var c := AppendFindings(t, phase, "Cristina", p.value.1);
      out := acc + c;
    }
  }

  /** `collect_all_issues`, loop by loop. */
  method CollectAllIssues(r: AllResults) returns (all: seq<Record>)
    ensures all == AllIssues(r)
  {
    all := AddPart1([], r);
    assert all == Part1(r);
    all := AddPart2(all, r);
    ghost var upTo2 := Part1(r) + Part2(r);
    assert all == upTo2;
    all := AddPartOf(all, Phase3, r.phase3);
    ghost var upTo3 := upTo2 + PartOf(Phase3, r.phase3);
    assert all == upTo3;
    all := AddPartOf(all, Phase4, r.phase4);
    assert all == upTo3 + PartOf(Phase4, r.phase4);
  }

  // ---------------------------------------------------------------------------
  // Prioritisation
  // ---------------------------------------------------------------------------

  /** `priority_scores.get(severity, 0)` */
  function Weight(severity: string): nat
  {
    if severity == "critical" then 100
    else if severity == "high" then 50
    else if severity == "medium" then 25
    else if severity == "low" then 10
    else 0
  }

  /** The sum of the issues' severity weights. */
  function Priority(rs: seq<Record>): nat
  {
    if rs == [] then 0 else Priority(rs[..|rs| - 1]) + Weight(rs[|rs| - 1].severity)
  }

  /** The number of issues of one severity. */
  function CountSeverity(rs: seq<Record>, severity: string): (n: nat)
    ensures n <= |rs|
  {
    if rs == [] then 0
    else CountSeverity(rs[..|rs| - 1], severity) + (if rs[|rs| - 1].severity == severity then 1 else 0)
  }

  /** A category's priority is its severity counts, weighted. */
  lemma {:induction false} PriorityBySeverity(rs: seq<Record>)
    ensures Priority(rs) == 100 * CountSeverity(rs, "critical") + 50 * CountSeverity(rs, "high") +
      25 * CountSeverity(rs, "medium") + 10 * CountSeverity(rs, "low")
  {
    if rs != [] {
      PriorityBySeverity(rs[..|rs| - 1]);
    }
  }

  /** The categories in the order `by_category` first meets them. */
  function Categories(rs: seq<Record>): (cats: seq<string>)
    ensures Distinct(cats)
    ensures forall i :: 0 <= i < |rs| ==> rs[i].category in cats
  {
    if rs == [] then []
    else
      var front := Categories(rs[..|rs| - 1]);
      var c := rs[|rs| - 1].category;
      assert forall i :: 0 <= i < |rs| - 1 ==> rs[i] == rs[..|rs| - 1][i];
      if c in front then front else AppendDistinct(front, c); front + [c]
  }

  /** The issues of one category, in input order. */
  function InCategory(rs: seq<Record>, category: string): (r: seq<Record>)
    ensures forall x :: x in r ==> x in rs && x.category == category
  {
    if rs == [] then []
    else
      var last := rs[|rs| - 1];
      InCategory(rs[..|rs| - 1], category) + (if last.category == category then [last] else [])
  }

  /** Every listed category is one some issue has. */
  lemma {:induction false} CategoriesAreUsed(rs: seq<Record>, c: string)
    requires c in Categories(rs)
    ensures InCategory(rs, c) != []
  {
    var front := rs[..|rs| - 1];
    if c in Categories(front) {
      CategoriesAreUsed(front, c);
    }
  }

  /** A category no issue has holds no issue. */
  lemma {:induction false} UnlistedIsEmpty(rs: seq<Record>, c: string)
    requires c !in Categories(rs)
    ensures InCategory(rs, c) == []
  {
    if rs != [] {
      UnlistedIsEmpty(rs[..|rs| - 1], c);
    }
  }

  /** One entry of `category_priorities`. */
  datatype CategoryPriority = CategoryPriority(category: string, count: nat, priorityScore: nat, issues: seq<Record>)

  function PriorityOf(rs: seq<Record>, category: string): CategoryPriority
  {
    var issues := InCategory(rs, category);
    CategoryPriority(category, |issues|, Priority(issues), issues)
  }

  /** The entries for the categories `cats`, in that order. */
  function PrioritiesOf(rs: seq<Record>, cats: seq<string>): (ps: seq<CategoryPriority>)
    ensures |ps| == |cats|
    ensures forall k :: 0 <= k < |ps| ==> ps[k] == PriorityOf(rs, cats[k])
  {
    if cats == [] then [] else PrioritiesOf(rs, cats[..|cats| - 1]) + [PriorityOf(rs, cats[|cats| - 1])]
  }

  function NegatedScore(p: CategoryPriority): int
  {
    -(p.priorityScore as int)
  }

  /** `category_priorities` after the sort by priority score, highest first. */
  function Ranking(rs: seq<Record>): seq<CategoryPriority>
  {
    SortBy(PrioritiesOf(rs, Categories(rs)), NegatedScore)
  }

  /** The ranking lists each category of the issues once, highest priority first. */
  lemma RankingProperties(rs: seq<Record>)
    ensures forall i, j :: 0 <= i < j < |Ranking(rs)| ==> Ranking(rs)[i].priorityScore >= Ranking(rs)[j].priorityScore
    ensures multiset(Ranking(rs)) == multiset(PrioritiesOf(rs, Categories(rs)))
    ensures forall p :: p in Ranking(rs) ==> p == PriorityOf(rs, p.category)
  {
    var ps := PrioritiesOf(rs, Categories(rs));
    var r := Ranking(rs);
    forall i, j | 0 <= i < j < |r| ensures r[i].priorityScore >= r[j].priorityScore {
      assert NegatedScore(r[i]) <= NegatedScore(r[j]);
    }
    forall p | p in r ensures p == PriorityOf(rs, p.category) {
      assert p in multiset(ps);
      var k :| 0 <= k < |ps| && ps[k] == p;
    }
  }

  /** Categories of equal score keep the order in which they first appear, as Python's stable sort keeps them. */
  lemma RankingStable(rs: seq<Record>)
    ensures StablySorted(PrioritiesOf(rs, Categories(rs)), Ranking(rs), NegatedScore)
  {
    SortByIsStableSort(PrioritiesOf(rs, Categories(rs)), Ranking(rs), NegatedScore);
  }

  function TotalCount(ps: seq<CategoryPriority>): nat
  {
    if ps == [] then 0 else TotalCount(ps[..|ps| - 1]) + ps[|ps| - 1].count
  }

  lemma {:induction false} TotalCountAppend(a: seq<CategoryPriority>, b: seq<CategoryPriority>)
    ensures TotalCount(a + b) == TotalCount(a) + TotalCount(b)
    decreases |b|
  {
    if b != [] {
      assert (a + b)[..|a + b| - 1] == a + b[..|b| - 1];
      assert (a + b)[|a + b| - 1] == b[|b| - 1];
      TotalCountAppend(a, b[..|b| - 1]);
      assert TotalCount(a + b) == TotalCount(a + b[..|b| - 1]) + b[|b| - 1].count;
    } else {
      assert a + b == a;
    }
  }

  /** Reordering the entries does not change the total count. */
  lemma {:induction false} TotalCountPermutation(a: seq<CategoryPriority>, b: seq<CategoryPriority>)
    requires multiset(a) == multiset(b)
    ensures TotalCount(a) == TotalCount(b)
    decreases |a|
  {
    if a != [] {
      var x := a[|a| - 1];
      assert x in multiset(b);
      var j :| 0 <= j < |b| && b[j] == x;
      var b' := b[..j] + b[j + 1..];
      assert b == b[..j] + [x] + b[j + 1..];
      assert a == a[..|a| - 1] + [x];
      assert multiset(a[..|a| - 1]) == multiset(b') by {
        assert multiset(a[..|a| - 1]) == multiset(a) - multiset{x};
        assert multiset(b) == multiset(b[..j]) + multiset{x} + multiset(b[j + 1..]);
        assert multiset(b') == multiset(b[..j]) + multiset(b[j + 1..]);
        assert multiset(b') == multiset(b) - multiset{x};
      }
      TotalCountPermutation(a[..|a| - 1], b');
      TotalCountAppend(b[..j] + [x], b[j + 1..]);
      TotalCountAppend(b[..j], [x]);
      TotalCountAppend(b[..j], b[j + 1..]);
    }
  }

  /** The issues of the categories `cats`, counted category by category. */
  function CountSum(rs: seq<Record>, cats: seq<string>): nat
  {
    if cats == [] then 0 else CountSum(rs, cats[..|cats| - 1]) + |InCategory(rs, cats[|cats| - 1])|
  }

  lemma {:induction false} TotalCountIsCountSum(rs: seq<Record>, cats: seq<string>)
    ensures TotalCount(PrioritiesOf(rs, cats)) == CountSum(rs, cats)
  {
    if cats != [] {
      TotalCountIsCountSum(rs, cats[..|cats| - 1]);
      var ps := PrioritiesOf(rs, cats);
      assert ps[..|ps| - 1] == PrioritiesOf(rs, cats[..|cats| - 1]);
    }
  }

  /** One more issue adds one to the count of its category and to no other. */
  lemma {:induction false} CountSumSnoc(rs: seq<Record>, x: Record, cats: seq<string>)
    requires Distinct(cats)
    ensures CountSum(rs + [x], cats) == CountSum(rs, cats) + (if x.category in cats then 1 else 0)
  {
    var whole := rs + [x];
    assert whole[..|whole| - 1] == rs;
    if cats != [] {
      DistinctFront(cats);
      CountSumSnoc(rs, x, cats[..|cats| - 1]);
      assert cats == cats[..|cats| - 1] + [cats[|cats| - 1]];
    }
  }

  lemma {:induction false} CountSumCovers(rs: seq<Record>)
    ensures CountSum(rs, Categories(rs)) == |rs|
  {
    if rs != [] {
      var front := rs[..|rs| - 1];
      var x := rs[|rs| - 1];
      assert rs == front + [x];
      CountSumCovers(front);
      var cats := Categories(front);
      CountSumSnoc(front, x, cats);
      if x.category !in cats {
        UnlistedIsEmpty(front, x.category);
        assert InCategory(rs, x.category) == [x];
      }
    }
  }

  /** The ranked categories' counts add up to the number of issues. */
  lemma RankingCounts(rs: seq<Record>)
    ensures TotalCount(Ranking(rs)) == |rs|
  {
    TotalCountPermutation(Ranking(rs), PrioritiesOf(rs, Categories(rs)));
    TotalCountIsCountSum(rs, Categories(rs));
    CountSumCovers(rs);
  }

  /** `by_category`: the issues grouped by category, categories in order of first appearance. */
  method GroupByCategory(all: seq<Record>) returns (order: seq<string>, byCategory: map<string, seq<Record>>)
    ensures order == Categories(all)
    ensures forall c :: c in byCategory <==> c in order
    ensures forall c :: c in byCategory ==> byCategory[c] == InCategory(all, c)
  {
    order := [];
    byCategory := map[];
    var i := 0;
    while i < |all|
      invariant 0 <= i <= |all|
      invariant order == Categories(all[..i])
      invariant forall c :: c in byCategory <==> c in order
      invariant forall c :: c in byCategory ==> byCategory[c] == InCategory(all[..i], c)
    {
      var issue := all[i];
      assert all[..i + 1][..i] == all[..i];
      if issue.category in byCategory {
        byCategory := byCategory[issue.category := byCategory[issue.category] + [issue]];
      } else {
        UnlistedIsEmpty(all[..i], issue.category);
        order := order + [issue.category];
        byCategory := byCategory[issue.category := [issue]];
      }
      i := i + 1;
    }
    assert all[..|all|] == all;
  }

  /** The grouping, scoring and sorting of `generate_issue_prioritization`. */
  method Prioritize(all: seq<Record>) returns (ranking: seq<CategoryPriority>)
    ensures ranking == Ranking(all)
  {
    var order, byCategory := GroupByCategory(all);
    var priorities: seq<CategoryPriority> := [];
    var k := 0;
    while k < |order|
      invariant 0 <= k <= |order|
      invariant priorities == PrioritiesOf(all, order[..k])
    {
      var category := order[k];
      var issues := byCategory[category];
      assert order[..k + 1][..k] == order[..k];
      priorities := priorities + [CategoryPriority(category, |issues|, Priority(issues), issues)];
      k := k + 1;
    }
    assert order[..|order|] == order;
    ranking := SortBy(priorities, NegatedScore);
  }

  // ---------------------------------------------------------------------------
  // Issue counts
  // ---------------------------------------------------------------------------

  /** `reports["issue_counts"]` */
  datatype IssueCounts = IssueCounts(total: nat, critical: nat, high: nat, medium: nat, low: nat)

  function CountIssues(all: seq<Record>): IssueCounts
  {
    IssueCounts(|all|, CountSeverity(all, "critical"), CountSeverity(all, "high"),
      CountSeverity(all, "medium"), CountSeverity(all, "low"))
  }

  /** The four severity counts never exceed the total; the rest have an unknown severity. */
  lemma {:induction false} SeverityCountsWithinTotal(all: seq<Record>)
    ensures var c := CountIssues(all); c.critical + c.high + c.medium + c.low <= c.total
  {
    if all != [] {
      SeverityCountsWithinTotal(all[..|all| - 1]);
    }
  }
}
