/**
 * Phase 1 of the quality review: the validation issues of a profile are
 * sorted into buckets by keyword, and the bucket sizes and the warning count
 * give a compliance score out of 100. Two profiles' scores give the verdict.
 */
module ValidationCompliance {
  import opened Strings
  import opened Wrappers
  import TV = TimelineValidator

  /** One validation issue: its `type` (absent: "unknown") and `message` (absent: ""). */
  datatype Issue = Issue(kind: string, message: string)

  datatype Bucket = EpisodeContinuity | RelatedEpisodes | CsvStructure | ChronologicalOrder | ComprehensiveStack | Other

  /** The bucket's key in `by_category`. */
  function BucketName(b: Bucket): string
  {
    match b
    case EpisodeContinuity => "episode_continuity"
    case RelatedEpisodes => "related_episodes"
    case CsvStructure => "csv_structure"
    case ChronologicalOrder => "chronological_order"
    case ComprehensiveStack => "comprehensive_stack"
    case Other => "other"
  }

  /** The keyword rule of each bucket, in the order the rules are tried. */
  predicate Rule(b: Bucket, i: Issue)
  {
    var t := Lower(i.kind);
    var m := Lower(i.message);
    match b
    case EpisodeContinuity => Contains(t, "episode") && Contains(m, "gap")
    case RelatedEpisodes => Contains(t, "related") || Contains(m, "orphaned")
    case CsvStructure => Contains(t, "csv") || Contains(m, "column")
    case ChronologicalOrder => Contains(t, "order") || Contains(m, "chronological")
    case ComprehensiveStack => Contains(m, "stack") || Contains(m, "comprehensive")
    case Other => true
  }

  function Rank(b: Bucket): nat
  {
    match b
    case EpisodeContinuity => 0
    case RelatedEpisodes => 1
    case CsvStructure => 2
    case ChronologicalOrder => 3
    case ComprehensiveStack => 4
    case Other => 5
  }

  /** The bucket an issue lands in: the first whose rule it matches. */
  function BucketOf(i: Issue): (b: Bucket)
    ensures Rule(b, i)
    ensures forall c: Bucket :: Rank(c) < Rank(b) ==> !Rule(c, i)
  {
    if Rule(EpisodeContinuity, i) then EpisodeContinuity
    else if Rule(RelatedEpisodes, i) then RelatedEpisodes
    else if Rule(CsvStructure, i) then CsvStructure
    else if Rule(ChronologicalOrder, i) then ChronologicalOrder
    else if Rule(ComprehensiveStack, i) then ComprehensiveStack
    else Other
  }

  /** The issues of bucket `b`, in input order. */
  function InBucket(issues: seq<Issue>, b: Bucket): (r: seq<Issue>)
    ensures |r| <= |issues|
    ensures forall x :: x in r ==> x in issues && BucketOf(x) == b
  {
    if issues == [] then []
    else
      var last := issues[|issues| - 1];
      InBucket(issues[..|issues| - 1], b) + (if BucketOf(last) == b then [last] else [])
  }

  /** `categorized`: the issues of each bucket. */
  datatype Categorized = Categorized(
    episodeContinuity: seq<Issue>,
    relatedEpisodes: seq<Issue>,
    csvStructure: seq<Issue>,
    chronologicalOrder: seq<Issue>,
    comprehensiveStack: seq<Issue>,
    other: seq<Issue>)
  {
    function Get(b: Bucket): seq<Issue>
    {
      match b
      case EpisodeContinuity => episodeContinuity
      case RelatedEpisodes => relatedEpisodes
      case CsvStructure => csvStructure
      case ChronologicalOrder => chronologicalOrder
      case ComprehensiveStack => comprehensiveStack
      case Other => other
    }

    /** The issues of the five buckets the score deducts for. */
    function Scored(): nat
    {
      |episodeContinuity| + |relatedEpisodes| + |csvStructure| + |chronologicalOrder| + |comprehensiveStack|
    }

    function Size(): nat
    {
      |episodeContinuity| + |relatedEpisodes| + |csvStructure| + |chronologicalOrder| + |comprehensiveStack| + |other|
    }

    /** The issues of all buckets together. */
    function Contents(): multiset<Issue>
    {
      multiset(episodeContinuity) + multiset(relatedEpisodes) + multiset(csvStructure) +
      multiset(chronologicalOrder) + multiset(comprehensiveStack) + multiset(other)
    }

    /** `categorized[b].append(x)` */
    function Add(b: Bucket, x: Issue): (c: Categorized)
      ensures c.Get(b) == Get(b) + [x]
      ensures forall b' :: b' != b ==> c.Get(b') == Get(b')
    {
      match b
      case EpisodeContinuity => this.(episodeContinuity := episodeContinuity + [x])
      case RelatedEpisodes => this.(relatedEpisodes := relatedEpisodes + [x])
      case CsvStructure => this.(csvStructure := csvStructure + [x])
      case ChronologicalOrder => this.(chronologicalOrder := chronologicalOrder + [x])
      case ComprehensiveStack => this.(comprehensiveStack := comprehensiveStack + [x])
      case Other => this.(other := other + [x])
    }
  }

  const NoIssues: Categorized := Categorized([], [], [], [], [], [])

  /** What `run_validate_timeline` returns, less the raw results. */
  datatype Results = Results(totalIssues: nat, totalWarnings: nat, byCategory: Categorized)

  function Buckets(issues: seq<Issue>): Categorized
  {
    Categorized(InBucket(issues, EpisodeContinuity), InBucket(issues, RelatedEpisodes), InBucket(issues, CsvStructure),
      InBucket(issues, ChronologicalOrder), InBucket(issues, ComprehensiveStack), InBucket(issues, Other))
  }

  /** Appending an issue adds it to its own bucket and to no other. */
  lemma BucketsSnoc(issues: seq<Issue>, x: Issue)
    ensures Buckets(issues + [x]) == Buckets(issues).Add(BucketOf(x), x)
  {
    var whole := issues + [x];
    assert whole[..|whole| - 1] == issues;
    var k := BucketOf(x);
    var c := Buckets(issues).Add(k, x);
    assert forall b :: InBucket(whole, b) == InBucket(issues, b) + (if k == b then [x] else []);
    assert InBucket(whole, EpisodeContinuity) == c.Get(EpisodeContinuity);
    assert InBucket(whole, RelatedEpisodes) == c.Get(RelatedEpisodes);
    assert InBucket(whole, CsvStructure) == c.Get(CsvStructure);
    assert InBucket(whole, ChronologicalOrder) == c.Get(ChronologicalOrder);
    assert InBucket(whole, ComprehensiveStack) == c.Get(ComprehensiveStack);
    assert InBucket(whole, Other) == c.Get(Other);
  }

  /** The bucketing loop of `run_validate_timeline`. */
  method RunValidateTimeline(issues: seq<Issue>, warnings: nat) returns (r: Results)
    ensures r.totalIssues == |issues| && r.totalWarnings == warnings
    ensures r.byCategory == Buckets(issues)
  {
    var c := NoIssues;
    var i := 0;
    while i < |issues|
      invariant 0 <= i <= |issues|
      invariant c == Buckets(issues[..i])
    {
      var issue := issues[i];
      assert issues[..i + 1] == issues[..i] + [issue];
      BucketsSnoc(issues[..i], issue);
      c := c.Add(BucketOf(issue), issue);
      i := i + 1;
    }
    assert issues[..|issues|] == issues;
    r := Results(|issues|, warnings, c);
  }

  // ---------------------------------------------------------------------
  // Reading the dictionary `run_all_validations` returns
  // ---------------------------------------------------------------------

  /** The keys of the dictionary `run_all_validations` returns. */
  function ReportKeys(r: TV.Report): set<string>
  {
    match r
    case TimelineMissing => {"error"}
    case Checked(_, _, _, _, stack) =>
      {"episode_continuity", "related_episodes", "csv_structure", "chronological_order"} +
      (if stack.Some? then {"comprehensive_stack_updates"} else {})
  }

  /** Each error of a check as an issue whose type is the check's key; message text is not modelled. */
  function AsIssues(key: string, errs: seq<TV.ValidationError>): (issues: seq<Issue>)
    ensures |issues| == |errs| && forall i :: 0 <= i < |issues| ==> issues[i].kind == key
  {
    seq(|errs|, _ => Issue(key, ""))
  }

  /** `results.get(key, [])`: the entries under `key`, and none for a key the dictionary lacks. */
  function Under(r: TV.Report, key: string): (issues: seq<Issue>)
    ensures key !in ReportKeys(r) ==> issues == []
  {
    match r
    case TimelineMissing => if key == "error" then [Issue("error", "")] else []
    case Checked(c, rel, s, o, stack) =>
      if key == "episode_continuity" then AsIssues(key, c)
      else if key == "related_episodes" then AsIssues(key, rel)
      else if key == "csv_structure" then AsIssues(key, s)
      else if key == "chronological_order" then AsIssues(key, o)
      else if key == "comprehensive_stack_updates" && stack.Some? then AsIssues(key, stack.value)
      else []
  }

  /** The number of errors the checks reported, or 1 for the missing-timeline error. */
  function ReportedErrors(r: TV.Report): nat
  {
    match r
    case TimelineMissing => 1
    case Checked(c, rel, s, o, stack) => |c| + |rel| + |s| + |o| + (if stack.Some? then |stack.value| else 0)
  }

  /**
   * `run_validate_timeline` as written: it buckets the entries under `issues`
   * and counts those under `issues` and `warnings`.
   */
  function AsWrittenResults(r: TV.Report): Results
  {
    var issues := Under(r, "issues");
    Results(|issues|, |Under(r, "warnings")|, Buckets(issues))
  }

  /**
   * The dictionary has neither an `issues` nor a `warnings` key, so as written
   * every profile scores 100 and the summary is excellent, whatever the
   * checks reported.
   */
  lemma AsWrittenLookupsMiss(first: TV.Report, second: TV.Report)
    ensures "issues" !in ReportKeys(first) && "warnings" !in ReportKeys(first)
    ensures ComplianceScore(AsWrittenResults(first)) == 100
    ensures Summary(ComplianceScore(AsWrittenResults(first)), ComplianceScore(AsWrittenResults(second))) == Excellent
  {
    assert Buckets([]) == NoIssues;
  }

  /** A timeline with one wrong column count reports an error, yet as written scores 100. */
  lemma AsWrittenIgnoresColumnError()
    ensures var r := TV.Checked([], [], [TV.WrongColumnCount(2, 8)], [], None);
      ReportedErrors(r) == 1 && ComplianceScore(AsWrittenResults(r)) == 100
  {
    AsWrittenLookupsMiss(TV.Checked([], [], [TV.WrongColumnCount(2, 8)], [], None), TV.TimelineMissing);
  }

  /**
   * What `run_validate_timeline` evidently means to compute: each check's
   * errors in the bucket named after the check, the missing-timeline error
   * among the uncategorised ones, and no warnings, since the checks report
   * none.
   */
  function CorrectedResults(r: TV.Report): Results
  {
    var c := Categorized(Under(r, "episode_continuity"), Under(r, "related_episodes"), Under(r, "csv_structure"),
      Under(r, "chronological_order"), Under(r, "comprehensive_stack_updates"), Under(r, "error"));
    Results(c.Size(), 0, c)
  }

  /**
   * Read by check, every reported error is counted, and a timeline that was
   * checked scores 100 exactly when no check reported anything; each error
   * costs the deduction of its check's bucket.
   */
  lemma CorrectedCountsEveryError(r: TV.Report)
    ensures CorrectedResults(r).totalIssues == ReportedErrors(r)
    ensures r.Checked? ==> (ComplianceScore(CorrectedResults(r)) == 100 <==> ReportedErrors(r) == 0)
    ensures r.Checked? ==>
      (var s := 100 - 10 * (|r.continuity| + |r.related| + |r.structure|)
          - 5 * (|r.chronological| + (if r.stack.Some? then |r.stack.value| else 0));
       ComplianceScore(CorrectedResults(r)) == if s < 0 then 0 else s)
  {
  }

  /** Adding to one bucket adds exactly one issue to the whole. */
  lemma AddOne(c: Categorized, b: Bucket, x: Issue)
    ensures c.Add(b, x).Contents() == c.Contents() + multiset{x}
    ensures c.Add(b, x).Size() == c.Size() + 1
  {
    assert multiset(c.Get(b) + [x]) == multiset(c.Get(b)) + multiset{x};
  }

  /** Every issue lands in exactly one bucket: the buckets together hold the input, no more and no less. */
  lemma {:induction false} BucketsPartition(issues: seq<Issue>)
    ensures Buckets(issues).Contents() == multiset(issues)
    ensures Buckets(issues).Size() == |issues|
  {
    if issues != [] {
      var front := issues[..|issues| - 1];
      var last := issues[|issues| - 1];
      BucketsPartition(front);
      assert issues == front + [last];
      BucketsSnoc(front, last);
      AddOne(Buckets(front), BucketOf(last), last);
    }
  }

  /** `max(0, score)` after the deductions of `calculate_compliance_score`. */
  function ComplianceScore(r: Results): (score: int)
    ensures 0 <= score <= 100
    ensures score == 100 <==> r.byCategory.Scored() == 0 && r.totalWarnings == 0
  {
    var c := r.byCategory;
    var s := 100
      - 10 * (|c.episodeContinuity| + |c.relatedEpisodes| + |c.csvStructure|)
      - 5 * (|c.chronologicalOrder| + |c.comprehensiveStack|)
      - r.totalWarnings;
    if s < 0 then 0 else s
  }

  /** More issues in any bucket, or more warnings, never raise the score. */
  lemma ScoreMonotone(r: Results, r': Results)
    requires forall b :: |r.byCategory.Get(b)| <= |r'.byCategory.Get(b)|
    requires r.totalWarnings <= r'.totalWarnings
    ensures ComplianceScore(r') <= ComplianceScore(r)
  {
    assert |r.byCategory.Get(EpisodeContinuity)| <= |r'.byCategory.Get(EpisodeContinuity)|;
    assert |r.byCategory.Get(RelatedEpisodes)| <= |r'.byCategory.Get(RelatedEpisodes)|;
    assert |r.byCategory.Get(CsvStructure)| <= |r'.byCategory.Get(CsvStructure)|;
    assert |r.byCategory.Get(ChronologicalOrder)| <= |r'.byCategory.Get(ChronologicalOrder)|;
    assert |r.byCategory.Get(ComprehensiveStack)| <= |r'.byCategory.Get(ComprehensiveStack)|;
  }

  /** One more validation issue, whatever its bucket, never raises the score. */
  lemma AddingIssueNeverRaises(issues: seq<Issue>, x: Issue, warnings: nat)
    ensures ComplianceScore(Results(|issues| + 1, warnings, Buckets(issues + [x]))) <=
      ComplianceScore(Results(|issues|, warnings, Buckets(issues)))
  {
    var whole := issues + [x];
    assert whole[..|whole| - 1] == issues;
    forall b ensures |Buckets(issues).Get(b)| <= |Buckets(whole).Get(b)| {
      assert InBucket(whole, b) == InBucket(issues, b) + (if BucketOf(x) == b then [x] else []);
    }
    ScoreMonotone(Results(|issues|, warnings, Buckets(issues)), Results(|issues| + 1, warnings, Buckets(whole)));
  }

  lemma {:induction false} NoneInBucket(issues: seq<Issue>, b: Bucket)
    requires forall i :: 0 <= i < |issues| ==> BucketOf(issues[i]) != b
    ensures InBucket(issues, b) == []
  {
    if issues != [] {
      NoneInBucket(issues[..|issues| - 1], b);
    }
  }

  /** Issues that fall in no named bucket cost nothing. */
  lemma OtherIsFree(issues: seq<Issue>, warnings: nat)
    requires forall i :: 0 <= i < |issues| ==> BucketOf(issues[i]) == Other
    ensures ComplianceScore(Results(|issues|, warnings, Buckets(issues))) == ComplianceScore(Results(0, warnings, NoIssues))
  {
    forall b | b != Other ensures InBucket(issues, b) == [] {
      NoneInBucket(issues, b);
    }
    assert Buckets(issues).Get(EpisodeContinuity) == [];
    assert Buckets(issues).Get(RelatedEpisodes) == [];
    assert Buckets(issues).Get(CsvStructure) == [];
    assert Buckets(issues).Get(ChronologicalOrder) == [];
    assert Buckets(issues).Get(ComprehensiveStack) == [];
  }

  datatype Verdict = Excellent | Good | NeedsImprovement

  /** The summary line of the phase-1 report for the two profiles' scores. */
  function Summary(first: int, second: int): (v: Verdict)
    ensures v == Excellent <==> first >= 90 && second >= 90
    ensures v == Good <==> first >= 70 && second >= 70 && !(first >= 90 && second >= 90)
    ensures v == NeedsImprovement <==> first < 70 || second < 70
  {
    if first >= 90 && second >= 90 then Excellent
    else if first >= 70 && second >= 70 then Good
    else NeedsImprovement
  }

  /** Two profiles without any issue or warning are summarised as excellent. */
  lemma CleanProfilesExcellent(a: Results, b: Results)
    requires a.byCategory == NoIssues && a.totalWarnings == 0
    requires b.byCategory == NoIssues && b.totalWarnings == 0
    ensures Summary(ComplianceScore(a), ComplianceScore(b)) == Excellent
  {
  }
}
