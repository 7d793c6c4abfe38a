/**
 * The integrity checks that run over the parsed timeline: episode numbering,
 * related-episode references, the CSV layout, chronological order and
 * "comprehensive stack update" consistency, plus the driver that runs them all.
 *
 * Rows arrive already parsed. A missing cell (pandas NaN) is the empty string,
 * except an empty Date cell, which the parsed frame records by row position.
 * Dates are integer day keys: ISO `YYYY-MM-DD` strings compare like these keys.
 * Every check reads its input and returns its errors, changing nothing.
 */
module TimelineValidator {
  import opened Wrappers
  import opened Strings
  import opened Decimal
  import opened Sorting
  import opened Seqs

  /** One timeline row: Date, EpisodeID, Item, Category, Event, RelatedEpisode, Details. */
  datatype Row = Row(
    date: int,
    episodeId: string,
    item: string,
    category: string,
    event: string,
    relatedEpisode: string,
    details: string)

  /** A processed entry file: the date its name starts with, and its text. */
  datatype Entry = Entry(date: int, content: string)

  /** One reported problem, carrying the values its message names. */
  datatype ValidationError =
    | EpisodeGap(from: int, to: int)
    | DuplicateEpisodes(numbers: seq<int>)
    | DanglingRelated(line: int, date: int, item: string, related: string)
    | TimelineEmpty
    | InvalidHeader
    | WrongColumnCount(line: int, count: nat)
    | OutOfOrder(earlier: int, later: int, line: int, nextLine: int)
    | StackItemNotStopped(updateDate: int, item: string, episodeId: string)

  // ---------------------------------------------------------------------------
  // Episode continuity
  // ---------------------------------------------------------------------------

  /** `re.match(r'ep-(\d+)', id)`: the number after a leading `ep-`, if any digits follow. */
  function EpisodeNumber(id: string): (r: Option<int>)
    ensures r.Some? <==> StartsWith(id, "ep-") && |id| > 3 && IsDigit(id[3])
    ensures r.Some? ==> r.value >= 0
  {
    if StartsWith(id, "ep-") && LeadingDigits(id[3..]) != [] then
      Some(DecimalValue(LeadingDigits(id[3..]) ) as int)
    else None
  }

  lemma LeadingDigitsAll(s: string)
    requires AllDigits(s)
    ensures LeadingDigits(s) == s
  {
  }

  /** The id written as `ep-NNN` reads back as its number. */
  lemma EpisodeNumberOfId(n: nat)
    ensures EpisodeNumber("ep-" + Pad3(n)) == Some(n)
  {
    var id := "ep-" + Pad3(n);
    assert id[3..] == Pad3(n);
    assert StartsWith(id, "ep-");
    LeadingDigitsAll(Pad3(n));
    Pad3RoundTrip(n);
  }

  /** The episode numbers of the first `n` rows, in row order. */
  function EpisodeNumbers(rows: seq<Row>, n: nat): (nums: seq<int>)
    requires n <= |rows|
    ensures |nums| <= n
  {
    if n == 0 then []
    else
      var e := EpisodeNumber(rows[n - 1].episodeId);
      EpisodeNumbers(rows, n - 1) + (if e.Some? then [e.value] else [])
  }

  /** Every row whose id matches contributes its number, and nothing else does. */
  lemma {:induction false} EpisodeNumbersMembers(rows: seq<Row>, n: nat, v: int)
    requires n <= |rows|
    ensures v in EpisodeNumbers(rows, n) <==>
      exists k :: 0 <= k < n && EpisodeNumber(rows[k].episodeId) == Some(v)
  {
    if n > 0 {
      EpisodeNumbersMembers(rows, n - 1, v);
      if EpisodeNumber(rows[n - 1].episodeId) == Some(v) {
        assert v in EpisodeNumbers(rows, n);
      }
    }
  }

  /** The gap errors among the first `n` elements of a sorted list, pair by pair. */
  function GapErrors(s: seq<int>, n: nat): seq<ValidationError>
    requires n <= |s|
  {
    if n < 2 then []
    else GapErrors(s, n - 1) + (if s[n - 1] - s[n - 2] > 1 then [EpisodeGap(s[n - 2], s[n - 1])] else [])
  }

  /** A gap error names two adjacent numbers more than one apart, and each such pair is reported. */
  lemma {:induction false} GapErrorsMembers(s: seq<int>, n: nat, e: ValidationError)
    requires n <= |s|
    ensures e in GapErrors(s, n) <==>
      exists i :: 0 <= i && i + 1 < n && s[i + 1] - s[i] > 1 && e == EpisodeGap(s[i], s[i + 1])
  {
    if n >= 2 {
      GapErrorsMembers(s, n - 1, e);
      if s[n - 1] - s[n - 2] > 1 && e == EpisodeGap(s[n - 2], s[n - 1]) {
        assert e in GapErrors(s, n);
      }
    }
  }

  /** Every error is a gap ending no later than `bound`. */
  predicate GapsUpTo(errs: seq<ValidationError>, bound: int)
  {
    forall a :: 0 <= a < |errs| ==> errs[a].EpisodeGap? && errs[a].from < errs[a].to <= bound
  }

  /** The gaps are listed in strictly increasing order of their start. */
  predicate GapsIncrease(errs: seq<ValidationError>)
  {
    forall a, b :: 0 <= a < b < |errs| ==> errs[a].EpisodeGap? && errs[b].EpisodeGap? && errs[a].from < errs[b].from
  }

  /**
   * Over sorted numbers the gaps are reported in increasing order of their
   * start, so no pair is reported twice.
   */
  lemma {:induction false} GapErrorsIncrease(s: seq<int>, n: nat)
    requires 1 <= n <= |s| && Ascending(s)
    ensures GapsIncrease(GapErrors(s, n))
    ensures GapsUpTo(GapErrors(s, n), s[n - 1])
  {
    if n >= 2 {
      GapErrorsIncrease(s, n - 1);
      var prev := GapErrors(s, n - 1);
      assert s[n - 2] <= s[n - 1];
      if s[n - 1] - s[n - 2] > 1 {
        var g := EpisodeGap(s[n - 2], s[n - 1]);
        var errs := prev + [g];
        assert GapErrors(s, n) == errs;
        forall a, b | 0 <= a < b < |errs| ensures errs[a].EpisodeGap? && errs[b].EpisodeGap? && errs[a].from < errs[b].from {
          if b == |prev| {
            assert errs[a] == prev[a] && prev[a].to <= s[n - 2];
          } else {
            assert errs[a] == prev[a] && errs[b] == prev[b];
          }
        }
      }
    }
  }

  /** `[k for k, v in Counter(s).items() if v > 1]` over the first `n` elements: first occurrences of repeated values. */
  function Repeated(s: seq<int>, n: nat): seq<int>
    requires n <= |s|
  {
    if n == 0 then []
    else Repeated(s, n - 1) + (if s[n - 1] !in s[..n - 1] && multiset(s)[s[n - 1]] > 1 then [s[n - 1]] else [])
  }

  /** A value is listed as repeated exactly when it occurs more than once. */
  lemma {:induction false} RepeatedMembers(s: seq<int>, n: nat, v: int)
    requires n <= |s|
    ensures v in Repeated(s, n) <==> v in s[..n] && multiset(s)[v] > 1
  {
    if n > 0 {
      RepeatedMembers(s, n - 1, v);
      assert s[..n] == s[..n - 1] + [s[n - 1]];
    }
  }

  /** No value is listed twice. */
  lemma {:induction false} RepeatedDistinct(s: seq<int>, n: nat)
    requires n <= |s|
    ensures Distinct(Repeated(s, n))
  {
    if n > 0 {
      RepeatedDistinct(s, n - 1);
      var x := s[n - 1];
      if x !in s[..n - 1] && multiset(s)[x] > 1 {
        RepeatedMembers(s, n - 1, x);
        AppendDistinct(Repeated(s, n - 1), x);
      }
    }
  }

  /** The continuity errors of an already sorted list of numbers: its gaps, then one duplicate error. */
  function ErrorsOfSorted(sorted: seq<int>): seq<ValidationError>
  {
    var dups := Repeated(sorted, |sorted|);
    GapErrors(sorted, |sorted|) + (if dups != [] then [DuplicateEpisodes(dups)] else [])
  }

  /** What `validate_episode_continuity` returns for these rows. */
  function ContinuityErrors(rows: seq<Row>): seq<ValidationError>
  {
    ErrorsOfSorted(SortInts(EpisodeNumbers(rows, |rows|)))
  }

  /** Extracts, sorts and scans the episode numbers, as `validate_episode_continuity` does. */
  method ValidateEpisodeContinuity(rows: seq<Row>) returns (errors: seq<ValidationError>)
    ensures errors == ContinuityErrors(rows)
  {
    var nums := CollectEpisodeNumbers(rows);
    var sorted := SortInts(nums);
    errors := ScanGaps(sorted);
    var dups := Repeated(sorted, |sorted|);
    if dups != [] {
      errors := errors + [DuplicateEpisodes(dups)];
    }
  }

  /** The first loop: the numbers of the episode ids that parse. */
  method CollectEpisodeNumbers(rows: seq<Row>) returns (nums: seq<int>)
    ensures nums == EpisodeNumbers(rows, |rows|)
  {
    nums := [];
    var k := 0;
    while k < |rows|
      invariant 0 <= k <= |rows|
      invariant nums == EpisodeNumbers(rows, k)
    {
      var e := EpisodeNumber(rows[k].episodeId);
      if e.Some? {
        nums := nums + [e.value];
      }
      k := k + 1;
    }
  }

  /** The second loop: a gap error for each step of more than one. */
  method ScanGaps(sorted: seq<int>) returns (errors: seq<ValidationError>)
    ensures errors == GapErrors(sorted, |sorted|)
  {
    errors := [];
    var i := 1;
    while i < |sorted|
      invariant |sorted| > 0 ==> 1 <= i <= |sorted|
      invariant errors == GapErrors(sorted, if sorted == [] then 0 else i)
    {
      if sorted[i] - sorted[i - 1] > 1 {
        errors := errors + [EpisodeGap(sorted[i - 1], sorted[i])];
      }
      i := i + 1;
    }
  }

  /**
   * Over a sorted list every error but the last is a gap, and the last is a
   * duplicate error exactly when some value repeats; it then lists exactly the
   * repeated values.
   */
  lemma DuplicateErrorOfSorted(s: seq<int>)
    requires Ascending(s)
    ensures var errs := ErrorsOfSorted(s);
      forall k :: 0 <= k < |errs| - 1 ==> errs[k].EpisodeGap?
    ensures var errs := ErrorsOfSorted(s);
      (errs != [] && errs[|errs| - 1].DuplicateEpisodes?) <==> exists v :: multiset(s)[v] > 1
    ensures var errs := ErrorsOfSorted(s);
      errs != [] && errs[|errs| - 1].DuplicateEpisodes? ==>
        forall v :: v in errs[|errs| - 1].numbers <==> multiset(s)[v] > 1
  {
    var dups := Repeated(s, |s|);
    var gaps := GapErrors(s, |s|);
    assert s[..|s|] == s;
    forall v ensures v in dups <==> multiset(s)[v] > 1 {
      RepeatedMembers(s, |s|, v);
    }
    if s != [] {
      GapErrorsIncrease(s, |s|);
    }
    assert forall k :: 0 <= k < |gaps| ==> gaps[k].EpisodeGap?;
    if exists v :: multiset(s)[v] > 1 {
      var v :| multiset(s)[v] > 1;
      assert v in dups;
    }
    if dups != [] {
      assert dups[0] in dups;
    } else if gaps != [] {
      assert ErrorsOfSorted(s) == gaps;
      assert gaps[|gaps| - 1].EpisodeGap?;
    }
  }

  /**
   * A duplicate error is raised, once and last, exactly when some episode
   * number is used twice, and it lists exactly the numbers used more than once.
   */
  lemma DuplicateErrorIff(rows: seq<Row>)
    ensures var errs := ContinuityErrors(rows);
      forall k :: 0 <= k < |errs| - 1 ==> errs[k].EpisodeGap?
    ensures var errs := ContinuityErrors(rows); var nums := EpisodeNumbers(rows, |rows|);
      (errs != [] && errs[|errs| - 1].DuplicateEpisodes?) <==> exists v :: multiset(nums)[v] > 1
    ensures var errs := ContinuityErrors(rows); var nums := EpisodeNumbers(rows, |rows|);
      errs != [] && errs[|errs| - 1].DuplicateEpisodes? ==>
        forall v :: v in errs[|errs| - 1].numbers <==> multiset(nums)[v] > 1
  {
    var sorted := SortInts(EpisodeNumbers(rows, |rows|));
    DuplicateErrorOfSorted(sorted);
    assert multiset(sorted) == multiset(EpisodeNumbers(rows, |rows|));
  }

  /** `[1, 2, ..., n]` */
  function OneTo(n: nat): (s: seq<int>)
    ensures |s| == n && forall i :: 0 <= i < n ==> s[i] == i + 1
  {
    if n == 0 then [] else OneTo(n - 1) + [n]
  }

  lemma {:induction false} NoGapsInRun(s: seq<int>, n: nat)
    requires n <= |s| && forall i :: 0 <= i && i + 1 < |s| ==> s[i + 1] == s[i] + 1
    ensures GapErrors(s, n) == []
  {
    if n >= 2 {
      NoGapsInRun(s, n - 1);
    }
  }

  /** In a strictly increasing list a value occurs at most once. */
  lemma {:induction false} StrictlyIncreasingCounts(s: seq<int>, n: nat, v: int)
    requires n <= |s| && forall i, j :: 0 <= i < j < |s| ==> s[i] < s[j]
    ensures multiset(s[..n])[v] <= 1
  {
    if n > 0 {
      StrictlyIncreasingCounts(s, n - 1, v);
      assert s[..n] == s[..n - 1] + [s[n - 1]];
      if v == s[n - 1] {
        assert v !in s[..n - 1];
      }
    }
  }

  /** A strictly increasing list has no repeated values. */
  lemma {:induction false} NoRepeatsWhenStrict(s: seq<int>, n: nat)
    requires n <= |s| && forall i, j :: 0 <= i < j < |s| ==> s[i] < s[j]
    ensures Repeated(s, n) == []
  {
    if n > 0 {
      NoRepeatsWhenStrict(s, n - 1);
      StrictlyIncreasingCounts(s, |s|, s[n - 1]);
      assert s[..|s|] == s;
    }
  }

  /** Episode numbers `1..n`, each used once (in any row order), give no continuity errors. */
  lemma ConsecutiveEpisodesValid(rows: seq<Row>, n: nat)
    requires multiset(EpisodeNumbers(rows, |rows|)) == multiset(OneTo(n))
    ensures ContinuityErrors(rows) == []
  {
    var sorted := SortInts(EpisodeNumbers(rows, |rows|));
    assert Ascending(OneTo(n));
    AscendingUnique(sorted, OneTo(n));
    NoGapsInRun(sorted, |sorted|);
    NoRepeatsWhenStrict(sorted, |sorted|);
  }

  // ---------------------------------------------------------------------------
  // Related-episode references
  // ---------------------------------------------------------------------------

  /** `set(df['EpisodeID'].dropna())` */
  function EpisodeIds(rows: seq<Row>): set<string>
  {
    set r | r in rows && r.episodeId != "" :: r.episodeId
  }

  /** A non-blank reference that is not, verbatim, the id of any row. */
  predicate Dangling(rows: seq<Row>, r: Row)
  {
    !IsBlank(r.relatedEpisode) && r.relatedEpisode !in EpisodeIds(rows)
  }

  /** The errors of the first `n` rows; row `k` is reported as file line `k + 2`. */
  function RelatedErrors(rows: seq<Row>, n: nat): seq<ValidationError>
    requires n <= |rows|
  {
    if n == 0 then []
    else
      var r := rows[n - 1];
      RelatedErrors(rows, n - 1) +
        (if Dangling(rows, r) then [DanglingRelated(n + 1, r.date, r.item, r.relatedEpisode)] else [])
  }

  /** Checks every row's reference, as `validate_related_episodes` does. */
  method ValidateRelatedEpisodes(rows: seq<Row>) returns (errors: seq<ValidationError>)
    ensures errors == RelatedErrors(rows, |rows|)
  {
    var ids := EpisodeIds(rows);
    errors := [];
    var k := 0;
    while k < |rows|
      invariant 0 <= k <= |rows|
      invariant errors == RelatedErrors(rows, k)
    {
      var r := rows[k];
      StripEmptyIffBlank(r.relatedEpisode);
      if Strip(r.relatedEpisode) != "" && r.relatedEpisode !in ids {
        errors := errors + [DanglingRelated(k + 2, r.date, r.item, r.relatedEpisode)];
      }
      k := k + 1;
    }
  }

  /** An error names a dangling row by its line, and every dangling row is named. */
  lemma {:induction false} RelatedErrorsMembers(rows: seq<Row>, n: nat, e: ValidationError)
    requires n <= |rows|
    ensures e in RelatedErrors(rows, n) <==>
      exists k :: 0 <= k < n && Dangling(rows, rows[k]) &&
        e == DanglingRelated(k + 2, rows[k].date, rows[k].item, rows[k].relatedEpisode)
  {
    if n > 0 {
      RelatedErrorsMembers(rows, n - 1, e);
    }
  }

  /** The errors that name a line of the file. */
  predicate HasLine(e: ValidationError)
  {
    e.DanglingRelated? || e.WrongColumnCount? || e.OutOfOrder?
  }

  /** Every error names a line in `[lo, hi)`. */
  predicate LinesWithin(errs: seq<ValidationError>, lo: int, hi: int)
  {
    forall a :: 0 <= a < |errs| ==> HasLine(errs[a]) && lo <= errs[a].line < hi
  }

  /** The named lines strictly increase, so no line is reported twice. */
  predicate LinesIncrease(errs: seq<ValidationError>)
  {
    forall a, b :: 0 <= a < b < |errs| ==> HasLine(errs[a]) && HasLine(errs[b]) && errs[a].line < errs[b].line
  }

  /** Appending an error for a later line keeps the lines increasing. */
  lemma AppendLaterLine(errs: seq<ValidationError>, lo: int, hi: int, e: ValidationError)
    requires LinesWithin(errs, lo, hi) && LinesIncrease(errs)
    requires HasLine(e) && e.line >= hi
    ensures LinesIncrease(errs + [e])
  {
    var r := errs + [e];
    forall a, b | 0 <= a < b < |r| ensures HasLine(r[a]) && HasLine(r[b]) && r[a].line < r[b].line {
      assert r[a] == errs[a];
      if b < |errs| {
        assert r[b] == errs[b];
      }
    }
  }

  /** The errors come in strictly increasing line order, so no row is reported twice. */
  lemma {:induction false} RelatedErrorsIncrease(rows: seq<Row>, n: nat)
    requires n <= |rows|
    ensures LinesWithin(RelatedErrors(rows, n), 2, n + 2)
    ensures LinesIncrease(RelatedErrors(rows, n))
    ensures forall e :: e in RelatedErrors(rows, n) ==> e.DanglingRelated?
  {
    if n > 0 {
      RelatedErrorsIncrease(rows, n - 1);
      var p := RelatedErrors(rows, n - 1);
      var r := rows[n - 1];
      if Dangling(rows, r) {
        AppendLaterLine(p, 2, n + 1, DanglingRelated(n + 1, r.date, r.item, r.relatedEpisode));
      }
    }
  }

  /** A blank or missing reference never produces an error. */
  lemma BlankReferenceNoError(rows: seq<Row>, k: nat)
    requires k < |rows| && Strip(rows[k].relatedEpisode) == ""
    ensures forall e :: e in RelatedErrors(rows, |rows|) ==> e.DanglingRelated? && e.line != k + 2
  {
    StripEmptyIffBlank(rows[k].relatedEpisode);
    forall e | e in RelatedErrors(rows, |rows|) ensures e.DanglingRelated? && e.line != k + 2 {
      RelatedErrorsMembers(rows, |rows|, e);
    }
  }

  // ---------------------------------------------------------------------------
  // Chronological order
  // ---------------------------------------------------------------------------

  /** Every date is no later than the next one. */
  predicate NonDecreasing(d: seq<int>)
  {
    forall i :: 0 <= i && i + 1 < |d| ==> d[i] <= d[i + 1]
  }

  /** `i` is the first position whose date is later than the next one. */
  predicate FirstInversion(d: seq<int>, i: int)
  {
    0 <= i && i + 1 < |d| && d[i] > d[i + 1] && forall j :: 0 <= j < i ==> d[j] <= d[j + 1]
  }

  lemma {:induction false} NonDecreasingAscending(d: seq<int>)
    requires NonDecreasing(d)
    ensures Ascending(d)
    decreases |d|
  {
    if |d| > 1 {
      NonDecreasingAscending(d[1..]);
      forall i, j | 0 <= i < j < |d| ensures d[i] <= d[j] {
        if i > 0 {
          assert d[1..][i - 1] <= d[1..][j - 1];
        } else if j > 1 {
          assert d[1..][0] <= d[1..][j - 1];
        }
      }
    }
  }

  /** What `validate_chronological_order` reports from position `i` on: the first inversion, if any. */
  function OrderErrorsFrom(d: seq<int>, i: nat): seq<ValidationError>
    decreases |d| - i
  {
    if i + 1 >= |d| then []
    else if d[i] > d[i + 1] then [OutOfOrder(d[i], d[i + 1], i + 2, i + 3)]
    else OrderErrorsFrom(d, i + 1)
  }

  function OrderErrors(d: seq<int>): seq<ValidationError>
  {
    OrderErrorsFrom(d, 0)
  }

  lemma {:induction false} OrderErrorsFromIff(d: seq<int>, i: nat)
    requires forall j :: 0 <= j < i && j + 1 < |d| ==> d[j] <= d[j + 1]
    ensures OrderErrorsFrom(d, i) == [] <==> NonDecreasing(d)
    ensures OrderErrorsFrom(d, i) != [] ==>
      exists k :: FirstInversion(d, k) && OrderErrorsFrom(d, i) == [OutOfOrder(d[k], d[k + 1], k + 2, k + 3)]
    decreases |d| - i
  {
    if i + 1 >= |d| {
    } else if d[i] > d[i + 1] {
      assert FirstInversion(d, i);
    } else {
      OrderErrorsFromIff(d, i + 1);
    }
  }

  /**
   * No error exactly when the dates never decrease; otherwise one error, for
   * the first position whose date is later than the next one.
   */
  lemma OrderErrorsIff(d: seq<int>)
    ensures OrderErrors(d) == [] <==> NonDecreasing(d)
    ensures OrderErrors(d) != [] ==>
      exists i :: FirstInversion(d, i) && OrderErrors(d) == [OutOfOrder(d[i], d[i + 1], i + 2, i + 3)]
  {
    OrderErrorsFromIff(d, 0);
  }

  /** Compares the dates with their sorted copy and reports the first inversion, as `validate_chronological_order` does. */
  method ValidateChronologicalOrder(dates: seq<int>) returns (errors: seq<ValidationError>)
    ensures errors == OrderErrors(dates)
  {
    errors := [];
    var sorted := SortInts(dates);
    if dates != sorted {
      // the first `i` with `dates[i] > dates[i + 1]`, where the loop breaks
      var i := 0;
      while i + 1 < |dates| && dates[i] <= dates[i + 1]
        invariant 0 <= i <= |dates| || (i == 0 && dates == [])
        invariant OrderErrorsFrom(dates, i) == OrderErrors(dates)
      {
        i := i + 1;
      }
      if i + 1 < |dates| {
        errors := [OutOfOrder(dates[i], dates[i + 1], i + 2, i + 3)];
      }
    } else {
      OrderErrorsIff(dates);
    }
  }

  // ---------------------------------------------------------------------------
  // CSV structure
  // ---------------------------------------------------------------------------

  /** The states of Python's `csv` reader (default dialect) inside one record. */
  datatype CsvState = StartRecord | StartField | InField | InQuotedField | QuoteInQuotedField | EatNewline

  predicate IsNewline(c: char)
  {
    c == '\n' || c == '\r'
  }

  /** The reader at the start of a field: the next state and the number of fields the character completes. */
  function FieldStart(c: char): (CsvState, nat)
  {
    if c == '"' then (InQuotedField, 0)
    else if c == ',' then (StartField, 1)
    else if IsNewline(c) then (EatNewline, 1)
    else (InField, 0)
  }

  /**
   * One character read in state `st`: the next state and the number of fields
   * it completes. A line read from a text file holds a newline only at its
   * end, so `EatNewline` only ever meets the end of the line.
   */
  function Step(st: CsvState, c: char): (CsvState, nat)
  {
    match st
    case StartRecord => if IsNewline(c) then (EatNewline, 0) else FieldStart(c)
    case StartField => FieldStart(c)
    case InField =>
      if c == ',' then (StartField, 1)
      else if IsNewline(c) then (EatNewline, 1)
      else (InField, 0)
    case InQuotedField => if c == '"' then (QuoteInQuotedField, 0) else (InQuotedField, 0)
    case QuoteInQuotedField =>
      if c == '"' then (InQuotedField, 0)
      else if c == ',' then (StartField, 1)
      else if IsNewline(c) then (EatNewline, 1)
      else (InField, 0)
    case EatNewline => (EatNewline, 0)
  }

  /** The fields the end of a line completes: none at a record's start, after its newline, or inside quotes. */
  function EolFields(st: CsvState): nat
  {
    if st.StartRecord? || st.EatNewline? || st.InQuotedField? then 0 else 1
  }

  /** The number of fields completed on reading `s` from state `st` and then the end of the line. */
  function FieldsFrom(st: CsvState, s: string): nat
    decreases |s|
  {
    if s == [] then EolFields(st)
    else
      var (next, n) := Step(st, s[0]);
      n + FieldsFrom(next, s[1..])
  }

  /** The state after reading `s` from state `st`, before the end of the line. */
  function StateAfter(st: CsvState, s: string): CsvState
    decreases |s|
  {
    if s == [] then st else StateAfter(Step(st, s[0]).0, s[1..])
  }

  /** `len(row)` for the record `csv.reader` reads from a line that does not leave a quote open. */
  function FieldCount(line: string): nat
  {
    FieldsFrom(StartRecord, line)
  }

  /**
   * The field counts of the records `csv.reader` reads from `lines[i..]`, in
   * state `st` (`StartRecord`, or `InQuotedField` inside a record that
   * already has `done` fields). A line that ends inside quotes continues
   * the record on the next line; at the end of the data an open quoted field
   * is saved as the record's last field.
   */
  function RecordsFrom(lines: seq<string>, i: nat, st: CsvState, done: nat): seq<nat>
    requires i <= |lines|
    decreases |lines| - i
  {
    if i == |lines| then (if st.InQuotedField? then [done + 1] else [])
    else
      var count := done + FieldsFrom(st, lines[i]);
      if StateAfter(st, lines[i]).InQuotedField? then RecordsFrom(lines, i + 1, InQuotedField, count)
      else [count] + RecordsFrom(lines, i + 1, StartRecord, 0)
  }

  /** `[len(row) for row in csv.reader(lines)]` */
  function Records(lines: seq<string>): seq<nat>
  {
    RecordsFrom(lines, 0, StartRecord, 0)
  }

  lemma {:induction false} RecordsFromBounds(lines: seq<string>, i: nat, st: CsvState, done: nat)
    requires i <= |lines| && (st == StartRecord || st == InQuotedField)
    ensures |RecordsFrom(lines, i, st, done)| <= |lines| - i + (if st.InQuotedField? then 1 else 0)
    ensures i < |lines| || st.InQuotedField? ==> RecordsFrom(lines, i, st, done) != []
    decreases |lines| - i
  {
    if i < |lines| {
      var count := done + FieldsFrom(st, lines[i]);
      if StateAfter(st, lines[i]).InQuotedField? {
        RecordsFromBounds(lines, i + 1, InQuotedField, count);
      } else {
        RecordsFromBounds(lines, i + 1, StartRecord, 0);
      }
    }
  }

  /** Every line takes part in some record, so there are never more records than lines, and at least one. */
  lemma RecordsBounds(lines: seq<string>)
    ensures |Records(lines)| <= |lines|
    ensures lines != [] ==> Records(lines) != []
  {
    RecordsFromBounds(lines, 0, StartRecord, 0);
  }

  lemma {:induction false} SingleLineRecordsFrom(lines: seq<string>, i: nat)
    requires i <= |lines|
    requires forall k :: 0 <= k < |lines| ==> !StateAfter(StartRecord, lines[k]).InQuotedField?
    ensures var rs := RecordsFrom(lines, i, StartRecord, 0);
      |rs| == |lines| - i && forall j :: 0 <= j < |rs| ==> rs[j] == FieldCount(lines[i + j])
    decreases |lines| - i
  {
    if i < |lines| {
      SingleLineRecordsFrom(lines, i + 1);
      var rest := RecordsFrom(lines, i + 1, StartRecord, 0);
      assert RecordsFrom(lines, i, StartRecord, 0) == [FieldCount(lines[i])] + rest;
    }
  }

  /** When no line leaves a quoted field open, record `k` is line `k`, read on its own. */
  lemma SingleLineRecords(lines: seq<string>)
    requires forall k :: 0 <= k < |lines| ==> !StateAfter(StartRecord, lines[k]).InQuotedField?
    ensures |Records(lines)| == |lines|
    ensures forall k :: 0 <= k < |lines| ==> Records(lines)[k] == FieldCount(lines[k])
  {
    SingleLineRecordsFrom(lines, 0);
  }

  /** Outside quotes a line without quote characters cannot open one. */
  lemma {:induction false} QuoteFreeStaysClosed(st: CsvState, s: string)
    requires !st.InQuotedField? && !st.QuoteInQuotedField?
    requires '"' !in s
    ensures !StateAfter(st, s).InQuotedField?
    decreases |s|
  {
    if s != [] {
      assert s[0] in s;
      assert '"' !in s[1..] by {
        forall c | c in s[1..] ensures c != '"' {
          var j :| 0 <= j < |s[1..]| && s[1..][j] == c;
          assert s[j + 1] == c;
        }
      }
      QuoteFreeStaysClosed(Step(st, s[0]).0, s[1..]);
    }
  }

  /** Without quotes, the fields of a line (with or without its line feed) are its comma-separated parts. */
  lemma {:induction false} PlainFields(st: CsvState, text: string, nl: string)
    requires st == StartField || st == InField
    requires nl == "" || nl == "\n"
    requires forall i :: 0 <= i < |text| ==> text[i] != '"' && !IsNewline(text[i])
    ensures FieldsFrom(st, text + nl) == |Split(text, ',')|
    decreases |text|
  {
    if text == [] {
      assert text + nl == nl;
      if nl == "\n" {
        assert nl[1..] == "";
      }
    } else {
      assert (text + nl)[0] == text[0];
      assert (text + nl)[1..] == text[1..] + nl;
      if text[0] == ',' {
        PlainFields(StartField, text[1..], nl);
      } else {
        PlainFields(InField, text[1..], nl);
      }
    }
  }

  /** A non-empty line without quotes has as many fields as `line.split(',')` has parts. */
  lemma PlainFieldCount(text: string, nl: string)
    requires text != [] && (nl == "" || nl == "\n")
    requires forall i :: 0 <= i < |text| ==> text[i] != '"' && !IsNewline(text[i])
    ensures FieldCount(text + nl) == |Split(text, ',')|
  {
    var s := text + nl;
    assert s[0] == text[0];
    assert FieldsFrom(StartRecord, s) == FieldsFrom(StartField, s);
    PlainFields(StartField, text, nl);
  }

  /** A blank line is read as an empty record. */
  lemma BlankLineNoFields()
    ensures FieldCount("") == 0 && FieldCount("\n") == 0
  {
    assert "\n"[1..] == "";
  }

  /** Inside quotes nothing ends the field until the closing quote. */
  lemma {:induction false} QuotedRun(q: string, rest: string)
    requires '"' !in q
    ensures FieldsFrom(InQuotedField, q + ['"'] + rest) == FieldsFrom(QuoteInQuotedField, rest)
    ensures StateAfter(InQuotedField, q + ['"'] + rest) == StateAfter(QuoteInQuotedField, rest)
    decreases |q|
  {
    var s := q + ['"'] + rest;
    if q == [] {
      assert s == ['"'] + rest;
      assert s[1..] == rest;
    } else {
      assert s[0] == q[0];
      assert s[1..] == q[1..] + ['"'] + rest;
      QuotedRun(q[1..], rest);
    }
  }

  /** A quoted field followed by a comma is one field, whatever commas it holds. */
  lemma QuotedFieldIsOneField(q: string, rest: string)
    requires '"' !in q
    ensures FieldsFrom(StartField, ['"'] + q + ['"', ','] + rest) == 1 + FieldsFrom(StartField, rest)
  {
    var s := ['"'] + q + ['"', ','] + rest;
    assert s[1..] == q + ['"'] + ([','] + rest);
    QuotedRun(q, [','] + rest);
    assert ([','] + rest)[1..] == rest;
  }

  /** A quoted field that is still open at the end of a line completes nothing there. */
  lemma {:induction false} OpenQuote(q: string)
    requires '"' !in q
    ensures FieldsFrom(InQuotedField, q) == 0 && StateAfter(InQuotedField, q) == InQuotedField
    decreases |q|
  {
    if q != [] {
      assert q[0] in q;
      assert '"' !in q[1..] by {
        forall c | c in q[1..] ensures c != '"' {
          var j :| 0 <= j < |q[1..]| && q[1..][j] == c;
          assert q[j + 1] == c;
        }
      }
      OpenQuote(q[1..]);
    }
  }

  /** Unquoted text before a comma completes one field per comma-separated part. */
  lemma {:induction false} PlainThenComma(st: CsvState, text: string, rest: string)
    requires st == StartField || st == InField
    requires forall i :: 0 <= i < |text| ==> text[i] != '"' && !IsNewline(text[i])
    ensures FieldsFrom(st, text + [','] + rest) == |Split(text, ',')| + FieldsFrom(StartField, rest)
    ensures StateAfter(st, text + [','] + rest) == StateAfter(StartField, rest)
    decreases |text|
  {
    var s := text + [','] + rest;
    if text == [] {
      assert s == [','] + rest;
      assert s[1..] == rest;
    } else {
      assert s[0] == text[0];
      assert s[1..] == text[1..] + [','] + rest;
      if text[0] == ',' {
        PlainThenComma(StartField, text[1..], rest);
      } else {
        PlainThenComma(InField, text[1..], rest);
      }
    }
  }

  /** A row of plain fields that ends by opening a quoted field leaves it open at the end of the line. */
  lemma OpeningLine(p: string, x: string)
    requires forall i :: 0 <= i < |p| ==> p[i] != '"' && !IsNewline(p[i])
    requires p != [] && '"' !in x
    ensures FieldsFrom(StartRecord, p + ",\"" + x + "\n") == |Split(p, ',')|
    ensures StateAfter(StartRecord, p + ",\"" + x + "\n") == InQuotedField
  {
    var q := ['"'] + x + "\n";
    var open := p + [','] + q;
    assert p + ",\"" + x + "\n" == open;
    assert open[0] == p[0];
    assert FieldsFrom(StartRecord, open) == FieldsFrom(StartField, open);
    assert StateAfter(StartRecord, open) == StateAfter(StartField, open);
    PlainThenComma(StartField, p, q);
    assert q[1..] == x + "\n";
    assert '"' !in x + "\n";
    OpenQuote(x + "\n");
  }

  /** A line that closes the open quoted field and ends completes that field and the record. */
  lemma ClosingLine(y: string)
    requires '"' !in y
    ensures FieldsFrom(InQuotedField, y + "\"\n") == 1
    ensures StateAfter(InQuotedField, y + "\"\n") == EatNewline
  {
    assert y + "\"\n" == y + ['"'] + "\n";
    QuotedRun(y, "\n");
    assert "\n"[1..] == "";
  }

  /**
   * A details field whose quotes open on one line and close on the next is
   * read as part of one record: a row of six plain fields followed by such a
   * field is one record of 7 fields, and no column error is reported for it.
   */
  lemma MultiLineDetails(header: string, p: string, x: string, y: string)
    requires '"' !in header
    requires forall i :: 0 <= i < |p| ==> p[i] != '"' && !IsNewline(p[i])
    requires p != [] && |Split(p, ',')| == 6
    requires '"' !in x && '"' !in y
    ensures Records([header, p + ",\"" + x + "\n", y + "\"\n"]) == [FieldCount(header), 7]
    ensures CountErrors(Records([header, p + ",\"" + x + "\n", y + "\"\n"])) == []
  {
    var open := p + ",\"" + x + "\n";
    var close := y + "\"\n";
    var lines := [header, open, close];
    QuoteFreeStaysClosed(StartRecord, header);
    OpeningLine(p, x);
    ClosingLine(y);
    var tail := RecordsFrom(lines, 1, StartRecord, 0);
    assert RecordsFrom(lines, 2, InQuotedField, 6) == [7];
    assert tail == [7];
    assert Records(lines) == [FieldCount(header)] + tail;
  }

  /** The lines of the first `n` that do not start with `#`, in order. */
  function Kept(lines: seq<string>, n: nat): (kept: seq<string>)
    requires n <= |lines|
    ensures |kept| <= n
    ensures forall k :: 0 <= k < |kept| ==> !StartsWith(kept[k], "#")
  {
    if n == 0 then []
    else Kept(lines, n - 1) + (if StartsWith(lines[n - 1], "#") then [] else [lines[n - 1]])
  }

  lemma {:induction false} KeptMembers(lines: seq<string>, n: nat, x: string)
    requires n <= |lines|
    ensures x in Kept(lines, n) <==> x in lines[..n] && !StartsWith(x, "#")
  {
    if n > 0 {
      KeptMembers(lines, n - 1, x);
      assert lines[..n] == lines[..n - 1] + [lines[n - 1]];
    }
  }

  /**
   * Column-count errors for the records after the header, given their field
   * counts; record `k` is reported as line `k + 1`, as `enumerate(reader, 2)`
   * numbers them, whatever lines the record spans.
   */
  function CountErrors(counts: seq<nat>): seq<ValidationError>
  {
    if |counts| <= 1 then []
    else
      var n := |counts| - 1;
      CountErrors(counts[..n]) + (if counts[n] != 7 then [WrongColumnCount(n + 1, counts[n])] else [])
  }

  /** What `validate_csv_structure` returns for the file's lines. */
  function StructureErrors(lines: seq<string>): seq<ValidationError>
  {
    var kept := Kept(lines, |lines|);
    if kept == [] then [TimelineEmpty]
    else
      (if StartsWith(Strip(kept[0]), "Date,") then [] else [InvalidHeader]) + CountErrors(Records(kept))
  }

  /** Drops comment lines, checks the header and counts each record's fields, as `validate_csv_structure` does. */
  method ValidateCsvStructure(lines: seq<string>) returns (errors: seq<ValidationError>)
    ensures errors == StructureErrors(lines)
  {
    var kept := DropComments(lines);
    if kept == [] {
      return [TimelineEmpty];
    }
    errors := [];
    if !StartsWith(Strip(kept[0]), "Date,") {
      errors := [InvalidHeader];
    }
    RecordsBounds(kept);
    errors := CheckRecords(Records(kept), errors);
  }

  /** The comment filter of `validate_csv_structure`. */
  method DropComments(lines: seq<string>) returns (kept: seq<string>)
    ensures kept == Kept(lines, |lines|)
  {
    kept := [];
    var k := 0;
    while k < |lines|
      invariant 0 <= k <= |lines|
      invariant kept == Kept(lines, k)
    {
      if !StartsWith(lines[k], "#") {
        kept := kept + [lines[k]];
      }
      k := k + 1;
    }
  }

  /** The record loop of `validate_csv_structure` after `next(reader)` took the header record. */
  method CheckRecords(counts: seq<nat>, header: seq<ValidationError>) returns (errors: seq<ValidationError>)
    requires counts != []
    ensures errors == header + CountErrors(counts)
  {
    errors := header;
    var i := 1;
    while i < |counts|
      invariant 1 <= i <= |counts|
      invariant errors == header + CountErrors(counts[..i])
    {
      var count := counts[i];
      assert counts[..i + 1][..i] == counts[..i];
      if count != 7 {
        errors := errors + [WrongColumnCount(i + 1, count)];
      }
      i := i + 1;
    }
    assert counts[..i] == counts;
  }

  /** A column error names a record after the header whose field count is not 7, and every such record is named. */
  lemma {:induction false} CountErrorsMembers(counts: seq<nat>, e: ValidationError)
    ensures e in CountErrors(counts) <==>
      exists k :: 1 <= k < |counts| && counts[k] != 7 && e == WrongColumnCount(k + 1, counts[k])
    decreases |counts|
  {
    if |counts| > 1 {
      var n := |counts| - 1;
      var init := counts[..n];
      CountErrorsMembers(init, e);
      assert forall k :: 0 <= k < n ==> init[k] == counts[k];
    }
  }

  lemma {:induction false} CountErrorsIncrease(counts: seq<nat>)
    ensures LinesWithin(CountErrors(counts), 2, |counts| + 1)
    ensures LinesIncrease(CountErrors(counts))
    ensures forall e :: e in CountErrors(counts) ==> e.WrongColumnCount?
    decreases |counts|
  {
    if |counts| > 1 {
      var n := |counts| - 1;
      CountErrorsIncrease(counts[..n]);
      if counts[n] != 7 {
        AppendLaterLine(CountErrors(counts[..n]), 2, n + 1, WrongColumnCount(n + 1, counts[n]));
      }
    }
  }

  /**
   * The structure check: no lines left after dropping comments gives exactly
   * the empty-timeline error; otherwise the header error appears iff the
   * first line does not start with `Date,`, and every other error is a column
   * error, one per record, in increasing record order.
   */
  lemma StructureErrorsProperties(lines: seq<string>)
    ensures var kept := Kept(lines, |lines|);
      StructureErrors(lines) == [TimelineEmpty] <==> kept == []
    ensures var kept := Kept(lines, |lines|);
      kept != [] ==> (InvalidHeader in StructureErrors(lines) <==> !StartsWith(Strip(kept[0]), "Date,"))
    ensures var kept := Kept(lines, |lines|);
      kept != [] ==> StructureErrors(lines) == (if StartsWith(Strip(kept[0]), "Date,") then [] else [InvalidHeader]) + CountErrors(Records(kept))
  {
    var kept := Kept(lines, |lines|);
    if kept != [] {
      var header := if StartsWith(Strip(kept[0]), "Date,") then [] else [InvalidHeader];
      var counts := CountErrors(Records(kept));
      assert StructureErrors(lines) == header + counts;
      CountErrorsIncrease(Records(kept));
      assert InvalidHeader !in counts && TimelineEmpty !in counts;
      assert TimelineEmpty !in header + counts;
    }
  }

  // ---------------------------------------------------------------------------
  // Comprehensive stack updates
  // ---------------------------------------------------------------------------

  /** Phrases that mark an entry as listing the whole current stack. */
  const StackKeywords: seq<string> := [
    "current stack", "only taking", "stopped all",
    "not taking any", "complete list", "current supplements",
    "only supplement"
  ]

  /** The entry's lower-cased text contains one of the stack phrases. */
  predicate IsComprehensive(e: Entry)
  {
    ContainsAny(Lower(e.content), StackKeywords)
  }

  /** The dates of the comprehensive entries among the first `n`, in entry order. */
  function ComprehensiveDates(entries: seq<Entry>, n: nat): (dates: seq<int>)
    requires n <= |entries|
    ensures |dates| <= n
  {
    if n == 0 then []
    else ComprehensiveDates(entries, n - 1) + (if IsComprehensive(entries[n - 1]) then [entries[n - 1].date] else [])
  }

  lemma {:induction false} ComprehensiveDatesMembers(entries: seq<Entry>, n: nat, d: int)
    requires n <= |entries|
    ensures d in ComprehensiveDates(entries, n) <==>
      exists k :: 0 <= k < n && IsComprehensive(entries[k]) && entries[k].date == d
  {
    if n > 0 {
      ComprehensiveDatesMembers(entries, n - 1, d);
      if IsComprehensive(entries[n - 1]) && entries[n - 1].date == d {
        assert d in ComprehensiveDates(entries, n);
      }
    }
  }

  /** A supplement or medication `started` row dated before `d`. */
  predicate StartedBefore(r: Row, d: int)
  {
    r.date < d && (r.category == "supplement" || r.category == "medication") && r.event == "started"
  }

  /** The episode ids of the started rows among the first `n`. */
  function StartedIds(rows: seq<Row>, d: int, n: nat): seq<string>
    requires n <= |rows|
  {
    if n == 0 then []
    else StartedIds(rows, d, n - 1) + (if StartedBefore(rows[n - 1], d) then [rows[n - 1].episodeId] else [])
  }

  lemma {:induction false} StartedIdsMembers(rows: seq<Row>, d: int, n: nat, ep: string)
    requires n <= |rows|
    ensures ep in StartedIds(rows, d, n) <==>
      exists k :: 0 <= k < n && StartedBefore(rows[k], d) && rows[k].episodeId == ep
  {
    if n > 0 {
      StartedIdsMembers(rows, d, n - 1, ep);
      if StartedBefore(rows[n - 1], d) && rows[n - 1].episodeId == ep {
        assert ep in StartedIds(rows, d, n);
      }
    }
  }

  /** `Series.unique()` over the first `n` values: each value once, in order of first appearance. */
  function Unique(xs: seq<string>, n: nat): seq<string>
    requires n <= |xs|
  {
    if n == 0 then []
    else Unique(xs, n - 1) + (if xs[n - 1] in xs[..n - 1] then [] else [xs[n - 1]])
  }

  lemma {:induction false} UniqueMembers(xs: seq<string>, n: nat)
    requires n <= |xs|
    ensures forall x :: x in Unique(xs, n) <==> x in xs[..n]
    ensures Distinct(Unique(xs, n))
  {
    if n > 0 {
      UniqueMembers(xs, n - 1);
      assert xs[..n] == xs[..n - 1] + [xs[n - 1]];
      if xs[n - 1] !in xs[..n - 1] {
        AppendDistinct(Unique(xs, n - 1), xs[n - 1]);
      }
    }
  }

  /** `df[(Date < d) & Category.isin([...]) & (Event == 'started')]['EpisodeID'].unique()` */
  function ActiveBefore(rows: seq<Row>, d: int): seq<string>
  {
    var ids := StartedIds(rows, d, |rows|);
    Unique(ids, |ids|)
  }

  /** Each started episode is listed once, and nothing else is listed. */
  lemma ActiveBeforeMembers(rows: seq<Row>, d: int, ep: string)
    ensures ep in ActiveBefore(rows, d) <==>
      exists k :: 0 <= k < |rows| && StartedBefore(rows[k], d) && rows[k].episodeId == ep
    ensures Distinct(ActiveBefore(rows, d))
  {
    var ids := StartedIds(rows, d, |rows|);
    UniqueMembers(ids, |ids|);
    assert ids[..|ids|] == ids;
    StartedIdsMembers(rows, d, |rows|, ep);
  }

  /** The episode has a `stopped` row dated no later than `d` (a missing id matches no row). */
  predicate StoppedBy(rows: seq<Row>, ep: string, d: int)
  {
    ep != "" && exists k :: 0 <= k < |rows| && rows[k].episodeId == ep && rows[k].event == "stopped" && rows[k].date <= d
  }

  /** `df[df['EpisodeID'] == ep].iloc[0]['Item']`: the item of the episode's first row, if it has one. */
  function FirstItem(rows: seq<Row>, ep: string): Option<string>
  {
    if ep == "" || rows == [] then None
    else if rows[0].episodeId == ep then Some(rows[0].item)
    else FirstItem(rows[1..], ep)
  }

  /** The item comes from the earliest row of the episode, and only an id without rows has none. */
  lemma {:induction false} FirstItemIsEarliest(rows: seq<Row>, ep: string)
    ensures FirstItem(rows, ep).Some? <==> ep != "" && exists k :: 0 <= k < |rows| && rows[k].episodeId == ep
    ensures FirstItem(rows, ep).Some? ==>
      exists k :: 0 <= k < |rows| && rows[k].episodeId == ep && rows[k].item == FirstItem(rows, ep).value &&
        forall j :: 0 <= j < k ==> rows[j].episodeId != ep
  {
    if ep != "" && rows != [] && rows[0].episodeId != ep {
      FirstItemIsEarliest(rows[1..], ep);
      assert forall k :: 1 <= k < |rows| ==> rows[k] == rows[1..][k - 1];
      var r := FirstItem(rows[1..], ep);
      if r.Some? {
        var k :| 0 <= k < |rows[1..]| && rows[1..][k].episodeId == ep && rows[1..][k].item == r.value &&
          forall j :: 0 <= j < k ==> rows[1..][j].episodeId != ep;
        assert rows[k + 1].episodeId == ep && rows[k + 1].item == r.value;
      }
    } else if ep != "" && rows != [] {
      assert rows[0].episodeId == ep;
    }
  }

  /** A same-item `started` row dated `d` (a missing item matches no row). */
  predicate ContinuedOn(rows: seq<Row>, d: int, item: string)
  {
    item != "" && exists k :: 0 <= k < |rows| && rows[k].date == d && rows[k].item == item && rows[k].event == "started"
  }

  /** The error for episode `ep` at update date `d`, if it was neither stopped nor continued. */
  predicate Unaccounted(rows: seq<Row>, d: int, ep: string)
  {
    FirstItem(rows, ep).Some? && !StoppedBy(rows, ep, d) && !ContinuedOn(rows, d, FirstItem(rows, ep).value)
  }

  /** The errors for the first `n` of the episodes `eps` active before `d`. */
  function EpisodeErrors(rows: seq<Row>, d: int, eps: seq<string>, n: nat): seq<ValidationError>
    requires n <= |eps|
  {
    if n == 0 then []
    else
      var ep := eps[n - 1];
      EpisodeErrors(rows, d, eps, n - 1) +
        (if Unaccounted(rows, d, ep) then [StackItemNotStopped(d, FirstItem(rows, ep).value, ep)] else [])
  }

  /**
   * The exceptions that escape the checks. The stack check fails with
   * `IndexError` when a started row without an episode id precedes an update
   * date: its episode has no rows, so `.iloc[0]` raises. `ParserError` is
   * what `pd.read_csv` raises on a file it cannot parse into rows. `KeyError`
   * is indexing a column the header lacks. `TypeError` is comparing a date
   * string with the NaN of an empty Date cell.
   */
  datatype Fault = IndexError | ParserError | KeyError(column: string) | TypeError

  /** The outcome of checking one update date. */
  function DateResult(rows: seq<Row>, d: int): Result<seq<ValidationError>, Fault>
  {
    var active := ActiveBefore(rows, d);
    if "" in active then Failure(IndexError) else Success(EpisodeErrors(rows, d, active, |active|))
  }

  /** The per-date outcomes of the first `n` update dates. */
  function DateResults(rows: seq<Row>, dates: seq<int>, n: nat): (rs: seq<Result<seq<ValidationError>, Fault>>)
    requires n <= |dates|
    ensures |rs| == n
  {
    if n == 0 then [] else DateResults(rows, dates, n - 1) + [DateResult(rows, dates[n - 1])]
  }

  /** The first fault among the outcomes, or all their errors in order. */
  function Combine(rs: seq<Result<seq<ValidationError>, Fault>>): Result<seq<ValidationError>, Fault>
  {
    if rs == [] then Success([])
    else
      var prev := Combine(rs[..|rs| - 1]);
      var here := rs[|rs| - 1];
      if prev.Failure? || here.Failure? then Failure(IndexError) else Success(prev.value + here.value)
  }

  /** What `validate_comprehensive_stack_updates` returns, or the fault it raises. */
  function StackResult(rows: seq<Row>, entries: seq<Entry>): Result<seq<ValidationError>, Fault>
  {
    var dates := ComprehensiveDates(entries, |entries|);
    Combine(DateResults(rows, dates, |dates|))
  }

  /** Once an outcome has faulted, so has every longer run of outcomes. */
  lemma {:induction false} FaultPersists(rs: seq<Result<seq<ValidationError>, Fault>>, more: seq<Result<seq<ValidationError>, Fault>>)
    requires Combine(rs).Failure?
    ensures Combine(rs + more) == Failure(IndexError)
    decreases |more|
  {
    if more != [] {
      var init := more[..|more| - 1];
      FaultPersists(rs, init);
      assert (rs + more)[..|rs + more| - 1] == rs + init;
    } else {
      assert rs + more == rs;
    }
  }

  /** The combined outcome faults exactly when one of the outcomes does, and otherwise joins their errors. */
  lemma {:induction false} CombineFaultIff(rs: seq<Result<seq<ValidationError>, Fault>>)
    ensures Combine(rs).Failure? <==> exists k :: 0 <= k < |rs| && rs[k].Failure?
  {
    if rs != [] {
      var init := rs[..|rs| - 1];
      CombineFaultIff(init);
      if exists k :: 0 <= k < |init| && init[k].Failure? {
        var k :| 0 <= k < |init| && init[k].Failure?;
        assert rs[k] == init[k];
      }
      if exists k :: 0 <= k < |rs| && rs[k].Failure? {
        var k :| 0 <= k < |rs| && rs[k].Failure?;
        if k < |init| {
          assert init[k] == rs[k];
        }
      }
    }
  }

  /** The dates of the entries whose text contains a stack phrase, in entry order. */
  method FindComprehensiveDates(entries: seq<Entry>) returns (dates: seq<int>)
    ensures dates == ComprehensiveDates(entries, |entries|)
  {
    dates := [];
    var k := 0;
    while k < |entries|
      invariant 0 <= k <= |entries|
      invariant dates == ComprehensiveDates(entries, k)
    {
      if ContainsAny(Lower(entries[k].content), StackKeywords) {
        dates := dates + [entries[k].date];
      }
      k := k + 1;
    }
  }

  /** Checks every episode active before update date `d`; raises when one has no id. */
  method CheckUpdateDate(rows: seq<Row>, d: int) returns (r: Result<seq<ValidationError>, Fault>)
    ensures r == DateResult(rows, d)
  {
    var active := ActiveBefore(rows, d);
    var errors: seq<ValidationError> := [];
    var e := 0;
    while e < |active|
      invariant 0 <= e <= |active|
      invariant "" !in active[..e]
      invariant errors == EpisodeErrors(rows, d, active, e)
    {
      var ep := active[e];
      if !StoppedBy(rows, ep, d) {
        var item := FirstItem(rows, ep);
        if item.None? {
          FirstItemIsEarliest(rows, ep);
          ActiveBeforeMembers(rows, d, ep);
          assert ep == "";
          return Failure(IndexError);
        }
        if !ContinuedOn(rows, d, item.value) {
          errors := errors + [StackItemNotStopped(d, item.value, ep)];
        }
      }
      assert active[..e + 1] == active[..e] + [ep];
      e := e + 1;
    }
    assert active[..|active|] == active;
    return Success(errors);
  }

  /** Looks for stack phrases in the entries and checks every episode active before each such date. */
  method ValidateComprehensiveStackUpdates(rows: seq<Row>, entries: seq<Entry>)
    returns (r: Result<seq<ValidationError>, Fault>)
    ensures r == StackResult(rows, entries)
  {
    var dates := FindComprehensiveDates(entries);
    var errors: seq<ValidationError> := [];
    var j := 0;
    while j < |dates|
      invariant 0 <= j <= |dates|
      invariant Combine(DateResults(rows, dates, j)) == Success(errors)
    {
      var checked := CheckUpdateDate(rows, dates[j]);
      CombineStep(rows, dates, j);
      if checked.Failure? {
        FaultIsFinal(rows, dates, j + 1);
        return Failure(IndexError);
      }
      errors := errors + checked.value;
      j := j + 1;
    }
    return Success(errors);
  }

  /** One more date: its outcome joins the combined outcome of the dates before it. */
  lemma CombineStep(rows: seq<Row>, dates: seq<int>, j: nat)
    requires j < |dates|
    ensures var prev := Combine(DateResults(rows, dates, j)); var here := DateResult(rows, dates[j]);
      Combine(DateResults(rows, dates, j + 1)) ==
        if prev.Failure? || here.Failure? then Failure(IndexError) else Success(prev.value + here.value)
  {
    var done := DateResults(rows, dates, j + 1);
    assert done[..j] == DateResults(rows, dates, j);
  }

  /** A fault among the first `n` dates is the outcome of all of them. */
  lemma FaultIsFinal(rows: seq<Row>, dates: seq<int>, n: nat)
    requires n <= |dates| && Combine(DateResults(rows, dates, n)).Failure?
    ensures Combine(DateResults(rows, dates, |dates|)) == Failure(IndexError)
  {
    var done := DateResults(rows, dates, n);
    var all := DateResults(rows, dates, |dates|);
    DateResultsPrefix(rows, dates, n, |dates|);
    FaultPersists(done, all[n..]);
    assert all == done + all[n..];
  }

  lemma {:induction false} DateResultsPrefix(rows: seq<Row>, dates: seq<int>, m: nat, n: nat)
    requires m <= n <= |dates|
    ensures DateResults(rows, dates, n)[..m] == DateResults(rows, dates, m)
    decreases n - m
  {
    if m < n {
      DateResultsPrefix(rows, dates, m, n - 1);
      assert DateResults(rows, dates, n)[..n - 1] == DateResults(rows, dates, n - 1);
    }
  }

  lemma {:induction false} DateResultsAt(rows: seq<Row>, dates: seq<int>, n: nat, k: nat)
    requires k < n <= |dates|
    ensures DateResults(rows, dates, n)[k] == DateResult(rows, dates[k])
  {
    if k < n - 1 {
      DateResultsAt(rows, dates, n - 1, k);
    }
  }

  /** For one update date: an error names an active episode that was neither stopped nor continued, and each such episode is named. */
  lemma {:induction false} EpisodeErrorsMembers(rows: seq<Row>, d: int, eps: seq<string>, n: nat, e: ValidationError)
    requires n <= |eps|
    ensures e in EpisodeErrors(rows, d, eps, n) <==>
      exists k :: 0 <= k < n && Unaccounted(rows, d, eps[k]) &&
        e == StackItemNotStopped(d, FirstItem(rows, eps[k]).value, eps[k])
  {
    if n > 0 {
      EpisodeErrorsMembers(rows, d, eps, n - 1, e);
    }
  }

  /** A successful combination holds exactly the errors of its outcomes. */
  lemma {:induction false} CombineMembers(rs: seq<Result<seq<ValidationError>, Fault>>, e: ValidationError)
    requires Combine(rs).Success?
    ensures forall k :: 0 <= k < |rs| ==> rs[k].Success?
    ensures e in Combine(rs).value <==> exists k :: 0 <= k < |rs| && e in rs[k].value
  {
    CombineFaultIff(rs);
    if rs != [] {
      var init := rs[..|rs| - 1];
      CombineMembers(init, e);
      if exists k :: 0 <= k < |init| && e in init[k].value {
        var k :| 0 <= k < |init| && e in init[k].value;
        assert rs[k] == init[k];
      }
      if exists k :: 0 <= k < |rs| && e in rs[k].value {
        var k :| 0 <= k < |rs| && e in rs[k].value;
        if k < |init| {
          assert init[k] == rs[k];
        }
      }
    }
  }

  /**
   * The stack check raises exactly when some comprehensive date has a
   * supplement or medication started before it in a row without an episode id.
   */
  lemma StackFaultIff(rows: seq<Row>, entries: seq<Entry>)
    ensures StackResult(rows, entries).Failure? <==>
      exists j :: 0 <= j < |entries| && IsComprehensive(entries[j]) && "" in ActiveBefore(rows, entries[j].date)
  {
    var dates := ComprehensiveDates(entries, |entries|);
    var rs := DateResults(rows, dates, |dates|);
    CombineFaultIff(rs);
    if exists k :: 0 <= k < |rs| && rs[k].Failure? {
      var k :| 0 <= k < |rs| && rs[k].Failure?;
      DateResultsAt(rows, dates, |dates|, k);
      assert dates[k] in dates;
      ComprehensiveDatesMembers(entries, |entries|, dates[k]);
    }
    if exists j :: 0 <= j < |entries| && IsComprehensive(entries[j]) && "" in ActiveBefore(rows, entries[j].date) {
      var j :| 0 <= j < |entries| && IsComprehensive(entries[j]) && "" in ActiveBefore(rows, entries[j].date);
      ComprehensiveDatesMembers(entries, |entries|, entries[j].date);
      var k :| 0 <= k < |dates| && dates[k] == entries[j].date;
      DateResultsAt(rows, dates, |dates|, k);
    }
  }

  /**
   * When the stack check returns, it reports episode `ep` at date `d` exactly
   * when `d` is the date of a comprehensive entry, `ep` was started before `d`,
   * and it has no `stopped` row dated by `d` and no same-item `started` row on `d`.
   */
  lemma StackErrorIff(rows: seq<Row>, entries: seq<Entry>, d: int, item: string, ep: string)
    requires StackResult(rows, entries).Success?
    ensures StackItemNotStopped(d, item, ep) in StackResult(rows, entries).value <==>
      (exists j :: 0 <= j < |entries| && IsComprehensive(entries[j]) && entries[j].date == d) &&
      (exists k :: 0 <= k < |rows| && StartedBefore(rows[k], d) && rows[k].episodeId == ep) &&
      Unaccounted(rows, d, ep) && item == FirstItem(rows, ep).value
  {
    ComprehensiveDatesMembers(entries, |entries|, d);
    ActiveBeforeMembers(rows, d, ep);
    var dates := ComprehensiveDates(entries, |entries|);
    if StackItemNotStopped(d, item, ep) in StackResult(rows, entries).value {
      StackErrorFound(rows, dates, d, item, ep);
    } else if d in dates && ep in ActiveBefore(rows, d) && Unaccounted(rows, d, ep) && item == FirstItem(rows, ep).value {
      StackErrorRaised(rows, dates, d, item, ep);
    }
  }

  /** A reported stack error names an update date, an episode live before it, unaccounted for, and its item. */
  lemma StackErrorFound(rows: seq<Row>, dates: seq<int>, d: int, item: string, ep: string)
    requires Combine(DateResults(rows, dates, |dates|)).Success?
    requires StackItemNotStopped(d, item, ep) in Combine(DateResults(rows, dates, |dates|)).value
    ensures d in dates && ep in ActiveBefore(rows, d)
    ensures Unaccounted(rows, d, ep) && item == FirstItem(rows, ep).value
  {
    var rs := DateResults(rows, dates, |dates|);
    var e := StackItemNotStopped(d, item, ep);
    CombineMembers(rs, e);
    var k :| 0 <= k < |rs| && e in rs[k].value;
    DateResultsAt(rows, dates, |dates|, k);
    var active := ActiveBefore(rows, dates[k]);
    EpisodeErrorsMembers(rows, dates[k], active, |active|, e);
    var i :| 0 <= i < |active| && Unaccounted(rows, dates[k], active[i]) &&
      e == StackItemNotStopped(dates[k], FirstItem(rows, active[i]).value, active[i]);
    assert dates[k] == d && active[i] == ep;
  }

  /** Every episode live before an update date and unaccounted for there is reported. */
  lemma StackErrorRaised(rows: seq<Row>, dates: seq<int>, d: int, item: string, ep: string)
    requires Combine(DateResults(rows, dates, |dates|)).Success?
    requires d in dates && ep in ActiveBefore(rows, d)
    requires Unaccounted(rows, d, ep) && item == FirstItem(rows, ep).value
    ensures StackItemNotStopped(d, item, ep) in Combine(DateResults(rows, dates, |dates|)).value
  {
    var rs := DateResults(rows, dates, |dates|);
    var e := StackItemNotStopped(d, item, ep);
    CombineMembers(rs, e);
    var k :| 0 <= k < |dates| && dates[k] == d;
    DateResultsAt(rows, dates, |dates|, k);
    var active := ActiveBefore(rows, d);
    var i :| 0 <= i < |active| && active[i] == ep;
    EpisodeErrorsMembers(rows, d, active, |active|, e);
    assert e in rs[k].value;
  }



  /** Entries without any stack phrase produce no stack errors. */
  lemma NoStackPhraseNoErrors(rows: seq<Row>, entries: seq<Entry>)
    requires forall j :: 0 <= j < |entries| ==> !IsComprehensive(entries[j])
    ensures StackResult(rows, entries) == Success([])
  {
    NoComprehensiveDates(entries, |entries|);
  }

  lemma {:induction false} NoComprehensiveDates(entries: seq<Entry>, n: nat)
    requires n <= |entries| && forall j :: 0 <= j < n ==> !IsComprehensive(entries[j])
    ensures ComprehensiveDates(entries, n) == []
  {
    if n > 0 {
      NoComprehensiveDates(entries, n - 1);
    }
  }

  // ---------------------------------------------------------------------------
  // Running every check
  // ---------------------------------------------------------------------------

  /** The results keyed by check, or the single `error` entry for a missing timeline. */
  datatype Report =
    | TimelineMissing
    | Checked(
        continuity: seq<ValidationError>,
        related: seq<ValidationError>,
        structure: seq<ValidationError>,
        chronological: seq<ValidationError>,
        stack: Option<seq<ValidationError>>)

  /** The rows' dates, in row order. */
  function Dates(rows: seq<Row>): (d: seq<int>)
    ensures |d| == |rows| && forall k :: 0 <= k < |rows| ==> d[k] == rows[k].date
  {
    if rows == [] then [] else [rows[0].date] + Dates(rows[1..])
  }

  /**
   * What `pd.read_csv` yields for the timeline: the header's column names,
   * the rows, and the positions of the rows whose Date cell is empty (NaN).
   * A row's other empty cells, and the cells of an absent column, are "".
   */
  datatype Frame = Frame(columns: set<string>, rows: seq<Row>, blankDates: set<nat>)

  /** Some row has an empty Date cell. */
  predicate SomeBlankDate(f: Frame)
  {
    exists k :: 0 <= k < |f.rows| && k in f.blankDates
  }

  /** Some row has a date. */
  predicate SomeDate(f: Frame)
  {
    exists k :: 0 <= k < |f.rows| && k !in f.blankDates
  }

  /**
   * `sorted(df['Date'].tolist())` must compare two cells: it raises
   * `TypeError` exactly when the list mixes date strings and NaN.
   */
  predicate MixedDates(f: Frame)
  {
    SomeBlankDate(f) && SomeDate(f)
  }

  /**
   * `run_all_validations`. The file is given both as its raw lines and as
   * what `pd.read_csv` parses from it, or `None` when `pd.read_csv` raises;
   * the first check to read the file, the episode check, then propagates the
   * `ParserError`. `entries` is present when an entries directory was given
   * and exists. Faults, in the order the checks meet them:
   *  - no EpisodeID column: `df['EpisodeID']` of the episode check;
   *  - no Date column: `row['Date']` of the related check, at a dangling
   *    reference, or else `df['Date']` of the order check;
   *  - dates mixed with empty Date cells: `sorted` in the order check;
   *  - every Date cell empty, so pandas reads the column as floats: the
   *    stack check's `df['Date'] < update_date`, once there is an update
   *    date; the order check finds the NaN list equal to its sorted copy;
   *  - the stack check's `IndexError`.
   */
  method RunAllValidations(timelineExists: bool, frame: Option<Frame>, lines: seq<string>, entries: Option<seq<Entry>>)
    returns (r: Result<Report, Fault>)
    ensures !timelineExists ==> r == Success(TimelineMissing)
    ensures timelineExists && frame.None? ==> r == Failure(ParserError)
    ensures timelineExists && frame.Some? && "EpisodeID" !in frame.value.columns ==>
      r == Failure(KeyError("EpisodeID"))
    ensures timelineExists && frame.Some? && "EpisodeID" in frame.value.columns && "Date" !in frame.value.columns ==>
      r == Failure(KeyError("Date"))
    ensures timelineExists && frame.Some? && {"EpisodeID", "Date"} <= frame.value.columns && MixedDates(frame.value) ==>
      r == Failure(TypeError)
    ensures timelineExists && frame.Some? && {"EpisodeID", "Date"} <= frame.value.columns && !MixedDates(frame.value) ==>
      var f := frame.value;
      var rows := f.rows;
      var chronological := if SomeBlankDate(f) then [] else OrderErrors(Dates(rows));
      var report := (stack: Option<seq<ValidationError>>) =>
        Checked(ContinuityErrors(rows), RelatedErrors(rows, |rows|), StructureErrors(lines), chronological, stack);
      (entries.None? ==> r == Success(report(None))) &&
      (entries.Some? && SomeBlankDate(f) && ComprehensiveDates(entries.value, |entries.value|) != [] ==>
        r == Failure(TypeError)) &&
      (entries.Some? && (!SomeBlankDate(f) || ComprehensiveDates(entries.value, |entries.value|) == []) ==>
        (StackResult(rows, entries.value).Failure? ==> r == Failure(IndexError)) &&
        (StackResult(rows, entries.value).Success? ==> r == Success(report(Some(StackResult(rows, entries.value).value)))))
  {
    if !timelineExists {
      return Success(TimelineMissing);
    }
    if frame.None? {
      return Failure(ParserError);
    }
    var f := frame.value;
    var rows := f.rows;
    if "EpisodeID" !in f.columns {
      return Failure(KeyError("EpisodeID"));
    }
    var continuity := ValidateEpisodeContinuity(rows);
    var related := ValidateRelatedEpisodes(rows);
    var structure := ValidateCsvStructure(lines);
    if "Date" !in f.columns {
      return Failure(KeyError("Date"));
    }
    if MixedDates(f) {
      return Failure(TypeError);
    }
    var chronological: seq<ValidationError> := [];
    if !SomeBlankDate(f) {
      chronological := ValidateChronologicalOrder(Dates(rows));
    }
    var stack: Option<seq<ValidationError>> := None;
    if entries.Some? {
      if SomeBlankDate(f) && ComprehensiveDates(entries.value, |entries.value|) != [] {
        return Failure(TypeError);
      }
      var checked := ValidateComprehensiveStackUpdates(rows, entries.value);
      if checked.Failure? {
        return Failure(checked.error);
      }
      stack := Some(checked.value);
    }
    return Success(Checked(continuity, related, structure, chronological, stack));
  }
}
