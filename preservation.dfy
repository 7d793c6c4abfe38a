/**
 * Data preservation review: a stratified sample of processed entries
 * (early, middle and recent), and the rules that compare an entry's raw,
 * processed and labs texts. The regular-expression extractors are
 * parameters; the rules applied to what they extract are modelled.
 */
module Preservation {
  import opened Wrappers
  import opened Strings
  import opened Seqs

  // ---------------------------------------------------------------------
  // The sorted listing of processed files
  // ---------------------------------------------------------------------

  predicate SortedNames(s: seq<string>)
  {
    forall i, j :: 0 <= i < j < |s| ==> LexLe(s[i], s[j])
  }

  /** Inserts `x` in front of the first name not smaller than it. */
  function InsertName(x: string, s: seq<string>): (r: seq<string>)
    ensures multiset(r) == multiset(s) + multiset{x}
  {
    if s == [] || LexLe(x, s[0]) then [x] + s
    else
      assert s == [s[0]] + s[1..];
      [s[0]] + InsertName(x, s[1..])
  }

  lemma ConsSortedNames(h: string, rest: seq<string>)
    requires SortedNames(rest) && forall b :: b in rest ==> LexLe(h, b)
    ensures SortedNames([h] + rest)
  {
    var r := [h] + rest;
    forall i, j | 0 <= i < j < |r| ensures LexLe(r[i], r[j]) {
      assert r[j] == rest[j - 1] && r[j] in rest;
      if i > 0 {
        assert r[i] == rest[i - 1];
      }
    }
  }

  lemma {:induction false} InsertNameSorted(x: string, s: seq<string>)
    requires SortedNames(s)
    ensures SortedNames(InsertName(x, s))
  {
    if s == [] {
    } else if LexLe(x, s[0]) {
      forall b | b in s ensures LexLe(x, b) {
        var j :| 0 <= j < |s| && s[j] == b;
        if j > 0 {
          LexLeTrans(x, s[0], b);
        }
      }
      ConsSortedNames(x, s);
    } else {
      var rest := InsertName(x, s[1..]);
      InsertNameSorted(x, s[1..]);
      LexLeTotal(x, s[0]);
      forall b | b in rest ensures LexLe(s[0], b) {
        assert b in multiset(rest);
        if b != x {
          assert b in multiset(s[1..]);
          var j :| 0 <= j < |s[1..]| && s[1..][j] == b;
          assert s[j + 1] == b;
        }
      }
      ConsSortedNames(s[0], rest);
    }
  }

  /** `sorted(...)` of the directory listing: the same names in ascending order. */
  function SortNames(s: seq<string>): (r: seq<string>)
    ensures multiset(r) == multiset(s)
    ensures SortedNames(r)
  {
    if s == [] then []
    else
      assert s == [s[0]] + s[1..];
      var sorted := SortNames(s[1..]);
      InsertNameSorted(s[0], sorted);
      InsertName(s[0], sorted)
  }

  // ---------------------------------------------------------------------
  // Stratified sampling
  // ---------------------------------------------------------------------

  /** A Python slice bound: a negative index counts from the end, and the result is clamped to the sequence. */
  function SliceBound(i: int, len: nat): (k: nat)
    ensures k <= len
    ensures 0 <= i <= len ==> k == i
    ensures -(len as int) <= i < 0 ==> k == i + len
  {
    if i < 0 then (if i + len < 0 then 0 else i + len)
    else if i > len then len
    else i
  }

  /** Python's `s[start:stop]`. */
  function Slice<T>(s: seq<T>, start: int, stop: int): seq<T>
  {
    var a := SliceBound(start, |s|);
    var b := SliceBound(stop, |s|);
    if a < b then s[a..b] else []
  }

  lemma SliceInside<T>(s: seq<T>, start: int, stop: int)
    requires 0 <= start <= stop <= |s|
    ensures Slice(s, start, stop) == s[start..stop]
  {
  }

  /** `s[-k:]` is the last `k` elements for `0 < k`, and all of `s` for `k == 0`. */
  lemma SliceFromEnd<T>(s: seq<T>, k: nat)
    requires k <= |s|
    ensures Slice(s, -(k as int), |s|) == if k == 0 then s else s[|s| - k..]
  {
  }

  /** The sizes of the strata and where the middle one starts. */
  datatype Strata = Strata(nEarly: nat, nMiddle: nat, nRecent: nat, middleStart: nat)

  /** The strata for `len` files and a smaller sample size. */
  function StrataOf(len: nat, sampleSize: nat): (p: Strata)
    requires len > sampleSize
    ensures p.nEarly + p.nMiddle + p.nRecent == sampleSize
    ensures p.middleStart + p.nMiddle <= len
    ensures len >= 2 * sampleSize ==> p.nEarly <= p.middleStart && p.middleStart + p.nMiddle + p.nRecent <= len
  {
    var nEarly := sampleSize / 3;
    var nMiddle := sampleSize / 3;
    Strata(nEarly, nMiddle, sampleSize - nEarly - nMiddle, len / 2 - nMiddle / 2)
  }

  /** `get_stratified_sample` as written: `files[-n_recent:]` is the whole listing when `n_recent` is 0. */
  function StratifiedSample<T>(files: seq<T>, sampleSize: nat): seq<T>
  {
    if |files| <= sampleSize then files
    else
      var p := StrataOf(|files|, sampleSize);
      Slice(files, 0, p.nEarly) + Slice(files, p.middleStart, p.middleStart + p.nMiddle) + Slice(files, -(p.nRecent as int), |files|)
  }

  /** The sample as intended: the recent stratum is the last `n_recent` files, none when `n_recent` is 0. */
  function StratifiedSampleFixed<T>(files: seq<T>, sampleSize: nat): seq<T>
  {
    if |files| <= sampleSize then files
    else
      var p := StrataOf(|files|, sampleSize);
      files[..p.nEarly] + files[p.middleStart..p.middleStart + p.nMiddle] + files[|files| - p.nRecent..]
  }

  /** The intended sample is what Python's slices take when the recent stratum starts at `len(files) - n_recent`. */
  lemma SampleSlices<T>(files: seq<T>, sampleSize: nat)
    requires |files| > sampleSize
    ensures var p := StrataOf(|files|, sampleSize);
      StratifiedSampleFixed(files, sampleSize) ==
        Slice(files, 0, p.nEarly) + Slice(files, p.middleStart, p.middleStart + p.nMiddle) + Slice(files, |files| - p.nRecent, |files|)
  {
    var p := StrataOf(|files|, sampleSize);
    SliceInside(files, 0, p.nEarly);
    SliceInside(files, p.middleStart, p.middleStart + p.nMiddle);
    SliceInside(files, |files| - p.nRecent, |files|);
  }

  lemma SliceWithin<T>(files: seq<T>, i: nat, j: nat)
    requires i <= j <= |files|
    ensures forall x :: x in files[i..j] ==> x in files
  {
    forall x | x in files[i..j] ensures x in files {
      var a :| 0 <= a < j - i && files[i..j][a] == x;
      assert files[i + a] == x;
    }
  }

  /** The sample has exactly `min(len(files), sample_size)` names, all of them from the listing. */
  lemma SampleSize<T>(files: seq<T>, sampleSize: nat)
    ensures |StratifiedSampleFixed(files, sampleSize)| == if |files| <= sampleSize then |files| else sampleSize
    ensures forall x :: x in StratifiedSampleFixed(files, sampleSize) ==> x in files
  {
    if |files| > sampleSize {
      var p := StrataOf(|files|, sampleSize);
      var recentStart := |files| - p.nRecent;
      SliceWithin(files, 0, p.nEarly);
      SliceWithin(files, p.middleStart, p.middleStart + p.nMiddle);
      SliceWithin(files, recentStart, |files|);
      assert files[..p.nEarly] == files[0..p.nEarly] && files[recentStart..] == files[recentStart..|files|];
    }
  }

  /** For every positive sample size the code as written takes exactly the intended sample. */
  lemma SampleAsWrittenAgrees<T>(files: seq<T>, sampleSize: nat)
    requires sampleSize >= 1
    ensures StratifiedSample(files, sampleSize) == StratifiedSampleFixed(files, sampleSize)
  {
    if |files| > sampleSize {
      var p := StrataOf(|files|, sampleSize);
      assert p.nRecent >= 1;
      SliceFromEnd(files, p.nRecent);
      SliceInside(files, 0, p.nEarly);
      SliceInside(files, p.middleStart, p.middleStart + p.nMiddle);
    }
  }

  /** With sample size 0 the code as written returns every file, not an empty sample. */
  lemma ZeroSampleTakesAll<T>(files: seq<T>)
    requires files != []
    ensures StratifiedSample(files, 0) == files
    ensures |StratifiedSample(files, 0)| != |StratifiedSampleFixed(files, 0)|
  {
    var p := StrataOf(|files|, 0);
    assert p.nEarly == 0 && p.nMiddle == 0 && p.nRecent == 0;
    SliceFromEnd(files, 0);
    assert Slice(files, 0, 0) == [] && Slice(files, p.middleStart, p.middleStart) == [];
  }

  /** With few more files than the sample size the middle and recent strata overlap. */
  lemma StrataCanOverlap()
    ensures StratifiedSampleFixed(["a", "b", "c", "d", "e", "f"], 5) == ["a", "d", "d", "e", "f"]
  {
    var files := ["a", "b", "c", "d", "e", "f"];
    assert StrataOf(6, 5) == Strata(1, 1, 3, 3);
    assert files[..1] == ["a"];
    assert files[3..4] == ["d"];
    assert files[3..] == ["d", "e", "f"];
  }

  /** Where element `k` of `files[..a] + files[b..c] + files[d..]` sits in `files`. */
  function SamplePosition(k: nat, a: nat, b: nat, c: nat, d: nat): nat
    requires b <= c
  {
    if k < a then k else if k < a + (c - b) then k - a + b else k - a - (c - b) + d
  }

  /** Slices of distinct names over ordered, disjoint index ranges give distinct names. */
  lemma OrderedSlicesDistinct<T>(files: seq<T>, a: nat, b: nat, c: nat, d: nat, r: seq<T>)
    requires Distinct(files) && a <= b <= c <= d <= |files|
    requires r == files[..a] + files[b..c] + files[d..]
    ensures Distinct(r)
  {
    forall k | 0 <= k < |r| ensures SamplePosition(k, a, b, c, d) < |files| && r[k] == files[SamplePosition(k, a, b, c, d)] {
      if k < a {
      } else if k < a + (c - b) {
        assert r[k] == files[b..c][k - a];
      } else {
        assert r[k] == files[d..][k - a - (c - b)];
      }
    }
    forall x, y | 0 <= x < y < |r| ensures r[x] != r[y] {
      assert SamplePosition(x, a, b, c, d) < SamplePosition(y, a, b, c, d);
    }
  }

  /** From twice the sample size on, the strata are disjoint, so distinct names give a distinct sample. */
  lemma SampleDistinct<T>(files: seq<T>, sampleSize: nat)
    requires Distinct(files) && |files| >= 2 * sampleSize
    ensures var r := StratifiedSampleFixed(files, sampleSize); Distinct(r)
  {
    if |files| > sampleSize {
      var p := StrataOf(|files|, sampleSize);
      var a, b, c, d := p.nEarly, p.middleStart, p.middleStart + p.nMiddle, |files| - p.nRecent;
      assert a <= b <= c <= d <= |files|;
      assert StratifiedSampleFixed(files, sampleSize) == files[..a] + files[b..c] + files[d..];
      OrderedSlicesDistinct(files, a, b, c, d, StratifiedSampleFixed(files, sampleSize));
    }
  }

  // ---------------------------------------------------------------------
  // Sample records
  // ---------------------------------------------------------------------

  /** One sampled entry: its date, and the raw and labs files when they exist. */
  datatype Sample = Sample(date: string, rawFile: Option<string>, processedFile: string, labsFile: Option<string>)

  /** Python's `str.rfind(c)`, `None` for -1. */
  function LastIndexOf(s: string, c: char): (r: Option<nat>)
    ensures r.Some? ==> r.value < |s| && s[r.value] == c && forall j :: r.value < j < |s| ==> s[j] != c
    ensures r.None? ==> c !in s
  {
    if s == [] then None
    else if s[|s| - 1] == c then Some(|s| - 1)
    else LastIndexOf(s[..|s| - 1], c)
  }

  /** `Path(name).stem`: the name without its last suffix; a leading or trailing dot is no suffix. */
  function Stem(name: string): string
  {
    match LastIndexOf(name, '.')
    case Some(i) => if 0 < i < |name| - 1 then name[..i] else name
    case None => name
  }

  /** `s.replace(pat, rep)`: every non-overlapping occurrence, left to right. */
  function ReplaceAll(s: string, pat: string, rep: string): string
    requires pat != []
    decreases |s|
  {
    if s == [] then []
    else if StartsWith(s, pat) then rep + ReplaceAll(s[|pat|..], pat, rep)
    else [s[0]] + ReplaceAll(s[1..], pat, rep)
  }

  /** The entry date of a processed file name. */
  function DateOf(name: string): string
  {
    ReplaceAll(Stem(name), ".processed", "")
  }

  /** The sample record of a processed file; `present` names the files that exist. */
  function SampleOf(name: string, present: set<string>): Sample
  {
    var date := DateOf(name);
    var raw := date + ".raw.md";
    var labs := date + ".labs.md";
    Sample(date, if raw in present then Some(raw) else None, name, if labs in present then Some(labs) else None)
  }

  /** Text without a dot has no occurrence of the pattern, which starts with one. */
  lemma {:induction false} ReplaceNoDot(d: string, rest: string)
    requires '.' !in d
    ensures ReplaceAll(d + rest, ".processed", "") == d + ReplaceAll(rest, ".processed", "")
  {
    if d != [] {
      assert (d + rest)[0] == d[0] && d[0] != '.';
      assert (d + rest)[1..] == d[1..] + rest;
      ReplaceNoDot(d[1..], rest);
    } else {
      assert d + rest == rest;
    }
  }

  /** The date of `<d>.processed.md` is `d` when `d` has no dot, as with `YYYY-MM-DD`. */
  lemma DateOfProcessedName(d: string)
    requires '.' !in d
    ensures DateOf(d + ".processed.md") == d
  {
    var name := d + ".processed.md";
    var i := |d| + 10;
    assert name[i] == '.' && forall j :: i < j < |name| ==> name[j] != '.';
    assert LastIndexOf(name, '.') == Some(i);
    assert Stem(name) == d + ".processed";
    ReplaceNoDot(d, ".processed");
    assert StartsWith(".processed", ".processed");
    assert ReplaceAll(".processed", ".processed", "") == "" + ReplaceAll([], ".processed", "");
  }

  /** The loop building one record per sampled file, in sample order. */
  method BuildSamples(sampleFiles: seq<string>, present: set<string>) returns (samples: seq<Sample>)
    ensures |samples| == |sampleFiles|
    ensures forall i :: 0 <= i < |sampleFiles| ==> samples[i] == SampleOf(sampleFiles[i], present)
  {
    samples := [];
    for k := 0 to |sampleFiles|
      invariant |samples| == k
      invariant forall i :: 0 <= i < k ==> samples[i] == SampleOf(sampleFiles[i], present)
    {
      var processedFile := sampleFiles[k];
      var date := ReplaceAll(Stem(processedFile), ".processed", "");
      var rawFile := date + ".raw.md";
      var labsFile := date + ".labs.md";
      samples := samples + [Sample(
        date,
        if rawFile in present then Some(rawFile) else None,
        processedFile,
        if labsFile in present then Some(labsFile) else None)];
    }
  }

  /**
   * The slicing of `get_stratified_sample`: every file, or the three strata,
   * the recent one taken from `len(files) - n_recent` (see `SampleSlices`).
   */
  method SampleFiles(processedFiles: seq<string>, sampleSize: nat) returns (sampleFiles: seq<string>)
    ensures sampleFiles == StratifiedSampleFixed(processedFiles, sampleSize)
  {
    if |processedFiles| <= sampleSize {
      sampleFiles := processedFiles;
    } else {
      var p := StrataOf(|processedFiles|, sampleSize);
      var early := processedFiles[..p.nEarly];
      var middle := processedFiles[p.middleStart..p.middleStart + p.nMiddle];
      var recent := processedFiles[|processedFiles| - p.nRecent..];
      sampleFiles := early + middle + recent;
    }
  }

  /**
   * `get_stratified_sample`: the listing of `*.processed.md` names, sorted,
   * sampled, and turned into records.
   */
  method GetStratifiedSample(listing: seq<string>, present: set<string>, sampleSize: nat) returns (samples: seq<Sample>)
    ensures |samples| == |StratifiedSampleFixed(SortNames(listing), sampleSize)|
    ensures forall i :: 0 <= i < |samples| ==>
      samples[i] == SampleOf(StratifiedSampleFixed(SortNames(listing), sampleSize)[i], present)
  {
    var processedFiles := SortNames(listing);
    var sampleFiles := SampleFiles(processedFiles, sampleSize);
    samples := BuildSamples(sampleFiles, present);
  }

  // ---------------------------------------------------------------------
  // Comparison rules
  // ---------------------------------------------------------------------

  /** The text extractors; the program uses regular expressions. */
  datatype Extractors = Extractors(
    numbers: string -> set<string>,
    medications: string -> seq<string>,
    dates: string -> seq<string>,
    doctors: string -> seq<string>)

  /** The texts of one entry; a missing file reads as the empty string. */
  datatype Texts = Texts(raw: string, processed: string, labs: string)

  /** The issue kinds, in the order they are checked. */
  datatype IssueType = NumericValue | MedicationDosage | LabValueDiscrepancy | DateTiming | ProviderInfo | ClinicalContext
  {
    function Severity(): string
    {
      match this
      case NumericValue => "critical"
      case MedicationDosage => "high"
      case LabValueDiscrepancy => "critical"
      case DateTiming => "medium"
      case ProviderInfo => "medium"
      case ClinicalContext => "high"
    }

    function Rank(): nat
    {
      match this
      case NumericValue => 0
      case MedicationDosage => 1
      case LabValueDiscrepancy => 2
      case DateTiming => 3
      case ProviderInfo => 4
      case ClinicalContext => 5
    }
  }

  /** One preservation issue; the message texts are not modelled. */
  datatype Issue = Issue(date: string, profile: string, issueType: IssueType)

  /** The content of an optional file, or the empty string when there is none or it does not exist. */
  function ReadOr(path: Option<string>, read: string -> Option<string>): string
  {
    if path.Some? && read(path.value).Some? then read(path.value).value else ""
  }

  /** The three texts of a sample; `read` returns `None` for a file that does not exist. */
  function ReadTexts(sample: Sample, read: string -> Option<string>): Texts
  {
    Texts(ReadOr(sample.rawFile, read), ReadOr(Some(sample.processedFile), read), ReadOr(sample.labsFile, read))
  }

  /** A four-character number starting with `20`, taken for a year. */
  predicate LooksLikeYear(n: string)
  {
    |n| == 4 && StartsWith(n, "20")
  }

  /** The numbers that are not taken for years. */
  function NotYears(numbers: set<string>): set<string>
  {
    set n | n in numbers && !LooksLikeYear(n)
  }

  /** Raw numbers found in neither the processed nor the labs text, years aside. */
  function SignificantMissing(t: Texts, ex: Extractors): set<string>
  {
    NotYears(ex.numbers(t.raw) - ex.numbers(t.processed) - ex.numbers(t.labs))
  }

  /** `set(names)` */
  function NameSet(names: seq<string>): set<string>
  {
    set d | d in names
  }

  /** Labs text with more than five distinct numbers, under 30% of which the processed text repeats. */
  predicate LabDiscrepancy(t: Texts, ex: Extractors)
  {
    var labs := ex.numbers(t.labs);
    t.labs != "" && |labs| > 5 && (|ex.numbers(t.processed) * labs| as real) < (|labs| as real) * 0.3
  }

  const UncertaintyMarkers: seq<string> := ["?", "possibly", "maybe", "uncertain", "unclear", "suspected"]

  /** Some uncertainty marker occurs in the lower-cased text. */
  predicate Uncertain(text: string)
  {
    ContainsAny(Lower(text), UncertaintyMarkers)
  }

  /** The rule that raises each kind of issue. */
  predicate Raised(k: IssueType, t: Texts, ex: Extractors)
  {
    match k
    case NumericValue => SignificantMissing(t, ex) != {}
    case MedicationDosage => |ex.medications(t.raw)| != |ex.medications(t.processed)| && |ex.medications(t.raw)| > 0
    case LabValueDiscrepancy => LabDiscrepancy(t, ex)
    case DateTiming => |ex.dates(t.raw)| != |ex.dates(t.processed)|
    case ProviderInfo => NameSet(ex.doctors(t.raw)) != NameSet(ex.doctors(t.processed))
    case ClinicalContext => Uncertain(t.raw) && !Uncertain(t.processed)
  }

  function KindAt(n: nat): (k: IssueType)
    requires n < 6
    ensures k.Rank() == n
  {
    if n == 0 then NumericValue
    else if n == 1 then MedicationDosage
    else if n == 2 then LabValueDiscrepancy
    else if n == 3 then DateTiming
    else if n == 4 then ProviderInfo
    else ClinicalContext
  }

  lemma KindAtRank(k: IssueType)
    ensures KindAt(k.Rank()) == k
  {
  }

  function Piece(date: string, profile: string, k: IssueType, t: Texts, ex: Extractors): seq<Issue>
  {
    if Raised(k, t, ex) then [Issue(date, profile, k)] else []
  }

  /** The issues of the first `n` checks, in check order. */
  function Upto(date: string, profile: string, t: Texts, ex: Extractors, n: nat): seq<Issue>
    requires n <= 6
  {
    if n == 0 then [] else Upto(date, profile, t, ex, n - 1) + Piece(date, profile, KindAt(n - 1), t, ex)
  }

  predicate HasKind(issues: seq<Issue>, k: IssueType)
  {
    exists i :: 0 <= i < |issues| && issues[i].issueType == k
  }

  /** Reads the three texts of a sample, each empty when its file is absent. */
  method ReadSample(sample: Sample, read: string -> Option<string>)
    returns (rawContent: string, processedContent: string, labsContent: string)
    ensures Texts(rawContent, processedContent, labsContent) == ReadTexts(sample, read)
  {
    rawContent := "";
    processedContent := "";
    labsContent := "";
    if sample.rawFile.Some? && read(sample.rawFile.value).Some? {
      rawContent := read(sample.rawFile.value).value;
    }
    if read(sample.processedFile).Some? {
      processedContent := read(sample.processedFile).value;
    }
    if sample.labsFile.Some? && read(sample.labsFile.value).Some? {
      labsContent := read(sample.labsFile.value).value;
    }
  }

  /** `check_preservation` on one sample. */
  method CheckPreservation(sample: Sample, profile: string, read: string -> Option<string>, ex: Extractors)
    returns (issues: seq<Issue>)
    ensures issues == Upto(sample.date, profile, ReadTexts(sample, read), ex, 6)
  {
    var rawContent, processedContent, labsContent := ReadSample(sample, read);
    var date := sample.date;
    issues := CheckValues(date, profile, rawContent, processedContent, labsContent, ex);
    issues := CheckContext(date, profile, rawContent, processedContent, labsContent, ex, issues);
  }

  /** The numeric, medication and lab checks. */
  method CheckValues(date: string, profile: string, rawContent: string, processedContent: string, labsContent: string, ex: Extractors)
    returns (issues: seq<Issue>)
    ensures issues == Upto(date, profile, Texts(rawContent, processedContent, labsContent), ex, 3)
  {
    ghost var t := Texts(rawContent, processedContent, labsContent);
    issues := [];

    ghost var before0 := issues;
    var rawNumbers := ex.numbers(rawContent);
    var processedNumbers := ex.numbers(processedContent);
    var labsNumbers := ex.numbers(labsContent);
    var missingNumbers := rawNumbers - processedNumbers - labsNumbers;
    if missingNumbers != {} && |missingNumbers| > 0 {
      var significantMissing := NotYears(missingNumbers);
      if significantMissing != {} {
        issues := issues + [Issue(date, profile, NumericValue)];
      }
    }
    UptoNext(date, profile, t, ex, 0, before0, issues);

    ghost var before1 := issues;
    var rawMeds := ex.medications(rawContent);
    var processedMeds := ex.medications(processedContent);
    if |rawMeds| != |processedMeds| && |rawMeds| > 0 {
      issues := issues + [Issue(date, profile, MedicationDosage)];
    }
    UptoNext(date, profile, t, ex, 1, before1, issues);

    ghost var before2 := issues;
    if labsContent != "" {
      var uniqueProcessed := processedNumbers;
      var uniqueLabs := labsNumbers;
      if |uniqueLabs| > 5 {
        var overlap := uniqueProcessed * uniqueLabs;
        if (|overlap| as real) < (|uniqueLabs| as real) * 0.3 {
          issues := issues + [Issue(date, profile, LabValueDiscrepancy)];
        }
      }
    }
    UptoNext(date, profile, t, ex, 2, before2, issues);
  }

  /** The date, provider and uncertainty checks, after the first three. */
  method CheckContext(date: string, profile: string, rawContent: string, processedContent: string, labsContent: string, ex: Extractors, found: seq<Issue>)
    returns (issues: seq<Issue>)
    requires found == Upto(date, profile, Texts(rawContent, processedContent, labsContent), ex, 3)
    ensures issues == Upto(date, profile, Texts(rawContent, processedContent, labsContent), ex, 6)
  {
    ghost var t := Texts(rawContent, processedContent, labsContent);
    issues := found;

    ghost var before3 := issues;
    var rawDates := ex.dates(rawContent);
    var processedDates := ex.dates(processedContent);
    if |rawDates| != |processedDates| {
      issues := issues + [Issue(date, profile, DateTiming)];
    }
    UptoNext(date, profile, t, ex, 3, before3, issues);

    ghost var before4 := issues;
    var rawDoctors := ex.doctors(rawContent);
    var processedDoctors := ex.doctors(processedContent);
    if NameSet(rawDoctors) != NameSet(processedDoctors) {
      issues := issues + [Issue(date, profile, ProviderInfo)];
    }
    UptoNext(date, profile, t, ex, 4, before4, issues);

    ghost var before5 := issues;
    var rawHasUncertainty := Uncertain(rawContent);
    var processedHasUncertainty := Uncertain(processedContent);
    if rawHasUncertainty && !processedHasUncertainty {
      issues := issues + [Issue(date, profile, ClinicalContext)];
    }
    UptoNext(date, profile, t, ex, 5, before5, issues);
  }

  lemma UptoNext(date: string, profile: string, t: Texts, ex: Extractors, n: nat, prev: seq<Issue>, next: seq<Issue>)
    requires n < 6 && prev == Upto(date, profile, t, ex, n)
    requires next == if Raised(KindAt(n), t, ex) then prev + [Issue(date, profile, KindAt(n))] else prev
    ensures next == Upto(date, profile, t, ex, n + 1)
  {
  }

  /** Every issue is about the sample, of a kind among the first `n` checks. */
  predicate AboutSample(r: seq<Issue>, date: string, profile: string, n: nat)
  {
    forall i :: 0 <= i < |r| ==> r[i].date == date && r[i].profile == profile && r[i].issueType.Rank() < n
  }

  /** The issues are in strictly increasing check order, so no kind repeats. */
  predicate InCheckOrder(r: seq<Issue>)
  {
    forall i, j :: 0 <= i < j < |r| ==> r[i].issueType.Rank() < r[j].issueType.Rank()
  }

  /** The first `n` checks report each kind at most once, in check order, all about the sample. */
  lemma {:induction false} UptoShape(date: string, profile: string, t: Texts, ex: Extractors, n: nat)
    requires n <= 6
    ensures AboutSample(Upto(date, profile, t, ex, n), date, profile, n)
    ensures InCheckOrder(Upto(date, profile, t, ex, n))
  {
    if n > 0 {
      UptoShape(date, profile, t, ex, n - 1);
      var prev: seq<Issue> := Upto(date, profile, t, ex, n - 1);
      var piece: seq<Issue> := Piece(date, profile, KindAt(n - 1), t, ex);
      var r := prev + piece;
      forall i | 0 <= i < |r| ensures r[i].date == date && r[i].profile == profile && r[i].issueType.Rank() < n {
        if i < |prev| {
          assert r[i] == prev[i];
        } else {
          assert r[i] == piece[i - |prev|];
        }
      }
      forall i, j | 0 <= i < j < |r| ensures r[i].issueType.Rank() < r[j].issueType.Rank() {
        assert r[i] == prev[i];
        if j < |prev| {
          assert r[j] == prev[j];
        } else {
          assert r[j] == piece[j - |prev|];
        }
      }
    }
  }

  /** The first `n` checks report a kind exactly when it is among them and its rule holds. */
  lemma {:induction false} UptoKinds(date: string, profile: string, t: Texts, ex: Extractors, n: nat, k: IssueType)
    requires n <= 6
    ensures HasKind(Upto(date, profile, t, ex, n), k) <==> k.Rank() < n && Raised(k, t, ex)
  {
    if n > 0 {
      UptoKinds(date, profile, t, ex, n - 1, k);
      var prev: seq<Issue> := Upto(date, profile, t, ex, n - 1);
      var piece: seq<Issue> := Piece(date, profile, KindAt(n - 1), t, ex);
      if HasKind(prev + piece, k) {
        var i :| 0 <= i < |prev + piece| && (prev + piece)[i].issueType == k;
        if i < |prev| {
          assert prev[i].issueType == k;
        } else {
          assert piece[i - |prev|].issueType == k;
        }
      }
      if k.Rank() < n - 1 && Raised(k, t, ex) {
        var i :| 0 <= i < |prev| && prev[i].issueType == k;
        assert (prev + piece)[i].issueType == k;
      }
      if k.Rank() == n - 1 && Raised(k, t, ex) {
        KindAtRank(k);
        assert (prev + piece)[|prev|].issueType == k;
      }
    }
  }

  /**
   * A sample's issues name each raised kind once, in check order, and each
   * carries the sample's date and the profile.
   */
  lemma IssuesMeaning(date: string, profile: string, t: Texts, ex: Extractors)
    ensures forall k: IssueType :: HasKind(Upto(date, profile, t, ex, 6), k) <==> Raised(k, t, ex)
    ensures InCheckOrder(Upto(date, profile, t, ex, 6))
    ensures forall i :: 0 <= i < |Upto(date, profile, t, ex, 6)| ==>
      Upto(date, profile, t, ex, 6)[i].date == date && Upto(date, profile, t, ex, 6)[i].profile == profile
  {
    UptoShape(date, profile, t, ex, 6);
    forall k: IssueType ensures HasKind(Upto(date, profile, t, ex, 6), k) <==> Raised(k, t, ex) {
      UptoKinds(date, profile, t, ex, 6, k);
    }
  }

  /** A numeric issue is raised exactly when some raw number that is not a year is in neither other text. */
  lemma NumericValueIff(t: Texts, ex: Extractors)
    ensures Raised(NumericValue, t, ex) <==>
      exists n :: n in ex.numbers(t.raw) && n !in ex.numbers(t.processed) && n !in ex.numbers(t.labs) && !LooksLikeYear(n)
  {
    if exists n :: n in ex.numbers(t.raw) && n !in ex.numbers(t.processed) && n !in ex.numbers(t.labs) && !LooksLikeYear(n) {
      var n :| n in ex.numbers(t.raw) && n !in ex.numbers(t.processed) && n !in ex.numbers(t.labs) && !LooksLikeYear(n);
      assert n in SignificantMissing(t, ex);
    }
  }

  /** In whole numbers: the processed text repeats fewer than three in ten of the distinct lab numbers. */
  lemma LabDiscrepancyIff(t: Texts, ex: Extractors)
    ensures Raised(LabValueDiscrepancy, t, ex) <==>
      t.labs != "" && |ex.numbers(t.labs)| > 5 &&
      10 * |ex.numbers(t.processed) * ex.numbers(t.labs)| < 3 * |ex.numbers(t.labs)|
  {
    var o := |ex.numbers(t.processed) * ex.numbers(t.labs)| as real;
    var l := |ex.numbers(t.labs)| as real;
    assert o < l * 0.3 <==> 10.0 * o < 3.0 * l;
  }

  /** Lost uncertainty: a marker in the lower-cased raw text and none in the processed text. */
  lemma ClinicalContextIff(t: Texts, ex: Extractors)
    ensures Raised(ClinicalContext, t, ex) <==>
      (exists k :: 0 <= k < |UncertaintyMarkers| && Contains(Lower(t.raw), UncertaintyMarkers[k])) &&
      forall k :: 0 <= k < |UncertaintyMarkers| ==> !Contains(Lower(t.processed), UncertaintyMarkers[k])
  {
  }

  /** Any question mark in the raw text with none in the processed text is a lost uncertainty. */
  lemma QuestionMarkLost(t: Texts, ex: Extractors, i: nat)
    requires i < |t.raw| && t.raw[i] == '?'
    requires !Uncertain(t.processed)
    ensures Raised(ClinicalContext, t, ex)
  {
    var low := Lower(t.raw);
    assert low[i] == LowerChar('?') == '?';
    assert low[i..i + 1] == UncertaintyMarkers[0];
    ContainsAt(low, UncertaintyMarkers[0], i);
  }
}
