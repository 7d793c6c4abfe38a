/**
 * The processing pipeline of the health-log processor: which dated sections
 * need (re)processing, the bounded process-and-validate retry loop that
 * caches a section's result under its content hash, the cached generation of
 * derived files, and the newest-first assembly of the final document.
 *
 * The output directory is a map from file name to content. The content hash
 * (`short_hash`), the section's date (`extract_date`) and the language-model
 * replies are parameters: the hash and the date as functions of the section,
 * each reply as a function of the call's position.
 */
module SectionCache {
  import opened Wrappers
  import opened Strings

  // ---------------------------------------------------------------------------
  // File names and the cache line
  // ---------------------------------------------------------------------------

  function RawName(date: string): string { date + ".raw.md" }
  function ProcessedName(date: string): string { date + ".processed.md" }
  function LabsName(date: string): string { date + ".labs.md" }

  const LabSectionHeader: string := "Lab test results:"

  const ProcessedSuffix: string := ".processed.md"

  /** A raw section file never has a processed file's name. */
  lemma RawIsNotProcessed(a: string, b: string)
    ensures RawName(a) != ProcessedName(b)
  {
    if |RawName(a)| == |ProcessedName(b)| {
      var i := |RawName(a)| - 7;
      assert RawName(a)[i] == '.';
      assert ProcessedName(b)[i] == 's';
    }
  }

  /** A labs file never has a processed file's name. */
  lemma LabsIsNotProcessed(a: string, b: string)
    ensures LabsName(a) != ProcessedName(b)
  {
    if |LabsName(a)| == |ProcessedName(b)| {
      var i := |LabsName(a)| - 8;
      assert LabsName(a)[i] == '.';
      assert ProcessedName(b)[i] == 'e';
    }
  }

  /** Lower-case hexadecimal digits, as `hexdigest()` yields. */
  predicate HexDigest(h: string)
  {
    forall c :: c in h ==> ('0' <= c <= '9') || ('a' <= c <= 'f')
  }

  /** `short_hash`: `digest[:8]` of the SHA-256 hex digest of the text (64 digits; the digest itself is a parameter). */
  function ShortHash(digest: string): (h: string)
    ensures |digest| >= 8 ==> |h| == 8
    ensures |digest| < 8 ==> h == digest
    ensures h <= digest
    ensures HexDigest(digest) ==> HexDigest(h)
  {
    var n := if |digest| < 8 then |digest| else 8;
    assert forall c :: c in digest[..n] ==> c in digest;
    digest[..n]
  }

  /** `content.splitlines()[0]`, or nothing when there is no line (an IndexError). */
  function FirstLine(content: string): Option<string>
  {
    var lines := SplitLines(content);
    if lines == [] then None else Some(lines[0])
  }

  /**
   * Whether a section dated `date` must be processed: its processed file is missing, or
   * that file's first line, stripped, is not the section's hash. `None` when
   * the processed file is empty, where the first line does not exist.
   */
  function Stale(files: map<string, string>, date: string, section: string, hash: string -> string): Option<bool>
  {
    var path := ProcessedName(date);
    if path !in files then Some(true)
    else match FirstLine(files[path])
      case None => None
      case Some(line) => Some(Strip(line) != hash(section))
  }

  /** What a successful processing of a section writes to its processed file. */
  function CacheEntry(digest: string, processed: string): string
  {
    digest + "\n" + processed
  }

  /**
   * The cache round trip: once a section's processed file holds its hash
   * line, the section is no longer stale.
   */
  lemma CacheRoundTrip(files: map<string, string>, date: string, section: string, hash: string -> string, processed: string)
    requires HexDigest(hash(section))
    ensures Stale(files[ProcessedName(date) := CacheEntry(hash(section), processed)], date, section, hash) == Some(false)
  {
    var h := hash(section);
    assert '\n' !in h;
    FirstLineSplit(h, processed);
    assert h == [] || (!IsSpace(h[0]) && !IsSpace(h[|h| - 1])) by {
      if h != [] {
        assert h[0] in h && h[|h| - 1] in h;
      }
    }
    StripNoSpace(h);
  }

  /**
   * With `short_hash` over a hex digest `sha`, a section whose processed file
   * holds its 8-digit hash line is not processed again.
   */
  lemma ShortHashRoundTrip(files: map<string, string>, date: string, section: string, sha: string -> string, processed: string)
    requires HexDigest(sha(section))
    ensures var hash := s => ShortHash(sha(s));
      Stale(files[ProcessedName(date) := CacheEntry(hash(section), processed)], date, section, hash) == Some(false)
  {
    var hash := s => ShortHash(sha(s));
    assert hash(section) == ShortHash(sha(section));
    CacheRoundTrip(files, date, section, hash, processed);
  }

  // ---------------------------------------------------------------------------
  // Scheduling
  // ---------------------------------------------------------------------------

  /**
   * Why the scheduling loop stops: `extract_date` finds no date in the
   * section's header, or the section's processed file is empty.
   */
  datatype Fault = NoDate(section: string) | EmptyProcessedFile(path: string)

  /** The directory and the schedule after the first `n` sections were visited. */
  datatype Scan = Scan(files: map<string, string>, result: Result<seq<string>, Fault>)

  /**
   * Whether a section must be processed, judged against `files`: `None` when
   * `extract_date` raises for it (`dateOf` gives `None`) or its processed file
   * is empty.
   */
  function StaleSection(files: map<string, string>, section: string, dateOf: string -> Option<string>, hash: string -> string): Option<bool>
  {
    match dateOf(section)
    case None => None
    case Some(date) => Stale(files, date, section, hash)
  }

  /**
   * The scheduling loop of `run`: each section's date is extracted and its
   * raw file written, then the section is queued when stale. A header without
   * a date or an empty processed file stops the run.
   */
  function Schedule(files: map<string, string>, sections: seq<string>, dateOf: string -> Option<string>, hash: string -> string, n: nat): Scan
    requires n <= |sections|
  {
    if n == 0 then Scan(files, Success([]))
    else
      var prev := Schedule(files, sections, dateOf, hash, n - 1);
      if prev.result.Failure? then prev
      else
        var section := sections[n - 1];
        match dateOf(section)
        case None => Scan(prev.files, Failure(NoDate(section)))
        case Some(date) =>
          var written := prev.files[RawName(date) := section];
          match Stale(written, date, section, hash)
          case None => Scan(written, Failure(EmptyProcessedFile(ProcessedName(date))))
          case Some(true) => Scan(written, Success(prev.result.value + [section]))
          case Some(false) => Scan(written, Success(prev.result.value))
  }

  /** Writing raw files leaves every processed file as it was. */
  lemma {:induction false} ScheduleKeepsProcessed(files: map<string, string>, sections: seq<string>, dateOf: string -> Option<string>, hash: string -> string, n: nat, d: string)
    requires n <= |sections|
    ensures var f := Schedule(files, sections, dateOf, hash, n).files;
      (ProcessedName(d) in f <==> ProcessedName(d) in files) &&
      (ProcessedName(d) in files ==> f[ProcessedName(d)] == files[ProcessedName(d)])
  {
    if n > 0 {
      ScheduleKeepsProcessed(files, sections, dateOf, hash, n - 1, d);
      if dateOf(sections[n - 1]).Some? {
        RawIsNotProcessed(dateOf(sections[n - 1]).value, d);
      }
    }
  }

  /** Staleness is judged against the directory as it was before the loop. */
  lemma StaleUnaffected(files: map<string, string>, sections: seq<string>, dateOf: string -> Option<string>, hash: string -> string,
                        n: nat, date: string, section: string, written: map<string, string>)
    requires n < |sections| && dateOf(sections[n]).Some?
    requires written == Schedule(files, sections, dateOf, hash, n).files[RawName(dateOf(sections[n]).value) := sections[n]]
    ensures Stale(written, date, section, hash) == Stale(files, date, section, hash)
  {
    ScheduleKeepsProcessed(files, sections, dateOf, hash, n, date);
    RawIsNotProcessed(dateOf(sections[n]).value, date);
  }

  /** Once the loop has stopped, the stop is final. */
  lemma {:induction false} ScheduleStops(files: map<string, string>, sections: seq<string>, dateOf: string -> Option<string>, hash: string -> string, n: nat, m: nat)
    requires n <= m <= |sections|
    requires Schedule(files, sections, dateOf, hash, n).result.Failure?
    ensures Schedule(files, sections, dateOf, hash, m) == Schedule(files, sections, dateOf, hash, n)
    decreases m - n
  {
    if n < m {
      ScheduleStops(files, sections, dateOf, hash, n, m - 1);
    }
  }

  /**
   * One more section: a header without a date stops the run with nothing
   * written; otherwise its raw file is written, then it stops the run, is
   * skipped as fresh, or is queued.
   */
  lemma ScheduleNext(files: map<string, string>, sections: seq<string>, dateOf: string -> Option<string>, hash: string -> string,
                     n: nat, queued: seq<string>)
    requires n < |sections|
    requires Schedule(files, sections, dateOf, hash, n).result == Success(queued)
    ensures var prev := Schedule(files, sections, dateOf, hash, n).files;
      Schedule(files, sections, dateOf, hash, n + 1) ==
        match dateOf(sections[n])
        case None => Scan(prev, Failure(NoDate(sections[n])))
        case Some(date) =>
          var written := prev[RawName(date) := sections[n]];
          var path := ProcessedName(date);
          if path in written && SplitLines(written[path]) == [] then Scan(written, Failure(EmptyProcessedFile(path)))
          else if path in written && Strip(SplitLines(written[path])[0]) == hash(sections[n]) then Scan(written, Success(queued))
          else Scan(written, Success(queued + [sections[n]]))
  {
  }

  /** The step of `Schedule` for one section, in terms of the directory before the loop. */
  lemma ScheduleStep(files: map<string, string>, sections: seq<string>, dateOf: string -> Option<string>, hash: string -> string, m: nat)
    requires m < |sections|
    requires Schedule(files, sections, dateOf, hash, m).result.Success?
    ensures var prev := Schedule(files, sections, dateOf, hash, m);
      var next := Schedule(files, sections, dateOf, hash, m + 1);
      match StaleSection(files, sections[m], dateOf, hash)
      case None => next.result == Failure(
        if dateOf(sections[m]).None? then NoDate(sections[m]) else EmptyProcessedFile(ProcessedName(dateOf(sections[m]).value)))
      case Some(true) => next.result == Success(prev.result.value + [sections[m]])
      case Some(false) => next.result == prev.result
  {
    var prev := Schedule(files, sections, dateOf, hash, m);
    var section := sections[m];
    if dateOf(section).Some? {
      var date := dateOf(section).value;
      StaleUnaffected(files, sections, dateOf, hash, m, date, section, prev.files[RawName(date) := section]);
    }
  }

  /**
   * The loop runs to the end exactly when every visited section has a date
   * and no empty processed file.
   */
  lemma {:induction false} ScheduleSucceeds(files: map<string, string>, sections: seq<string>, dateOf: string -> Option<string>, hash: string -> string, n: nat)
    requires n <= |sections|
    ensures Schedule(files, sections, dateOf, hash, n).result.Success? <==>
      forall i :: 0 <= i < n ==> StaleSection(files, sections[i], dateOf, hash).Some?
  {
    if n > 0 {
      var m := n - 1;
      ScheduleSucceeds(files, sections, dateOf, hash, m);
      if Schedule(files, sections, dateOf, hash, m).result.Success? {
        ScheduleStep(files, sections, dateOf, hash, m);
      }
      assert (forall i :: 0 <= i < n ==> StaleSection(files, sections[i], dateOf, hash).Some?) <==>
        (forall i :: 0 <= i < m ==> StaleSection(files, sections[i], dateOf, hash).Some?) && StaleSection(files, sections[m], dateOf, hash).Some?;
    }
  }

  /**
   * The first section without a date, or with an empty processed file,
   * decides the failure: `NoDate` for the former, `EmptyProcessedFile` of
   * its processed file for the latter.
   */
  lemma ScheduleFault(files: map<string, string>, sections: seq<string>, dateOf: string -> Option<string>, hash: string -> string, k: nat)
    requires k < |sections|
    requires forall i :: 0 <= i < k ==> StaleSection(files, sections[i], dateOf, hash).Some?
    requires StaleSection(files, sections[k], dateOf, hash).None?
    ensures Schedule(files, sections, dateOf, hash, |sections|).result == Failure(
      if dateOf(sections[k]).None? then NoDate(sections[k]) else EmptyProcessedFile(ProcessedName(dateOf(sections[k]).value)))
  {
    ScheduleSucceeds(files, sections, dateOf, hash, k);
    ScheduleStep(files, sections, dateOf, hash, k);
    ScheduleStops(files, sections, dateOf, hash, k + 1, |sections|);
  }

  /** A run that reaches the end queues exactly the stale sections. */
  lemma {:induction false} ScheduleQueues(files: map<string, string>, sections: seq<string>, dateOf: string -> Option<string>, hash: string -> string, n: nat, x: string)
    requires n <= |sections|
    requires Schedule(files, sections, dateOf, hash, n).result.Success?
    ensures x in Schedule(files, sections, dateOf, hash, n).result.value <==>
      x in sections[..n] && StaleSection(files, x, dateOf, hash) == Some(true)
  {
    if n > 0 {
      var m := n - 1;
      var prev := Schedule(files, sections, dateOf, hash, m);
      assert prev.result.Success?;
      ScheduleStep(files, sections, dateOf, hash, m);
      ScheduleQueues(files, sections, dateOf, hash, m, x);
      assert sections[..n] == sections[..m] + [sections[m]];
      ScheduleSucceeds(files, sections, dateOf, hash, n);
    }
  }

  /** `int(os.getenv("MAX_WORKERS", "4")) or 1`: unset means 4, and 0 means 1. */
  function MaxWorkers(configured: Option<int>): (w: int)
    ensures w != 0
    ensures configured == None ==> w == 4
    ensures configured == Some(0) ==> w == 1
    ensures configured.Some? && configured.value != 0 ==> w == configured.value
  {
    match configured
    case None => 4
    case Some(v) => if v == 0 then 1 else v
  }

  // ---------------------------------------------------------------------------
  // The retry loop
  // ---------------------------------------------------------------------------

  /** The first of the three attempts whose validation reply contains `$OK$`. */
  function FirstAccepted(validation: nat -> string): (a: Option<nat>)
    ensures a.Some? ==> 1 <= a.value <= 3 && Contains(validation(a.value), "$OK$")
    ensures a.Some? ==> forall b :: 1 <= b < a.value ==> !Contains(validation(b), "$OK$")
    ensures a.None? ==> forall b :: 1 <= b <= 3 ==> !Contains(validation(b), "$OK$")
  {
    if Contains(validation(1), "$OK$") then Some(1)
    else if Contains(validation(2), "$OK$") then Some(2)
    else if Contains(validation(3), "$OK$") then Some(3)
    else None
  }

  /** The files a successful attempt writes: the cache entry, then the labs file if any. */
  function Accepted(files: map<string, string>, date: string, digest: string, processed: string, labs: map<string, string>): map<string, string>
  {
    var cached := files[ProcessedName(date) := CacheEntry(digest, processed)];
    if date in labs then cached[LabsName(date) := LabSectionHeader + "\n" + labs[date] + "\n"] else cached
  }

  /** After an accepted attempt the section is up to date, labs file or not. */
  lemma AcceptedIsFresh(files: map<string, string>, date: string, section: string, hash: string -> string, processed: string, labs: map<string, string>)
    requires HexDigest(hash(section))
    ensures Stale(Accepted(files, date, hash(section), processed, labs), date, section, hash) == Some(false)
  {
    CacheRoundTrip(files, date, section, hash, processed);
    LabsIsNotProcessed(date, date);
  }

  // ---------------------------------------------------------------------------
  // Output assembly
  // ---------------------------------------------------------------------------

  /** `"\n".join(content.splitlines()[1:])`: a processed file without its hash line. */
  function Body(content: string): string
  {
    var lines := SplitLines(content);
    if lines == [] then "" else Join("\n", lines[1..])
  }

  /** The body of a cache entry is the processed text, less one trailing line feed. */
  lemma BodyOfCacheEntry(digest: string, processed: string)
    requires '\n' !in digest
    ensures Body(CacheEntry(digest, processed)) ==
      if processed != [] && processed[|processed| - 1] == '\n' then processed[..|processed| - 1] else processed
  {
    FirstLineSplit(digest, processed);
    assert SplitLines(CacheEntry(digest, processed))[1..] == SplitLines(processed);
    JoinLines(processed);
  }

  /** `processed_path.stem.split(".")[0]` */
  function DateOfName(name: string): string
  {
    Split(name, '.')[0]
  }

  /** Date-ordered newest first, by Python's string comparison. */
  predicate NewestFirst(items: seq<(string, string)>)
  {
    forall i, j :: 0 <= i < j < |items| ==> LexLe(items[j].0, items[i].0)
  }

  lemma NewestInFront(x: (string, string), items: seq<(string, string)>)
    requires NewestFirst(items)
    requires items == [] || LexLe(items[0].0, x.0)
    ensures NewestFirst([x] + items)
  {
    forall j | 0 <= j < |items| ensures LexLe(items[j].0, x.0) {
      if j > 0 { LexLeTrans(items[j].0, items[0].0, x.0); }
    }
  }

  lemma NewestBehindHead(x: (string, string), items: seq<(string, string)>, rest: seq<(string, string)>)
    requires items != [] && NewestFirst(items) && NewestFirst(rest)
    requires LexLe(x.0, items[0].0)
    requires forall b :: b in rest ==> b == x || b in items[1..]
    ensures NewestFirst([items[0]] + rest)
  {
    forall j | 0 <= j < |rest| ensures LexLe(rest[j].0, items[0].0) {
      if rest[j] != x {
        assert rest[j] in items[1..];
        var k :| 0 <= k < |items[1..]| && items[1..][k] == rest[j];
        assert items[k + 1] == rest[j];
      }
    }
  }

  function InsertNewestFirst(x: (string, string), items: seq<(string, string)>): (r: seq<(string, string)>)
    ensures multiset(r) == multiset(items) + multiset{x}
    ensures |r| == |items| + 1
    ensures NewestFirst(items) ==> NewestFirst(r)
    ensures forall b :: b in r ==> b == x || b in items
  {
    if items == [] || LexLe(items[0].0, x.0) then
      assert NewestFirst(items) ==> NewestFirst([x] + items) by {
        if NewestFirst(items) { NewestInFront(x, items); }
      }
      [x] + items
    else
      LexLeTotal(items[0].0, x.0);
      var rest := InsertNewestFirst(x, items[1..]);
      assert items == [items[0]] + items[1..];
      assert NewestFirst(items) ==> NewestFirst([items[0]] + rest) by {
        if NewestFirst(items) {
          assert NewestFirst(items[1..]);
          NewestBehindHead(x, items, rest);
        }
      }
      [items[0]] + rest
  }

  /** `sorted(items, key=lambda t: t[0], reverse=True)`: newest first, same items. */
  function SortNewestFirst(items: seq<(string, string)>): (r: seq<(string, string)>)
    ensures multiset(r) == multiset(items) && |r| == |items|
    ensures NewestFirst(r)
  {
    if items == [] then []
    else
      assert items == [items[0]] + items[1..];
      InsertNewestFirst(items[0], SortNewestFirst(items[1..]))
  }

  /** The chunk of one processed file: its body, then its labs file stripped, if any. */
  function Chunk(files: map<string, string>, name: string): string
    requires name in files
  {
    var body := Body(files[name]);
    var labs := LabsName(DateOfName(name));
    if labs in files then body + "\n" + Strip(files[labs]) else body
  }

  /** The (date, chunk) pairs of the processed files among `names`, in listing order. */
  function Items(files: map<string, string>, names: seq<string>): (items: seq<(string, string)>)
    requires forall n :: n in names ==> n in files
    ensures |items| <= |names|
    decreases |names|
  {
    if names == [] then []
    else
      var name := names[|names| - 1];
      Items(files, names[..|names| - 1]) +
      (if EndsWith(name, ProcessedSuffix) then [(DateOfName(name), Chunk(files, name))] else [])
  }

  /** `s.endswith(suffix)` */
  predicate EndsWith(s: string, suffix: string)
  {
    |suffix| <= |s| && s[|s| - |suffix|..] == suffix
  }

  /** `"\n\n".join(v for _d, v in ...)` */
  function Chunks(items: seq<(string, string)>): (r: seq<string>)
    ensures |r| == |items| && forall i :: 0 <= i < |r| ==> r[i] == items[i].1
  {
    seq(|items|, i requires 0 <= i < |items| => items[i].1)
  }

  /** `"\n\n".join(filter(None, [header_text, processed_text]))`: the non-empty parts, a blank line between them. */
  function SummaryInput(header: string, processedText: string): (r: string)
    ensures StartsWith(r, header) && EndsWith(r, processedText)
    ensures |r| == |header| + |processedText| + (if header != "" && processedText != "" then 2 else 0)
  {
    if header == "" then processedText
    else if processedText == "" then header
    else header + "\n\n" + processedText
  }

  // ---------------------------------------------------------------------------
  // The processor
  // ---------------------------------------------------------------------------

  /**
   * `HealthLogProcessor`, reduced to its output directory. `llmCalls`
   * counts the requests sent to the language model.
   */
  class Processor {
    var files: map<string, string>
    ghost var llmCalls: nat

    constructor(initial: map<string, string>)
      ensures files == initial && llmCalls == 0
    {
      files := initial;
      llmCalls := 0;
    }

    /** The scheduling loop at the start of `run`. */
    method ScheduleSections(sections: seq<string>, dateOf: string -> Option<string>, hash: string -> string)
      returns (r: Result<seq<string>, Fault>)
      modifies this
      ensures var scan := Schedule(old(files), sections, dateOf, hash, |sections|);
        r == scan.result && files == scan.files
      ensures llmCalls == old(llmCalls)
    {
      var toProcess: seq<string> := [];
      var i := 0;
      while i < |sections|
        invariant 0 <= i <= |sections|
        invariant Schedule(old(files), sections, dateOf, hash, i) == Scan(files, Success(toProcess))
        invariant llmCalls == old(llmCalls)
      {
        var section := sections[i];
        ScheduleNext(old(files), sections, dateOf, hash, i, toProcess);
        var extracted := dateOf(section);
        if extracted.None? {
          ScheduleStops(old(files), sections, dateOf, hash, i + 1, |sections|);
          return Failure(NoDate(section));
        }
        var date := extracted.value;
        files := files[RawName(date) := section];
        var processedPath := ProcessedName(date);
        if processedPath in files {
          var lines := SplitLines(files[processedPath]);
          if lines == [] {
            ScheduleStops(old(files), sections, dateOf, hash, i + 1, |sections|);
            return Failure(EmptyProcessedFile(processedPath));
          }
          if Strip(lines[0]) == hash(section) {
            i := i + 1;
            continue;
          }
        }
        toProcess := toProcess + [section];
        i := i + 1;
      }
      r := Success(toProcess);
    }

    /**
     * `_process_section`: up to three rounds of processing and validation;
     * the first reply containing `$OK$` has its processed text cached under
     * the section's hash. The replies are `process(a)` and `validation(a)`
     * for attempt `a`. `run` submits only queued sections, each of whose
     * dates `extract_date` found (`ScheduleQueues`).
     */
    method ProcessSection(section: string, dateOf: string -> Option<string>, hash: string -> string,
                          process: nat -> string, validation: nat -> string, labs: map<string, string>)
      returns (date: string, ok: bool)
      requires dateOf(section).Some?
      modifies this
      ensures date == dateOf(section).value
      ensures ok <==> FirstAccepted(validation).Some?
      ensures ok ==> var a := FirstAccepted(validation).value;
        files == Accepted(old(files), date, hash(section), process(a), labs) &&
        llmCalls == old(llmCalls) + 2 * a
      ensures !ok ==> files == old(files) && llmCalls == old(llmCalls) + 6
    {
      date := dateOf(section).value;
      var processedPath := ProcessedName(date);
      var rawDigest := hash(section);
      var attempt := 1;
      while attempt < 4
        invariant 1 <= attempt <= 4
        invariant forall b :: 1 <= b < attempt ==> !Contains(validation(b), "$OK$")
        invariant files == old(files) && llmCalls == old(llmCalls) + 2 * (attempt - 1)
      {
        var processed := process(attempt);
        var verdict := validation(attempt);
        llmCalls := llmCalls + 2;
        if Contains(verdict, "$OK$") {
          files := files[processedPath := CacheEntry(rawDigest, processed)];
          if date in labs {
            files := files[LabsName(date) := LabSectionHeader + "\n" + labs[date] + "\n"];
          }
          return date, true;
        }
        attempt := attempt + 1;
      }
      ok := false;
    }

    /**
     * `_generate_file`: an existing file is returned as it is, with no
     * request to the model; otherwise `calls` replies are requested, and the
     * single reply or the merge of all of them is written and returned.
     */
    method GenerateFile(filename: string, calls: nat, reply: nat -> string, merge: seq<string> -> string)
      returns (content: string)
      modifies this
      ensures filename in old(files) ==> content == old(files)[filename] && files == old(files) && llmCalls == old(llmCalls)
      ensures filename !in old(files) ==>
        var outputs := seq(calls, i requires 0 <= i => reply(i));
        content == (if calls == 1 then outputs[0] else merge(outputs)) &&
        files == old(files)[filename := content] &&
        llmCalls == old(llmCalls) + calls + (if calls == 1 then 0 else 1)
    {
      if filename in files {
        return files[filename];
      }
      var outputs: seq<string> := [];
      var i := 0;
      while i < calls
        invariant 0 <= i <= calls
        invariant outputs == seq(i, j requires 0 <= j => reply(j))
        invariant files == old(files) && llmCalls == old(llmCalls) + i
      {
        var out := reply(i);
        llmCalls := llmCalls + 1;
        outputs := outputs + [out];
        i := i + 1;
      }
      if calls == 1 {
        content := outputs[0];
      } else {
        content := merge(outputs);
        llmCalls := llmCalls + 1;
      }
      files := files[filename := content];
    }

    /**
     * `_assemble_output`: the processed files of the directory listing, each
     * without its hash line and followed by its labs, newest first, after
     * the summary. `summarize` is the summary model's reply to its user
     * message, the header and the processed text.
     */
    method AssembleOutput(header: string, listing: seq<string>, summarize: string -> string, merge: seq<string> -> string)
      returns (output: string)
      requires forall n :: n in listing ==> n in files
      modifies this
      ensures var items := Items(old(files), listing);
        var processedText := Join("\n\n", Chunks(SortNewestFirst(items)));
        var summary := if "summary.md" in old(files) then old(files)["summary.md"] else summarize(SummaryInput(header, processedText));
        output == summary + "\n\n" + processedText &&
        files == old(files)["summary.md" := summary]
    {
      var items: seq<(string, string)> := [];
      var i := 0;
      while i < |listing|
        invariant 0 <= i <= |listing|
        invariant items == Items(files, listing[..i])
      {
        var name := listing[i];
        assert listing[..i + 1][..i] == listing[..i];
        if EndsWith(name, ProcessedSuffix) {
          var date := DateOfName(name);
          var body := Body(files[name]);
          var chunk := body;
          if LabsName(date) in files {
            chunk := body + "\n" + Strip(files[LabsName(date)]);
          }
          items := items + [(date, chunk)];
        }
        i := i + 1;
      }
      assert listing[..|listing|] == listing;
      var sorted := SortNewestFirst(items);
      var processedText := Join("\n\n", Chunks(sorted));
      var input := SummaryInput(header, processedText);
      var summary := GenerateFile("summary.md", 1, _ => summarize(input), merge);
      output := summary + "\n\n" + processedText;
    }
  }

  /** The assembled chunks are the listed processed files, newest first. */
  lemma {:induction false} ItemsAreProcessedFiles(files: map<string, string>, names: seq<string>)
    requires forall n :: n in names ==> n in files
    ensures forall it :: it in Items(files, names) <==>
      exists n :: n in names && EndsWith(n, ProcessedSuffix) && it == (DateOfName(n), Chunk(files, n))
    decreases |names|
  {
    if names != [] {
      var front := names[..|names| - 1];
      assert forall n :: n in front ==> n in names;
      assert forall n :: n in names ==> n in front || n == names[|names| - 1];
      ItemsAreProcessedFiles(files, front);
    }
  }
}
