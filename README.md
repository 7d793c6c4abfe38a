# parsehealthlog in Dafny

A model of the deterministic bookkeeping in parsehealthlog, a tool that turns a free-form health log into dated, processed entries and one timeline of health episodes (conditions, symptoms, medications, supplements, experiments, provider visits, to-dos). The model covers the parts of the tool that do not depend on the language model, and proves properties of each:

- `timeline_validator.dfy` (`TimelineValidator`) models the five integrity checks of `validate_timeline.py` over already parsed timeline rows, and the driver that runs them. The checks are episode numbering (gaps and duplicates), dangling related-episode references, the CSV layout, the first chronological inversion, and "comprehensive stack update" consistency.
- `entity_registry.dfy` (`EntityRegistry`) models the entity registry of `entity_registry.py` as a class `Registry`. It covers the per-category state machine, sequential `ent-NNN` ids, the name index, `apply_event` with all its branches, the implicit stops of `process_stack_update`, the active-entity query and the `to_dict`/`from_dict` round trip. Entities are values stored under their id, and a method that changes an entity writes the new value back under the same key.
- `section_cache.dfy` (`SectionCache`) models the processing pipeline of `main.py` over an output directory held as a map from file name to content:
  - the staleness schedule (a section is skipped when its processed file's first line is its content hash);
  - the bounded three-round process-and-validate loop that writes the hash line;
  - the cached generation of derived files;
  - the worker-count default;
  - the newest-first assembly of the final document.
- The quality-review scripts:
  - `validation_compliance.dfy` (`ValidationCompliance`): phase 1 issue bucketing, the compliance score and the summary verdict.
  - `preservation.dfy` (`Preservation`): the phase 2 stratified sample and the six comparison rules of `check_preservation`.
  - `link_analysis.dfy` (`LinkAnalysis`): phase 3 link statistics.
  - `categorization.dfy` (`Categorization`): the phase 4 categorization checks.
  - `episode_continuity.dfy` (`EpisodeContinuity`): the phase 7 continuity analysis.
  - `issue_reports.dfy` (`IssueReports`): issue collection, prioritisation and severity counts of `generate_reports.py`.
- `wrappers.dfy`, `seqs.dfy`, `strings.dfy`, `decimal.dfy` and `sorting.dfy` model the Python built-ins these rely on: `Option`, distinctness, `lower`/`strip`/`split`/`join`/`splitlines`/`in`, `str`/`int`/`f"{n:03d}"`, and `sorted`.

Modelling conventions:

- Dates are integer day keys, which order like ISO `YYYY-MM-DD` strings do. A missing cell (pandas NaN) is the empty string.
- Errors and issues are datatypes carrying the values their messages name, not formatted text.
- Content hashing, date extraction, language-model replies, file reads and the phase 2 text extractors are function parameters.
- Float percentages are exact: integer numerators and denominators, or Dafny `real`s.
- Operations that loop or update state are methods, verified against the functions that specify them. The lemmas beside them state what those functions mean.

Behaviour of the code that the model follows:

- Comprehensive stack updates are recognised by phrases in the entry text (`validate_timeline.py:118-130`). No marker in the entry is consulted.
- Any repeated episode number is a duplicate, even when both rows name the same item (`validate_timeline.py:33-36`).
- The processed-file hash is the first 8 hexadecimal digits of the SHA-256 digest (`main.py:107-108`), and the model takes that prefix (`SectionCache.ShortHash`). `tests/test_main.py:119-121` expects 12 characters instead. The cache round trip holds for any hash of hexadecimal digits.
- `validate_csv_structure` numbers its column errors by csv record, counting from 2 after the header (`validate_timeline.py:81-83`), not by line of the file. Comment lines and records that continue a quoted field over several lines shift the number reported.

## Model

| member | source | states |
|---|---|---|
| TimelineValidator.EpisodeNumber | validate_timeline.py:18-20 | an id yields a number exactly when it starts with `ep-` followed by a digit, and the number is never negative |
| TimelineValidator.EpisodeNumberOfId | validate_timeline.py:18-20 | the id `ep-NNN` the validator prints is read back as its own number `n` |
| TimelineValidator.EpisodeNumbersMembers | validate_timeline.py:16-20 | a number is collected exactly when some row's id parses to it |
| TimelineValidator.GapErrorsMembers | validate_timeline.py:24-30 | a gap error names two adjacent sorted numbers more than one apart, and every such pair gets one |
| TimelineValidator.GapErrorsIncrease | validate_timeline.py:24-30 | over sorted numbers the gap errors come in strictly increasing order of their start and end no later than the largest number |
| TimelineValidator.RepeatedMembers | validate_timeline.py:32-34 | a number is listed as a duplicate exactly when it occurs more than once |
| TimelineValidator.RepeatedDistinct | validate_timeline.py:32-34 | no duplicate number is listed twice |
| TimelineValidator.ValidateEpisodeContinuity | validate_timeline.py:10-38 | extracting, sorting and scanning the numbers returns the gap errors of the sorted list followed by at most one duplicate error |
| TimelineValidator.CollectEpisodeNumbers | validate_timeline.py:16-20 | the extraction loop collects the parsed numbers in row order |
| TimelineValidator.ScanGaps | validate_timeline.py:24-30 | the gap loop reports each step of more than one between neighbours |
| TimelineValidator.DuplicateErrorOfSorted | validate_timeline.py:24-36 | over a sorted list every error before the last is a gap, and the last one is a duplicate error exactly when a value repeats, listing exactly the repeated values |
| TimelineValidator.DuplicateErrorIff | validate_timeline.py:10-38 | a duplicate error is raised once, and last, exactly when some episode number is used twice, and it lists exactly the numbers used more than once |
| TimelineValidator.NoGapsInRun | validate_timeline.py:24-30 | a run of consecutive numbers has no gaps |
| TimelineValidator.NoRepeatsWhenStrict | validate_timeline.py:32-34 | a strictly increasing list has no duplicates |
| TimelineValidator.ConsecutiveEpisodesValid | validate_timeline.py:10-38 | ids numbered `1..n`, each used once and in any row order, give no continuity error |
| TimelineValidator.ValidateRelatedEpisodes | validate_timeline.py:41-59 | the reference loop returns, in row order, one error per row whose non-blank reference is not a row id, naming line `k + 2` |
| TimelineValidator.RelatedErrorsMembers | validate_timeline.py:50-57 | an error names a line exactly when that row has a dangling non-blank reference |
| TimelineValidator.RelatedErrorsIncrease | validate_timeline.py:50-57 | every error is a dangling-reference error, its lines lie in `[2, n + 2)` and strictly increase, so no row is reported twice |
| TimelineValidator.BlankReferenceNoError | validate_timeline.py:52 | a blank or missing reference never produces an error |
| TimelineValidator.RecordsBounds | validate_timeline.py:78-79 | every line takes part in some csv record, so there are at most as many records as lines, and at least one when there is a line, which `next(reader)` takes as the header |
| TimelineValidator.SingleLineRecords | validate_timeline.py:78-83 | when no line leaves a quoted field open, record `k` is line `k` read on its own |
| TimelineValidator.QuoteFreeStaysClosed | validate_timeline.py:78-83 | a line without quote characters never leaves a quoted field open |
| TimelineValidator.PlainFieldCount | validate_timeline.py:78-83 | the `csv` reader reads a non-empty line without quotes as as many fields as its comma-separated parts |
| TimelineValidator.BlankLineNoFields | validate_timeline.py:78-83 | the reader reads a blank line as an empty record |
| TimelineValidator.QuotedRun | validate_timeline.py:78-83 | inside quotes no character ends the field before the closing quote, line breaks and commas included |
| TimelineValidator.QuotedFieldIsOneField | validate_timeline.py:78-83 | a quoted field followed by a comma counts as one field, whatever commas it holds |
| TimelineValidator.OpenQuote | validate_timeline.py:78-83 | a quoted field still open at the end of a line completes no field there and stays open |
| TimelineValidator.PlainThenComma | validate_timeline.py:78-83 | unquoted text before a comma completes one field per comma-separated part |
| TimelineValidator.OpeningLine | validate_timeline.py:78-83 | a line of plain fields that ends by opening a quoted field completes its plain fields and leaves the quote open |
| TimelineValidator.ClosingLine | validate_timeline.py:78-83 | a line that closes the open quoted field completes that field and ends the record |
| TimelineValidator.MultiLineDetails | validate_timeline.py:78-83 | a row of six plain fields whose quoted details run over two lines is one record of 7 fields, so neither line gets a column error |
| TimelineValidator.KeptMembers | validate_timeline.py:66-67 | a line survives the comment filter exactly when it does not start with `#` |
| TimelineValidator.ValidateCsvStructure | validate_timeline.py:62-85 | dropping the comments, checking the first remaining line for the header and counting the fields of every csv record after the header, records over several lines included, gives the structure errors |
| TimelineValidator.DropComments | validate_timeline.py:66-67 | the comment filter keeps the other lines in order |
| TimelineValidator.CheckRecords | validate_timeline.py:79-83 | after the header record, the loop appends one column error per record whose field count is not 7, numbering the records from 2 |
| TimelineValidator.CountErrorsMembers | validate_timeline.py:81-83 | a column error names record `k` (reported as line `k + 1`) exactly when that record does not have 7 fields, and carries its count |
| TimelineValidator.CountErrorsIncrease | validate_timeline.py:81-83 | the column errors are numbered within `[2, records + 1)` in strictly increasing order |
| TimelineValidator.StructureErrorsProperties | validate_timeline.py:62-85 | an all-comment file gives exactly the empty-timeline error; otherwise the header error appears exactly when the first line does not start with `Date,`, and the rest are column errors in record order |
| TimelineValidator.NonDecreasingAscending | validate_timeline.py:93-96 | dates that never decrease are already sorted, so they equal their sorted copy |
| TimelineValidator.OrderErrorsIff | validate_timeline.py:88-106 | there is no error exactly when the dates never decrease; otherwise there is exactly one, for the first position whose date is later than the next |
| TimelineValidator.ValidateChronologicalOrder | validate_timeline.py:88-106 | comparing with the sorted copy and scanning for the first inversion returns those order errors |
| TimelineValidator.ComprehensiveDatesMembers | validate_timeline.py:125-130 | a date is an update date exactly when some entry of that date contains a stack phrase in its lower-cased text |
| TimelineValidator.StartedIdsMembers | validate_timeline.py:134-138 | an id is collected exactly when it is on a supplement or medication `started` row dated before the update |
| TimelineValidator.UniqueMembers | validate_timeline.py:138 | `unique()` keeps each value once, and only values that occur |
| TimelineValidator.ActiveBeforeMembers | validate_timeline.py:134-138 | the episodes active before a date are exactly those started before it, each listed once |
| TimelineValidator.FirstItemIsEarliest | validate_timeline.py:142-157 | an episode has an item exactly when it has a row, and the item is that of its earliest row |
| TimelineValidator.FaultPersists | validate_timeline.py:141-161 | once one update date raises, the whole check raises |
| TimelineValidator.CombineFaultIff | validate_timeline.py:132-163 | the check raises exactly when one of its update dates does |
| TimelineValidator.FindComprehensiveDates | validate_timeline.py:125-130 | the entry loop collects the dates of the entries that contain a stack phrase, in entry order |
| TimelineValidator.CheckUpdateDate | validate_timeline.py:133-161 | checking one update date reports each active episode neither stopped nor continued, or raises `IndexError` for an episode without rows |
| TimelineValidator.ValidateComprehensiveStackUpdates | validate_timeline.py:109-163 | the two loops together give the stack check's result or its fault |
| TimelineValidator.EpisodeErrorsMembers | validate_timeline.py:141-161 | for one update date an error names an active episode that was neither stopped nor continued, and each such episode is named |
| TimelineValidator.CombineMembers | validate_timeline.py:132-163 | a successful check holds exactly the errors of its update dates |
| TimelineValidator.StackFaultIff | validate_timeline.py:134-157 | the check raises exactly when some update date has a supplement or medication started before it in a row without an episode id |
| TimelineValidator.StackErrorIff | validate_timeline.py:109-163 | when the check returns, it reports episode `ep` at date `d` exactly when `d` is an update date, `ep` was started before `d`, has no `stopped` row by `d` and no same-item `started` row on `d`, and the item is its first row's |
| TimelineValidator.StackErrorFound | validate_timeline.py:132-161 | every reported stack error names an update date, an episode started before it, unaccounted for there, and its first item |
| TimelineValidator.StackErrorRaised | validate_timeline.py:132-161 | every episode started before an update date and unaccounted for there is reported |
| TimelineValidator.NoStackPhraseNoErrors | validate_timeline.py:118-130 | entries without any stack phrase give no stack errors and no fault |
| TimelineValidator.RunAllValidations | validate_timeline.py:13-191 | a missing timeline gives only the not-found result; a timeline `pd.read_csv` cannot parse raises `ParserError` from the first check; a header without `EpisodeID`, then one without `Date`, raises `KeyError` for that column (lines 17, 47, 55, 93); dates mixed with empty Date cells make `sorted` raise `TypeError` (line 94), as does the stack check's date comparison when every Date cell is empty and there is an update date (line 135); otherwise the four checks' results, the order check finding nothing for an all-empty Date column, plus the stack check's when entries are given, whose `IndexError` propagates |
| EntityRegistry.TerminalStatesClosed | entity_registry.py:27-74 | in every category a terminal state admits no event, except that a resolved condition may flare |
| EntityRegistry.TerminalOnlyAfterTerminalEvent | entity_registry.py:27-77 | an event that leads into a terminal state is the category's own closing event (`resolved`, `stopped`, `ended` or `completed`) |
| EntityRegistry.IdInjective | entity_registry.py:152-156 | distinct counter values give distinct `ent-NNN` ids |
| EntityRegistry.IdsBelowDistinct | entity_registry.py:152-156 | the ids issued so far never repeat |
| EntityRegistry.IdNotBelow | entity_registry.py:152-156 | the id the counter issues next has not been issued before |
| EntityRegistry.CollapseSpacesFixed | entity_registry.py:147-148 | collapsing whitespace changes nothing in text whose whitespace is already single spaces |
| EntityRegistry.Normalize | entity_registry.py:119-150 | a normalised name has no upper-case letter and no apostrophe, its only whitespace is single spaces, and it has no leading or trailing space |
| EntityRegistry.NormalizeIdempotent | entity_registry.py:119-150 | normalising a normalised name changes nothing, so index keys are stable |
| EntityRegistry.SequentialIdsGapFree | entity_registry.py:111-117 | a registry built through its own operations holds the keys `ent-001`, `ent-002`, … without gap or repeat, one fewer than the counter, and the next id is not yet a key |
| EntityRegistry.Find | entity_registry.py:158-184 | the result is the most recently indexed entity under the normalised name with the type, live unless terminals are included, and nothing exactly when no indexed entity matches |
| EntityRegistry.Create | entity_registry.py:341-368 | creating issues the next id, stores the new entity under it in its initial state, appends the id to the name's index entry and changes no other entity or index entry |
| EntityRegistry.CreateSequential | entity_registry.py:341-368 | creating keeps the registry's keys sequential |
| EntityRegistry.LinkOf | entity_registry.py:224-233 | an absent condition gives no link and no warning; otherwise the id of the condition found by name, including terminal ones, or the condition-not-found warning |
| EntityRegistry.Apply | entity_registry.py:194-339 | on every path one history event is appended for the entity returned, an existing entity is updated in place or a fresh id is issued, and every other entity is left as it was |
| EntityRegistry.ProviderAndTodoAlwaysCreate | entity_registry.py:235-243 | provider visits and to-dos always create a new entity, whatever the event |
| EntityRegistry.ValidTransitionAdvances | entity_registry.py:248-263 | a transition the state machine allows moves the live entity to the event's state, dated and renamed by the event |
| EntityRegistry.InvalidTransitionKeepsEntity | entity_registry.py:289-299 | an event that is neither a valid transition nor an initial event leaves the live entity unchanged, records the event and adds one transition warning |
| EntityRegistry.InitialEventOnLiveEntity | entity_registry.py:264-288 | an initial event on a live entity never creates a duplicate: a renamed entity whose state admits `adjusted` is adjusted; otherwise its state is kept |
| EntityRegistry.NonInitialWithoutLiveEntity | entity_registry.py:300-339 | with no live match, a non-initial event reopens a terminal entity whose state admits it; otherwise a new entity is created with a warning |
| EntityRegistry.StopEvent | entity_registry.py:422 | an implicit stop is always a terminal event |
| EntityRegistry.StackUpdateEffect | entity_registry.py:391-438 | after a stack update the keys are the same; terminal, unlisted and mentioned entities are untouched; each stopped entity is terminal as of the date with nothing else changed; and no live, unmentioned entity of a listed category is left |
| EntityRegistry.StackEvents | entity_registry.py:426-436 | every implicit-stop event is dated by the update, carries its category's stop event and the stack-update note |
| EntityRegistry.StackEventsExact | entity_registry.py:410-436 | the events appended are exactly the stop records of the entities that should stop, in key order |
| EntityRegistry.ActiveMembers | entity_registry.py:440-449 | an entity is listed exactly when it is live and passes the type filter |
| EntityRegistry.LoadEntities | entity_registry.py:655-665 | loading `(key, entity)` pairs gives a key order without repeats that lists exactly the loaded keys |
| EntityRegistry.Decode | entity_registry.py:649-681 | deserialising always yields a well-formed registry, with defaults for absent keys |
| EntityRegistry.EncodeDecode | entity_registry.py:618-681 | deserialising a serialised registry restores it exactly |
| EntityRegistry.LoadPairs | entity_registry.py:655-665 | loading the pairs of distinct keys rebuilds exactly those entries, in that order |
| EntityRegistry.Registry.constructor | entity_registry.py:111-117 | a new registry is empty with its counter at 1 |
| EntityRegistry.Registry.GenerateId | entity_registry.py:152-156 | returns the id of the current counter and advances the counter by one, changing nothing else |
| EntityRegistry.Registry.CreateEntity | entity_registry.py:341-368 | the registry becomes `Create` of its old state and the returned entity is stored under the fresh id |
| EntityRegistry.Registry.RecordEvent | entity_registry.py:370-389 | appends the event's history line, built from the entity's current id, name and type, and changes nothing else |
| EntityRegistry.Registry.FindEntity | entity_registry.py:158-184 | the loop over the index entry, most recent first, returns `Find` of the current state |
| EntityRegistry.Registry.FindConditionByName | entity_registry.py:190-192 | finds a condition by name, terminal ones included |
| EntityRegistry.Registry.LinkCondition | entity_registry.py:224-233 | resolves the related condition as `LinkOf` states |
| EntityRegistry.Registry.CreateAndRecordEvent | entity_registry.py:237-243 | creates the entity and records the event for it, leaving the state `CreateAndRecord` describes |
| EntityRegistry.Registry.ApplyToExisting | entity_registry.py:248-299 | the live-entity branch leaves the state and returns the outcome `ApplyExisting` describes |
| EntityRegistry.Registry.ApplyWithoutExisting | entity_registry.py:300-339 | the no-live-entity branch leaves the state and returns the outcome `ApplyNew` describes |
| EntityRegistry.Registry.ApplyEvent | entity_registry.py:194-339 | the registry moves to `Apply` of its old state, with one history event appended for the entity returned |
| EntityRegistry.Registry.ProcessStackUpdate | entity_registry.py:391-438 | the entities become those a full visit leaves, the returned events are exactly those appended to the history, and keys, counter and name index are unchanged |
| EntityRegistry.Registry.StopLoop | entity_registry.py:410-436 | the loop over the keys in insertion order stops each live, unmentioned entity of a listed category |
| EntityRegistry.Registry.StopIfUnmentioned | entity_registry.py:411-436 | one visit stops the entity under the key exactly when it should stop, and appends its record |
| EntityRegistry.Registry.GetActiveEntities | entity_registry.py:440-449 | returns the live entities that pass the type filter, in insertion order |
| EntityRegistry.Registry.FromDict | entity_registry.py:649-681 | a new registry whose state is the decoded data |
| EntityRegistry.StopKeepsKeys | entity_registry.py:410-424 | implicit stops change no key |
| SectionCache.RawIsNotProcessed | main.py:212-215 | a raw section file never has a processed file's name, so writing raw files cannot clobber the cache |
| SectionCache.LabsIsNotProcessed | main.py:237-241 | a labs file never has a processed file's name |
| SectionCache.CacheRoundTrip | main.py:215-217 | once a section's processed file holds its hash line, the section is no longer stale |
| SectionCache.ShortHash | main.py:107-108 | the hash is the first 8 characters of the hex digest (all of a shorter one), so it is made of hexadecimal digits |
| SectionCache.ShortHashRoundTrip | main.py:215-217 | with the 8-digit hash, a section whose processed file holds its hash line is not processed again |
| SectionCache.SummaryInput | main.py:468 | the summary request is the header and the processed text, each only when non-empty, with a blank line between them |
| SectionCache.ScheduleKeepsProcessed | main.py:209-218 | writing raw files leaves every processed file as it was |
| SectionCache.StaleUnaffected | main.py:209-218 | staleness is judged against the processed files as they were before the loop |
| SectionCache.ScheduleStops | main.py:210-216 | once the loop has stopped, on a header in which `extract_date` finds no date or on an empty processed file (where `splitlines()[0]` raises), the stop is final |
| SectionCache.ScheduleNext | main.py:210-218 | one more section stops the run with nothing written when its header has no date; otherwise it writes its raw file, then stops the run, is skipped as up to date, or is queued |
| SectionCache.ScheduleStep | main.py:210-218 | one more section's outcome is decided by its staleness against the directory before the loop: no date or an empty processed file fails with that fault, stale queues it, fresh skips it |
| SectionCache.ScheduleSucceeds | main.py:209-218 | the loop runs to the end exactly when every visited section's header has a date (`extract_date`, main.py:111-119) and none has an empty processed file |
| SectionCache.ScheduleFault | main.py:209-218 | the first section without a date or with an empty processed file decides the failure: `NoDate` of that section, or `EmptyProcessedFile` of its processed file |
| SectionCache.ScheduleQueues | main.py:209-218 | a run that reaches the end queues exactly the stale sections, each with a date |
| SectionCache.MaxWorkers | main.py:221 | the worker count is never 0: unset means 4, 0 means 1, any other value is kept |
| SectionCache.FirstAccepted | main.py:350-381 | the accepted attempt is the first of the three whose validation reply contains `$OK$`, and none when no reply does |
| SectionCache.AcceptedIsFresh | main.py:371-378 | after an accepted attempt the section is up to date, whether or not a labs file was written |
| SectionCache.BodyOfCacheEntry | main.py:450-460 | the body read back from a cache entry is the processed text, less one trailing line feed |
| SectionCache.InsertNewestFirst | main.py:462 | inserting keeps the items and keeps them newest first |
| SectionCache.SortNewestFirst | main.py:462 | sorting by date in reverse gives the same items, newest first |
| SectionCache.Chunks | main.py:462 | the joined chunks are the items' texts, in order |
| SectionCache.ItemsAreProcessedFiles | main.py:453-460 | an item is gathered exactly when a listed processed file exists with that date and chunk |
| SectionCache.Processor.constructor | main.py:172-198 | a processor starts with the given output directory and no language-model calls |
| SectionCache.Processor.ScheduleSections | main.py:209-218 | the loop writes every visited raw file and queues the sections `Schedule` describes, or fails on the first header without a date or the first empty processed file, with no language-model call |
| SectionCache.Processor.ProcessSection | main.py:345-381 | succeeds exactly when one of three attempts is accepted, then writes the cache entry and the labs file if any, after two calls per attempt; a failure writes nothing after six calls |
| SectionCache.Processor.GenerateFile | main.py:295-328 | an existing file is returned unchanged without any call; otherwise `calls` replies are requested, kept as they are when there is exactly one and merged otherwise, then written and returned |
| SectionCache.Processor.AssembleOutput | main.py:450-470 | the output is the summary, a blank line, then the processed chunks newest first; a missing summary is the model's reply to the header and the processed text and is written, and no other file changes |
| ValidationCompliance.BucketOf | skills/health-log-parser-quality-review/scripts/phase1_validation.py:47-61 | an issue lands in the first bucket whose keyword rule it matches, and matches no earlier rule |
| ValidationCompliance.InBucket | skills/health-log-parser-quality-review/scripts/phase1_validation.py:47-61 | a bucket holds only input issues that belong to it |
| ValidationCompliance.Categorized.Add | skills/health-log-parser-quality-review/scripts/phase1_validation.py:50-61 | appending to a bucket adds the issue at its end and leaves every other bucket alone |
| ValidationCompliance.BucketsSnoc | skills/health-log-parser-quality-review/scripts/phase1_validation.py:47-61 | one more issue is added to its own bucket and to no other |
| ValidationCompliance.RunValidateTimeline | skills/health-log-parser-quality-review/scripts/phase1_validation.py:26-68 | the loop counts the issues and warnings and buckets every issue as `Buckets` does |
| ValidationCompliance.AddOne | skills/health-log-parser-quality-review/scripts/phase1_validation.py:50-61 | adding to one bucket adds exactly one issue to the whole |
| ValidationCompliance.BucketsPartition | skills/health-log-parser-quality-review/scripts/phase1_validation.py:47-61 | every issue lands in exactly one bucket: together the buckets hold the input, no more and no less |
| ValidationCompliance.ComplianceScore | skills/health-log-parser-quality-review/scripts/phase1_validation.py:71-92 | the score lies in 0..100 and is 100 exactly when no scored bucket holds an issue and there is no warning |
| ValidationCompliance.ScoreMonotone | skills/health-log-parser-quality-review/scripts/phase1_validation.py:71-92 | more issues in any bucket, or more warnings, never raise the score |
| ValidationCompliance.AddingIssueNeverRaises | skills/health-log-parser-quality-review/scripts/phase1_validation.py:47-92 | one more validation issue, whatever its bucket, never raises the score |
| ValidationCompliance.NoneInBucket | skills/health-log-parser-quality-review/scripts/phase1_validation.py:47-61 | a bucket that none of the issues belongs to stays empty |
| ValidationCompliance.OtherIsFree | skills/health-log-parser-quality-review/scripts/phase1_validation.py:59-61 | issues that fall in no named bucket cost nothing |
| ValidationCompliance.AsIssues | skills/health-log-parser-quality-review/scripts/phase1_validation.py:47-48 | one issue per error of a check, each typed by the check's key |
| ValidationCompliance.Under | skills/health-log-parser-quality-review/scripts/phase1_validation.py:47 | `get` with a default yields no entries for a key the dictionary lacks |
| ValidationCompliance.AsWrittenLookupsMiss | skills/health-log-parser-quality-review/scripts/phase1_validation.py:47-65 | the `issues` and `warnings` keys are never in the results of `run_all_validations`, so as written every profile scores 100 and the summary is excellent |
| ValidationCompliance.AsWrittenIgnoresColumnError | skills/health-log-parser-quality-review/scripts/phase1_validation.py:47-65 | a timeline with one wrong column count reports one error and still scores 100 as written |
| ValidationCompliance.CorrectedCountsEveryError | skills/health-log-parser-quality-review/scripts/phase1_validation.py:36-92 | read check by check, every reported error is counted, a checked timeline scores 100 exactly when no check reported anything, and each error costs its check's deduction |
| ValidationCompliance.Summary | skills/health-log-parser-quality-review/scripts/phase1_validation.py:137-142 | excellent exactly when both scores are at least 90, good when both are at least 70 but not both 90, otherwise needs improvement |
| ValidationCompliance.CleanProfilesExcellent | skills/health-log-parser-quality-review/scripts/phase1_validation.py:71-142 | two profiles without any issue or warning are summarised as excellent |
| Preservation.InsertName | skills/health-log-parser-quality-review/scripts/phase2_preservation.py:35 | inserting a name adds exactly that name to the listing |
| Preservation.InsertNameSorted | skills/health-log-parser-quality-review/scripts/phase2_preservation.py:35 | inserting into a sorted listing keeps it sorted |
| Preservation.SortNames | skills/health-log-parser-quality-review/scripts/phase2_preservation.py:35 | the sorted listing holds the same names, in ascending order |
| Preservation.SliceBound | skills/health-log-parser-quality-review/scripts/phase2_preservation.py:46-49 | a slice bound is clamped to the sequence, and a negative one counts from the end |
| Preservation.SliceInside | skills/health-log-parser-quality-review/scripts/phase2_preservation.py:46-49 | a slice within bounds is the plain subsequence |
| Preservation.SliceFromEnd | skills/health-log-parser-quality-review/scripts/phase2_preservation.py:49 | slicing from minus k takes the last k elements, and the whole sequence when k is 0 |
| Preservation.StrataOf | skills/health-log-parser-quality-review/scripts/phase2_preservation.py:42-47 | the three strata add up to the sample size, the middle stratum lies inside the listing, and from twice the sample size on the strata do not overlap |
| Preservation.SampleSlices | skills/health-log-parser-quality-review/scripts/phase2_preservation.py:46-51 | with more files than the sample size, the intended sample is exactly what the three slices take when the recent stratum starts at the length minus its size |
| Preservation.SampleFiles | skills/health-log-parser-quality-review/scripts/phase2_preservation.py:37-51 | the slicing yields every file when there are few enough, otherwise the three strata of the intended sample |
| Preservation.SliceWithin | skills/health-log-parser-quality-review/scripts/phase2_preservation.py:46-49 | a slice holds only names of the listing |
| Preservation.SampleSize | skills/health-log-parser-quality-review/scripts/phase2_preservation.py:37-51 | the sample has min(number of files, sample size) names, all from the listing |
| Preservation.SampleAsWrittenAgrees | skills/health-log-parser-quality-review/scripts/phase2_preservation.py:37-51 | for every positive sample size the slicing as written takes the intended sample |
| Preservation.ZeroSampleTakesAll | skills/health-log-parser-quality-review/scripts/phase2_preservation.py:49 | with sample size 0 and some files, the slicing as written returns every file instead of an empty sample |
| Preservation.StrataCanOverlap | skills/health-log-parser-quality-review/scripts/phase2_preservation.py:46-51 | six files and sample size 5 give a sample holding the fourth file twice |
| Preservation.OrderedSlicesDistinct | skills/health-log-parser-quality-review/scripts/phase2_preservation.py:46-51 | slices of distinct names over ordered, disjoint index ranges, concatenated, give distinct names |
| Preservation.SampleDistinct | skills/health-log-parser-quality-review/scripts/phase2_preservation.py:37-51 | from twice the sample size on, a listing of distinct names gives a sample of distinct names |
| Preservation.LastIndexOf | skills/health-log-parser-quality-review/scripts/phase2_preservation.py:56 | the last position of a character holds it and no later position does; none when it is absent |
| Preservation.ReplaceNoDot | skills/health-log-parser-quality-review/scripts/phase2_preservation.py:56 | text without a dot in front of the rest leaves nothing for the replacement to change there |
| Preservation.DateOfProcessedName | skills/health-log-parser-quality-review/scripts/phase2_preservation.py:56 | the date of a processed name is the name without its suffix, for dates without a dot |
| Preservation.BuildSamples | skills/health-log-parser-quality-review/scripts/phase2_preservation.py:53-67 | one record per sampled file, in sample order, each with its date and the raw and labs files that exist |
| Preservation.GetStratifiedSample | skills/health-log-parser-quality-review/scripts/phase2_preservation.py:28-67 | the records are those of the stratified sample of the sorted listing, one per name, in order |
| Preservation.KindAt | skills/health-log-parser-quality-review/scripts/phase2_preservation.py:131-228 | the check at each position 0 to 5 is the kind of that rank |
| Preservation.KindAtRank | skills/health-log-parser-quality-review/scripts/phase2_preservation.py:131-228 | each kind is the check at its own rank |
| Preservation.ReadSample | skills/health-log-parser-quality-review/scripts/phase2_preservation.py:117-126 | each text is its file's content, or empty when the file is absent or does not exist |
| Preservation.CheckPreservation | skills/health-log-parser-quality-review/scripts/phase2_preservation.py:112-230 | the issues are those of the six checks on the sample's texts, in check order |
| Preservation.CheckValues | skills/health-log-parser-quality-review/scripts/phase2_preservation.py:130-182 | the numeric, medication and lab checks give the first three checks' issues |
| Preservation.CheckContext | skills/health-log-parser-quality-review/scripts/phase2_preservation.py:184-228 | the date, provider and uncertainty checks complete the six checks' issues |
| Preservation.UptoNext | skills/health-log-parser-quality-review/scripts/phase2_preservation.py:131-228 | one more check appends only that check's issue, if its rule holds |
| Preservation.UptoShape | skills/health-log-parser-quality-review/scripts/phase2_preservation.py:131-228 | the first n checks report each kind at most once, in check order, all about the sample and of kinds among those checked |
| Preservation.UptoKinds | skills/health-log-parser-quality-review/scripts/phase2_preservation.py:131-228 | the first n checks report a kind exactly when it is among them and its rule holds |
| Preservation.IssuesMeaning | skills/health-log-parser-quality-review/scripts/phase2_preservation.py:112-230 | a sample's issues name each raised kind exactly once, in check order, each with the sample's date and the profile |
| Preservation.NumericValueIff | skills/health-log-parser-quality-review/scripts/phase2_preservation.py:135-148 | a numeric issue is raised exactly when some raw number that is not a four-digit 20xx year is in neither the processed nor the labs numbers |
| Preservation.LabDiscrepancyIff | skills/health-log-parser-quality-review/scripts/phase2_preservation.py:166-182 | a lab issue is raised exactly when there are labs with more than five distinct numbers and the processed text repeats fewer than three tenths of them |
| Preservation.ClinicalContextIff | skills/health-log-parser-quality-review/scripts/phase2_preservation.py:214-219 | an uncertainty issue is raised exactly when some marker is in the lowered raw text and none in the lowered processed text |
| Preservation.QuestionMarkLost | skills/health-log-parser-quality-review/scripts/phase2_preservation.py:215-219 | a question mark in the raw text with no marker in the processed text raises the uncertainty issue |
| LinkAnalysis.WithId | skills/health-log-parser-quality-review/scripts/phase3_linking.py:52 | the rows with an episode id are at most all the rows |
| LinkAnalysis.NonBlank | skills/health-log-parser-quality-review/scripts/phase3_linking.py:70 | the stripped related ids kept are never blank |
| LinkAnalysis.Orphans | skills/health-log-parser-quality-review/scripts/phase3_linking.py:71-81 | each orphan issue of a row names one of its references that is no episode id, and carries the row's date, episode id and item; at most one per reference |
| LinkAnalysis.CheckReferences | skills/health-log-parser-quality-review/scripts/phase3_linking.py:71-81 | the inner loop yields the row's orphan issues in reference order |
| LinkAnalysis.CollectIds | skills/health-log-parser-quality-review/scripts/phase3_linking.py:45-48 | the keys of the episode map are exactly the non-empty episode ids |
| LinkAnalysis.CheckRow | skills/health-log-parser-quality-review/scripts/phase3_linking.py:64-96 | one row with an episode id moves the counters by one step and appends that row's issues |
| LinkAnalysis.Advance | skills/health-log-parser-quality-review/scripts/phase3_linking.py:60-62 | a row without an episode id is skipped; any other takes one step and adds its issues |
| LinkAnalysis.AnalyzeLinking | skills/health-log-parser-quality-review/scripts/phase3_linking.py:42-103 | the statistics and issues are those of the row-by-row definition over all rows |
| LinkAnalysis.Completeness | skills/health-log-parser-quality-review/scripts/phase3_linking.py:98-101 | link completeness lies between 0 and 100, is 0 without treatments and 100 when every treatment is linked |
| LinkAnalysis.CountsAppend | skills/health-log-parser-quality-review/scripts/phase3_linking.py:73-96 | issue counts of two lists add up |
| LinkAnalysis.OrphansCount | skills/health-log-parser-quality-review/scripts/phase3_linking.py:71-81 | a row's reference checks raise only orphan issues |
| LinkAnalysis.StepMeaning | skills/health-log-parser-quality-review/scripts/phase3_linking.py:81-89 | a step adds to the orphan and unlinked counters exactly the issues of those kinds the row raises |
| LinkAnalysis.TotalEpisodesMeaning | skills/health-log-parser-quality-review/scripts/phase3_linking.py:52 | total episodes is the number of rows with an episode id, and the loop does not change it |
| LinkAnalysis.RowCountersMeaning | skills/health-log-parser-quality-review/scripts/phase3_linking.py:66-88 | episodes with links counts the linked rows, and the two treatment counters together count the treatment rows |
| LinkAnalysis.IssueCountersMeaning | skills/health-log-parser-quality-review/scripts/phase3_linking.py:73-96 | the orphan counter equals the number of orphan issues and the unlinked counter the number of unlinked-treatment issues |
| LinkAnalysis.IssueCountersStep | skills/health-log-parser-quality-review/scripts/phase3_linking.py:73-96 | the inductive step of the counter meaning |
| LinkAnalysis.CountersStep | skills/health-log-parser-quality-review/scripts/phase3_linking.py:73-96 | one more row moves both issue counters by the issues it raises |
| LinkAnalysis.WithIdCount | skills/health-log-parser-quality-review/scripts/phase3_linking.py:52 | one more row adds one to the total exactly when it has an episode id |
| LinkAnalysis.RowWithoutIdIgnored | skills/health-log-parser-quality-review/scripts/phase3_linking.py:61-62 | a row without an episode id changes no counter and adds no issue |
| LinkAnalysis.RowRaises | skills/health-log-parser-quality-review/scripts/phase3_linking.py:65-81 | a row's issues include an orphan issue exactly when one of its related references names no episode |
| LinkAnalysis.OrphanMembers | skills/health-log-parser-quality-review/scripts/phase3_linking.py:60-81 | an orphan issue is reported exactly when some row raises it |
| LinkAnalysis.OrphanMembersStep | skills/health-log-parser-quality-review/scripts/phase3_linking.py:60-81 | the inductive step of the orphan membership |
| LinkAnalysis.OrphanFound | skills/health-log-parser-quality-review/scripts/phase3_linking.py:71-80 | a reference with no episode gives its row an orphan issue |
| Categorization.KindAt | skills/health-log-parser-quality-review/scripts/phase4_categorization.py:60-119 | the check at each position 0 to 4 is the kind of that rank |
| Categorization.UptoShape | skills/health-log-parser-quality-review/scripts/phase4_categorization.py:53-119 | after the first n checks the issues are only of the kinds checked, in check order, each naming the entry's date and item with its kind's message |
| Categorization.UptoKinds | skills/health-log-parser-quality-review/scripts/phase4_categorization.py:53-119 | after the first n checks a kind is present exactly when it was among them and its rule holds |
| Categorization.HasKindAppend | skills/health-log-parser-quality-review/scripts/phase4_categorization.py:53-119 | a kind is in two appended issue lists exactly when it is in one of them |
| Categorization.PieceKind | skills/health-log-parser-quality-review/scripts/phase4_categorization.py:60-119 | one check adds only its own kind, and only when its rule holds |
| Categorization.CheckCategorization | skills/health-log-parser-quality-review/scripts/phase4_categorization.py:51-121 | the issues are present exactly for the rules that hold, in check order, each about the entry |
| Categorization.CheckCondition | skills/health-log-parser-quality-review/scripts/phase4_categorization.py:60-77 | the condition block appends the mismatch issue or, failing that, the missing-qualifier issue |
| Categorization.CheckEventType | skills/health-log-parser-quality-review/scripts/phase4_categorization.py:79-96 | a known category with an event outside its valid list gets an invalid-event issue |
| Categorization.CheckWatch | skills/health-log-parser-quality-review/scripts/phase4_categorization.py:98-108 | a watch item whose lowered name holds diagnosed, confirmed or prescribed gets a watch-misuse issue |
| Categorization.CheckDetails | skills/health-log-parser-quality-review/scripts/phase4_categorization.py:110-119 | details shorter than 10 characters on a condition, treatment or test get an insufficient-details issue |
| Categorization.ConditionGuards | skills/health-log-parser-quality-review/scripts/phase4_categorization.py:62-70 | the two condition rules are exactly the source's word tests on the lowered details |
| Categorization.UptoTwo | skills/health-log-parser-quality-review/scripts/phase4_categorization.py:60-77 | the condition block gives at most the issues of the two rules, and none outside the condition category |
| Categorization.AnyOfTwo | skills/health-log-parser-quality-review/scripts/phase4_categorization.py:62 | a lowered text holds one of two words exactly when it holds the first or the second |
| Categorization.AnyOfThree | skills/health-log-parser-quality-review/scripts/phase4_categorization.py:70 | a lowered text holds one of three words exactly when it holds one of them |
| Categorization.ConditionRulesExclusive | skills/health-log-parser-quality-review/scripts/phase4_categorization.py:62-77 | an entry never gets both a mismatch and a missing-qualifier issue |
| Categorization.ConditionRulesAreValidEvents | skills/health-log-parser-quality-review/scripts/phase4_categorization.py:62-81 | an entry flagged by a condition rule never also has an invalid event |
| Categorization.EmptyDetailsAreThin | skills/health-log-parser-quality-review/scripts/phase4_categorization.py:111-112 | empty details on a condition, treatment or test are always insufficient |
| EpisodeContinuity.Count | skills/health-log-parser-quality-review/scripts/phase7_continuity.py:88-89 | a count of events never exceeds the number of events |
| EpisodeContinuity.CountConcat | skills/health-log-parser-quality-review/scripts/phase7_continuity.py:88-89 | counts over two appended lists add up |
| EpisodeContinuity.CountPermutation | skills/health-log-parser-quality-review/scripts/phase7_continuity.py:53-89 | a count does not depend on the order of the events, so sorting does not change it |
| EpisodeContinuity.CountMonotone | skills/health-log-parser-quality-review/scripts/phase7_continuity.py:88-89 | detailed major transitions are at most the major transitions |
| EpisodeContinuity.CountPositive | skills/health-log-parser-quality-review/scripts/phase7_continuity.py:94 | some event satisfies the test exactly when its count is positive |
| EpisodeContinuity.SortedEnds | skills/health-log-parser-quality-review/scripts/phase7_continuity.py:53-57 | the first and last date-sorted events are events of the episode with the earliest and latest dates |
| EpisodeContinuity.UnderAYearInDays | skills/health-log-parser-quality-review/scripts/phase7_continuity.py:59-61 | a whole-day span is under 365.25 days exactly when it is at most 365 days |
| EpisodeContinuity.PostResolutionMembers | skills/health-log-parser-quality-review/scripts/phase7_continuity.py:79-84 | a post-resolution warning names a resolved or stopped event that is not the last, and every such event is named |
| EpisodeContinuity.PostResolutionCount | skills/health-log-parser-quality-review/scripts/phase7_continuity.py:79-84 | before the last event there is one warning per resolution |
| EpisodeContinuity.DetailCompletenessBounds | skills/health-log-parser-quality-review/scripts/phase7_continuity.py:91 | completeness is 0 without major transitions, otherwise the detailed share of them times 100, and lies in 0 to 100 |
| EpisodeContinuity.EventSequence | skills/health-log-parser-quality-review/scripts/phase7_continuity.py:65 | the event sequence lists each sorted event's name, in order |
| EpisodeContinuity.CollectWarnings | skills/health-log-parser-quality-review/scripts/phase7_continuity.py:70-84 | the warning loop yields the unusual-start warning, if any, and then the post-resolution warnings in event order |
| EpisodeContinuity.AnalyzeEpisodeContinuity | skills/health-log-parser-quality-review/scripts/phase7_continuity.py:47-111 | the result is the analysis of the date-sorted events, or none for a short or brief episode |
| EpisodeContinuity.AnalyzedIff | skills/health-log-parser-quality-review/scripts/phase7_continuity.py:49-62 | an episode is analysed exactly when it has at least five events whose dates span more than 365 days |
| EpisodeContinuity.AnalysisIsReport | skills/health-log-parser-quality-review/scripts/phase7_continuity.py:52-111 | the stable date sort orders the events by date keeping same-date events in input order, and an analysis is the report of exactly that order |
| EpisodeContinuity.ReportSummary | skills/health-log-parser-quality-review/scripts/phase7_continuity.py:96-106 | the report counts every event, spans from an earliest to a latest event, takes item, category and first event from the first event in input order that has the earliest date, and is coherent with no issues |
| EpisodeContinuity.ReportDetails | skills/health-log-parser-quality-review/scripts/phase7_continuity.py:86-94 | detail completeness is computed over the episode's events whatever their order, lies in 0 to 100, and related links are reported exactly when some event has one |
| EpisodeContinuity.ReportUnusualStart | skills/health-log-parser-quality-review/scripts/phase7_continuity.py:72-76 | the unusual-start warning is raised exactly when the first sorted event is not an initial event |
| EpisodeContinuity.ReportWarnsResolutions | skills/health-log-parser-quality-review/scripts/phase7_continuity.py:79-84 | every resolution dated before the last event is warned about |
| EpisodeContinuity.ReportWarningsNameResolutions | skills/health-log-parser-quality-review/scripts/phase7_continuity.py:79-84 | every post-resolution warning names a resolution of the episode |
| EpisodeContinuity.ReportWarningCount | skills/health-log-parser-quality-review/scripts/phase7_continuity.py:70-84 | the warnings are one per resolution except a resolving last event, plus one for an unusual start |
| EpisodeContinuity.LastNeverWarned | skills/health-log-parser-quality-review/scripts/phase7_continuity.py:80 | the last sorted event never adds a post-resolution warning |
| IssueReports.PhaseWeightsTotal | skills/health-log-parser-quality-review/scripts/generate_reports.py:22-30 | the seven phase weights of the quality score add up to 100 |
| IssueReports.Phase1Severity | skills/health-log-parser-quality-review/scripts/generate_reports.py:95 | a phase-1 issue is high exactly when its category is episode continuity or related episodes, and medium otherwise |
| IssueReports.BucketRecords | skills/health-log-parser-quality-review/scripts/generate_reports.py:91-98 | one record per issue of a phase-1 bucket, in order, carrying the profile, the bucket's name, its severity and the issue's message |
| IssueReports.Phase1Records | skills/health-log-parser-quality-review/scripts/generate_reports.py:89-98 | every phase-1 record is tagged with phase 1 and the profile it came from |
| IssueReports.FindingRecords | skills/health-log-parser-quality-review/scripts/generate_reports.py:114-121 | one record per phase-3 or phase-4 issue, in order, copying its severity, type and description |
| IssueReports.Phase2Records | skills/health-log-parser-quality-review/scripts/generate_reports.py:102-109 | one record per phase-2 issue, in order, with the issue's own profile |
| IssueReports.Phase1RecordsCount | skills/health-log-parser-quality-review/scripts/generate_reports.py:89-98 | a profile's phase-1 records are as many as the issues in all its buckets |
| IssueReports.AllIssuesCount | skills/health-log-parser-quality-review/scripts/generate_reports.py:83-135 | exactly one record per input issue across phases 1 to 4 |
| IssueReports.OrderedAppend | skills/health-log-parser-quality-review/scripts/generate_reports.py:83-135 | records of lower phases followed by records of a higher phase stay in phase order |
| IssueReports.AllIssuesPhaseOrder | skills/health-log-parser-quality-review/scripts/generate_reports.py:83-135 | all records of a phase come before those of any later phase |
| IssueReports.AppendBucket | skills/health-log-parser-quality-review/scripts/generate_reports.py:91-98 | the innermost phase-1 loop appends the bucket's records to what was collected |
| IssueReports.AppendPhase1 | skills/health-log-parser-quality-review/scripts/generate_reports.py:89-98 | the phase-1 loop appends the records of every bucket, in bucket order |
| IssueReports.AppendPhase2 | skills/health-log-parser-quality-review/scripts/generate_reports.py:101-109 | the phase-2 loop appends one record per phase-2 issue |
| IssueReports.AppendFindings | skills/health-log-parser-quality-review/scripts/generate_reports.py:113-121 | the phase-3 and phase-4 loop appends one record per issue of a profile |
| IssueReports.AddPart1 | skills/health-log-parser-quality-review/scripts/generate_reports.py:87-98 | phase 1 contributes its records only when its results are present |
| IssueReports.AddPart2 | skills/health-log-parser-quality-review/scripts/generate_reports.py:100-109 | phase 2 contributes its records only when its results are present |
| IssueReports.AddPartOf | skills/health-log-parser-quality-review/scripts/generate_reports.py:111-133 | phases 3 and 4 contribute both profiles' records only when their results are present |
| IssueReports.CollectAllIssues | skills/health-log-parser-quality-review/scripts/generate_reports.py:83-135 | the collected list is the phase-ordered record list that the lemmas above describe |
| IssueReports.PriorityBySeverity | skills/health-log-parser-quality-review/scripts/generate_reports.py:305-314 | a category's priority is 100 per critical, 50 per high, 25 per medium and 10 per low issue, and 0 for any other severity |
| IssueReports.CountSeverity | skills/health-log-parser-quality-review/scripts/generate_reports.py:448-451 | a severity count never exceeds the number of issues |
| IssueReports.Categories | skills/health-log-parser-quality-review/scripts/generate_reports.py:308-310 | the categories are distinct and include every issue's category |
| IssueReports.InCategory | skills/health-log-parser-quality-review/scripts/generate_reports.py:308-310 | a category's issues are issues of the input with that category |
| IssueReports.CategoriesAreUsed | skills/health-log-parser-quality-review/scripts/generate_reports.py:308-313 | every listed category holds at least one issue |
| IssueReports.UnlistedIsEmpty | skills/health-log-parser-quality-review/scripts/generate_reports.py:308-313 | a category that is not listed holds no issue |
| IssueReports.PrioritiesOf | skills/health-log-parser-quality-review/scripts/generate_reports.py:312-320 | one priority entry per category, in order, with that category's count, score and issues |
| IssueReports.RankingProperties | skills/health-log-parser-quality-review/scripts/generate_reports.py:312-323 | the ranking is non-increasing in priority score, is a permutation of the per-category entries, and each entry is its category's own |
| IssueReports.RankingStable | skills/health-log-parser-quality-review/scripts/generate_reports.py:323 | the ranking is a stable sort by descending score: categories of equal score keep the order in which they first appear |
| IssueReports.TotalCountPermutation | skills/health-log-parser-quality-review/scripts/generate_reports.py:323 | reordering the entries does not change their total count |
| IssueReports.TotalCountIsCountSum | skills/health-log-parser-quality-review/scripts/generate_reports.py:313-320 | the entries' counts add up category by category |
| IssueReports.CountSumSnoc | skills/health-log-parser-quality-review/scripts/generate_reports.py:308-310 | one more issue adds one to its category's count and nothing to any other |
| IssueReports.CountSumCovers | skills/health-log-parser-quality-review/scripts/generate_reports.py:308-320 | the categories' counts add up to the number of issues |
| IssueReports.RankingCounts | skills/health-log-parser-quality-review/scripts/generate_reports.py:313-323 | the ranked categories' counts add up to the number of issues |
| IssueReports.GroupByCategory | skills/health-log-parser-quality-review/scripts/generate_reports.py:308-310 | `by_category` maps exactly the listed categories, each to its issues in input order |
| IssueReports.Prioritize | skills/health-log-parser-quality-review/scripts/generate_reports.py:308-323 | the computed ranking is the sorted per-category ranking above |
| IssueReports.SeverityCountsWithinTotal | skills/health-log-parser-quality-review/scripts/generate_reports.py:446-452 | critical, high, medium and low counts together never exceed the total |
| Decimal.NatToDecimal | validate_timeline.py:28-29 | the decimal rendering of a number is a non-empty run of digits without a leading zero |
| Decimal.DecimalRoundTrip | validate_timeline.py:18-20 | reading back the decimal rendering of a number gives that number |
| Decimal.LeadingZeros | validate_timeline.py:18-20 | leading zeros do not change the value read from a digit run |
| Decimal.Pad3 | validate_timeline.py:28-29 | a zero-padded episode number has at least three characters, all digits |
| Decimal.Pad3RoundTrip | validate_timeline.py:18-29 | reading back a zero-padded rendering gives the number |
| Decimal.Pad3Injective | entity_registry.py:154 | distinct numbers get distinct zero-padded renderings |
| Decimal.LeadingDigits | validate_timeline.py:18 | the digits captured after a prefix are the longest run of digits there |
| Sorting.InsertBy | validate_timeline.py:94 | inserting adds exactly one element |
| Sorting.InsertBySorted | validate_timeline.py:94 | inserting into a key-sorted sequence keeps it sorted |
| Sorting.SortBy | validate_timeline.py:94 | sorting by a key gives a permutation ordered by the key |
| Sorting.InsertByStable | skills/health-log-parser-quality-review/scripts/phase7_continuity.py:53 | inserting an element places it after the elements of its key, so each key's elements keep their order |
| Sorting.SortByStable | skills/health-log-parser-quality-review/scripts/phase7_continuity.py:53 | sorting keeps the elements of each key in their input order |
| Sorting.WithKeyFirst | skills/health-log-parser-quality-review/scripts/phase7_continuity.py:53 | the first element of a key, in order, is the earliest position holding that key |
| Sorting.StableUnique | skills/health-log-parser-quality-review/scripts/phase7_continuity.py:53 | two stable sorts of the same sequence by the same key are equal |
| Sorting.SortByIsStableSort | skills/health-log-parser-quality-review/scripts/phase7_continuity.py:53 | a sequence is a stable sort of the input by a key exactly when it is `SortBy`'s result, as `sorted` returns |
| Sorting.AscendingIsSortedBy | validate_timeline.py:22 | sorted by the identity key means ascending |
| Sorting.AscendingUnique | validate_timeline.py:22 | two ascending sequences with the same elements are equal |
| Sorting.SortInts | validate_timeline.py:22 | sorting integers gives an ascending permutation |
| Sorting.SortSorted | validate_timeline.py:93-95 | sorting an ascending sequence leaves it unchanged |
| Strings.Lower | validate_timeline.py:127 | lowering keeps the length and lowers each character |
| Strings.ContainsAt | skills/health-log-parser-quality-review/scripts/phase4_categorization.py:62 | a needle at some position of the text is contained in it |
| Strings.TrimLeft | validate_timeline.py:52 | the left trim starts with no whitespace and keeps only characters of the input |
| Strings.TrimRight | validate_timeline.py:52 | the right trim ends with no whitespace and keeps the first character |
| Strings.Strip | entity_registry.py:128 | the stripped text neither starts nor ends with whitespace and keeps only characters of the input |
| Strings.StripEmptyIffBlank | validate_timeline.py:52 | a stripped text is empty exactly when the text is all whitespace |
| Strings.StripNoSpace | entity_registry.py:150 | a text without surrounding whitespace strips to itself |
| Strings.Split | skills/health-log-parser-quality-review/scripts/phase3_linking.py:70 | splitting gives at least one part, none holding the separator |
| Strings.JoinSplit | skills/health-log-parser-quality-review/scripts/phase3_linking.py:70 | joining the parts of a split with the separator restores the text |
| Strings.SplitAfterPrefix | validate_timeline.py:129 | the part before the first separator is the first part, and the rest splits on its own |
| Strings.SplitLines | main.py:216 | no line holds a line feed |
| Strings.FirstLineSplit | main.py:216 | the first line of a text behind a header line is the header |
| Strings.JoinLines | main.py:455 | joining the lines with line feeds restores the text up to one final line feed |
| Strings.LexLeTotal | skills/health-log-parser-quality-review/scripts/phase2_preservation.py:35 | any two strings are ordered one way or the other |
| Strings.LexLeTrans | skills/health-log-parser-quality-review/scripts/phase2_preservation.py:35 | the string order is transitive |

## Left out

- Language-model calls, prompt loading and the OpenAI client (`main.py:147-161`, `main.py:100-104`) are foreign network calls. The replies are parameters, indexed by the call's position.
- `_merge_outputs` (`main.py:330-339`): what the merge produces is a language-model reply, so the model fixes only which outputs are merged and in what order.
- SHA-256 itself (`main.py:107-108`) and the `dateutil` parsing inside `extract_date` (`main.py:111-119`) are library code. The digest and the date are parameters: `dateOf` gives the section's date, or `None` where `extract_date` raises (`ValueError` for a header with no parsable token, `IndexError` for a blank section), and the scheduling loop stops there. `short_hash` keeps the digest's first 8 characters, as modelled.
- SectionCache.Processor.ProcessSection: it requires the section's date to exist. `_process_section` calls `extract_date` again (`main.py:346`), and `run` submits only queued sections, whose dates exist by `SectionCache.ScheduleQueues`.
- The lab range classification and `format_labs` (`main.py:122-139`) are float-valued pandas logic. The labs text of an entry is a given string.
- Section splitting (`_split_sections`, `main.py:387-414`) and lab loading (`_load_labs`, `main.py:416-448`) depend on regular expressions and pandas. The sections are given as a list.
- The thread-pool fan-out (`main.py:223-229`) exists only for concurrency. Sections are processed one after another, in order, so completion order is not modelled.
- The failure log, the remaining labs files written after processing, and all logging are file output with no decision in them.
- TimelineValidator.RunAllValidations: the frame `pd.read_csv` yields (its columns, rows and empty Date cells), or its `ParserError`, is a parameter, not derived from the lines. A `KeyError` for a missing `Item` column in the related check (`validate_timeline.py:55`), or for a missing `Category`, `Event` or `Item` column in the stack check (`validate_timeline.py:136-157`), is not modelled; the model reads those cells as "". A row whose Date cell is empty keeps an integer date in the model, which only the related check's messages show. The parsing of pandas is not modelled: its error on an over-long record, the implicit index column, skipped blank lines and a `#` that starts a comment inside a line. The field counts of `validate_csv_structure` model Python's default `csv` reader over the kept lines, quoted fields that continue across lines included.
- TimelineValidator.Step: the `csv` reader raises an error for a character after a line break in an unquoted field. Lines read from a text file hold a line break only at their end, so this cannot arise, and `Step` ignores what follows. NUL characters and the field size limit are not modelled.
- `splitlines()` is modelled with the line feed as its only boundary. Python also splits on `\r`, `\v`, `\f` and Unicode separators.
- Strings.IsSpace: `strip()` is modelled on six whitespace characters: space, `\t`, `\n`, `\v`, `\f` and `\r`. Python's `strip()` also removes `\x1c` to `\x1f`, `\x85` and the Unicode spaces. Likewise `lower()` is modelled on ASCII letters only, without Unicode case folding.
- TimelineValidator.EpisodeNumber: `\d` in `validate_timeline.py:18` also matches non-ASCII decimal digits, which `Decimal.IsDigit` rejects. An id with such digits gets no number in the model.
- EntityRegistry.Normalize: the possessive, dosage and frequency regular-expression rewrites of `_normalize_name` (`entity_registry.py:133-146`) are left out. It lower-cases, drops apostrophes and collapses whitespace.
- EntityRegistry.Registry.FromDict: a restored `_next_id` is a natural number, so a negative counter in a saved registry is not modelled.
- `apply_time_based_decay` and `generate_current_yaml` (`entity_registry.py:451-556`) read the wall clock. The YAML, JSON and CSV output writers (`entity_registry.py:558-612`) are file output. Neither is modelled.
- Returned entity objects are values. A caller that keeps an entity the source later mutates in place would see the change there, and that aliasing is not modelled.
- The weighted quality score `calculate_quality_score` (`skills/health-log-parser-quality-review/scripts/generate_reports.py:17-80`) is float arithmetic over report dictionaries. Only the phase weights are modelled, and the proof that they sum to 100.
- The markdown and JSON report writers, the CLI entry points, `run_quality_review.py` and `viewer.py` are presentation and orchestration.
- Phase 2 text extractors (`skills/health-log-parser-quality-review/scripts/phase2_preservation.py:70-109`) are regular expressions and are parameters. The issue descriptions and contents, and the phase 2 report, are text.
- Preservation.GetStratifiedSample: the sample size is a natural number, and a negative `sample_size` is not modelled. The model uses the corrected recent stratum, which agrees with the code for every positive size (see Findings).
- Preservation.SampleFiles: it slices the recent stratum as `files[len(files) - n_recent:]`, the corrected form. The code's `files[-n_recent:]` differs from it only when `n_recent` is 0 (see Findings), and `Preservation.SampleSlices` proves that the two agree otherwise.
- Preservation.SortNames: sorting is by file name only. The source sorts full paths in one directory, which order the same way.
- The phase 3 and phase 4 loaders read with `csv.DictReader` (`skills/health-log-parser-quality-review/scripts/phase3_linking.py:24-39`, `skills/health-log-parser-quality-review/scripts/phase4_categorization.py:26-31`). It gives `None` for the cells a short row lacks, and indexing a column the header lacks (`row["Date"]`, `entry["Category"]`) raises `KeyError`. The models take rows of strings, with "" for a missing value, so neither case is modelled.
- `sample_entries` in phase 4 (`skills/health-log-parser-quality-review/scripts/phase4_categorization.py:26-48`) draws a random sample. The phase 4 report and driver are output.
- Phase 7 loading and reporting (`load_episodes_by_id`, `generate_continuity_report`, `run_phase7`) are file I/O.
- The phase 7 `duration` and `date_range` strings are not modelled. Dates are day numbers, so an unparsable date, which makes the duration 0 there, is not modelled either.
- EpisodeContinuity.DetailCompletenessBounds: completeness is an exact `real` (or an integer ratio), not a rounded float.
- ValidationCompliance.Under: the entries of `run_all_validations` are message strings, which the model turns into issue records typed by the check's key, without message text. In the source, `issue.get` on a string would raise, had the lookup found any entry.
- Phases 5 and 6 (labs integration and cross-profile consistency) are float rates and averages over report data.
- The `<!-- DEPS: ... -->` envelope is asserted only by tests of a module that is not part of this model.
- `validate_extracted_facts`/`VALID_EVENTS`, `_validate_timeline_batch_output` and `_get_last_episode_num` are not part of this model: tests import them, but the modelled files do not define them.
- Configuration and exception modules are plain data.

## Findings

| source | as written | input that shows it | evidently intended | confidence | as-written member | corrected member |
|---|---|---|---|---|---|---|
| skills/health-log-parser-quality-review/scripts/phase1_validation.py:47 | `results.get("issues", [])` and `results.get("warnings", [])` (also lines 64-65) look up keys that `run_all_validations` never returns, so no issue is ever bucketed or counted | a timeline with one wrong column count: the error is reported, yet the profile scores 100, and two such profiles are summarised as excellent | each check's list bucketed under the category of the same name and counted | high, not executed | ValidationCompliance.AsWrittenLookupsMiss | ValidationCompliance.CorrectedResults |
| skills/health-log-parser-quality-review/scripts/phase2_preservation.py:49 | the recent stratum is `processed_files[-n_recent:]`, and `-0` is `0`, so `n_recent == 0` takes every file | `sample_size = 0` with at least one processed file: all files are sampled | an empty recent stratum, so that the sample has `min(len(files), sample_size)` names | medium, not executed (callers pass 30) | Preservation.ZeroSampleTakesAll | Preservation.StratifiedSampleFixed |
