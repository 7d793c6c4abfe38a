/**
 * Phase 4 of the quality review: the categorization checks applied to one
 * timeline entry.
 */
module Categorization {
  import opened Strings
  import TV = TimelineValidator

  /** The five kinds of categorization issue, in the order they are checked. */
  datatype Kind =
    | DiagnosisSuspectedMismatch
    | SuspectedMissingQualifier
    | InvalidEventType
    | WatchMisuse
    | InsufficientDetails
  {
    function IssueType(): string
    {
      match this
      case DiagnosisSuspectedMismatch => "diagnosis_suspected_mismatch"
      case SuspectedMissingQualifier => "suspected_missing_qualifier"
      case InvalidEventType => "invalid_event_type"
      case WatchMisuse => "watch_misuse"
      case InsufficientDetails => "insufficient_details"
    }

    function Severity(): string
    {
      match this
      case DiagnosisSuspectedMismatch => "medium"
      case SuspectedMissingQualifier => "low"
      case InvalidEventType => "high"
      case WatchMisuse => "medium"
      case InsufficientDetails => "low"
    }

    /** The position of the check in `check_categorization`. */
    function Rank(): nat
    {
      match this
      case DiagnosisSuspectedMismatch => 0
      case SuspectedMissingQualifier => 1
      case InvalidEventType => 2
      case WatchMisuse => 3
      case InsufficientDetails => 4
    }
  }

  /** One issue: the entry's date and item, the kind, and its message. */
  datatype Issue = Issue(date: int, item: string, kind: Kind, description: string)

  /** The message of each kind for an entry. */
  function Describe(kind: Kind, e: TV.Row): string
  {
    match kind
    case DiagnosisSuspectedMismatch => "Event is 'diagnosed' but details suggest uncertainty"
    case SuspectedMissingQualifier => "Event is 'suspected' but details lack uncertainty markers"
    case InvalidEventType => "Event '" + e.event + "' not valid for category '" + e.category + "'"
    case WatchMisuse => "Watch category used for confirmed condition/treatment"
    case InsufficientDetails => "Minimal or missing details for " + e.category
  }

  /** `valid_events`: the events each category allows. */
  const ValidEvents: map<string, seq<string>> := map[
    "condition" := ["diagnosed", "suspected", "noted", "worsened", "improved", "resolved", "stable"],
    "symptom" := ["noted", "worsened", "improved", "resolved"],
    "treatment" := ["started", "stopped", "adjusted", "continued"],
    "test" := ["ordered", "completed"],
    "watch" := ["noted"]
  ]

  /** The words that mark a detail text as uncertain, for each condition rule. */
  const MismatchWords: seq<string> := ["suspected", "possible"]
  const QualifierWords: seq<string> := ["suspected", "possible", "unclear"]
  const ConfirmingWords: seq<string> := ["diagnosed", "confirmed", "prescribed"]

  /** A condition recorded as diagnosed although its details sound uncertain. */
  predicate Mismatch(e: TV.Row)
  {
    e.category == "condition" && e.event == "diagnosed" && ContainsAny(Lower(e.details), MismatchWords)
  }

  /** A condition recorded as suspected whose details carry no qualifier. */
  predicate MissingQualifier(e: TV.Row)
  {
    e.category == "condition" && e.event == "suspected" && !ContainsAny(Lower(e.details), QualifierWords)
  }

  /** A known category with an event outside its list. */
  predicate InvalidEvent(e: TV.Row)
  {
    e.category in ValidEvents && e.event !in ValidEvents[e.category]
  }

  /** A watch item whose name says it is already confirmed. */
  predicate WatchMisused(e: TV.Row)
  {
    e.category == "watch" && ContainsAny(Lower(e.item), ConfirmingWords)
  }

  /** Short or missing details on a condition, treatment or test. */
  predicate ThinDetails(e: TV.Row)
  {
    |e.details| < 10 && e.category in {"condition", "treatment", "test"}
  }

  /** The rule behind each kind. */
  predicate Raised(kind: Kind, e: TV.Row)
  {
    match kind
    case DiagnosisSuspectedMismatch => Mismatch(e)
    case SuspectedMissingQualifier => MissingQualifier(e)
    case InvalidEventType => InvalidEvent(e)
    case WatchMisuse => WatchMisused(e)
    case InsufficientDetails => ThinDetails(e)
  }

  /** The check at position `n`. */
  function KindAt(n: nat): (k: Kind)
    requires n < 5
    ensures k.Rank() == n
  {
    [DiagnosisSuspectedMismatch, SuspectedMissingQualifier, InvalidEventType, WatchMisuse, InsufficientDetails][n]
  }

  /** The issue a kind's check appends, if its rule holds. */
  function Piece(kind: Kind, e: TV.Row): seq<Issue>
  {
    if Raised(kind, e) then [Issue(e.date, e.item, kind, Describe(kind, e))] else []
  }

  /** The issues after the first `n` checks. */
  function Upto(e: TV.Row, n: nat): seq<Issue>
    requires n <= 5
  {
    if n == 0 then [] else Upto(e, n - 1) + Piece(KindAt(n - 1), e)
  }

  predicate HasKind(issues: seq<Issue>, kind: Kind)
  {
    exists i :: 0 <= i < |issues| && issues[i].kind == kind
  }

  /** The kinds appear in the order of the checks, each at most once. */
  ghost predicate InCheckOrder(issues: seq<Issue>)
  {
    forall i, j :: 0 <= i < j < |issues| ==> issues[i].kind.Rank() < issues[j].kind.Rank()
  }

  /** Every issue names the entry's date and item and its kind's message. */
  ghost predicate AboutEntry(issues: seq<Issue>, e: TV.Row)
  {
    forall i :: 0 <= i < |issues| ==>
      issues[i].date == e.date && issues[i].item == e.item && issues[i].description == Describe(issues[i].kind, e)
  }

  /** After `n` checks: only the kinds of those checks, in order, each about the entry. */
  lemma {:induction false} UptoShape(e: TV.Row, n: nat)
    requires n <= 5
    ensures forall i :: 0 <= i < |Upto(e, n)| ==> Upto(e, n)[i].kind.Rank() < n
    ensures InCheckOrder(Upto(e, n))
    ensures AboutEntry(Upto(e, n), e)
  {
    if n > 0 {
      var m := n - 1;
      UptoShape(e, m);
      assert Upto(e, m + 1) == Upto(e, m) + Piece(KindAt(m), e);
    }
  }

  /** After `n` checks, a kind is present exactly when it was checked and its rule holds. */
  lemma {:induction false} UptoKinds(e: TV.Row, n: nat, k: Kind)
    requires n <= 5
    ensures HasKind(Upto(e, n), k) <==> k.Rank() < n && Raised(k, e)
  {
    if n == 0 {
      assert Upto(e, 0) == [];
    } else {
      var m := n - 1;
      UptoKinds(e, m, k);
      assert Upto(e, m + 1) == Upto(e, m) + Piece(KindAt(m), e);
      HasKindAppend(Upto(e, m), Piece(KindAt(m), e), k);
      PieceKind(KindAt(m), e, k);
    }
  }

  lemma HasKindAppend(front: seq<Issue>, last: seq<Issue>, k: Kind)
    ensures HasKind(front + last, k) <==> HasKind(front, k) || HasKind(last, k)
  {
    if HasKind(front + last, k) {
      var i :| 0 <= i < |front + last| && (front + last)[i].kind == k;
      if i >= |front| {
        assert last[i - |front|].kind == k;
      } else {
        assert front[i].kind == k;
      }
    }
    if HasKind(front, k) {
      var i :| 0 <= i < |front| && front[i].kind == k;
      assert (front + last)[i] == front[i];
    }
    if HasKind(last, k) {
      var i :| 0 <= i < |last| && last[i].kind == k;
      assert (front + last)[|front| + i] == last[i];
    }
  }

  lemma PieceKind(kind: Kind, e: TV.Row, k: Kind)
    ensures HasKind(Piece(kind, e), k) <==> k == kind && Raised(kind, e)
  {
    if k == kind && Raised(kind, e) {
      assert Piece(kind, e)[0].kind == k;
    }
  }

  /**
   * `check_categorization`: an issue of each kind exactly when its rule
   * holds, in the order of the checks, each carrying the entry's date, item
   * and the kind's message.
   */
  method CheckCategorization(e: TV.Row) returns (issues: seq<Issue>)
    ensures issues == Upto(e, 5)
    ensures forall k: Kind :: HasKind(issues, k) <==> Raised(k, e)
    ensures InCheckOrder(issues) && AboutEntry(issues, e)
  {
    issues := CheckCondition(e);
    issues := CheckEventType(e, issues);
    issues := CheckWatch(e, issues);
    issues := CheckDetails(e, issues);
    UptoShape(e, 5);
    forall k: Kind
      ensures HasKind(issues, k) <==> Raised(k, e)
    {
      UptoKinds(e, 5, k);
    }
  }

  /** The `valid_events` check. */
  method CheckEventType(e: TV.Row, issues: seq<Issue>) returns (r: seq<Issue>)
    requires issues == Upto(e, 2)
    ensures r == Upto(e, 3)
  {
    r := issues;
    if e.category in ValidEvents {
      if e.event !in ValidEvents[e.category] {
        r := r + [Issue(e.date, e.item, InvalidEventType, Describe(InvalidEventType, e))];
      }
    }
    assert Upto(e, 3) == issues + Piece(InvalidEventType, e);
  }

  /** The watch-misuse check. */
  method CheckWatch(e: TV.Row, issues: seq<Issue>) returns (r: seq<Issue>)
    requires issues == Upto(e, 3)
    ensures r == Upto(e, 4)
  {
    r := issues;
    if e.category == "watch" {
      var lowered := Lower(e.item);
      AnyOfThree(lowered, ConfirmingWords);
      if Contains(lowered, "diagnosed") || Contains(lowered, "confirmed") || Contains(lowered, "prescribed") {
        r := r + [Issue(e.date, e.item, WatchMisuse, Describe(WatchMisuse, e))];
      }
    }
    assert Upto(e, 4) == issues + Piece(WatchMisuse, e);
  }

  /** The details-quality check. */
  method CheckDetails(e: TV.Row, issues: seq<Issue>) returns (r: seq<Issue>)
    requires issues == Upto(e, 4)
    ensures r == Upto(e, 5)
  {
    r := issues;
    if e.details == "" || |e.details| < 10 {
      if e.category in ["condition", "treatment", "test"] {
        r := r + [Issue(e.date, e.item, InsufficientDetails, Describe(InsufficientDetails, e))];
      }
    }
    assert Upto(e, 5) == issues + Piece(InsufficientDetails, e);
  }

  /** The `condition` block: a suspected-diagnosis mismatch, or else a missing qualifier. */
  method CheckCondition(e: TV.Row) returns (issues: seq<Issue>)
    ensures issues == Upto(e, 2)
  {
    issues := [];
    if e.category == "condition" {
      var lowered := Lower(e.details);
      ConditionGuards(e);
      if e.event == "diagnosed" && (Contains(lowered, "suspected") || Contains(lowered, "possible")) {
        issues := issues + [Issue(e.date, e.item, DiagnosisSuspectedMismatch, Describe(DiagnosisSuspectedMismatch, e))];
      } else if e.event == "suspected" && !(Contains(lowered, "suspected") || Contains(lowered, "possible") || Contains(lowered, "unclear")) {
        issues := issues + [Issue(e.date, e.item, SuspectedMissingQualifier, Describe(SuspectedMissingQualifier, e))];
      }
    }
    UptoTwo(e);
  }

  /** The guards of the `condition` block are the two condition rules. */
  lemma ConditionGuards(e: TV.Row)
    requires e.category == "condition"
    ensures var lowered := Lower(e.details);
      Mismatch(e) <==> e.event == "diagnosed" && (Contains(lowered, "suspected") || Contains(lowered, "possible"))
    ensures var lowered := Lower(e.details);
      MissingQualifier(e) <==>
        e.event == "suspected" && !(Contains(lowered, "suspected") || Contains(lowered, "possible") || Contains(lowered, "unclear"))
  {
    AnyOfTwo(Lower(e.details), MismatchWords);
    AnyOfThree(Lower(e.details), QualifierWords);
  }

  /** The first two checks give at most one issue, of the rule that holds. */
  lemma UptoTwo(e: TV.Row)
    ensures Upto(e, 2) == Piece(DiagnosisSuspectedMismatch, e) + Piece(SuspectedMissingQualifier, e)
    ensures e.category != "condition" ==> Upto(e, 2) == []
  {
    assert Upto(e, 1) == Piece(DiagnosisSuspectedMismatch, e);
  }

  lemma AnyOfTwo(hay: string, words: seq<string>)
    requires |words| == 2
    ensures ContainsAny(hay, words) <==> Contains(hay, words[0]) || Contains(hay, words[1])
  {
    if Contains(hay, words[0]) {
      assert Contains(hay, words[0]) && 0 < |words|;
    }
    if Contains(hay, words[1]) {
      assert Contains(hay, words[1]) && 1 < |words|;
    }
  }

  lemma AnyOfThree(hay: string, words: seq<string>)
    requires |words| == 3
    ensures ContainsAny(hay, words) <==> Contains(hay, words[0]) || Contains(hay, words[1]) || Contains(hay, words[2])
  {
    if Contains(hay, words[2]) {
      assert Contains(hay, words[2]) && 2 < |words|;
    }
  }

  /** The two condition rules never both fire. */
  lemma ConditionRulesExclusive(e: TV.Row)
    ensures !(HasKind(Upto(e, 5), DiagnosisSuspectedMismatch) && HasKind(Upto(e, 5), SuspectedMissingQualifier))
  {
    UptoKinds(e, 5, DiagnosisSuspectedMismatch);
    UptoKinds(e, 5, SuspectedMissingQualifier);
  }

  /** A flagged condition event is itself a valid one, so the rules never double up. */
  lemma ConditionRulesAreValidEvents(e: TV.Row)
    requires Mismatch(e) || MissingQualifier(e)
    ensures !InvalidEvent(e)
  {
  }

  /** Empty details on any known category other than symptom and watch raise `insufficient_details`. */
  lemma EmptyDetailsAreThin(e: TV.Row)
    requires e.details == "" && e.category in {"condition", "treatment", "test"}
    ensures ThinDetails(e)
  {
  }
}
