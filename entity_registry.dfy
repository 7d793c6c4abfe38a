/**
 * The entity registry: every tracked health entity (condition, symptom,
 * medication, supplement, experiment, provider visit, to-do) with its current
 * state, a per-category state machine that decides which events may follow
 * which state, sequential `ent-NNN` ids, a name index keyed by normalised
 * name, and the history of every event applied.
 *
 * Dates are integer day keys. The entity objects the source mutates in place
 * are values here, stored under their key in `entities`; a method that
 * updates an entity writes the new value back under the same key.
 */
module EntityRegistry {
  import opened Wrappers
  import opened Strings
  import opened Decimal
  import opened Seqs

  // ---------------------------------------------------------------------------
  // State machine
  // ---------------------------------------------------------------------------

  /**
   * `VALID_TRANSITIONS.get(category, {}).get(state, set())`: the events that
   * may follow `state` (`None` for an entity that does not exist yet).
   */
  function Transitions(category: string, state: Option<string>): set<string>
  {
    match state
    case None =>
      if category == "condition" then {"diagnosed", "suspected", "noted", "flare"}
      else if category == "symptom" then {"noted"}
      else if category == "medication" || category == "supplement" || category == "experiment" then {"started"}
      else if category == "provider" then {"visit"}
      else if category == "todo" then {"added"}
      else {}
    case Some(s) =>
      if category == "condition" then
        if s == "diagnosed" then {"diagnosed", "improved", "worsened", "stable", "resolved", "flare"}
        else if s == "suspected" then {"suspected", "diagnosed", "improved", "worsened", "stable", "resolved", "flare"}
        else if s == "noted" then {"noted", "improved", "worsened", "stable", "resolved", "flare"}
        else if s == "flare" then {"improved", "worsened", "stable", "resolved"}
        else if s == "improved" || s == "worsened" || s == "stable" then {"improved", "worsened", "stable", "resolved", "flare"}
        else if s == "resolved" then {"flare"}
        else {}
      else if category == "symptom" then
        // `resolved` has no successors
        if s == "noted" || s == "improved" || s == "worsened" || s == "stable" then {"improved", "worsened", "stable", "resolved"}
        else {}
      else if category == "medication" || category == "supplement" then
        // `stopped` has no successors: a restart is a new entity
        if s == "started" || s == "adjusted" then {"adjusted", "stopped"}
        else {}
      else if category == "experiment" then
        // `ended` has no successors
        if s == "started" || s == "update" then {"update", "ended"}
        else {}
      else if category == "todo" then
        // `completed` has no successors
        if s == "added" then {"completed"}
        else {}
      else
        // a provider `visit` has no successors: each visit is its own entity
        {}
  }

  /** The events that close an entity. */
  const TerminalEvents: set<string> := {"stopped", "resolved", "ended", "completed"}

  /**
   * The terminal states of each category admit no further event, except
   * that a resolved condition may flare again; a provider visit admits none.
   */
  lemma TerminalStatesClosed(category: string, state: string)
    requires state in TerminalEvents || (category == "provider" && state == "visit")
    ensures Transitions(category, Some(state)) == (if category == "condition" && state == "resolved" then {"flare"} else {})
  {
  }

  /** Every event a state admits is an event of that category's machine. */
  lemma {:induction false} TerminalOnlyAfterTerminalEvent(category: string, state: Option<string>, event: string)
    requires event in Transitions(category, state) && event in TerminalEvents
    ensures event == "resolved" || event == "stopped" || event == "ended" || event == "completed"
    ensures category == "condition" || category == "symptom" ==> event == "resolved"
    ensures category == "medication" || category == "supplement" ==> event == "stopped"
    ensures category == "experiment" ==> event == "ended"
    ensures category == "todo" ==> event == "completed"
  {
    assert category == "condition" || category == "symptom" || category == "medication" ||
      category == "supplement" || category == "experiment" || category == "todo";
  }

  // ---------------------------------------------------------------------------
  // Ids
  // ---------------------------------------------------------------------------

  /** `f"ent-{n:03d}"` */
  function Id(n: nat): string
  {
    "ent-" + Pad3(n)
  }

  /** Distinct counters give distinct ids. */
  lemma IdInjective(a: nat, b: nat)
    requires Id(a) == Id(b)
    ensures a == b
  {
    assert Id(a)[4..] == Pad3(a);
    assert Id(b)[4..] == Pad3(b);
    Pad3Injective(a, b);
  }

  /** The ids issued before the counter reached `n`: `ent-001` up to `n - 1`. */
  function IdsBelow(n: nat): (ids: seq<string>)
    ensures |ids| == if n == 0 then 0 else n - 1
    ensures forall i :: 0 <= i < |ids| ==> ids[i] == Id(i + 1)
  {
    if n <= 1 then [] else IdsBelow(n - 1) + [Id(n - 1)]
  }

  /** The id the counter `n` issues has not been issued before. */
  lemma {:induction false} IdNotBelow(n: nat, m: nat)
    requires m <= n
    ensures Id(n) !in IdsBelow(m)
  {
    if m > 1 {
      IdNotBelow(n, m - 1);
      if Id(n) == Id(m - 1) {
        IdInjective(n, m - 1);
      }
    }
  }

  /** Issued ids never repeat. */
  lemma {:induction false} IdsBelowDistinct(n: nat)
    ensures Distinct(IdsBelow(n))
  {
    if n > 1 {
      IdsBelowDistinct(n - 1);
      IdNotBelow(n - 1, n - 1);
      AppendDistinct(IdsBelow(n - 1), Id(n - 1));
    }
  }

  // ---------------------------------------------------------------------------
  // Records
  // ---------------------------------------------------------------------------

  /** A tracked entity. */
  datatype Entity = Entity(
    id: string,
    entityType: string,
    canonicalName: string,
    currentState: string,
    firstSeen: int,
    lastUpdated: int,
    relatedTo: Option<string>)
  {
    /** `is_terminal`: the entity is in a state that closes it. */
    predicate IsTerminal()
    {
      currentState in TerminalEvents
    }
  }

  /** One line of the history log. */
  datatype HistoryEvent = HistoryEvent(
    date: int,
    entityId: string,
    name: string,
    entityType: string,
    event: string,
    details: string,
    relatedEntity: string)

  /** The warnings `apply_event` returns, carrying the values its messages name. */
  datatype Warning =
    | ConditionNotFound(condition: string, entityType: string, name: string)
    | InvalidTransition(name: string, entityType: string, from: string, event: string)
    | NonInitialCreate(name: string, entityType: string, event: string)

  // ---------------------------------------------------------------------------
  // Name normalisation
  // ---------------------------------------------------------------------------

  /** Drops the apostrophe-like characters `'` and `` ` ``. */
  function RemoveApostrophes(s: string): (r: string)
    ensures forall c :: c in r ==> c in s && c != '\'' && c != '`'
    ensures (forall c :: c in s ==> c != '\'' && c != '`') ==> r == s
  {
    if s == [] then []
    else
      assert forall c :: c in s[1..] ==> c in s;
      assert s == [s[0]] + s[1..] && s[0] in s;
      if s[0] == '\'' || s[0] == '`' then RemoveApostrophes(s[1..])
      else [s[0]] + RemoveApostrophes(s[1..])
  }

  /** `re.sub(r'\s+', ' ', s)`: each run of whitespace becomes one space. */
  function CollapseSpaces(s: string): (r: string)
    ensures s == [] <==> r == []
    ensures s != [] && IsSpace(s[0]) ==> r[0] == ' '
    ensures s != [] && !IsSpace(s[0]) ==> r[0] == s[0]
    ensures forall c :: c in r ==> c in s || c == ' '
    ensures forall i :: 0 <= i < |r| && IsSpace(r[i]) ==> r[i] == ' '
    ensures forall i :: 0 <= i && i + 1 < |r| ==> !(r[i] == ' ' && r[i + 1] == ' ')
    decreases |s|
  {
    if s == [] then []
    else if IsSpace(s[0]) then
      var rest := TrimLeft(s[1..]);
      var tail := CollapseSpaces(rest);
      assert forall c :: c in rest ==> c in s;
      [' '] + tail
    else
      var tail := CollapseSpaces(s[1..]);
      [s[0]] + tail
  }

  /** Spaces are already single, and the only whitespace: collapsing changes nothing. */
  lemma {:induction false} CollapseSpacesFixed(s: string)
    requires forall i :: 0 <= i < |s| && IsSpace(s[i]) ==> s[i] == ' '
    requires forall i :: 0 <= i && i + 1 < |s| ==> !(s[i] == ' ' && s[i + 1] == ' ')
    ensures CollapseSpaces(s) == s
    decreases |s|
  {
    if s != [] {
      var t := s[1..];
      assert forall i :: 0 <= i < |t| ==> t[i] == s[i + 1];
      if IsSpace(s[0]) {
        assert t == [] || !IsSpace(t[0]);
        assert TrimLeft(t) == t;
      }
      CollapseSpacesFixed(t);
    }
  }

  /** Lower-casing a string with no upper-case letter changes nothing. */
  lemma LowerFixed(s: string)
    requires forall c :: c in s ==> !IsUpperAscii(c)
    ensures Lower(s) == s
  {
    assert forall i :: 0 <= i < |s| ==> s[i] in s;
  }

  /**
   * `_normalize_name` with the dosage and possessive rewrites left out:
   * lower-case, strip, drop apostrophes, collapse whitespace, strip.
   */
  function Normalize(name: string): (r: string)
    ensures forall c :: c in r ==> !IsUpperAscii(c) && c != '\'' && c != '`'
    ensures forall i :: 0 <= i < |r| && IsSpace(r[i]) ==> r[i] == ' '
    ensures forall i :: 0 <= i && i + 1 < |r| ==> !(r[i] == ' ' && r[i + 1] == ' ')
    ensures r == [] || (r[0] != ' ' && r[|r| - 1] != ' ')
  {
    var lowered := Lower(name);
    assert forall c :: c in lowered ==> !IsUpperAscii(c) by {
      forall c | c in lowered ensures !IsUpperAscii(c) {
        var i :| 0 <= i < |lowered| && lowered[i] == c;
      }
    }
    var collapsed := CollapseSpaces(RemoveApostrophes(Strip(lowered)));
    var r := Strip(collapsed);
    StripPreservesSpacing(collapsed);
    r
  }

  /** Stripping keeps a string's single, plain spaces single and plain. */
  lemma StripPreservesSpacing(s: string)
    requires forall i :: 0 <= i < |s| && IsSpace(s[i]) ==> s[i] == ' '
    requires forall i :: 0 <= i && i + 1 < |s| ==> !(s[i] == ' ' && s[i + 1] == ' ')
    ensures var r := Strip(s);
      (forall i :: 0 <= i < |r| && IsSpace(r[i]) ==> r[i] == ' ') &&
      (forall i :: 0 <= i && i + 1 < |r| ==> !(r[i] == ' ' && r[i + 1] == ' '))
  {
    var r := Strip(s);
    var k := StripIsSlice(s);
    assert forall i :: 0 <= i < |r| ==> r[i] == s[k + i];
  }

  lemma {:induction false} TrimLeftIsSuffix(s: string)
    ensures var r := TrimLeft(s); |r| <= |s| && r == s[|s| - |r|..]
    decreases |s|
  {
    if s != [] && IsSpace(s[0]) {
      TrimLeftIsSuffix(s[1..]);
    }
  }

  lemma {:induction false} TrimRightIsPrefix(s: string)
    ensures var r := TrimRight(s); |r| <= |s| && r == s[..|r|]
    decreases |s|
  {
    if s != [] && IsSpace(s[|s| - 1]) {
      TrimRightIsPrefix(s[..|s| - 1]);
    }
  }

  /** `s.strip()` is a contiguous piece of `s`. */
  lemma StripIsSlice(s: string) returns (k: nat)
    ensures k + |Strip(s)| <= |s| && Strip(s) == s[k..k + |Strip(s)|]
  {
    var t := TrimLeft(s);
    TrimLeftIsSuffix(s);
    TrimRightIsPrefix(t);
    k := |s| - |t|;
  }

  /** Normalising a normalised name changes nothing, so index keys are stable. */
  lemma NormalizeIdempotent(name: string)
    ensures Normalize(Normalize(name)) == Normalize(name)
  {
    var n := Normalize(name);
    LowerFixed(n);
    StripNoSpace(n);
    CollapseSpacesFixed(n);
  }

  // ---------------------------------------------------------------------------
  // Registry state as a value
  // ---------------------------------------------------------------------------

  /**
   * The registry's fields. `order` is the insertion order of the keys of
   * `entities`, which is the order in which Python iterates the dict.
   */
  datatype State = State(
    entities: map<string, Entity>,
    order: seq<string>,
    history: seq<HistoryEvent>,
    nextId: nat,
    nameIndex: map<string, seq<string>>)
  {
    /** `order` lists every key of `entities` exactly once. */
    ghost predicate Valid()
    {
      Distinct(order) && (forall k :: k in entities <==> k in order)
    }

    /**
     * Every entity was created by this registry: the keys are the ids
     * issued so far, in issue order, and each entity carries its own key.
     */
    ghost predicate Sequential()
    {
      Valid() && nextId >= 1 && order == IdsBelow(nextId) &&
      (forall k :: k in entities ==> entities[k].id == k)
    }
  }

  /** A freshly constructed registry. */
  const Empty: State := State(map[], [], [], 1, map[])

  lemma EmptySequential()
    ensures Empty.Sequential()
  {
  }

  /** A sequential registry's keys are `ent-001`, `ent-002`, ... without gap or repeat. */
  lemma SequentialIdsGapFree(s: State)
    requires s.Sequential()
    ensures Distinct(s.order)
    ensures |s.order| == s.nextId - 1
    ensures forall i :: 0 <= i < |s.order| ==> s.order[i] == Id(i + 1)
    ensures Id(s.nextId) !in s.entities
  {
    IdsBelowDistinct(s.nextId);
    IdNotBelow(s.nextId, s.nextId);
    assert Id(s.nextId) !in s.order;
  }

  /** `_name_index.get(normalized, [])` */
  function IndexOf(s: State, normalized: string): seq<string>
  {
    if normalized in s.nameIndex then s.nameIndex[normalized] else []
  }

  // ---------------------------------------------------------------------------
  // Lookup
  // ---------------------------------------------------------------------------

  /** The entity under `eid` exists, has the type, and is live unless terminals are included. */
  predicate Matches(ents: map<string, Entity>, eid: string, entityType: string, includeTerminal: bool)
  {
    eid in ents && ents[eid].entityType == entityType && (includeTerminal || !ents[eid].IsTerminal())
  }

  /** The position of the last id in `ids` that matches, or -1 when none does. */
  function LatestIndex(ents: map<string, Entity>, ids: seq<string>, entityType: string, includeTerminal: bool): (i: int)
    ensures -1 <= i < |ids|
    ensures i >= 0 ==> Matches(ents, ids[i], entityType, includeTerminal)
    ensures forall j :: i < j < |ids| ==> !Matches(ents, ids[j], entityType, includeTerminal)
    decreases |ids|
  {
    if ids == [] then -1
    else if Matches(ents, ids[|ids| - 1], entityType, includeTerminal) then |ids| - 1
    else LatestIndex(ents, ids[..|ids| - 1], entityType, includeTerminal)
  }

  /** The id at `i` matches and no later id of `ids` does. */
  ghost predicate LatestAt(ents: map<string, Entity>, ids: seq<string>, i: int, entityType: string, includeTerminal: bool)
  {
    0 <= i < |ids| && Matches(ents, ids[i], entityType, includeTerminal) &&
    forall j :: i < j < |ids| ==> !Matches(ents, ids[j], entityType, includeTerminal)
  }

  /**
   * `find_entity`: the key of the most recently indexed entity that matches
   * the normalised name, or nothing exactly when no indexed entity matches.
   */
  function Find(s: State, name: string, entityType: string, includeTerminal: bool): (r: Option<string>)
    ensures var ids := IndexOf(s, Normalize(name));
      (r.None? ==> forall j :: 0 <= j < |ids| ==> !Matches(s.entities, ids[j], entityType, includeTerminal)) &&
      (r.Some? ==> exists i :: LatestAt(s.entities, ids, i, entityType, includeTerminal) && ids[i] == r.value)
    ensures r.Some? ==> Matches(s.entities, r.value, entityType, includeTerminal)
  {
    var ids := IndexOf(s, Normalize(name));
    var i := LatestIndex(s.entities, ids, entityType, includeTerminal);
    assert i >= 0 ==> LatestAt(s.entities, ids, i, entityType, includeTerminal);
    if i < 0 then None else Some(ids[i])
  }

  // ---------------------------------------------------------------------------
  // Creating entities and recording events
  // ---------------------------------------------------------------------------

  /** `related_to or None` */
  function RelatedOrNone(related: string): Option<string>
  {
    if related == "" then None else Some(related)
  }

  /** `_create_entity` on the state: a fresh id, the new entity, and its index entry. */
  function Create(s: State, entityType: string, name: string, initial: string, date: int, related: string): (r: State)
    requires s.Valid()
    ensures r.Valid()
    ensures var id := Id(s.nextId);
      id in r.entities && r.entities[id] == Entity(id, entityType, name, initial, date, date, RelatedOrNone(related))
    ensures r.nextId == s.nextId + 1 && r.history == s.history
    ensures IndexOf(r, Normalize(name)) == IndexOf(s, Normalize(name)) + [Id(s.nextId)]
    ensures forall n :: n != Normalize(name) ==> IndexOf(r, n) == IndexOf(s, n)
    ensures forall k :: k in s.entities && k != Id(s.nextId) ==> k in r.entities && r.entities[k] == s.entities[k]
    ensures forall k :: k in r.entities ==> k in s.entities || k == Id(s.nextId)
    ensures Id(s.nextId) !in s.entities ==> r.order == s.order + [Id(s.nextId)]
  {
    var id := Id(s.nextId);
    var e := Entity(id, entityType, name, initial, date, date, RelatedOrNone(related));
    var normalized := Normalize(name);
    assert id !in s.entities ==> Distinct(s.order + [id]) by {
      if id !in s.entities { AppendDistinct(s.order, id); }
    }
    s.(entities := s.entities[id := e],
       order := if id in s.entities then s.order else s.order + [id],
       nextId := s.nextId + 1,
       nameIndex := s.nameIndex[normalized := IndexOf(s, normalized) + [id]])
  }

  /** Creating keeps a registry sequential: the new key is the next id in line. */
  lemma CreateSequential(s: State, entityType: string, name: string, initial: string, date: int, related: string)
    requires s.Sequential()
    ensures var r := Create(s, entityType, name, initial, date, related);
      r.Sequential() && r.order == s.order + [Id(s.nextId)]
  {
    SequentialIdsGapFree(s);
    var r := Create(s, entityType, name, initial, date, related);
    assert r.order == IdsBelow(r.nextId);
  }

  /** `_record_event`'s history line for `entity` as it stands after the update. */
  function Record(entity: Entity, date: int, event: string, details: string, related: string): HistoryEvent
  {
    HistoryEvent(date, entity.id, entity.canonicalName, entity.entityType, event, details, related)
  }

  // ---------------------------------------------------------------------------
  // apply_event
  // ---------------------------------------------------------------------------

  /** What `apply_event` returns, with the registry state it leaves behind. */
  datatype Outcome = Outcome(state: State, key: string, recorded: HistoryEvent, warnings: seq<Warning>)

  /** The related condition's id (or "") and the warning when it is not found. */
  datatype Link = Link(related: string, warnings: seq<Warning>)

  /** Resolving `for_condition` (empty means absent) to an entity id. */
  function LinkOf(s: State, forCondition: string, entityType: string, name: string): (l: Link)
    ensures forCondition == "" ==> l == Link("", [])
    ensures forCondition != "" ==>
      match Find(s, forCondition, "condition", true)
      case Some(k) => k in s.entities && s.entities[k].entityType == "condition" &&
        l == Link(s.entities[k].id, [])
      case None => l == Link("", [ConditionNotFound(forCondition, entityType, name)])
  {
    if forCondition == "" then Link("", [])
    else match Find(s, forCondition, "condition", true)
      case Some(k) => Link(s.entities[k].id, [])
      case None => Link("", [ConditionNotFound(forCondition, entityType, name)])
  }

  /**
   * What every path of `apply_event` guarantees: one history event is
   * appended, for the entity returned; an existing entity is updated in place
   * or a fresh id is issued; every other entity is left as it was.
   */
  ghost predicate Sound(s: State, o: Outcome, date: int, event: string, details: string, related: string)
  {
    o.state.Valid() &&
    o.key in o.state.entities &&
    o.state.history == s.history + [o.recorded] &&
    o.recorded == Record(o.state.entities[o.key], date, o.recorded.event, details, related) &&
    (o.recorded.event == event || o.recorded.event == "adjusted") &&
    ((o.key in s.entities && o.state.nextId == s.nextId && o.state.order == s.order && o.state.nameIndex == s.nameIndex) ||
     (o.key == Id(s.nextId) && o.state.nextId == s.nextId + 1)) &&
    (forall k :: k in s.entities && k != o.key ==> k in o.state.entities && o.state.entities[k] == s.entities[k]) &&
    (forall k :: k in o.state.entities ==> k in s.entities || k == o.key) &&
    (s.Sequential() ==> o.state.Sequential())
  }

  /** Stores `entity` under `k` and records `event` for it. */
  function Touch(s: State, k: string, entity: Entity, date: int, event: string, details: string, l: Link, extra: seq<Warning>): (o: Outcome)
    requires s.Valid() && k in s.entities && entity.id == s.entities[k].id
    ensures Sound(s, o, date, event, details, l.related)
    ensures o.key == k && o.state.entities[k] == entity && o.warnings == l.warnings + extra
  {
    var h := Record(entity, date, event, details, l.related);
    Outcome(s.(entities := s.entities[k := entity], history := s.history + [h]), k, h, l.warnings + extra)
  }

  /** Creates a new entity in state `event` and records `event` for it. */
  function CreateAndRecord(s: State, entityType: string, name: string, event: string, date: int, details: string, l: Link, extra: seq<Warning>): (o: Outcome)
    requires s.Valid()
    ensures Sound(s, o, date, event, details, l.related)
    ensures o.key == Id(s.nextId) && o.warnings == l.warnings + extra
    ensures o.state.entities[o.key] == Entity(o.key, entityType, name, event, date, date, RelatedOrNone(l.related))
  {
    var c := Create(s, entityType, name, event, date, l.related);
    assert s.Sequential() ==> c.Sequential() by {
      if s.Sequential() { CreateSequential(s, entityType, name, event, date, l.related); }
    }
    var k := Id(s.nextId);
    var h := Record(c.entities[k], date, event, details, l.related);
    Outcome(c.(history := c.history + [h]), k, h, l.warnings + extra)
  }

  /** `apply_event` when a live entity of the type and name exists under `k`. */
  function ApplyExisting(s: State, k: string, date: int, entityType: string, name: string, event: string, details: string, l: Link): (o: Outcome)
    requires s.Valid() && k in s.entities
    ensures Sound(s, o, date, event, details, l.related) && o.key == k
  {
    var e := s.entities[k];
    var validNext := Transitions(entityType, Some(e.currentState));
    if event in validNext then
      Touch(s, k, e.(currentState := event, lastUpdated := date, canonicalName := name), date, event, details, l, [])
    else if event in Transitions(entityType, None) then
      if name != e.canonicalName && "adjusted" in validNext then
        Touch(s, k, e.(currentState := "adjusted", canonicalName := name, lastUpdated := date), date, "adjusted", details, l, [])
      else
        Touch(s, k, e.(canonicalName := name, lastUpdated := date), date, event, details, l, [])
    else
      Touch(s, k, e, date, event, details, l, [InvalidTransition(name, entityType, e.currentState, event)])
  }

  /** `apply_event` when no live entity of the type and name exists. */
  function ApplyNew(s: State, date: int, entityType: string, name: string, event: string, details: string, l: Link): (o: Outcome)
    requires s.Valid()
    ensures Sound(s, o, date, event, details, l.related)
  {
    if event in Transitions(entityType, None) then
      CreateAndRecord(s, entityType, name, event, date, details, l, [])
    else match Find(s, name, entityType, true)
      case Some(k) =>
        var e := s.entities[k];
        if e.IsTerminal() && event in Transitions(entityType, Some(e.currentState)) then
          Touch(s, k, e.(currentState := event, lastUpdated := date), date, event, details, l, [])
        else
          CreateAndRecord(s, entityType, name, event, date, details, l, [NonInitialCreate(name, entityType, event)])
      case None =>
        CreateAndRecord(s, entityType, name, event, date, details, l, [NonInitialCreate(name, entityType, event)])
  }

  /** `apply_event`, whose every path is `Sound`. */
  function Apply(s: State, date: int, entityType: string, name: string, event: string, details: string, forCondition: string): (o: Outcome)
    requires s.Valid()
    ensures Sound(s, o, date, event, details, LinkOf(s, forCondition, entityType, name).related)
  {
    var l := LinkOf(s, forCondition, entityType, name);
    if entityType == "provider" || entityType == "todo" then
      CreateAndRecord(s, entityType, name, event, date, details, l, [])
    else match Find(s, name, entityType, false)
      case Some(k) => ApplyExisting(s, k, date, entityType, name, event, details, l)
      case None => ApplyNew(s, date, entityType, name, event, details, l)
  }

  /** Provider visits and to-dos always create a new entity, whatever the event. */
  lemma ProviderAndTodoAlwaysCreate(s: State, date: int, entityType: string, name: string, event: string, details: string, forCondition: string)
    requires s.Valid() && (entityType == "provider" || entityType == "todo")
    ensures var o := Apply(s, date, entityType, name, event, details, forCondition);
      o.key == Id(s.nextId) && o.state.nextId == s.nextId + 1 &&
      o.state.entities[o.key] == Entity(o.key, entityType, name, event, date, date,
        RelatedOrNone(LinkOf(s, forCondition, entityType, name).related)) &&
      o.warnings == LinkOf(s, forCondition, entityType, name).warnings
  {
  }

  /** A transition the state machine allows moves the live entity to the event's state. */
  lemma ValidTransitionAdvances(s: State, date: int, entityType: string, name: string, event: string, details: string, forCondition: string, k: string)
    requires s.Valid() && entityType != "provider" && entityType != "todo"
    requires Find(s, name, entityType, false) == Some(k)
    requires event in Transitions(entityType, Some(s.entities[k].currentState))
    ensures var o := Apply(s, date, entityType, name, event, details, forCondition);
      o.key == k && o.state.entities[k].currentState == event && o.state.entities[k].lastUpdated == date &&
      o.state.entities[k].canonicalName == name && o.state.nextId == s.nextId &&
      o.warnings == LinkOf(s, forCondition, entityType, name).warnings
  {
  }

  /**
   * An event that is neither a valid transition nor an initial event leaves
   * the live entity unchanged and adds exactly one transition warning.
   */
  lemma InvalidTransitionKeepsEntity(s: State, date: int, entityType: string, name: string, event: string, details: string, forCondition: string, k: string)
    requires s.Valid() && entityType != "provider" && entityType != "todo"
    requires Find(s, name, entityType, false) == Some(k)
    requires event !in Transitions(entityType, Some(s.entities[k].currentState))
    requires event !in Transitions(entityType, None)
    ensures var o := Apply(s, date, entityType, name, event, details, forCondition);
      o.key == k && o.state.entities == s.entities && o.state.nextId == s.nextId &&
      o.recorded.event == event &&
      o.warnings == LinkOf(s, forCondition, entityType, name).warnings +
        [InvalidTransition(name, entityType, s.entities[k].currentState, event)]
  {
    assert s.entities[k := s.entities[k]] == s.entities;
  }

  /**
   * An initial event on a live entity never creates a duplicate: a renamed
   * entity whose state admits `adjusted` is adjusted, otherwise its state is kept.
   */
  lemma InitialEventOnLiveEntity(s: State, date: int, entityType: string, name: string, event: string, details: string, forCondition: string, k: string)
    requires s.Valid() && entityType != "provider" && entityType != "todo"
    requires Find(s, name, entityType, false) == Some(k)
    requires event !in Transitions(entityType, Some(s.entities[k].currentState))
    requires event in Transitions(entityType, None)
    ensures var o := Apply(s, date, entityType, name, event, details, forCondition);
      var old_ := s.entities[k];
      o.key == k && o.state.nextId == s.nextId &&
      o.state.entities[k].canonicalName == name && o.state.entities[k].lastUpdated == date &&
      o.state.entities[k].currentState ==
        (if name != old_.canonicalName && "adjusted" in Transitions(entityType, Some(old_.currentState))
         then "adjusted" else old_.currentState)
  {
  }

  /**
   * With no live match and a non-initial event, a terminal entity is reopened
   * when its state admits the event (a resolved condition that flares);
   * otherwise a new entity is created with a warning.
   */
  lemma NonInitialWithoutLiveEntity(s: State, date: int, entityType: string, name: string, event: string, details: string, forCondition: string)
    requires s.Valid() && entityType != "provider" && entityType != "todo"
    requires Find(s, name, entityType, false) == None
    requires event !in Transitions(entityType, None)
    ensures var o := Apply(s, date, entityType, name, event, details, forCondition);
      var l := LinkOf(s, forCondition, entityType, name);
      match Find(s, name, entityType, true)
      case Some(k) =>
        if event in Transitions(entityType, Some(s.entities[k].currentState)) then
          o.key == k && o.state.entities[k].currentState == event && o.warnings == l.warnings
        else
          o.key == Id(s.nextId) && o.warnings == l.warnings + [NonInitialCreate(name, entityType, event)]
      case None =>
        o.key == Id(s.nextId) && o.warnings == l.warnings + [NonInitialCreate(name, entityType, event)]
  {
    var ids := IndexOf(s, Normalize(name));
    match Find(s, name, entityType, true)
    case Some(k) =>
      var i := LatestIndex(s.entities, ids, entityType, true);
      assert ids[i] == k;
      assert !Matches(s.entities, ids[i], entityType, false);
      assert s.entities[k].IsTerminal();
    case None =>
  }

  // ---------------------------------------------------------------------------
  // process_stack_update
  // ---------------------------------------------------------------------------

  /** The normalised names of the items a comprehensive update lists. */
  function Mentioned(items: seq<string>): set<string>
  {
    set n | n in items :: Normalize(n)
  }

  /** A live entity of a listed category whose name the update does not mention. */
  predicate ShouldStop(e: Entity, categories: seq<string>, mentioned: set<string>)
  {
    e.entityType in categories && !e.IsTerminal() && Normalize(e.canonicalName) !in mentioned
  }

  /** Medications and supplements stop; everything else ends. */
  function StopEvent(entityType: string): (ev: string)
    ensures ev in TerminalEvents
  {
    if entityType == "medication" || entityType == "supplement" then "stopped" else "ended"
  }

  function Stopped(e: Entity, date: int): Entity
  {
    e.(currentState := StopEvent(e.entityType), lastUpdated := date)
  }

  /** The history line of an implicit stop. */
  function StopRecord(e: Entity, date: int): HistoryEvent
  {
    HistoryEvent(date, e.id, e.canonicalName, e.entityType, StopEvent(e.entityType),
      "[STACK_UPDATE] Not in current stack", "")
  }

  /** The entities after the keys in `keys` have been visited. */
  function StopUnmentioned(ents: map<string, Entity>, keys: seq<string>, date: int, categories: seq<string>, mentioned: set<string>): map<string, Entity>
  {
    map k | k in ents :: if k in keys && ShouldStop(ents[k], categories, mentioned) then Stopped(ents[k], date) else ents[k]
  }

  /**
   * After a visit of every key: the same keys; terminal, unlisted and
   * mentioned entities untouched; each stopped entity terminal as of `date`
   * with nothing else changed; and no live, unmentioned entity of a listed
   * category left.
   */
  lemma StackUpdateEffect(ents: map<string, Entity>, keys: seq<string>, date: int, categories: seq<string>, mentioned: set<string>)
    requires forall k :: k in ents ==> k in keys
    ensures var r := StopUnmentioned(ents, keys, date, categories, mentioned);
      r.Keys == ents.Keys &&
      (forall k :: k in ents && !ShouldStop(ents[k], categories, mentioned) ==> r[k] == ents[k]) &&
      (forall k :: k in ents && ShouldStop(ents[k], categories, mentioned) ==>
        r[k].IsTerminal() && r[k].lastUpdated == date &&
        r[k].(currentState := ents[k].currentState, lastUpdated := ents[k].lastUpdated) == ents[k]) &&
      (forall k :: k in r && r[k].entityType in categories && !r[k].IsTerminal() ==>
        Normalize(r[k].canonicalName) in mentioned)
  {
  }

  /** The events the visit of `keys`, in order, appends. */
  function StackEvents(ents: map<string, Entity>, keys: seq<string>, date: int, categories: seq<string>, mentioned: set<string>): (r: seq<HistoryEvent>)
    requires forall k :: k in keys ==> k in ents
    ensures |r| <= |keys|
    ensures forall h :: h in r ==> h.date == date && h.event == StopEvent(h.entityType) && h.details == "[STACK_UPDATE] Not in current stack"
    decreases |keys|
  {
    if keys == [] then []
    else
      var k := keys[|keys| - 1];
      StackEvents(ents, keys[..|keys| - 1], date, categories, mentioned) +
      (if ShouldStop(ents[k], categories, mentioned) then [StopRecord(ents[k], date)] else [])
  }

  /** The events are exactly the stop records of the entities that should stop. */
  lemma {:induction false} StackEventsExact(ents: map<string, Entity>, keys: seq<string>, date: int, categories: seq<string>, mentioned: set<string>)
    requires forall k :: k in keys ==> k in ents
    ensures forall k :: k in keys && ShouldStop(ents[k], categories, mentioned) ==>
      StopRecord(ents[k], date) in StackEvents(ents, keys, date, categories, mentioned)
    ensures forall h :: h in StackEvents(ents, keys, date, categories, mentioned) ==>
      exists k :: k in keys && ShouldStop(ents[k], categories, mentioned) && h == StopRecord(ents[k], date)
    decreases |keys|
  {
    if keys != [] {
      var front := keys[..|keys| - 1];
      var last := keys[|keys| - 1];
      assert forall k :: k in front ==> k in keys;
      StackEventsExact(ents, front, date, categories, mentioned);
      assert forall k :: k in keys ==> k in front || k == last;
    }
  }

  // ---------------------------------------------------------------------------
  // get_active_entities
  // ---------------------------------------------------------------------------

  /** The filter passes when absent or empty, and otherwise on an equal type. */
  predicate Passes(e: Entity, filter: Option<string>)
  {
    !e.IsTerminal() && (filter.None? || filter.value == "" || e.entityType == filter.value)
  }

  /** The live entities under `keys`, in key order, that pass the filter. */
  function ActiveOf(ents: map<string, Entity>, keys: seq<string>, filter: Option<string>): (r: seq<Entity>)
    requires forall k :: k in keys ==> k in ents
    ensures |r| <= |keys|
    ensures forall e :: e in r ==> Passes(e, filter)
    decreases |keys|
  {
    if keys == [] then []
    else
      var k := keys[|keys| - 1];
      ActiveOf(ents, keys[..|keys| - 1], filter) + (if Passes(ents[k], filter) then [ents[k]] else [])
  }

  /** An entity is listed exactly when some key holds it and it passes the filter. */
  lemma {:induction false} ActiveMembers(ents: map<string, Entity>, keys: seq<string>, filter: Option<string>, e: Entity)
    requires forall k :: k in keys ==> k in ents
    ensures e in ActiveOf(ents, keys, filter) <==> exists k :: k in keys && ents[k] == e && Passes(e, filter)
    decreases |keys|
  {
    if keys != [] {
      var front := keys[..|keys| - 1];
      var last := keys[|keys| - 1];
      assert forall k :: k in front ==> k in keys;
      assert forall k :: k in keys ==> k in front || k == last;
      ActiveMembers(ents, front, filter, e);
    }
  }

  // ---------------------------------------------------------------------------
  // to_dict / from_dict
  // ---------------------------------------------------------------------------

  /**
   * The serialised registry. Each key may be absent, as in the dict that
   * `from_dict` reads with `data.get(key, default)`; entities are the
   * (key, record) pairs in dict order.
   */
  datatype Data = Data(
    nextId: Option<nat>,
    entities: Option<seq<(string, Entity)>>,
    history: Option<seq<HistoryEvent>>,
    nameIndex: Option<map<string, seq<string>>>)

  /** The (key, entity) pairs of `keys`, in order. */
  function Pairs(ents: map<string, Entity>, keys: seq<string>): (r: seq<(string, Entity)>)
    requires forall k :: k in keys ==> k in ents
    ensures |r| == |keys| && forall i :: 0 <= i < |r| ==> r[i] == (keys[i], ents[keys[i]])
  {
    seq(|keys|, i requires 0 <= i < |keys| => (keys[i], ents[keys[i]]))
  }

  /** `to_dict` */
  function Encode(s: State): Data
    requires s.Valid()
  {
    Data(Some(s.nextId), Some(Pairs(s.entities, s.order)), Some(s.history), Some(s.nameIndex))
  }

  /**
   * The entities and key order after `registry.entities[eid] = entity` for
   * each pair in turn: a repeated key keeps its first position and its last value.
   */
  function LoadEntities(pairs: seq<(string, Entity)>): (r: (map<string, Entity>, seq<string>))
    ensures Distinct(r.1) && (forall k :: k in r.0 <==> k in r.1)
    decreases |pairs|
  {
    if pairs == [] then (map[], [])
    else
      var prev := LoadEntities(pairs[..|pairs| - 1]);
      var (k, e) := pairs[|pairs| - 1];
      assert k !in prev.0 ==> Distinct(prev.1 + [k]) by {
        if k !in prev.0 { AppendDistinct(prev.1, k); }
      }
      (prev.0[k := e], if k in prev.0 then prev.1 else prev.1 + [k])
  }

  /** `from_dict`, with the defaults it uses for absent keys. */
  function Decode(d: Data): (s: State)
    ensures s.Valid()
  {
    var loaded := LoadEntities(d.entities.GetOr([]));
    State(loaded.0, loaded.1, d.history.GetOr([]), d.nextId.GetOr(1), d.nameIndex.GetOr(map[]))
  }

  /** The entries of `ents` under `keys`, added one key at a time. */
  function Restrict(ents: map<string, Entity>, keys: seq<string>): map<string, Entity>
    requires forall k :: k in keys ==> k in ents
    decreases |keys|
  {
    if keys == [] then map[]
    else
      assert forall k :: k in keys[..|keys| - 1] ==> k in keys;
      Restrict(ents, keys[..|keys| - 1])[keys[|keys| - 1] := ents[keys[|keys| - 1]]]
  }

  /** Restricting to all of the keys gives the map back. */
  lemma {:induction false} RestrictAll(ents: map<string, Entity>, keys: seq<string>)
    requires forall k :: k in keys ==> k in ents
    ensures forall k :: k in Restrict(ents, keys) <==> k in keys
    ensures forall k :: k in Restrict(ents, keys) ==> Restrict(ents, keys)[k] == ents[k]
    decreases |keys|
  {
    if keys != [] {
      assert forall k :: k in keys[..|keys| - 1] ==> k in keys;
      RestrictAll(ents, keys[..|keys| - 1]);
      assert forall k :: k in keys <==> k in keys[..|keys| - 1] || k == keys[|keys| - 1];
    }
  }

  /** Restricting to every key of the map gives the map back. */
  lemma RestrictEveryKey(ents: map<string, Entity>, keys: seq<string>)
    requires forall k :: k in ents <==> k in keys
    ensures Restrict(ents, keys) == ents
  {
    RestrictAll(ents, keys);
  }

  /** Loading one more pair stores it, and lists its key if it is new. */
  lemma LoadSnoc(pairs: seq<(string, Entity)>, p: (string, Entity))
    ensures var prev := LoadEntities(pairs);
      LoadEntities(pairs + [p]) == (prev.0[p.0 := p.1], if p.0 in prev.0 then prev.1 else prev.1 + [p.0])
  {
    assert (pairs + [p])[..|pairs|] == pairs;
  }

  /** Loading the pairs of distinct keys rebuilds exactly those entries, in that order. */
  lemma {:induction false} LoadPairs(ents: map<string, Entity>, keys: seq<string>)
    requires Distinct(keys) && forall k :: k in keys ==> k in ents
    ensures LoadEntities(Pairs(ents, keys)) == (Restrict(ents, keys), keys)
    decreases |keys|
  {
    if keys != [] {
      var front := keys[..|keys| - 1];
      var last := keys[|keys| - 1];
      DistinctFront(keys);
      assert keys == front + [last];
      LoadPairs(ents, front);
      LoadPairsStep(ents, front, last);
    }
  }

  lemma LoadPairsStep(ents: map<string, Entity>, front: seq<string>, last: string)
    requires last in ents && last !in front && forall k :: k in front ==> k in ents
    requires LoadEntities(Pairs(ents, front)) == (Restrict(ents, front), front)
    ensures LoadEntities(Pairs(ents, front + [last])) == (Restrict(ents, front + [last]), front + [last])
  {
    var keys := front + [last];
    assert keys[..|keys| - 1] == front;
    RestrictAll(ents, front);
    var pf := Pairs(ents, front);
    assert Pairs(ents, keys) == pf + [(last, ents[last])];
    LoadSnoc(pf, (last, ents[last]));
  }

  /** `from_dict(to_dict())` restores the registry. */
  lemma EncodeDecode(s: State)
    requires s.Valid()
    ensures Decode(Encode(s)) == s
  {
    LoadPairs(s.entities, s.order);
    RestrictEveryKey(s.entities, s.order);
  }

  // ---------------------------------------------------------------------------
  // The registry object
  // ---------------------------------------------------------------------------

  /** `EntityRegistry`: its methods update these fields in place. */
  class Registry {
    var entities: map<string, Entity>
    var order: seq<string>
    var history: seq<HistoryEvent>
    var nextId: nat
    var nameIndex: map<string, seq<string>>

    /** The registry's fields as a value. */
    function Current(): State
      reads this
    {
      State.State(entities, order, history, nextId, nameIndex)
    }

    ghost predicate Valid()
      reads this
    {
      Current().Valid()
    }

    constructor()
      ensures Current() == Empty
    {
      entities := map[];
      order := [];
      history := [];
      nextId := 1;
      nameIndex := map[];
    }

    /** `_generate_id`: hands out the counter's id and advances the counter by one. */
    method GenerateId() returns (id: string)
      modifies this
      ensures id == Id(old(nextId))
      ensures Current() == old(Current()).(nextId := old(nextId) + 1)
    {
      id := Id(nextId);
      nextId := nextId + 1;
    }

    /** `_create_entity` */
    method CreateEntity(entityType: string, name: string, initial: string, date: int, related: string) returns (entity: Entity)
      requires Valid()
      modifies this
      ensures Current() == Create(old(Current()), entityType, name, initial, date, related)
      ensures entity.id == Id(old(nextId)) && entity.id in entities && entities[entity.id] == entity
    {
      var entityId := GenerateId();
      entity := Entity(entityId, entityType, name, initial, date, date, RelatedOrNone(related));
      if entityId !in entities {
        order := order + [entityId];
      }
      entities := entities[entityId := entity];
      var normalized := Normalize(name);
      var indexed := if normalized in nameIndex then nameIndex[normalized] else [];
      nameIndex := nameIndex[normalized := indexed + [entityId]];
    }

    /** `_record_event`: appends the event for `entity` to the history. */
    method RecordEvent(date: int, entity: Entity, event: string, details: string, related: string) returns (h: HistoryEvent)
      modifies this
      ensures h == Record(entity, date, event, details, related)
      ensures Current() == old(Current()).(history := old(history) + [h])
    {
      h := HistoryEvent(date, entity.id, entity.canonicalName, entity.entityType, event, details, related);
      history := history + [h];
    }

    /** `find_entity`: scans the name's index list from its most recent end. */
    method FindEntity(name: string, entityType: string, includeTerminal: bool) returns (r: Option<string>)
      ensures r == Find(Current(), name, entityType, includeTerminal)
    {
      var normalized := Normalize(name);
      var ids := if normalized in nameIndex then nameIndex[normalized] else [];
      var i := |ids|;
      while i > 0
        invariant 0 <= i <= |ids|
        invariant forall j :: i <= j < |ids| ==> !Matches(entities, ids[j], entityType, includeTerminal)
      {
        i := i - 1;
        var eid := ids[i];
        if eid in entities && entities[eid].entityType == entityType {
          if includeTerminal || !entities[eid].IsTerminal() {
            assert LatestAt(entities, ids, i, entityType, includeTerminal);
            return Some(eid);
          }
        }
      }
      return None;
    }

    /** `find_condition_by_name`: conditions are found even when resolved. */
    method FindConditionByName(conditionName: string) returns (r: Option<string>)
      ensures r == Find(Current(), conditionName, "condition", true)
    {
      r := FindEntity(conditionName, "condition", true);
    }

    /** The opening of `apply_event`: resolve `for_condition` to a condition id. */
    method LinkCondition(forCondition: string, entityType: string, name: string) returns (l: Link)
      ensures l == LinkOf(Current(), forCondition, entityType, name)
    {
      l := Link("", []);
      if forCondition != "" {
        var related := FindConditionByName(forCondition);
        if related.Some? {
          l := Link(entities[related.value].id, []);
        } else {
          l := Link("", [ConditionNotFound(forCondition, entityType, name)]);
        }
      }
    }

    method CreateAndRecordEvent(entityType: string, name: string, event: string, date: int, details: string, l: Link)
      returns (entity: Entity, recorded: HistoryEvent)
      requires Valid()
      modifies this
      ensures var o := CreateAndRecord(old(Current()), entityType, name, event, date, details, l, []);
        Current() == o.state && entity == o.state.entities[o.key] && recorded == o.recorded
    {
      entity := CreateEntity(entityType, name, event, date, l.related);
      recorded := RecordEvent(date, entity, event, details, l.related);
    }

    /** `apply_event` once a live entity of the type and name was found under `k`. */
    method ApplyToExisting(k: string, date: int, entityType: string, name: string, event: string, details: string, l: Link)
      returns (entity: Entity, recorded: HistoryEvent, warnings: seq<Warning>)
      requires Valid() && k in entities
      modifies this
      ensures var o := ApplyExisting(old(Current()), k, date, entityType, name, event, details, l);
        Current() == o.state && entity == o.state.entities[o.key] && recorded == o.recorded && warnings == o.warnings
    {
      var existing := entities[k];
      var currentState := existing.currentState;
      var validNext := Transitions(entityType, Some(currentState));
      if event in validNext {
        existing := existing.(currentState := event, lastUpdated := date);
        if name != existing.canonicalName {
          existing := existing.(canonicalName := name);
        }
        entities := entities[k := existing];
        recorded := RecordEvent(date, existing, event, details, l.related);
        return existing, recorded, l.warnings;
      }
      var validInitial := Transitions(entityType, None);
      if event in validInitial {
        if name != existing.canonicalName {
          if "adjusted" in validNext {
            existing := existing.(currentState := "adjusted", canonicalName := name, lastUpdated := date);
            entities := entities[k := existing];
            recorded := RecordEvent(date, existing, "adjusted", details, l.related);
            return existing, recorded, l.warnings;
          }
          existing := existing.(canonicalName := name);
        }
        existing := existing.(lastUpdated := date);
        entities := entities[k := existing];
        recorded := RecordEvent(date, existing, event, details, l.related);
        return existing, recorded, l.warnings;
      }
      assert entities[k := existing] == entities;
      warnings := l.warnings + [InvalidTransition(name, entityType, currentState, event)];
      recorded := RecordEvent(date, existing, event, details, l.related);
      entity := existing;
    }

    /** `apply_event` when no live entity of the type and name exists. */
    method ApplyWithoutExisting(date: int, entityType: string, name: string, event: string, details: string, l: Link)
      returns (entity: Entity, recorded: HistoryEvent, warnings: seq<Warning>)
      requires Valid()
      modifies this
      ensures var o := ApplyNew(old(Current()), date, entityType, name, event, details, l);
        Current() == o.state && entity == o.state.entities[o.key] && recorded == o.recorded && warnings == o.warnings
    {
      var validInitial := Transitions(entityType, None);
      if event in validInitial {
        entity, recorded := CreateAndRecordEvent(entityType, name, event, date, details, l);
        return entity, recorded, l.warnings;
      }
      var terminal := FindEntity(name, entityType, true);
      if terminal.Some? && entities[terminal.value].IsTerminal() {
        var k := terminal.value;
        var e := entities[k];
        if event in Transitions(entityType, Some(e.currentState)) {
          e := e.(currentState := event, lastUpdated := date);
          entities := entities[k := e];
          recorded := RecordEvent(date, e, event, details, l.related);
          return e, recorded, l.warnings;
        }
      }
      warnings := l.warnings + [NonInitialCreate(name, entityType, event)];
      entity, recorded := CreateAndRecordEvent(entityType, name, event, date, details, l);
    }

    /**
     * `apply_event`: applies one event under the state machine and returns
     * the affected entity, the recorded history event and the warnings.
     * An empty `forCondition` stands for an absent one.
     */
    method ApplyEvent(date: int, entityType: string, name: string, event: string, details: string, forCondition: string)
      returns (entity: Entity, recorded: HistoryEvent, warnings: seq<Warning>)
      requires Valid()
      modifies this
      ensures var o := Apply(old(Current()), date, entityType, name, event, details, forCondition);
        Current() == o.state && entity == o.state.entities[o.key] && recorded == o.recorded && warnings == o.warnings
      ensures Valid() && history == old(history) + [recorded] && entity.id == recorded.entityId
    {
      var l := LinkCondition(forCondition, entityType, name);
      if entityType == "provider" || entityType == "todo" {
        entity, recorded := CreateAndRecordEvent(entityType, name, event, date, details, l);
        return entity, recorded, l.warnings;
      }
      var existing := FindEntity(name, entityType, false);
      if existing.Some? {
        entity, recorded, warnings := ApplyToExisting(existing.value, date, entityType, name, event, details, l);
      } else {
        entity, recorded, warnings := ApplyWithoutExisting(date, entityType, name, event, details, l);
      }
    }

    /**
     * `process_stack_update`: a comprehensive update of `categories` stops
     * every live entity of those categories whose name it does not mention.
     */
    method ProcessStackUpdate(date: int, categories: seq<string>, itemsMentioned: seq<string>) returns (events: seq<HistoryEvent>)
      requires Valid()
      modifies this
      ensures entities == StopUnmentioned(old(entities), old(order), date, categories, Mentioned(itemsMentioned))
      ensures events == StackEvents(old(entities), old(order), date, categories, Mentioned(itemsMentioned))
      ensures history == old(history) + events
      ensures order == old(order) && nextId == old(nextId) && nameIndex == old(nameIndex)
      ensures Valid()
    {
      events := StopLoop(date, categories, Mentioned(itemsMentioned));
      StopKeepsKeys(old(entities), old(order), date, categories, Mentioned(itemsMentioned));
    }

    /** The loop of `process_stack_update` over the entities in dict order. */
    method StopLoop(date: int, categories: seq<string>, mentioned: set<string>) returns (events: seq<HistoryEvent>)
      requires Distinct(order) && forall k :: k in order ==> k in entities
      modifies this
      ensures entities == StopUnmentioned(old(entities), old(order), date, categories, mentioned)
      ensures events == StackEvents(old(entities), old(order), date, categories, mentioned)
      ensures history == old(history) + events
      ensures order == old(order) && nextId == old(nextId) && nameIndex == old(nameIndex)
    {
      events := [];
      var keys := order;
      ghost var ents := entities;
      var i := 0;
      while i < |keys|
        invariant 0 <= i <= |keys|
        invariant order == keys && nextId == old(nextId) && nameIndex == old(nameIndex)
        invariant entities == StopUnmentioned(ents, keys[..i], date, categories, mentioned)
        invariant events == StackEvents(ents, keys[..i], date, categories, mentioned)
        invariant history == old(history) + events
      {
        var k := keys[i];
        StopStep(ents, keys, i, date, categories, mentioned);
        var appended := StopIfUnmentioned(k, date, categories, mentioned);
        events := events + appended;
        i := i + 1;
      }
      assert keys[..|keys|] == keys;
    }

    /** The body of `process_stack_update`'s loop, for the entity under `k`. */
    method StopIfUnmentioned(k: string, date: int, categories: seq<string>, mentioned: set<string>) returns (appended: seq<HistoryEvent>)
      requires k in entities
      modifies this
      ensures var e := old(entities)[k];
        entities == old(entities)[k := if ShouldStop(e, categories, mentioned) then Stopped(e, date) else e] &&
        appended == (if ShouldStop(e, categories, mentioned) then [StopRecord(e, date)] else [])
      ensures history == old(history) + appended
      ensures order == old(order) && nextId == old(nextId) && nameIndex == old(nameIndex)
    {
      var entity := entities[k];
      appended := [];
      if entity.entityType !in categories || entity.IsTerminal() {
        return;
      }
      var entityNormalized := Normalize(entity.canonicalName);
      if entityNormalized in mentioned {
        return;
      }
      var stopEvent := if entity.entityType == "medication" || entity.entityType == "supplement" then "stopped" else "ended";
      entity := entity.(currentState := stopEvent, lastUpdated := date);
      entities := entities[k := entity];
      var h := HistoryEvent(date, entity.id, entity.canonicalName, entity.entityType, stopEvent,
        "[STACK_UPDATE] Not in current stack", "");
      history := history + [h];
      appended := [h];
    }

    /** `get_active_entities`: the live entities, in dict order, of the requested type. */
    method GetActiveEntities(entityType: Option<string>) returns (result: seq<Entity>)
      requires Valid()
      ensures result == ActiveOf(entities, order, entityType)
    {
      result := [];
      var i := 0;
      while i < |order|
        invariant 0 <= i <= |order|
        invariant result == ActiveOf(entities, order[..i], entityType)
      {
        var entity := entities[order[i]];
        assert order[..i + 1][..i] == order[..i];
        if !entity.IsTerminal() && !(entityType.Some? && entityType.value != "" && entity.entityType != entityType.value) {
          result := result + [entity];
        }
        i := i + 1;
      }
      assert order[..|order|] == order;
    }

    /** `from_dict`: a new registry holding the serialised state. */
    static method FromDict(data: Data) returns (r: Registry)
      ensures fresh(r) && r.Current() == Decode(data) && r.Valid()
    {
      r := new Registry();
      r.nextId := data.nextId.GetOr(1);
      var pairs := data.entities.GetOr([]);
      var i := 0;
      while i < |pairs|
        invariant 0 <= i <= |pairs|
        invariant (r.entities, r.order) == LoadEntities(pairs[..i])
        invariant r.history == [] && r.nextId == data.nextId.GetOr(1)
      {
        var (eid, entity) := pairs[i];
        assert pairs[..i + 1][..i] == pairs[..i];
        if eid !in r.entities {
          r.order := r.order + [eid];
        }
        r.entities := r.entities[eid := entity];
        i := i + 1;
      }
      assert pairs[..|pairs|] == pairs;
      var events := data.history.GetOr([]);
      var j := 0;
      while j < |events|
        invariant 0 <= j <= |events|
        invariant r.history == events[..j]
        invariant (r.entities, r.order) == LoadEntities(pairs) && r.nextId == data.nextId.GetOr(1)
      {
        r.history := r.history + [events[j]];
        j := j + 1;
      }
      assert events[..|events|] == events;
      r.nameIndex := data.nameIndex.GetOr(map[]);
    }
  }

  /** Visiting one more key updates at most that key. */
  lemma StopUnmentionedSnoc(ents: map<string, Entity>, keys: seq<string>, k: string, date: int, categories: seq<string>, mentioned: set<string>)
    requires k in ents
    ensures StopUnmentioned(ents, keys + [k], date, categories, mentioned) ==
      StopUnmentioned(ents, keys, date, categories, mentioned)[k := if ShouldStop(ents[k], categories, mentioned) then Stopped(ents[k], date) else ents[k]]
  {
    var a := StopUnmentioned(ents, keys + [k], date, categories, mentioned);
    var b := StopUnmentioned(ents, keys, date, categories, mentioned)[k := if ShouldStop(ents[k], categories, mentioned) then Stopped(ents[k], date) else ents[k]];
    assert forall x :: x in keys + [k] <==> x in keys || x == k;
    assert a.Keys == b.Keys;
    forall x | x in a
      ensures a[x] == b[x]
    {
    }
  }

  /** Stopping entities changes no key. */
  lemma StopKeepsKeys(ents: map<string, Entity>, keys: seq<string>, date: int, categories: seq<string>, mentioned: set<string>)
    ensures StopUnmentioned(ents, keys, date, categories, mentioned).Keys == ents.Keys
  {
  }

  /** One visit of `process_stack_update`: the entity found under the next key is its original. */
  lemma StopStep(ents: map<string, Entity>, order: seq<string>, i: int, date: int, categories: seq<string>, mentioned: set<string>)
    requires Distinct(order) && 0 <= i < |order| && forall k :: k in order ==> k in ents
    ensures var k := order[i];
      var cur := StopUnmentioned(ents, order[..i], date, categories, mentioned);
      k in cur && cur[k] == ents[k] &&
      StopUnmentioned(ents, order[..i + 1], date, categories, mentioned) ==
        cur[k := if ShouldStop(ents[k], categories, mentioned) then Stopped(ents[k], date) else ents[k]] &&
      StackEvents(ents, order[..i + 1], date, categories, mentioned) ==
        StackEvents(ents, order[..i], date, categories, mentioned) +
        (if ShouldStop(ents[k], categories, mentioned) then [StopRecord(ents[k], date)] else [])
  {
    var k := order[i];
    assert order[..i + 1] == order[..i] + [k];
    assert order[..i + 1][..i] == order[..i];
    assert k !in order[..i] by {
      forall a | 0 <= a < i ensures order[..i][a] != k {
        assert order[..i][a] == order[a];
      }
    }
    StopUnmentionedSnoc(ents, order[..i], k, date, categories, mentioned);
  }
}
