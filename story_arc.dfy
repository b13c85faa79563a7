/**
 * StoryArc: the story events of an arc in insertion order, the handlers that
 * react to campaign events by starting or completing the first matching story
 * event, custom string variables, and the narrative token replacement.
 *
 * The LinkedHashMap of story events is a sequence with distinct ids; a Java
 * reference to an event found in the map is its position in that sequence.
 * StoryEvent.startEvent and completeEvent are recorded as counters on the
 * chosen event.
 */
module StoryArcs {
  import opened Wrappers
  import opened Text

  type Uuid = int
  /** A LocalDate as a day number. */
  type Date = int

  /** The story-event subclasses the handlers look for, with the field each one matches on (null = None). */
  datatype EventKind =
    | ScenarioEvent(scenarioId: Option<int>)
    | TravelEvent(destinationId: Option<string>)
    | DateReachedEvent(date: Option<Date>)
    | PersonKilledEvent(personId: Option<Uuid>)
    | OtherEvent

  datatype StoryEvent = StoryEvent(id: Uuid, kind: EventKind, active: bool, starts: nat, completions: nat)

  /** The event after startEvent was called on it. */
  function Started(e: StoryEvent): (r: StoryEvent)
    ensures r.id == e.id && r.kind == e.kind && r.active == e.active
    ensures r.starts == e.starts + 1 && r.completions == e.completions
  {
    e.(starts := e.starts + 1)
  }

  /** The event after completeEvent was called on it. */
  function Completed(e: StoryEvent): (r: StoryEvent)
    ensures r.id == e.id && r.kind == e.kind && r.active == e.active
    ensures r.starts == e.starts && r.completions == e.completions + 1
  {
    e.(completions := e.completions + 1)
  }

  datatype Person = Person(id: Uuid, dead: bool)

  /** A character of the arc; its campaign-dependent state is not part of this model. */
  datatype Personality = Personality(id: Uuid, name: string)

  /** The tests the handlers apply to each event while scanning the map. */
  datatype Query =
    | ByScenario(scenarioId: int)
    | ActiveTravelTo(systemId: string)
    | OnDate(date: Date)
    | ByPerson(personId: Uuid)

  predicate Matches(e: StoryEvent, q: Query) {
    match q
    case ByScenario(s) => e.kind.ScenarioEvent? && e.kind.scenarioId == Some(s)
    case ActiveTravelTo(id) => e.kind.TravelEvent? && e.kind.destinationId == Some(id) && e.active
    case OnDate(d) => e.kind.DateReachedEvent? && e.kind.date == Some(d)
    case ByPerson(p) => e.kind.PersonKilledEvent? && e.kind.personId == Some(p)
  }

  /** The position of the first event in insertion order that passes the test. */
  function FirstMatch(events: seq<StoryEvent>, q: Query): (r: Option<nat>)
    ensures r.Some? ==> r.value < |events| && Matches(events[r.value], q)
    ensures r.Some? ==> forall k :: 0 <= k < r.value ==> !Matches(events[k], q)
    ensures r.None? ==> forall k :: 0 <= k < |events| ==> !Matches(events[k], q)
  {
    if events == [] then None
    else if Matches(events[0], q) then Some(0)
    else match FirstMatch(events[1..], q)
      case None => None
      case Some(i) => Some(i + 1)
  }

  ghost predicate IsFirstMatch(events: seq<StoryEvent>, q: Query, k: int) {
    0 <= k < |events| && Matches(events[k], q) && forall j :: 0 <= j < k ==> !Matches(events[j], q)
  }

  datatype Mark = Start | Complete

  function Apply(e: StoryEvent, m: Mark): StoryEvent {
    match m
    case Start => Started(e)
    case Complete => Completed(e)
  }

  /**
   * The scan shared by the handlers: the first matching event gets the mark,
   * unless the handler also demands that it be active and it is not.
   */
  function Handle(events: seq<StoryEvent>, q: Query, requireActive: bool, m: Mark): seq<StoryEvent> {
    match FirstMatch(events, q)
    case None => events
    case Some(i) => if !requireActive || events[i].active then events[i := Apply(events[i], m)] else events
  }

  /** handleScenarioResolved: complete the first event of the scenario, if that one is active. */
  function ScenarioResolved(events: seq<StoryEvent>, scenarioId: int): seq<StoryEvent> {
    Handle(events, ByScenario(scenarioId), true, Complete)
  }

  /** handleTransitComplete: complete the first active travel event to the arrival system. */
  function TransitCompleted(events: seq<StoryEvent>, systemId: string): seq<StoryEvent> {
    Handle(events, ActiveTravelTo(systemId), false, Complete)
  }

  /** handleNewDay: start the first date-reached event for the new date. */
  function NewDay(events: seq<StoryEvent>, today: Date): seq<StoryEvent> {
    Handle(events, OnDate(today), false, Start)
  }

  /** handlePersonChanged: for a dead person, start the first person-killed event about them. */
  function PersonChanged(events: seq<StoryEvent>, p: Option<Person>): seq<StoryEvent> {
    if p.Some? && p.value.dead then Handle(events, ByPerson(p.value.id), false, Start) else events
  }

  /**
   * A handler changes at most one event, the first match (when it qualifies),
   * by exactly its mark; every other event, and every id, kind and active
   * flag, is left as it was.
   */
  lemma HandleEffect(events: seq<StoryEvent>, q: Query, requireActive: bool, m: Mark)
    ensures |Handle(events, q, requireActive, m)| == |events|
    ensures forall k :: 0 <= k < |events| ==>
      Handle(events, q, requireActive, m)[k]
        == if IsFirstMatch(events, q, k) && (!requireActive || events[k].active) then Apply(events[k], m) else events[k]
  {
    var r := Handle(events, q, requireActive, m);
    match FirstMatch(events, q)
    case None =>
    case Some(i) =>
      forall k | 0 <= k < |events| && IsFirstMatch(events, q, k)
        ensures k == i
      {
        FirstMatchIs(events, q, k);
      }
  }

  ghost predicate SameIdentity(a: seq<StoryEvent>, b: seq<StoryEvent>) {
    |a| == |b| && forall k :: 0 <= k < |a| ==> a[k].id == b[k].id && a[k].kind == b[k].kind && a[k].active == b[k].active
  }

  /** The ids, kinds and active flags, and so the distinctness of ids, survive every handler. */
  lemma HandleKeepsIdentity(events: seq<StoryEvent>, q: Query, requireActive: bool, m: Mark)
    ensures SameIdentity(events, Handle(events, q, requireActive, m))
  {
    HandleEffect(events, q, requireActive, m);
  }

  /**
   * Scenario resolution completes the first event of the scenario when it is
   * active, and changes nothing else.
   */
  lemma ScenarioResolvedEffect(events: seq<StoryEvent>, scenarioId: int)
    ensures |ScenarioResolved(events, scenarioId)| == |events|
    ensures forall k :: 0 <= k < |events| ==>
      ScenarioResolved(events, scenarioId)[k]
        == if IsFirstMatch(events, ByScenario(scenarioId), k) && events[k].active then Completed(events[k]) else events[k]
  {
    HandleEffect(events, ByScenario(scenarioId), true, Complete);
  }

  /** An inactive first event of the scenario hides any later active one: nothing changes. */
  lemma InactiveScenarioBlocks(events: seq<StoryEvent>, scenarioId: int, k: nat)
    requires IsFirstMatch(events, ByScenario(scenarioId), k) && !events[k].active
    ensures ScenarioResolved(events, scenarioId) == events
  {
    FirstMatchIs(events, ByScenario(scenarioId), k);
  }

  /**
   * Transit completion completes the first travel event to the system that is
   * active (inactive ones are passed over), and changes nothing else.
   */
  lemma TransitCompletedEffect(events: seq<StoryEvent>, systemId: string)
    ensures |TransitCompleted(events, systemId)| == |events|
    ensures forall k :: 0 <= k < |events| ==>
      TransitCompleted(events, systemId)[k]
        == if IsFirstMatch(events, ActiveTravelTo(systemId), k) then Completed(events[k]) else events[k]
  {
    HandleEffect(events, ActiveTravelTo(systemId), false, Complete);
  }

  /**
   * A new day starts the first date-reached event for that date, active or
   * not; events without a date never match.
   */
  lemma NewDayEffect(events: seq<StoryEvent>, today: Date)
    ensures |NewDay(events, today)| == |events|
    ensures forall k :: 0 <= k < |events| ==>
      NewDay(events, today)[k]
        == if IsFirstMatch(events, OnDate(today), k) then Started(events[k]) else events[k]
    ensures forall k :: 0 <= k < |events| && events[k].kind == DateReachedEvent(None) ==> NewDay(events, today)[k] == events[k]
  {
    HandleEffect(events, OnDate(today), false, Start);
  }

  /** Only the death of a known person starts an event: the first person-killed event about them. */
  lemma PersonChangedEffect(events: seq<StoryEvent>, p: Option<Person>)
    ensures p.None? || !p.value.dead ==> PersonChanged(events, p) == events
    ensures p.Some? && p.value.dead ==>
      && |PersonChanged(events, p)| == |events|
      && forall k :: 0 <= k < |events| ==>
           PersonChanged(events, p)[k]
             == if IsFirstMatch(events, ByPerson(p.value.id), k) then Started(events[k]) else events[k]
  {
    if p.Some? && p.value.dead {
      HandleEffect(events, ByPerson(p.value.id), false, Start);
    }
  }

  ghost predicate DistinctIds(events: seq<StoryEvent>) {
    forall i, j :: 0 <= i < j < |events| ==> events[i].id != events[j].id
  }

  /** The position of the event with the id, as the map's get finds it. */
  function IndexOf(events: seq<StoryEvent>, id: Uuid): (r: Option<nat>)
    ensures r.Some? ==> r.value < |events| && events[r.value].id == id
    ensures r.None? <==> forall k :: 0 <= k < |events| ==> events[k].id != id
  {
    if events == [] then None
    else if events[0].id == id then Some(0)
    else match IndexOf(events[1..], id)
      case None => None
      case Some(i) => Some(i + 1)
  }

  /** LinkedHashMap.put: a new id goes to the end, a known id keeps its place and gets the new event. */
  function PutEvent(events: seq<StoryEvent>, e: StoryEvent): seq<StoryEvent> {
    match IndexOf(events, e.id)
    case None => events + [e]
    case Some(i) => events[i := e]
  }

  /** After a put the id finds the new event, every other id finds what it found before, and ids stay distinct. */
  lemma PutEventLookup(events: seq<StoryEvent>, e: StoryEvent, id: Uuid)
    requires DistinctIds(events)
    ensures DistinctIds(PutEvent(events, e))
    ensures IndexOf(PutEvent(events, e), e.id).Some?
    ensures PutEvent(events, e)[IndexOf(PutEvent(events, e), e.id).value] == e
    ensures id != e.id ==> IndexOf(PutEvent(events, e), id) == IndexOf(events, id)
  {
    var r := PutEvent(events, e);
    match IndexOf(events, e.id) {
      case None =>
        assert r == events + [e] && r[|events|].id == e.id;
      case Some(i) =>
        assert r == events[i := e] && r[i].id == e.id;
        DistinctIndexOf(events, e.id);
    }
    assert DistinctIds(r);
    DistinctIndexOf(r, e.id);
    if id != e.id {
      SameIdsElsewhere(events, e, id);
      DistinctIndexOf(r, id);
      var a := IndexOf(events, id);
      if a.Some? {
        assert r[a.value].id == id;
      } else {
        assert forall k :: 0 <= k < |r| ==> r[k].id != id;
      }
    }
  }

  /** The events other than the one put keep their positions and ids. */
  lemma SameIdsElsewhere(events: seq<StoryEvent>, e: StoryEvent, id: Uuid)
    requires id != e.id
    ensures forall k :: 0 <= k < |events| ==> (PutEvent(events, e)[k].id == id <==> events[k].id == id)
    ensures forall k :: |events| <= k < |PutEvent(events, e)| ==> PutEvent(events, e)[k].id != id
  {
  }

  /** With distinct ids the position found is the only one holding the id. */
  lemma DistinctIndexOf(events: seq<StoryEvent>, id: Uuid)
    requires DistinctIds(events)
    ensures IndexOf(events, id).Some? ==> forall k :: 0 <= k < |events| && events[k].id == id ==> k == IndexOf(events, id).value
  {
  }

  /** begin(): start the starting event; None stands for the NullPointerException of a missing one. */
  function BeginEvents(events: seq<StoryEvent>, startingEventId: Option<Uuid>): Option<seq<StoryEvent>> {
    if startingEventId.None? then None
    else match IndexOf(events, startingEventId.value)
      case None => None
      case Some(i) => Some(events[i := Started(events[i])])
  }

  /** begin() fails exactly when there is no starting event; otherwise it starts that one event only. */
  lemma BeginEffect(events: seq<StoryEvent>, start: Option<Uuid>)
    requires DistinctIds(events)
    ensures BeginEvents(events, start).None? <==> start.None? || forall k :: 0 <= k < |events| ==> events[k].id != start.value
    ensures BeginEvents(events, start).Some? ==>
      && |BeginEvents(events, start).value| == |events|
      && forall k :: 0 <= k < |events| ==>
           BeginEvents(events, start).value[k] == if events[k].id == start.value then Started(events[k]) else events[k]
  {
    if start.Some? {
      DistinctIndexOf(events, start.value);
    }
  }

  /** An XML child node: its name and its text content. */
  datatype XmlNode = XmlNode(name: string, text: string)

  /** The position of the last node with the name, or -1. */
  function LastNamed(nodes: seq<XmlNode>, name: string): (r: int)
    ensures -1 <= r < |nodes|
    ensures r == -1 <==> forall i :: 0 <= i < |nodes| ==> nodes[i].name != name
    ensures 0 <= r ==> nodes[r].name == name && forall j :: r < j < |nodes| ==> nodes[j].name != name
    decreases |nodes|
  {
    if nodes == [] then -1
    else if nodes[|nodes| - 1].name == name then |nodes| - 1
    else LastNamed(nodes[..|nodes| - 1], name)
  }

  /** The trimmed text of the last node with the name, None when there is none. */
  function LastText(nodes: seq<XmlNode>, name: string): Option<string> {
    var i := LastNamed(nodes, name);
    if i < 0 then None else Some(Trim(nodes[i].text))
  }

  /** One more node: it wins when it has the name. */
  lemma LastTextStep(nodes: seq<XmlNode>, x: nat, name: string)
    requires x < |nodes|
    ensures LastText(nodes[..x + 1], name)
      == if nodes[x].name == name then Some(Trim(nodes[x].text)) else LastText(nodes[..x], name)
  {
    LastNamedStep(nodes, x, name);
  }

  lemma LastNamedStep(nodes: seq<XmlNode>, x: nat, name: string)
    requires x < |nodes|
    ensures LastNamed(nodes[..x + 1], name) == if nodes[x].name == name then x else LastNamed(nodes[..x], name)
  {
    var p := nodes[..x + 1];
    assert p[|p| - 1] == nodes[x];
    assert p[..|p| - 1] == nodes[..x];
  }

  /** The key/value pair a customStringVariable element defines, when it has both. */
  function ParsedVariable(nodes: seq<XmlNode>): (r: Option<(string, string)>)
    ensures r.Some? <==> (
      && (exists i :: 0 <= i < |nodes| && nodes[i].name == "key")
      && (exists j :: 0 <= j < |nodes| && nodes[j].name == "value"))
  {
    var key := LastText(nodes, "key");
    var value := LastText(nodes, "value");
    if key.Some? && value.Some? then Some((key.value, value.value)) else None
  }

  /** The senior commander, as far as the replacement tokens need them. */
  datatype Commander = Commander(rankName: string, fullTitle: string)

  const CommanderRankToken: string := "@commanderRank"
  const CommanderToken: string := "@commander"

  /** updateReplacementTokens: the two tokens in insertion order, with placeholders when there is no commander. */
  function ReplacementTokens(commander: Option<Commander>): seq<(string, string)> {
    match commander
    case None => [(CommanderRankToken, "rank(?)"), (CommanderToken, "commander(?)")]
    case Some(c) => [(CommanderRankToken, c.rankName), (CommanderToken, c.fullTitle)]
  }

  predicate NonEmptyKeys(tokens: seq<(string, string)>) {
    forall i :: 0 <= i < |tokens| ==> tokens[i].0 != []
  }

  /** Each token in turn replaced everywhere in the text produced by the previous ones. */
  function ApplyReplacements(text: string, tokens: seq<(string, string)>): string
    requires NonEmptyKeys(tokens)
    decreases |tokens|
  {
    if tokens == [] then text
    else ApplyReplacements(ReplaceAll(text, tokens[0].0, tokens[0].1), tokens[1..])
  }

  lemma ApplyTwo(text: string, tokens: seq<(string, string)>)
    requires |tokens| == 2 && NonEmptyKeys(tokens)
    ensures ApplyReplacements(text, tokens) == ReplaceAll(ReplaceAll(text, tokens[0].0, tokens[0].1), tokens[1].0, tokens[1].1)
  {
    var t1 := ReplaceAll(text, tokens[0].0, tokens[0].1);
    var rest := tokens[1..];
    assert ApplyReplacements(text, tokens) == ApplyReplacements(t1, rest);
    assert rest[0] == tokens[1] && rest[1..] == [];
    assert ApplyReplacements(t1, rest) == ApplyReplacements(ReplaceAll(t1, rest[0].0, rest[0].1), []);
  }

  /** A text without '@' holds no token and comes back unchanged, whoever the commander is. */
  lemma {:induction false} PlainTextUnchanged(text: string, commander: Option<Commander>)
    requires '@' !in text
    ensures ApplyReplacements(text, ReplacementTokens(commander)) == text
  {
    var tokens := ReplacementTokens(commander);
    ApplyTwo(text, tokens);
    ReplaceAllWithoutLead(text, tokens[0].0, tokens[0].1);
    ReplaceAllWithoutLead(text, tokens[1].0, tokens[1].1);
  }

  function RankOf(commander: Option<Commander>): string {
    if commander.None? then "rank(?)" else commander.value.rankName
  }

  function TitleOf(commander: Option<Commander>): string {
    if commander.None? then "commander(?)" else commander.value.fullTitle
  }

  /** Because the rank token goes first, "@commanderRank" becomes the rank and not the title followed by "Rank". */
  lemma {:induction false} RankTokenBecomesRank(commander: Option<Commander>)
    requires '@' !in RankOf(commander)
    ensures ApplyReplacements(CommanderRankToken, ReplacementTokens(commander)) == RankOf(commander)
  {
    ApplyTwo(CommanderRankToken, ReplacementTokens(commander));
    ReplaceAllLeading(CommanderRankToken, [], RankOf(commander));
    assert CommanderRankToken + [] == CommanderRankToken;
    assert ReplaceAll([], CommanderRankToken, RankOf(commander)) == [];
    assert RankOf(commander) + [] == RankOf(commander);
    ReplaceAllWithoutLead(RankOf(commander), CommanderToken, TitleOf(commander));
  }

  /** "@commander" is shorter than the rank token, so only the second pass touches it. */
  lemma {:induction false} CommanderTokenBecomesTitle(commander: Option<Commander>)
    ensures ApplyReplacements(CommanderToken, ReplacementTokens(commander)) == TitleOf(commander)
  {
    ApplyTwo(CommanderToken, ReplacementTokens(commander));
    ReplaceAllAbsent(CommanderToken, CommanderRankToken, RankOf(commander));
    ReplaceAllLeading(CommanderToken, [], TitleOf(commander));
    assert CommanderToken + [] == CommanderToken;
    assert ReplaceAll([], CommanderToken, TitleOf(commander)) == [];
    assert TitleOf(commander) + [] == TitleOf(commander);
  }

  /** The opposite order would turn "@commanderRank" into the title followed by "Rank". */
  lemma {:induction false} WrongOrderBreaksRankToken()
    ensures ApplyReplacements(CommanderRankToken, [(CommanderToken, "commander(?)"), (CommanderRankToken, "rank(?)")])
         == "commander(?)Rank"
  {
    ApplyTwo(CommanderRankToken, [(CommanderToken, "commander(?)"), (CommanderRankToken, "rank(?)")]);
    TitleFirstOnRankToken();
    RankTokenAbsentAfterTitle();
  }

  lemma TitleFirstOnRankToken()
    ensures ReplaceAll(CommanderRankToken, CommanderToken, "commander(?)") == "commander(?)Rank"
  {
    assert CommanderRankToken == CommanderToken + "Rank";
    ReplaceAllLeading(CommanderToken, "Rank", "commander(?)");
    ReplaceAllWithoutLead("Rank", CommanderToken, "commander(?)");
    assert "commander(?)" + "Rank" == "commander(?)Rank";
  }

  lemma RankTokenAbsentAfterTitle()
    ensures ReplaceAll("commander(?)Rank", CommanderRankToken, "rank(?)") == "commander(?)Rank"
  {
    assert CommanderRankToken[0] == '@';
    assert '@' !in "commander(?)Rank";
    ReplaceAllWithoutLead("commander(?)Rank", CommanderRankToken, "rank(?)");
  }

  /** The story events of an arc, the handlers over them, and the custom string variables. */
  class StoryArc {
    var startNew: bool
    var startingEventId: Option<Uuid>
    var storyEvents: seq<StoryEvent>
    var personalities: map<Uuid, Personality>
    var customStringVariables: map<string, string>

    ghost predicate Valid()
      reads this
    {
      DistinctIds(storyEvents)
    }

    /** A new arc may start afresh and has no events, personalities or variables. */
    constructor ()
      ensures startNew && startingEventId.None?
      ensures storyEvents == [] && personalities == map[] && customStringVariables == map[]
      ensures Valid()
    {
      startNew := true;
      startingEventId := None;
      storyEvents := [];
      personalities := map[];
      customStringVariables := map[];
    }

    /** getStoryEvent: no event for a null id, else the event stored under the id, if any. */
    function GetStoryEvent(id: Option<Uuid>): (r: Option<StoryEvent>)
      reads this
      ensures id.None? ==> r.None?
      ensures r.Some? ==> r.value in storyEvents && r.value.id == id.value
      ensures id.Some? && r.None? ==> forall k :: 0 <= k < |storyEvents| ==> storyEvents[k].id != id.value
    {
      if id.None? then None
      else match IndexOf(storyEvents, id.value)
        case None => None
        case Some(i) => Some(storyEvents[i])
    }

    /** storyEvents.put(event.getId(), event), as parseStoryEvents stores each parsed event. */
    method PutStoryEvent(e: StoryEvent)
      requires Valid()
      modifies this`storyEvents
      ensures Valid()
      ensures storyEvents == PutEvent(old(storyEvents), e)
      ensures GetStoryEvent(Some(e.id)) == Some(e)
    {
      PutEventLookup(storyEvents, e, e.id);
      storyEvents := PutEvent(storyEvents, e);
    }

    method AddCustomStringVariable(key: string, value: string)
      modifies this`customStringVariables
      ensures customStringVariables == old(customStringVariables)[key := value]
      ensures GetCustomStringVariable(key) == Some(value)
    {
      customStringVariables := customStringVariables[key := value];
    }

    /** getCustomStringVariable: null (None) for a key never added. */
    function GetCustomStringVariable(key: string): (r: Option<string>)
      reads this
      ensures r.Some? <==> key in customStringVariables
      ensures r.Some? ==> r.value == customStringVariables[key]
    {
      if key in customStringVariables then Some(customStringVariables[key]) else None
    }

    /** begin(): start the starting event; false stands for the exception when it is missing. */
    method Begin() returns (ok: bool)
      requires Valid()
      modifies this`storyEvents
      ensures Valid()
      ensures ok == BeginEvents(old(storyEvents), startingEventId).Some?
      ensures ok ==> storyEvents == BeginEvents(old(storyEvents), startingEventId).value
      ensures !ok ==> storyEvents == old(storyEvents)
    {
      ok := false;
      if startingEventId.Some? {
        var i := IndexOf(storyEvents, startingEventId.value);
        if i.Some? {
          storyEvents := storyEvents[i.value := Started(storyEvents[i.value])];
          ok := true;
        }
      }
    }

    /** findStoryEventByScenarioId: the position of the first scenario event of the scenario. */
    method FindStoryEventByScenarioId(scenarioId: int) returns (r: Option<nat>)
      ensures r == FirstMatch(storyEvents, ByScenario(scenarioId))
    {
      var i := 0;
      while i < |storyEvents|
        invariant 0 <= i <= |storyEvents|
        invariant forall k :: 0 <= k < i ==> !Matches(storyEvents[k], ByScenario(scenarioId))
      {
        var e := storyEvents[i];
        if e.kind.ScenarioEvent? {
          if e.kind.scenarioId.Some? && e.kind.scenarioId.value == scenarioId {
            FirstMatchIs(storyEvents, ByScenario(scenarioId), i);
            return Some(i);
          }
        }
        i := i + 1;
      }
      return None;
    }

    method HandleScenarioResolved(scenarioId: int)
      requires Valid()
      modifies this`storyEvents
      ensures Valid()
      ensures storyEvents == ScenarioResolved(old(storyEvents), scenarioId)
    {
      HandleKeepsIdentity(storyEvents, ByScenario(scenarioId), true, Complete);
      var found := FindStoryEventByScenarioId(scenarioId);
      if found.Some? && storyEvents[found.value].active {
        storyEvents := storyEvents[found.value := Completed(storyEvents[found.value])];
      }
    }

    method HandleTransitComplete(systemId: string)
      requires Valid()
      modifies this`storyEvents
      ensures Valid()
      ensures storyEvents == TransitCompleted(old(storyEvents), systemId)
    {
      HandleKeepsIdentity(storyEvents, ActiveTravelTo(systemId), false, Complete);
      var i := 0;
      while i < |storyEvents|
        invariant 0 <= i <= |storyEvents|
        invariant storyEvents == old(storyEvents)
        invariant forall k :: 0 <= k < i ==> !Matches(storyEvents[k], ActiveTravelTo(systemId))
      {
        var e := storyEvents[i];
        if e.kind.TravelEvent? {
          if e.kind.destinationId == Some(systemId) && e.active {
            FirstMatchIs(storyEvents, ActiveTravelTo(systemId), i);
            storyEvents := storyEvents[i := Completed(e)];
            break;
          }
        }
        i := i + 1;
      }
    }

    method HandleNewDay(today: Date)
      requires Valid()
      modifies this`storyEvents
      ensures Valid()
      ensures storyEvents == NewDay(old(storyEvents), today)
    {
      HandleKeepsIdentity(storyEvents, OnDate(today), false, Start);
      var i := 0;
      while i < |storyEvents|
        invariant 0 <= i <= |storyEvents|
        invariant storyEvents == old(storyEvents)
        invariant forall k :: 0 <= k < i ==> !Matches(storyEvents[k], OnDate(today))
      {
        var e := storyEvents[i];
        if e.kind.DateReachedEvent? {
          if e.kind.date.Some? && today == e.kind.date.value {
            FirstMatchIs(storyEvents, OnDate(today), i);
            storyEvents := storyEvents[i := Started(e)];
            break;
          }
        }
        i := i + 1;
      }
    }

    method HandlePersonChanged(p: Option<Person>)
      requires Valid()
      modifies this`storyEvents
      ensures Valid()
      ensures storyEvents == PersonChanged(old(storyEvents), p)
    {
      if p.Some? && p.value.dead {
        HandleKeepsIdentity(storyEvents, ByPerson(p.value.id), false, Start);
        var i := 0;
        while i < |storyEvents|
          invariant 0 <= i <= |storyEvents|
          invariant storyEvents == old(storyEvents)
          invariant forall k :: 0 <= k < i ==> !Matches(storyEvents[k], ByPerson(p.value.id))
        {
          var e := storyEvents[i];
          if e.kind.PersonKilledEvent? {
            if e.kind.personId == Some(p.value.id) {
              FirstMatchIs(storyEvents, ByPerson(p.value.id), i);
              storyEvents := storyEvents[i := Started(e)];
              break;
            }
          }
          i := i + 1;
        }
      }
    }

    /**
     * parseCustomStringVariable: remembers the trimmed text of the last "key"
     * and the last "value" node and adds the variable only when both occur.
     */
    method ParseCustomStringVariable(nodes: seq<XmlNode>)
      modifies this`customStringVariables
      ensures customStringVariables
        == if ParsedVariable(nodes).Some?
           then old(customStringVariables)[ParsedVariable(nodes).value.0 := ParsedVariable(nodes).value.1]
           else old(customStringVariables)
    {
      var key, value := ScanVariableNodes(nodes);
      if key.Some? && value.Some? {
        AddCustomStringVariable(key.value, value.value);
      }
    }
  }

  /** The loop of parseCustomStringVariable: the last "key" and the last "value" node win, trimmed. */
  method ScanVariableNodes(nodes: seq<XmlNode>) returns (key: Option<string>, value: Option<string>)
    ensures key == LastText(nodes, "key") && value == LastText(nodes, "value")
  {
    key := None;
    value := None;
    for x := 0 to |nodes|
      invariant key == LastText(nodes[..x], "key")
      invariant value == LastText(nodes[..x], "value")
    {
      LastTextStep(nodes, x, "key");
      LastTextStep(nodes, x, "value");
      if nodes[x].name == "key" {
        key := Some(Trim(nodes[x].text));
      } else if nodes[x].name == "value" {
        value := Some(Trim(nodes[x].text));
      }
    }
    assert nodes[..|nodes|] == nodes;
  }

  /** A matching event with no match before it is the first match. */
  lemma FirstMatchIs(events: seq<StoryEvent>, q: Query, i: nat)
    requires i < |events| && Matches(events[i], q)
    requires forall k :: 0 <= k < i ==> !Matches(events[k], q)
    ensures FirstMatch(events, q) == Some(i)
  {
  }

  /** replaceTokens: each replacement token in turn, replaced everywhere in the text. */
  method ReplaceTokens(text: string, commander: Option<Commander>) returns (r: string)
    ensures r == ApplyReplacements(text, ReplacementTokens(commander))
  {
    var tokens := ReplacementTokens(commander);
    r := text;
    var i := 0;
    while i < |tokens|
      invariant 0 <= i <= |tokens|
      invariant ApplyReplacements(r, tokens[i..]) == ApplyReplacements(text, tokens)
    {
      assert tokens[i..][1..] == tokens[i + 1..];
      r := ReplaceAll(r, tokens[i].0, tokens[i].1);
      i := i + 1;
    }
  }
}
