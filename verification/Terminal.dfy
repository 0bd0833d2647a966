/** Deciding from a stream of frames how one accepted turn ended: only frames
    behind the acceptance count, and of those only the turn's own. */
module Terminal {
  import opened AuthorityTypes

  datatype Json =
    | Null | Flag(flag: bool) | Number(number: int) | Text(text: string)
    | List(items: seq<Json>) | Object(fields: SdkRecord)

  type SdkRecord = map<string, Json>

  datatype Correlation = Correlation(sessionId: string, commandId: string, turnId: string)

  // -------------------------------------------------------------- unwrapping

  function RecordAt(r: SdkRecord, key: string): Option<SdkRecord> {
    if key in r && r[key].Object? then Some(r[key].fields) else None
  }

  function TextAt(r: SdkRecord, key: string): Option<string> {
    if key in r && r[key].Text? then Some(r[key].text) else None
  }

  predicate HasType(r: SdkRecord, name: string) {
    TextAt(r, "type") == Some(name)
  }

  predicate EndsWith(s: string, suffix: string) {
    |suffix| <= |s| && s[|s| - |suffix|..] == suffix
  }

  /** An event embedded in a payload, its own fields winning over the payload's. */
  function Embedded(payload: SdkRecord, name: Option<string>): Option<SdkRecord> {
    var event := RecordAt(payload, "event");
    if event.None? || name.None? then None
    else Some((payload - {"event", "event_type"}) + event.value + map["type" := Text(name.value)])
  }

  function SessionEvent(frame: SdkRecord): Option<SdkRecord> {
    var kind, payload := TextAt(frame, "kind"), RecordAt(frame, "payload");
    if kind.None? || payload.None? then None
    else
      var event := Embedded(payload.value, kind);
      if event.Some? then event else Some(payload.value["type" := Text(kind.value)])
  }

  predicate WrapsTerminal(frame: SdkRecord) {
    && (HasType(frame, "turn_stream") || HasType(frame, "agent_end") || HasType(frame, "agent_failed")
      || HasType(frame, "action_needed"))
    && "payload" in frame
  }

  function NormalizeEvent(frame: SdkRecord): Option<SdkRecord> {
    var payload := RecordAt(frame, "payload");
    if HasType(frame, "event") then
      if payload.None? then None
      else
        var event := Embedded(payload.value, TextAt(payload.value, "event_type"));
        if event.Some? then event
        else if !HasType(payload.value, "event") then payload
        else SessionEvent(payload.value)
    else if WrapsTerminal(frame) then
      if payload.Some? && TextAt(payload.value, "type") == TextAt(frame, "type") then payload else None
    else
      var name := TextAt(frame, "type");
      if name.Some? && !EndsWith(name.value, "_response") then Some(frame) else None
  }

  function Events(frames: seq<SdkRecord>): seq<SdkRecord> {
    if frames == [] then []
    else
      var first := NormalizeEvent(frames[0]);
      (if first.Some? then [first.value] else []) + Events(frames[1..])
  }

  // --------------------------------------------------------------- matching

  predicate Names(r: SdkRecord, c: Correlation) {
    && TextAt(r, "sessionId") == Some(c.sessionId)
    && TextAt(r, "commandId") == Some(c.commandId)
    && TextAt(r, "turnId") == Some(c.turnId)
  }

  /** A nested correlation, if there is one, decides; otherwise the event's own fields do. */
  predicate Matches(e: SdkRecord, c: Correlation) {
    if "correlation" !in e then Names(e, c)
    else RecordAt(e, "correlation").Some? && Names(RecordAt(e, "correlation").value, c)
  }

  predicate Correlated(r: SdkRecord) {
    "sessionId" in r || "commandId" in r || "turnId" in r
  }

  /** An ended message without any correlation is taken to belong to the accepted turn. */
  predicate MatchesAssistantFailure(e: SdkRecord, c: Correlation) {
    !HasType(e, "message_end") || !Correlated(RecordAt(e, "correlation").GetOr(e)) || Matches(e, c)
  }

  predicate MatchesAction(e: SdkRecord, c: Correlation) {
    && TextAt(e, "sessionId") == Some(c.sessionId)
    && (("commandId" !in e && "turnId" !in e) ||
        (TextAt(e, "commandId") == Some(c.commandId) && TextAt(e, "turnId") == Some(c.turnId)))
  }

  function AssistantFailure(e: SdkRecord): Option<string> {
    var message := RecordAt(e, "message");
    if !HasType(e, "message_end") || message.None? then None
    else if TextAt(message.value, "role") != Some("assistant")
      || TextAt(message.value, "stopReason") != Some("error") then None
    else
      var text := TextAt(message.value, "errorMessage");
      if text.Some? && text.value != "" then text
      else
        var transport := RecordAt(message.value, "transportFailure");
        var code := if transport.Some? then TextAt(transport.value, "providerCode") else None;
        Some(if code.Some? && code.value != "" then "Provider transport failed (" + code.value + ")"
          else "Provider transport failed")
  }

  /** The reported reason; nothing when the report itself is malformed. */
  function FailureText(e: SdkRecord): Option<string> {
    if "error" in e && (e["error"].Object? || e["error"].List?) then
      if RecordAt(e, "error").Some? && TextAt(RecordAt(e, "error").value, "message").GetOr("") != ""
      then TextAt(RecordAt(e, "error").value, "message")
      else None
    else Some("SDK prompt failed")
  }

  // ---------------------------------------------------------------- judging

  datatype Judgement = Running | Finished | Failed(reason: Option<string>)

  predicate Reports(e: SdkRecord, name: string, c: Correlation) {
    HasType(e, name) && Matches(e, c)
  }

  function FirstReport(events: seq<SdkRecord>, name: string, c: Correlation): Option<SdkRecord> {
    if events == [] then None
    else if Reports(events[0], name, c) then Some(events[0])
    else FirstReport(events[1..], name, c)
  }

  /** What comes behind the turn's start; nothing if it has not started. */
  function AfterStart(events: seq<SdkRecord>, c: Correlation): seq<SdkRecord> {
    if events == [] then []
    else if Reports(events[0], "agent_start", c) then events[1..]
    else AfterStart(events[1..], c)
  }

  predicate FailsAssistant(e: SdkRecord, c: Correlation) {
    MatchesAssistantFailure(e, c) && AssistantFailure(e).Some?
  }

  function FirstAssistantFailure(events: seq<SdkRecord>, c: Correlation): Option<string> {
    if events == [] then None
    else if FailsAssistant(events[0], c) then AssistantFailure(events[0])
    else FirstAssistantFailure(events[1..], c)
  }

  function Judge(events: seq<SdkRecord>, c: Correlation): Judgement {
    var failed := FirstReport(events, "agent_failed", c);
    if failed.Some? then Failed(FailureText(failed.value))
    else
      var assistant := FirstAssistantFailure(AfterStart(events, c), c);
      if assistant.Some? then Failed(assistant)
      else if FirstReport(events, "agent_end", c).Some? then Finished
      else Running
  }

  datatype Action = NoAction | MalformedAction | PendingAction(id: string, workflowGateId: Option<string>)

  function ActionId(e: SdkRecord): Option<string> {
    if "actionId" in e && !e["actionId"].Null? then TextAt(e, "actionId") else TextAt(e, "id")
  }

  predicate Asks(e: SdkRecord, checked: set<string>, c: Correlation) {
    && HasType(e, "action_needed") && MatchesAction(e, c)
    && ActionId(e).Some? && ActionId(e).value != "" && ActionId(e).value !in checked
  }

  function FirstAction(events: seq<SdkRecord>, checked: set<string>, c: Correlation): Action {
    if events == [] then NoAction
    else if !Asks(events[0], checked, c) then FirstAction(events[1..], checked, c)
    else if "workflowGateId" in events[0] && TextAt(events[0], "workflowGateId").GetOr("") == "" then MalformedAction
    else PendingAction(ActionId(events[0]).value, TextAt(events[0], "workflowGateId"))
  }

  // ------------------------------------------------------- non-interference

  lemma {:induction false} EventsConcat(a: seq<SdkRecord>, b: seq<SdkRecord>)
    ensures Events(a + b) == Events(a) + Events(b)
  {
    if a == [] {
      assert a + b == b;
    } else {
      var first := NormalizeEvent(a[0]);
      var head := if first.Some? then [first.value] else [];
      assert (a + b)[1..] == a[1..] + b && (a + b)[0] == a[0];
      EventsConcat(a[1..], b);
      assert head + (Events(a[1..]) + Events(b)) == (head + Events(a[1..])) + Events(b);
    }
  }

  lemma {:induction false} ReportConcat(a: seq<SdkRecord>, b: seq<SdkRecord>, name: string, c: Correlation)
    ensures FirstReport(a + b, name, c) ==
            if FirstReport(a, name, c).Some? then FirstReport(a, name, c) else FirstReport(b, name, c)
  {
    if a == [] {
      assert a + b == b;
    } else {
      assert (a + b)[1..] == a[1..] + b;
      ReportConcat(a[1..], b, name, c);
    }
  }

  lemma {:induction false} StartConcat(a: seq<SdkRecord>, b: seq<SdkRecord>, c: Correlation)
    ensures AfterStart(a + b, c) ==
            if FirstReport(a, "agent_start", c).Some? then AfterStart(a, c) + b else AfterStart(b, c)
  {
    if a == [] {
      assert a + b == b;
    } else {
      assert (a + b)[1..] == a[1..] + b;
      StartConcat(a[1..], b, c);
    }
  }

  lemma {:induction false} FailureConcat(a: seq<SdkRecord>, b: seq<SdkRecord>, c: Correlation)
    ensures FirstAssistantFailure(a + b, c) ==
            if FirstAssistantFailure(a, c).Some? then FirstAssistantFailure(a, c) else FirstAssistantFailure(b, c)
  {
    if a == [] {
      assert a + b == b;
    } else {
      assert (a + b)[1..] == a[1..] + b;
      FailureConcat(a[1..], b, c);
    }
  }

  lemma {:induction false} ActionConcat(a: seq<SdkRecord>, b: seq<SdkRecord>, checked: set<string>, c: Correlation)
    ensures FirstAction(a + b, checked, c) ==
            if FirstAction(a, checked, c).NoAction? then FirstAction(b, checked, c) else FirstAction(a, checked, c)
  {
    if a == [] {
      assert a + b == b;
    } else {
      assert (a + b)[1..] == a[1..] + b;
      ActionConcat(a[1..], b, checked, c);
    }
  }

  /** An event that says nothing about how the turn ended. */
  predicate Inert(e: SdkRecord, c: Correlation) {
    && !Reports(e, "agent_failed", c) && !Reports(e, "agent_start", c) && !Reports(e, "agent_end", c)
    && !FailsAssistant(e, c)
  }

  lemma InertInsertion(a: seq<SdkRecord>, e: SdkRecord, b: seq<SdkRecord>, c: Correlation)
    requires Inert(e, c)
    ensures Judge(a + [e] + b, c) == Judge(a + b, c)
  {
    assert a + [e] + b == a + ([e] + b);
    forall name: string
      ensures FirstReport([e] + b, name, c) == if Reports(e, name, c) then Some(e) else FirstReport(b, name, c)
    {
      assert ([e] + b)[1..] == b;
    }
    ReportConcat(a, [e] + b, "agent_failed", c);
    ReportConcat(a, b, "agent_failed", c);
    ReportConcat(a, [e] + b, "agent_end", c);
    ReportConcat(a, b, "agent_end", c);
    InertStart(a, e, b, c);
  }

  lemma InertStart(a: seq<SdkRecord>, e: SdkRecord, b: seq<SdkRecord>, c: Correlation)
    requires Inert(e, c)
    ensures FirstAssistantFailure(AfterStart(a + ([e] + b), c), c) == FirstAssistantFailure(AfterStart(a + b, c), c)
  {
    assert ([e] + b)[1..] == b;
    StartConcat(a, [e] + b, c);
    StartConcat(a, b, c);
    FailureConcat(AfterStart(a, c), [e] + b, c);
    FailureConcat(AfterStart(a, c), b, c);
  }

  function StartOf(c: Correlation): SdkRecord {
    map["type" := Text("agent_start"), "sessionId" := Text(c.sessionId), "commandId" := Text(c.commandId),
      "turnId" := Text(c.turnId)]
  }

  const UNCORRELATED_FAILURE: SdkRecord :=
    map["type" := Text("message_end"),
        "message" := Object(map["role" := Text("assistant"), "stopReason" := Text("error")])]

  lemma WitnessFacts(c: Correlation)
    ensures Reports(StartOf(c), "agent_start", c) && !Reports(StartOf(c), "agent_failed", c)
        && !Reports(StartOf(c), "agent_end", c)
    ensures FailsAssistant(UNCORRELATED_FAILURE, c)
    ensures !Reports(UNCORRELATED_FAILURE, "agent_failed", c) && !Reports(UNCORRELATED_FAILURE, "agent_end", c)
    ensures !Reports(UNCORRELATED_FAILURE, "agent_start", c)
  {
    assert TextAt(UNCORRELATED_FAILURE, "type") == Some("message_end");
    assert RecordAt(UNCORRELATED_FAILURE, "message").Some?;
  }

  lemma OneReport(e: SdkRecord, name: string, c: Correlation)
    ensures FirstReport([e], name, c) == if Reports(e, name, c) then Some(e) else None
  {
    assert [e][1..] == [];
    assert FirstReport([], name, c) == None;
  }

  lemma OneEvent(e: SdkRecord, c: Correlation)
    requires !Reports(e, "agent_failed", c) && !Reports(e, "agent_end", c)
    ensures Judge([e], c) == Running
  {
    assert [e][1..] == [];
    OneReport(e, "agent_failed", c);
    OneReport(e, "agent_end", c);
    assert AfterStart([e], c) == [];
    assert FirstAssistantFailure([], c) == None;
  }

  lemma StartThen(x: SdkRecord, c: Correlation)
    ensures Judge([StartOf(c)], c) == Running
    ensures FailsAssistant(x, c) && !Reports(x, "agent_failed", c) ==> Judge([StartOf(c), x], c).Failed?
  {
    WitnessFacts(c);
    var s := StartOf(c);
    OneEvent(s, c);
    assert [s, x][1..] == [x];
    assert [x][1..] == [];
  }

  lemma ThenFailure(x: SdkRecord, c: Correlation)
    ensures Judge([UNCORRELATED_FAILURE], c) == Running
    ensures Reports(x, "agent_start", c) && !Reports(x, "agent_failed", c) ==>
              Judge([x, UNCORRELATED_FAILURE], c).Failed?
  {
    WitnessFacts(c);
    var f := UNCORRELATED_FAILURE;
    OneEvent(f, c);
    assert [f][1..] == [];
    assert [x, f][1..] == [f];
  }

  ghost predicate NeverMatters(e: SdkRecord, c: Correlation) {
    forall a: seq<SdkRecord>, b: seq<SdkRecord> :: Judge(a + [e] + b, c) == Judge(a + b, c)
  }

  /** An event can be inserted anywhere without changing any judgement exactly when it is inert. */
  lemma InterferesIffNotInert(e: SdkRecord, c: Correlation)
    ensures NeverMatters(e, c) <==> Inert(e, c)
  {
    if Inert(e, c) {
      forall a: seq<SdkRecord>, b: seq<SdkRecord>
        ensures Judge(a + [e] + b, c) == Judge(a + b, c)
      {
        InertInsertion(a, e, b, c);
      }
    } else {
      Interferes(e, c);
    }
  }

  lemma Interferes(e: SdkRecord, c: Correlation)
    requires !Inert(e, c)
    ensures !NeverMatters(e, c)
  {
    var none: seq<SdkRecord> := [];
    assert [e][1..] == [];
    assert none + [e] + none == [e] && none + none == none;
    if Reports(e, "agent_failed", c) || Reports(e, "agent_end", c) {
      assert Judge(none + [e] + none, c) != Judge(none + none, c);
    } else if Reports(e, "agent_start", c) {
      ThenFailure(e, c);
      assert none + [e] + [UNCORRELATED_FAILURE] == [e, UNCORRELATED_FAILURE];
      assert none + [UNCORRELATED_FAILURE] == [UNCORRELATED_FAILURE];
      assert Judge(none + [e] + [UNCORRELATED_FAILURE], c) != Judge(none + [UNCORRELATED_FAILURE], c);
    } else {
      StartThen(e, c);
      assert [StartOf(c)] + [e] + none == [StartOf(c), e] && [StartOf(c)] + none == [StartOf(c)];
      assert Judge([StartOf(c)] + [e] + none, c) != Judge([StartOf(c)] + none, c);
    }
  }

  /** More frames never take a judgement back: what failed stays failed, what ended stays ended. */
  lemma SettledStays(a: seq<SdkRecord>, b: seq<SdkRecord>, c: Correlation)
    ensures Judge(a, c).Failed? ==> Judge(a + b, c).Failed?
    ensures !Judge(a, c).Running? ==> !Judge(a + b, c).Running?
  {
    ReportConcat(a, b, "agent_failed", c);
    ReportConcat(a, b, "agent_end", c);
    StartConcat(a, b, c);
    FailureConcat(AfterStart(a, c), b, c);
    NotStarted(a, c);
  }

  lemma {:induction false} NotStarted(a: seq<SdkRecord>, c: Correlation)
    ensures FirstReport(a, "agent_start", c).None? ==> AfterStart(a, c) == []
  {
    if a != [] {
      NotStarted(a[1..], c);
    }
  }

  /** The record names a turn completely, and another one. */
  predicate NamesOther(r: SdkRecord, c: Correlation) {
    && TextAt(r, "sessionId").Some? && TextAt(r, "commandId").Some? && TextAt(r, "turnId").Some?
    && (TextAt(r, "sessionId") != Some(c.sessionId) || TextAt(r, "commandId") != Some(c.commandId)
        || TextAt(r, "turnId") != Some(c.turnId))
  }

  /** The event belongs to another turn by its own fields, and by its nested correlation if it has one. */
  predicate OfOtherTurn(e: SdkRecord, c: Correlation) {
    NamesOther(e, c) && ("correlation" in e && e["correlation"].Object? ==> NamesOther(e["correlation"].fields, c))
  }

  lemma OtherTurnInert(e: SdkRecord, checked: set<string>, c: Correlation)
    requires OfOtherTurn(e, c)
    ensures Inert(e, c) && !Asks(e, checked, c)
  {
  }

  // ------------------------------------------------------------- the window

  predicate Harmless(frame: SdkRecord, c: Correlation) {
    NormalizeEvent(frame).Some? ==> OfOtherTurn(NormalizeEvent(frame).value, c)
  }

  /** Frames of other turns, and whatever came before the acceptance, change neither the judgement
      of the accepted turn nor the action it is asked for. */
  lemma NonInterference(before: seq<SdkRecord>, before': seq<SdkRecord>, a: seq<SdkRecord>, x: SdkRecord,
                        b: seq<SdkRecord>,
                        checked: set<string>, c: Correlation)
    requires Harmless(x, c)
    ensures Judge(Events((before + (a + [x] + b))[|before|..]), c) == Judge(Events((before' + (a + b))[|before'|..]), c)
    ensures FirstAction(Events((before + (a + [x] + b))[|before|..]), checked, c) ==
            FirstAction(Events((before' + (a + b))[|before'|..]), checked, c)
  {
    assert (before + (a + [x] + b))[|before|..] == a + [x] + b;
    assert (before' + (a + b))[|before'|..] == a + b;
    EventsConcat(a + [x], b);
    EventsConcat(a, [x]);
    EventsConcat(a, b);
    HarmlessEvents(Events(a), x, Events(b), checked, c);
  }

  lemma HarmlessEvents(a: seq<SdkRecord>, x: SdkRecord, b: seq<SdkRecord>, checked: set<string>, c: Correlation)
    requires Harmless(x, c)
    ensures Judge(a + Events([x]) + b, c) == Judge(a + b, c)
    ensures FirstAction(a + Events([x]) + b, checked, c) == FirstAction(a + b, checked, c)
  {
    OneFrame(x);
    if NormalizeEvent(x).Some? {
      var e := NormalizeEvent(x).value;
      OtherTurnInert(e, checked, c);
      InertInsertion(a, e, b, c);
      UnaskedInsertion(a, e, b, checked, c);
    } else {
      assert a + [] == a;
    }
  }

  lemma OneFrame(x: SdkRecord)
    ensures Events([x]) == if NormalizeEvent(x).Some? then [NormalizeEvent(x).value] else []
  {
    assert [x][1..] == [] && Events([]) == [];
  }

  lemma UnaskedInsertion(a: seq<SdkRecord>, e: SdkRecord, b: seq<SdkRecord>, checked: set<string>, c: Correlation)
    requires !Asks(e, checked, c)
    ensures FirstAction(a + [e] + b, checked, c) == FirstAction(a + b, checked, c)
  {
    assert a + [e] + b == a + ([e] + b) && ([e] + b)[1..] == b;
    ActionConcat(a, [e] + b, checked, c);
    ActionConcat(a, b, checked, c);
  }

  /** What comes in while a wait looks up a gate, whether it found one, and what ends the sleep behind it. */
  datatype Interval = Interval(during: seq<SdkRecord>, gateFound: bool, after: seq<SdkRecord>)

  datatype Waited = Ended | TurnFailed(reason: Option<string>) | AtGate(actionId: string) | BadAction | TimedOut

  function Verdict(j: Judgement): Waited
    requires !j.Running?
  {
    if j.Finished? then Ended else TurnFailed(j.reason)
  }

  /** The frames that are events at all. */
  function Typed(frames: seq<SdkRecord>): seq<SdkRecord>
    decreases |frames|
  {
    if frames == [] then []
    else if TextAt(frames[|frames| - 1], "type").None? then Typed(frames[..|frames| - 1])
    else Typed(frames[..|frames| - 1]) + [frames[|frames| - 1]]
  }

  class SdkTerminalWindow {
    const sessionId: string
    var frames: seq<SdkRecord>
    var acceptedAt: Option<nat>
    var checkedActions: set<string>

    ghost predicate Valid()
      reads this
    {
      acceptedAt.Some? ==> acceptedAt.value <= |frames|
    }

    constructor (sessionId: string)
      ensures this.sessionId == sessionId && frames == [] && acceptedAt.None? && checkedActions == {} && Valid()
    {
      this.sessionId := sessionId;
      frames, acceptedAt, checkedActions := [], None, {};
    }

    /** The frames that count. */
    ghost function PostAccept(): seq<SdkRecord>
      reads this
      requires Valid() && acceptedAt.Some?
    {
      frames[acceptedAt.value..]
    }

    method Receive(frame: SdkRecord)
      requires Valid()
      modifies `frames
      ensures Valid() && frames == if TextAt(frame, "type").Some? then old(frames) + [frame] else old(frames)
    {
      if TextAt(frame, "type").Some? {
        frames := frames + [frame];
      }
    }

    /** One turn is accepted per window, and only of its own session. */
    method Accept(c: Correlation) returns (ok: bool)
      requires Valid()
      modifies `acceptedAt
      ensures Valid() && (ok <==> c.sessionId == sessionId && old(acceptedAt).None?)
      ensures acceptedAt == if ok then Some(|frames|) else old(acceptedAt)
      ensures ok ==> PostAccept() == []
    {
      ok := c.sessionId == sessionId && acceptedAt.None?;
      if ok {
        acceptedAt := Some(|frames|);
      }
    }

    /** One look at the frames so far. */
    method TerminalOutcome(c: Correlation) returns (judgement: Judgement)
      requires Valid() && acceptedAt.Some?
      ensures judgement == Judge(Events(PostAccept()), c)
    {
      return Judge(Events(frames[acceptedAt.value..]), c);
    }

    method NextAction(c: Correlation) returns (action: Action)
      requires Valid() && acceptedAt.Some?
      ensures action == FirstAction(Events(PostAccept()), checkedActions, c)
      ensures action.PendingAction? ==> action.id !in checkedActions
    {
      AskedIsUnchecked(Events(frames[acceptedAt.value..]), checkedActions, c);
      return FirstAction(Events(frames[acceptedAt.value..]), checkedActions, c);
    }

    method CheckAction(id: string)
      modifies `checkedActions
      ensures checkedActions == old(checkedActions) + {id}
    {
      checkedActions := checkedActions + {id};
    }

    method ReceiveAll(incoming: seq<SdkRecord>)
      requires Valid()
      modifies `frames
      ensures Valid() && frames == old(frames) + Typed(incoming)
    {
      for n := 0 to |incoming|
        invariant Valid() && frames == old(frames) + Typed(incoming[..n])
      {
        assert incoming[..n + 1][..n] == incoming[..n];
        Receive(incoming[n]);
      }
      assert incoming[..|incoming|] == incoming;
    }

    /** What a wait must tell of the frames it saw: the turn's own end or failure as judged, and a gate, a
        malformed action or a timeout only while the turn was running. */
    ghost predicate Tells(outcome: Waited, c: Correlation)
      reads this
      requires Valid() && acceptedAt.Some?
    {
      match outcome
      case Ended => Judge(Events(PostAccept()), c) == Finished
      case TurnFailed(reason) => Judge(Events(PostAccept()), c) == Failed(reason)
      case _ => Judge(Events(PostAccept()), c) == Running
    }

    /** Waits for the accepted turn.  Each pass judges the frames, looks up the gate of the next action
        nobody looked up yet, judges again, and sleeps; a sleep that is not ended by a frame times out.  Of
        the lookups, `passes` says in which pass they were made; `slept` counts the sleeps a frame ended. */
    method Wait(c: Correlation, intervals: seq<Interval>)
      returns (outcome: Waited, ghost looked: seq<string>, ghost passes: seq<nat>, ghost slept: nat)
      requires Valid() && acceptedAt.Some?
      modifies `frames, `checkedActions
      ensures Valid() && old(frames) <= frames && Tells(outcome, c)
      ensures |passes| == |looked| && slept <= |intervals| && forall i :: 0 <= i < |passes| ==> passes[i] < |intervals|
      ensures forall i, j :: 0 <= i < j < |looked| ==> looked[i] != looked[j] && passes[i] < passes[j]
      ensures forall id :: id in looked ==> id !in old(checkedActions)
      ensures outcome.AtGate? ==>
                |looked| > 0 && outcome.actionId == looked[|looked| - 1] && intervals[passes[|looked| - 1]].gateFound
      ensures forall i :: 0 <= i < |passes| - 1 ==> !intervals[passes[i]].gateFound
      ensures outcome.BadAction? || outcome.TimedOut? ==>
                forall i :: 0 <= i < |passes| ==> !intervals[passes[i]].gateFound
      ensures outcome.BadAction? ==> FirstAction(Events(PostAccept()), checkedActions, c).MalformedAction?
      ensures outcome.TimedOut? ==> slept == |intervals| || intervals[slept].after == []
      ensures !outcome.Ended? && !outcome.TurnFailed? ==> checkedActions == old(checkedActions) + set id | id in looked
    {
      looked, passes, slept := [], [], 0;
      for n := 0 to |intervals|
        invariant Valid() && acceptedAt.Some? && old(frames) <= frames && slept == n && |passes| == |looked|
        invariant forall i :: 0 <= i < |passes| ==> passes[i] < n && !intervals[passes[i]].gateFound
        invariant forall i, j :: 0 <= i < j < |looked| ==> looked[i] != looked[j] && passes[i] < passes[j]
        invariant forall id :: id in looked ==> id !in old(checkedActions)
        invariant checkedActions == old(checkedActions) + set id | id in looked
      {
        var ended, lookup := Pass(c, intervals[n]);
        if lookup.Some? {
          looked, passes := looked + [lookup.value], passes + [n];
        }
        if ended.Some? {
          return ended.value, looked, passes, slept;
        }
        slept := slept + 1;
      }
      var judgement := TerminalOutcome(c);
      return if judgement.Running? then TimedOut else Verdict(judgement), looked, passes, slept;
    }

    /** One pass of a wait: how it ended if it did, and whose gate it looked up. */
    method Pass(c: Correlation, interval: Interval) returns (ended: Option<Waited>, ghost lookup: Option<string>)
      requires Valid() && acceptedAt.Some?
      modifies `frames, `checkedActions
      ensures Valid() && old(frames) <= frames && (ended.Some? ==> Tells(ended.value, c))
      ensures lookup.Some? ==> lookup.value !in old(checkedActions)
      ensures checkedActions ==
              if lookup.None? || (ended.Some? && (ended.value.Ended? || ended.value.TurnFailed?))
              then old(checkedActions) else old(checkedActions) + {lookup.value}
      ensures ended.Some? && ended.value.AtGate? ==> lookup == Some(ended.value.actionId) && interval.gateFound
      ensures ended.Some? && ended.value.BadAction? ==>
                lookup.None? && FirstAction(Events(PostAccept()), checkedActions, c).MalformedAction?
      ensures ended.Some? && ended.value.TimedOut? ==> interval.after == []
      ensures lookup.Some? && interval.gateFound ==>
                ended.Some? && (ended.value.AtGate? || ended.value.Ended? || ended.value.TurnFailed?)
    {
      lookup := None;
      var judgement := TerminalOutcome(c);
      if !judgement.Running? {
        return Some(Verdict(judgement)), lookup;
      }
      ended, lookup := LookUp(c, interval);
      if ended.Some? {
        return;
      }
      if interval.after == [] {
        return Some(TimedOut), lookup;
      }
      ReceiveAll(interval.after);
    }

    /** Looks up the gate of the first action nobody looked up yet, if there is one; what comes in meanwhile
        may end the turn, and only otherwise the action counts as looked up. */
    method LookUp(c: Correlation, interval: Interval) returns (ended: Option<Waited>, ghost lookup: Option<string>)
      requires Valid() && acceptedAt.Some? && Judge(Events(PostAccept()), c).Running?
      modifies `frames, `checkedActions
      ensures Valid() && (ended.Some? ==> Tells(ended.value, c)) && (ended.None? ==> Tells(TimedOut, c))
      ensures var action := FirstAction(Events(old(PostAccept())), old(checkedActions), c);
              match action
              case NoAction => ended.None? && lookup.None? && frames == old(frames)
                && checkedActions == old(checkedActions)
              case MalformedAction =>
                ended == Some(BadAction) && lookup.None? && frames == old(frames)
                  && checkedActions == old(checkedActions)
              case PendingAction(id, _) =>
                && lookup == Some(id) && id !in old(checkedActions) && frames == old(frames) + Typed(interval.during)
                && (Judge(Events(PostAccept()), c).Running? ==>
                      && checkedActions == old(checkedActions) + {id}
                      && ended == if interval.gateFound then Some(AtGate(id)) else None)
                && (!Judge(Events(PostAccept()), c).Running? ==>
                      && checkedActions == old(checkedActions)
                      && ended.Some? && (ended.value.Ended? || ended.value.TurnFailed?))
    {
      lookup := None;
      var action := NextAction(c);
      if action.MalformedAction? {
        return Some(BadAction), lookup;
      }
      if action.PendingAction? {
        lookup := Some(action.id);
        ReceiveAll(interval.during);
        var judgement := TerminalOutcome(c);
        if !judgement.Running? {
          return Some(Verdict(judgement)), lookup;
        }
        CheckAction(action.id);
        if interval.gateFound {
          return Some(AtGate(action.id)), lookup;
        }
      }
      return None, lookup;
    }
  }

  lemma {:induction false} AskedIsUnchecked(events: seq<SdkRecord>, checked: set<string>, c: Correlation)
    ensures FirstAction(events, checked, c).PendingAction? ==>
              FirstAction(events, checked, c).id !in checked && FirstAction(events, checked, c).id != ""
  {
    if events != [] && !Asks(events[0], checked, c) {
      AskedIsUnchecked(events[1..], checked, c);
    }
  }
}
