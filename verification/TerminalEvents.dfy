/** What the frames of a stream mean: in whatever way an event is wrapped it is the same event, and which
    event decides how a turn ended, with what reason. */
module TerminalEvents {
  import opened AuthorityTypes
  import opened Terminal

  // -------------------------------------------------------------- wrappings

  /** An event by itself: it has a type that is no response's, and is no envelope. */
  predicate Bare(e: SdkRecord) {
    && TextAt(e, "type").Some? && TextAt(e, "type") != Some("event") && !EndsWith(TextAt(e, "type").value, "_response")
    && !(TextAt(e, "type").value in {"turn_stream", "agent_end", "agent_failed", "action_needed"} && "payload" in e)
  }

  /** A plain event that an envelope cannot take for one of its own forms. */
  predicate Plain(e: SdkRecord) {
    !HasType(e, "event") && !(RecordAt(e, "event").Some? && TextAt(e, "event_type").Some?)
  }

  function Enveloped(payload: SdkRecord): SdkRecord {
    map["type" := Text("event"), "payload" := Object(payload)]
  }

  /** The event inside an envelope that names its type and has fields of its own. */
  function Inside(e: SdkRecord, name: string, metadata: SdkRecord): SdkRecord {
    metadata + map["event" := Object(e), "event_type" := Text(name)]
  }

  /** A session event: its kind names the type. */
  function OfKind(kind: string, payload: SdkRecord): SdkRecord {
    map["type" := Text("event"), "kind" := Text(kind), "payload" := Object(payload)]
  }

  function Wrapped(name: string, payload: SdkRecord): SdkRecord {
    map["type" := Text(name), "payload" := Object(payload)]
  }

  /** In whatever way the stream carries an event it is read as that event: bare, in an envelope, inside an
      envelope that names its type, as a session event in either form, and as the payload of a frame of its
      own type. */
  lemma UnwrapsTo(e: SdkRecord, name: string)
    requires TextAt(e, "type") == Some(name)
    ensures Bare(e) ==> NormalizeEvent(e) == Some(e)
    ensures Plain(e) ==> NormalizeEvent(Enveloped(e)) == Some(e)
    ensures NormalizeEvent(Enveloped(Inside(e, name, map[]))) == Some(e)
    ensures RecordAt(e, "event").None? ==> NormalizeEvent(Enveloped(OfKind(name, e))) == Some(e)
    ensures NormalizeEvent(Enveloped(OfKind(name, map["event" := Object(e)]))) == Some(e)
    ensures name in {"turn_stream", "agent_end", "agent_failed", "action_needed"} ==>
              NormalizeEvent(Wrapped(name, e)) == Some(e)
  {
    EnvelopeForms(e, name);
    SessionForms(e, name);
    if name in {"turn_stream", "agent_end", "agent_failed", "action_needed"} {
      WrappedForm(e, name);
    }
  }

  lemma EnvelopeForms(e: SdkRecord, name: string)
    requires TextAt(e, "type") == Some(name)
    ensures Plain(e) ==> NormalizeEvent(Enveloped(e)) == Some(e)
    ensures NormalizeEvent(Enveloped(Inside(e, name, map[]))) == Some(e)
  {
    TypedAgain(e, name);
    var payload := Inside(e, name, map[]);
    assert payload - {"event", "event_type"} == map[];
    assert map[] + e + map["type" := Text(name)] == e;
    assert RecordAt(Enveloped(payload), "payload") == Some(payload) && RecordAt(Enveloped(e), "payload") == Some(e);
  }

  lemma WrappedForm(e: SdkRecord, name: string)
    requires TextAt(e, "type") == Some(name) && name in {"turn_stream", "agent_end", "agent_failed", "action_needed"}
    ensures NormalizeEvent(Wrapped(name, e)) == Some(e)
  {
    assert RecordAt(Wrapped(name, e), "payload") == Some(e);
    assert name != "event" && TextAt(Wrapped(name, e), "type") == Some(name);
  }

  lemma TypedAgain(e: SdkRecord, name: string)
    requires TextAt(e, "type") == Some(name)
    ensures e + map["type" := Text(name)] == e && e["type" := Text(name)] == e
  {
  }

  lemma SessionForms(e: SdkRecord, name: string)
    requires TextAt(e, "type") == Some(name)
    ensures RecordAt(e, "event").None? ==> NormalizeEvent(Enveloped(OfKind(name, e))) == Some(e)
    ensures NormalizeEvent(Enveloped(OfKind(name, map["event" := Object(e)]))) == Some(e)
  {
    TypedAgain(e, name);
    var inner: SdkRecord := map["event" := Object(e)];
    assert inner - {"event", "event_type"} == map[];
    assert map[] + e + map["type" := Text(name)] == e;
    assert RecordAt(OfKind(name, e), "payload") == Some(e);
    assert RecordAt(OfKind(name, inner), "payload") == Some(inner);
    EnvelopedSession(OfKind(name, e));
    EnvelopedSession(OfKind(name, inner));
  }

  lemma EnvelopedSession(payload: SdkRecord)
    requires HasType(payload, "event") && "event" !in payload
    ensures NormalizeEvent(Enveloped(payload)) == SessionEvent(payload)
  {
    assert RecordAt(Enveloped(payload), "payload") == Some(payload);
  }

  /** Of an event inside an envelope the type is the envelope's name for it; a field both have is the
      event's own, and the envelope's other fields come with it. */
  lemma MetadataMerged(e: SdkRecord, name: string, metadata: SdkRecord, key: string)
    ensures var read := NormalizeEvent(Enveloped(Inside(e, name, metadata)));
            && read.Some? && TextAt(read.value, "type") == Some(name)
            && (key != "type" && key in e ==> key in read.value && read.value[key] == e[key])
            && (key !in {"type", "event", "event_type"} && key !in e ==>
                  (key in read.value <==> key in metadata) && (key in metadata ==> read.value[key] == metadata[key]))
            && (key in {"event", "event_type"} && key !in e ==> key !in read.value)
  {
    var payload := Inside(e, name, metadata);
    assert RecordAt(Enveloped(payload), "payload") == Some(payload);
    assert RecordAt(payload, "event") == Some(e) && TextAt(payload, "event_type") == Some(name);
    assert HasType(Enveloped(payload), "event");
    assert NormalizeEvent(Enveloped(payload)) ==
      Some((payload - {"event", "event_type"}) + e + map["type" := Text(name)]);
  }

  /** Responses carry no event, nor does a frame of one type around a payload of another, nor an envelope
      without a payload. */
  lemma NoEvent(frame: SdkRecord, name: string, payload: SdkRecord)
    ensures TextAt(frame, "type").Some? && EndsWith(TextAt(frame, "type").value, "_response") ==>
              NormalizeEvent(frame).None?
    ensures HasType(frame, "event") && RecordAt(frame, "payload").None? ==> NormalizeEvent(frame).None?
    ensures name in {"turn_stream", "agent_end", "agent_failed", "action_needed"} && !HasType(payload, name) ==>
              NormalizeEvent(Wrapped(name, payload)).None?
    ensures TextAt(frame, "type").None? ==> NormalizeEvent(frame).None?
  {
    assert RecordAt(Wrapped(name, payload), "payload") == Some(payload);
    NoResponse(frame);
  }

  lemma NoResponse(frame: SdkRecord)
    ensures TextAt(frame, "type").Some? && EndsWith(TextAt(frame, "type").value, "_response") ==>
              NormalizeEvent(frame).None?
  {
  }

  // ------------------------------------------------------------ the judgement

  /** The first report of this name for the turn is at place `i`. */
  predicate FirstAt(events: seq<SdkRecord>, i: nat, name: string, c: Correlation) {
    i < |events| && Reports(events[i], name, c) && forall k :: 0 <= k < i ==> !Reports(events[k], name, c)
  }

  /** The first failed message of the turn behind place `s` is at place `i`. */
  predicate FirstFailing(events: seq<SdkRecord>, s: nat, i: nat, c: Correlation) {
    s < i < |events| && FailsAssistant(events[i], c) && forall k :: s < k < i ==> !FailsAssistant(events[k], c)
  }

  lemma {:induction false} ReportAt(events: seq<SdkRecord>, i: nat, name: string, c: Correlation)
    requires FirstAt(events, i, name, c)
    ensures FirstReport(events, name, c) == Some(events[i])
    decreases i
  {
    if i > 0 {
      assert forall k :: 0 <= k < |events| - 1 ==> events[1..][k] == events[k + 1];
      ReportAt(events[1..], i - 1, name, c);
    }
  }

  lemma {:induction false} NoReportAt(events: seq<SdkRecord>, name: string, c: Correlation)
    ensures FirstReport(events, name, c).None? <==> forall k :: 0 <= k < |events| ==> !Reports(events[k], name, c)
    decreases |events|
  {
    if events != [] {
      NoReportAt(events[1..], name, c);
      assert forall k :: 0 < k < |events| ==> events[k] == events[1..][k - 1];
    }
  }

  lemma {:induction false} StartAt(events: seq<SdkRecord>, i: nat, c: Correlation)
    requires FirstAt(events, i, "agent_start", c)
    ensures AfterStart(events, c) == events[i + 1..]
    decreases i
  {
    if i > 0 {
      assert forall k :: 0 <= k < |events| - 1 ==> events[1..][k] == events[k + 1];
      StartAt(events[1..], i - 1, c);
      assert events[1..][i..] == events[i + 1..];
    }
  }

  lemma {:induction false} NoStart(events: seq<SdkRecord>, c: Correlation)
    requires forall k :: 0 <= k < |events| ==> !Reports(events[k], "agent_start", c)
    ensures AfterStart(events, c) == []
    decreases |events|
  {
    if events != [] {
      NoStart(events[1..], c);
    }
  }

  lemma {:induction false} FailureAt(events: seq<SdkRecord>, i: nat, c: Correlation)
    requires i < |events| && FailsAssistant(events[i], c) && forall k :: 0 <= k < i ==> !FailsAssistant(events[k], c)
    ensures FirstAssistantFailure(events, c) == AssistantFailure(events[i])
    decreases i
  {
    if i > 0 {
      assert forall k :: 0 <= k < |events| - 1 ==> events[1..][k] == events[k + 1];
      FailureAt(events[1..], i - 1, c);
    }
  }

  lemma {:induction false} NoFailure(events: seq<SdkRecord>, c: Correlation)
    requires forall k :: 0 <= k < |events| ==> !FailsAssistant(events[k], c)
    ensures FirstAssistantFailure(events, c).None?
    decreases |events|
  {
    if events != [] {
      NoFailure(events[1..], c);
    }
  }

  predicate ReportedAnywhere(events: seq<SdkRecord>, name: string, c: Correlation) {
    exists k :: 0 <= k < |events| && Reports(events[k], name, c)
  }

  /** A reported failure of the turn decides before all, with the first one's reason; then the first failed
      message behind the turn's first start, with its reason; then a reported end; otherwise the turn is
      still running. */
  lemma JudgedExact(events: seq<SdkRecord>, c: Correlation)
    ensures forall i: nat :: FirstAt(events, i, "agent_failed", c) ==>
              Judge(events, c) == Failed(FailureText(events[i]))
    ensures forall s: nat, i: nat ::
              !ReportedAnywhere(events, "agent_failed", c) && FirstAt(events, s, "agent_start", c)
                && FirstFailing(events, s, i, c) ==>
              Judge(events, c) == Failed(AssistantFailure(events[i]))
    ensures !ReportedAnywhere(events, "agent_failed", c) && !AnyFailing(events, c) ==>
            Judge(events, c) == if ReportedAnywhere(events, "agent_end", c) then Finished else Running
  {
    forall i: nat | FirstAt(events, i, "agent_failed", c)
      ensures Judge(events, c) == Failed(FailureText(events[i]))
    {
      ReportAt(events, i, "agent_failed", c);
    }
    NoReportAt(events, "agent_failed", c);
    forall s: nat, i: nat | FirstAt(events, s, "agent_start", c) && FirstFailing(events, s, i, c)
      ensures FirstAssistantFailure(AfterStart(events, c), c) == AssistantFailure(events[i])
    {
      FailingBehind(events, s, i, c);
    }
    NoReportAt(events, "agent_end", c);
    NothingFails(events, c);
  }

  ghost predicate AnyFailing(events: seq<SdkRecord>, c: Correlation) {
    exists s: nat, i: nat :: FirstAt(events, s, "agent_start", c) && FirstFailing(events, s, i, c)
  }

  lemma FailingBehind(events: seq<SdkRecord>, s: nat, i: nat, c: Correlation)
    requires FirstAt(events, s, "agent_start", c) && FirstFailing(events, s, i, c)
    ensures FirstAssistantFailure(AfterStart(events, c), c) == AssistantFailure(events[i])
  {
    StartAt(events, s, c);
    assert events[s + 1..][i - s - 1] == events[i];
    FailureAt(events[s + 1..], i - s - 1, c);
  }

  lemma NothingFails(events: seq<SdkRecord>, c: Correlation)
    ensures AnyFailing(events, c) || FirstAssistantFailure(AfterStart(events, c), c).None?
  {
    if ReportedAnywhere(events, "agent_start", c) {
      var s := FirstPlace(events, "agent_start", c);
      StartAt(events, s, c);
      var behind := events[s + 1..];
      if exists k :: 0 <= k < |behind| && FailsAssistant(behind[k], c) {
        var k := FirstFailed(behind, c);
        assert behind[k] == events[s + 1 + k];
        assert forall j :: s < j < s + 1 + k ==> events[j] == behind[j - s - 1];
        assert FirstFailing(events, s, s + 1 + k, c);
      } else {
        NoFailure(behind, c);
      }
    } else {
      NoStart(events, c);
    }
  }

  lemma {:induction false} FirstPlace(events: seq<SdkRecord>, name: string, c: Correlation) returns (i: nat)
    requires ReportedAnywhere(events, name, c)
    ensures FirstAt(events, i, name, c)
    decreases |events|
  {
    if Reports(events[0], name, c) {
      i := 0;
    } else {
      assert forall k :: 0 < k < |events| ==> events[k] == events[1..][k - 1];
      i := FirstPlace(events[1..], name, c);
      i := i + 1;
    }
  }

  lemma {:induction false} FirstFailed(events: seq<SdkRecord>, c: Correlation) returns (i: nat)
    requires exists k :: 0 <= k < |events| && FailsAssistant(events[k], c)
    ensures i < |events| && FailsAssistant(events[i], c) && forall k :: 0 <= k < i ==> !FailsAssistant(events[k], c)
    decreases |events|
  {
    if FailsAssistant(events[0], c) {
      i := 0;
    } else {
      assert forall k :: 0 < k < |events| ==> events[k] == events[1..][k - 1];
      i := FirstFailed(events[1..], c);
      i := i + 1;
    }
  }

  /** The three fields of a turn, all there as texts and equal. */
  predicate OfTurn(r: SdkRecord, c: Correlation) {
    && "sessionId" in r && r["sessionId"] == Text(c.sessionId)
    && "commandId" in r && r["commandId"] == Text(c.commandId)
    && "turnId" in r && r["turnId"] == Text(c.turnId)
  }

  /** An event reports for a turn by its nested correlation alone if it has one, else by its own fields.  A
      failed message also counts for the turn if where it would name one it names nothing. */
  lemma ReportsExact(e: SdkRecord, name: string, c: Correlation)
    ensures Reports(e, name, c) <==>
            && "type" in e && e["type"] == Text(name)
            && if "correlation" in e then e["correlation"].Object? && OfTurn(e["correlation"].fields, c)
               else OfTurn(e, c)
    ensures FailsAssistant(e, c) <==>
            && AssistantFailure(e).Some?
            && var own := if "correlation" in e && e["correlation"].Object? then e["correlation"].fields else e;
               || ("sessionId" !in own && "commandId" !in own && "turnId" !in own)
               || (OfTurn(own, c) && ("correlation" in e ==> e["correlation"].Object?))
  {
    assert AssistantFailure(e).Some? ==> HasType(e, "message_end");
  }

  // ---------------------------------------------------------------- reasons

  /** The reason of a reported failure: the message of its error, none where the error has no text, and a
      general one where there is no error object. */
  lemma FailureReasons(e: SdkRecord, error: SdkRecord, reason: string)
    ensures "error" in e && e["error"] == Object(error) && TextAt(error, "message") == Some(reason) && reason != "" ==>
              FailureText(e) == Some(reason)
    ensures "error" in e && e["error"] == Object(error) && (TextAt(error, "message") in {None, Some("")}) ==>
              FailureText(e).None?
    ensures "error" in e && e["error"].List? ==> FailureText(e).None?
    ensures "error" !in e || e["error"].Null? || e["error"].Text? || e["error"].Number? || e["error"].Flag? ==>
              FailureText(e) == Some("SDK prompt failed")
  {
  }

  /** A message failed exactly when it is an assistant's that stopped by error; it says why in its own words,
      or else by the provider's code if there is one. */
  lemma AssistantReasons(e: SdkRecord, message: SdkRecord)
    requires HasType(e, "message_end") && RecordAt(e, "message") == Some(message)
    ensures AssistantFailure(e).Some? <==>
            TextAt(message, "role") == Some("assistant") && TextAt(message, "stopReason") == Some("error")
    ensures AssistantFailure(e).Some? ==>
              var own := TextAt(message, "errorMessage");
              var failure := RecordAt(message, "transportFailure");
              var code := if failure.Some? then TextAt(failure.value, "providerCode") else None;
              && (own.Some? && own.value != "" ==> AssistantFailure(e) == own)
              && (own in {None, Some("")} && code.Some? && code.value != "" ==>
                    AssistantFailure(e) == Some("Provider transport failed (" + code.value + ")"))
              && (own in {None, Some("")} && code in {None, Some("")} ==>
                    AssistantFailure(e) == Some("Provider transport failed"))
  {
  }

  // ----------------------------------------------------------------- actions

  /** The action handed out is the first one that asks for this turn and was not checked: of the events
      before it none does, and its gate is the one it names. */
  lemma {:induction false} FirstActionExact(events: seq<SdkRecord>, checked: set<string>, c: Correlation)
    ensures FirstAction(events, checked, c).NoAction? <==>
            forall k :: 0 <= k < |events| ==> !Asks(events[k], checked, c)
    ensures forall i ::
              0 <= i < |events| && Asks(events[i], checked, c)
                && (forall k :: 0 <= k < i ==> !Asks(events[k], checked, c)) ==>
              FirstAction(events, checked, c) ==
                if "workflowGateId" !in events[i] then PendingAction(ActionId(events[i]).value, None)
                else if TextAt(events[i], "workflowGateId") in {None, Some("")} then MalformedAction
                else PendingAction(ActionId(events[i]).value, TextAt(events[i], "workflowGateId"))
    decreases |events|
  {
    if events != [] {
      FirstActionExact(events[1..], checked, c);
      assert forall k :: 0 < k < |events| ==> events[k] == events[1..][k - 1];
      assert forall k :: 0 <= k < |events| - 1 ==> events[1..][k] == events[k + 1];
    }
  }

  /** An event asks for the turn: an action of its session that names either the very turn or none, under an
      id of its own that was not checked. */
  lemma AsksExact(e: SdkRecord, checked: set<string>, c: Correlation)
    ensures Asks(e, checked, c) <==>
            && TextAt(e, "type") == Some("action_needed") && TextAt(e, "sessionId") == Some(c.sessionId)
            && (("commandId" !in e && "turnId" !in e) ||
                (TextAt(e, "commandId") == Some(c.commandId) && TextAt(e, "turnId") == Some(c.turnId)))
            && exists id :: id != "" && id !in checked &&
                 (("actionId" in e && e["actionId"] == Text(id)) ||
                  (("actionId" !in e || e["actionId"].Null?) && "id" in e && e["id"] == Text(id)))
  {
  }
}
