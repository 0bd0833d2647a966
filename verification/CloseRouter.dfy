/** Closing a session through the journal: the physical close runs at most once
    per ingress, whatever retries, restarts and reassignments come between. */
module CloseRouter {
  import opened AuthorityTypes
  import opened RelationalValidity
  import opened JournalSteps
  import opened JournalInvariant
  import opened JournalSafety
  import opened ReassignmentSafety
  import opened JournalRuns
  import opened Journal

  /** A close whose physical part has been started and not yet settled; `closed` once it reported so. */
  datatype Flight = Flight(chatId: string, ingressId: string, ingressHash: string, mapping: Input, closed: bool)

  /** `closes` logs every physical close by chat and ingress; a flight is named by its place there. */
  datatype State = State(
    doc: Document, flights: map<nat, Flight>, closes: seq<(string, string)>, reported: set<(string, string)>)

  datatype Ingress = Ingress(
    chatId: string, ingressId: string, ingressHash: string, legacyIngressId: Option<string>,
    owned: bool, preflight: bool, mapping: Input)

  datatype Report = ReportedClosed | NotClosed | CloseThrew

  function Prior(d: Document, input: Ingress): Option<Operation> {
    var current := LookupOperation(d, input.chatId, input.ingressId);
    if current.Some? || input.legacyIngressId.None? then current
    else LookupOperation(d, input.chatId, input.legacyIngressId.value)
  }

  function CloseId(ingressId: string): OperationId {
    OperationId(ingressId, Some(ingressId))
  }

  /** A transition that is rejected changes nothing. */
  function Settle(d: Document, f: Flight, state: OperationState): Document {
    var t := TransitionStep(d, f.chatId, f.ingressId, state, Some(f.ingressHash), None);
    if t.outcome.Accepted? then t.doc else d
  }

  lemma SettleIsTransition(d: Document, f: Flight, state: OperationState)
    ensures Settle(d, f, state) == Perform(d, Do(Transition(f.chatId, f.ingressId, state, Some(f.ingressHash), None)))
  {
  }

  function CloseResultOf(f: Flight): OperationResult {
    ResultOf(CloseResult, f.mapping.(operationId := f.ingressId)).(
      correlation := Some(map["closeStatus" := "closed", "mappingOperationId" := f.mapping.operationId]))
  }

  function CompleteClose(f: Flight): Command {
    CompleteWithMapping(f.chatId, f.ingressId, f.ingressHash, f.mapping, CloseResultOf(f))
  }

  function BeginClose(d: Document, input: Ingress): Step {
    BeginStep(d, input.chatId, CloseId(input.ingressId), Close, Some(input.ingressHash))
  }

  function CompleteCloseStep(d: Document, f: Flight): Step {
    CompleteWithMappingStep(d, f.chatId, f.ingressId, f.ingressHash, f.mapping, CloseResultOf(f))
  }

  /** From the call to the physical close: a prior operation is only replayed. */
  function RouteStep(s: State, input: Ingress): State {
    var f := Flight(input.chatId, input.ingressId, input.ingressHash, input.mapping, false);
    if Prior(s.doc, input).Some? then s
    else
      var begun := BeginClose(s.doc, input);
      if begun.outcome.Rejected? then s
      else if !input.owned || !input.preflight then s.(doc := Settle(begun.doc, f, Conflict))
      else s.(doc := begun.doc, flights := s.flights[|s.closes| := f], closes := s.closes + [(f.chatId, f.ingressId)])
  }

  function ReportStep(s: State, id: nat, report: Report): State
    requires id in s.flights
  {
    var f := s.flights[id];
    match report
    case ReportedClosed =>
      s.(flights := s.flights[id := f.(closed := true)], reported := s.reported + {(f.chatId, f.ingressId)})
    case NotClosed => s.(doc := Settle(s.doc, f, Conflict), flights := s.flights - {id})
    case CloseThrew => s.(doc := Settle(s.doc, f, Uncertain), flights := s.flights - {id})
  }

  /** Publication commits the completion or not, and may throw before or after that. */
  function PublishedStep(s: State, id: nat, commits: bool, throws: bool): State
    requires id in s.flights
  {
    var f := s.flights[id];
    var doc := PublishedDoc(s.doc, f, commits);
    s.(doc := if throws || !commits || CompleteCloseStep(s.doc, f).outcome.Rejected?
              then Settle(doc, f, Uncertain) else doc,
       flights := s.flights - {id})
  }

  function PublishedDoc(d: Document, f: Flight, commits: bool): Document {
    if commits && CompleteCloseStep(d, f).outcome.Accepted? then CompleteCloseStep(d, f).doc else d
  }

  lemma CompleteIsCommand(d: Document, f: Flight)
    ensures PublishedDoc(d, f, true) == Perform(d, Do(CompleteClose(f)))
  {
  }

  datatype Event =
    | Route(input: Ingress) | Reports(id: nat, report: Report) | Publishes(id: nat, commits: bool, throws: bool)
    | Other(cmd: Command) | Reboot(booted: Document)

  function Next(s: State, e: Event): State
    requires Enabled(s, e)
  {
    match e
    case Route(input) => RouteStep(s, input)
    case Reports(id, report) => ReportStep(s, id, report)
    case Publishes(id, commits, throws) => PublishedStep(s, id, commits, throws)
    case Other(cmd) => s.(doc := Perform(s.doc, Do(cmd)))
    case Reboot(booted) => s.(doc := booted, flights := map[])
  }

  predicate NamesClose(d: Document, chatId: string, name: string) {
    LookupOperation(d, chatId, name).Some? && LookupOperation(d, chatId, name).value.kind.Close?
  }

  predicate DoneClose(o: Operation) {
    o.kind.Close? && o.state.Complete?
  }

  /** A mapping that carries a journal of its own carries no completed close. */
  predicate CarriesNoClose(mapping: Input) {
    forall o :: o in mapping.journal ==> !DoneClose(o)
  }

  /** The rest of the system leaves completing a close to the router. */
  predicate LeavesCloses(d: Document, cmd: Command) {
    match cmd
    case Store(input) => CarriesNoClose(input)
    case Transition(chatId, name, state, _, _) => state.Complete? ==> !NamesClose(d, chatId, name)
    case CompleteWithMapping(chatId, name, _, mapping, _) => !NamesClose(d, chatId, name) && CarriesNoClose(mapping)
    case _ => true
  }

  predicate Enabled(s: State, e: Event) {
    match e
    case Reports(id, _) => id in s.flights && !s.flights[id].closed
    case Publishes(id, _, _) => id in s.flights && s.flights[id].closed
    case _ => true
  }

  /** What the journal needs of its callers, for each event.  A restart completes no close by itself. */
  ghost predicate Permitted(s: State, e: Event) {
    && Enabled(s, e)
    && match e
       case Route(input) => input.ingressId != ""
       case Reports(_, _) => true
       case Publishes(id, commits, _) =>
         commits ==> Safe(s.doc, CompleteClose(s.flights[id])) && CarriesNoClose(s.flights[id].mapping)
       case Other(cmd) => Safe(s.doc, cmd) && LeavesCloses(s.doc, cmd)
       case Reboot(booted) => Inv(booted) && Reported(s.(doc := booted))
  }

  ghost predicate Reaches(s: State, events: seq<Event>, s': State)
    decreases |events|
  {
    if events == [] then s' == s
    else Permitted(s, events[0]) && Reaches(Next(s, events[0]), events[1..], s')
  }

  /** A begin over a pending reassignment that forgets a close once started: one the chat did before it
      moved, which only the lineage retired by then still answers for. */
  predicate DropsClose(d: Document, closes: seq<(string, string)>, cmd: Command) {
    exists i :: 0 <= i < |closes| && DropsName(d, cmd, closes[i].0, closes[i].1)
  }

  /** The event leaves every started close on record: no begin drops one, and no restart comes up without. */
  ghost predicate KeepsCloses(s: State, e: Event) {
    match e
    case Other(cmd) => StepOf(s.doc, cmd).outcome.Accepted? ==> !DropsClose(s.doc, s.closes, cmd)
    case Reboot(booted) => Recorded(booted, s.closes)
    case _ => true
  }

  ghost predicate AllKeepCloses(s: State, events: seq<Event>)
    decreases |events|
  {
    events == [] ||
    (Enabled(s, events[0]) && KeepsCloses(s, events[0]) && AllKeepCloses(Next(s, events[0]), events[1..]))
  }

  // ---------------------------------------------------------- at most once

  /** The close of this chat and ingress is on record. */
  predicate OnRecord(d: Document, key: (string, string)) {
    LookupOperation(d, key.0, key.1).Some?
    && LookupOperation(d, key.0, key.1).value.oid == CloseId(key.1)
    && LookupOperation(d, key.0, key.1).value.kind.Close?
  }

  ghost predicate Recorded(d: Document, closes: seq<(string, string)>) {
    Inv(d) && forall i :: 0 <= i < |closes| ==> OnRecord(d, closes[i])
  }

  /** No close is logged twice, and a flight is the close at its place. */
  predicate Logged(s: State) {
    && (forall i, j :: 0 <= i < j < |s.closes| ==> s.closes[i] != s.closes[j])
    && (forall id :: id in s.flights ==>
          id < |s.closes| && s.closes[id] == (s.flights[id].chatId, s.flights[id].ingressId))
    && (forall id :: id in s.flights && s.flights[id].closed ==> s.closes[id] in s.reported)
  }

  ghost predicate Once(s: State) {
    Recorded(s.doc, s.closes) && Logged(s)
  }

  /** Through a safe event a close stays on record exactly when its name is spared. */
  lemma PerformKeepsRecord(d: Document, e: RunEvent, key: (string, string))
    requires Inv(d) && SafeEvent(d, e) && OnRecord(d, key)
    ensures OnRecord(Perform(d, e), key) <==> SparesName(d, e, key.0, key.1)
  {
    LookupEventExact(d, e, key.0, key.1);
  }

  lemma EventRecordedExact(d: Document, e: RunEvent, closes: seq<(string, string)>)
    requires Recorded(d, closes) && SafeEvent(d, e)
    ensures Recorded(Perform(d, e), closes) <==>
              (forall i :: 0 <= i < |closes| ==> SparesName(d, e, closes[i].0, closes[i].1))
  {
    PerformKeeps(d, e);
    forall i | 0 <= i < |closes|
      ensures OnRecord(Perform(d, e), closes[i]) <==> SparesName(d, e, closes[i].0, closes[i].1)
    {
      PerformKeepsRecord(d, e, closes[i]);
    }
  }

  lemma AllStayOnRecord(d: Document, e: RunEvent, closes: seq<(string, string)>)
    requires Recorded(d, closes) && SafeEvent(d, e)
    requires e.Do? && StepOf(d, e.cmd).outcome.Accepted? ==> !DropsClose(d, closes, e.cmd)
    ensures Recorded(Perform(d, e), closes)
  {
    EventRecordedExact(d, e, closes);
  }

  /** An accepted safe command leaves the started closes on record exactly when it drops none of them. */
  lemma RecordedExact(d: Document, cmd: Command, closes: seq<(string, string)>)
    requires Recorded(d, closes) && Safe(d, cmd) && StepOf(d, cmd).outcome.Accepted?
    ensures Recorded(StepOf(d, cmd).doc, closes) <==> !DropsClose(d, closes, cmd)
  {
    EventRecordedExact(d, Do(cmd), closes);
    assert Perform(d, Do(cmd)) == StepOf(d, cmd).doc;
    assert (forall i :: 0 <= i < |closes| ==> SparesName(d, Do(cmd), closes[i].0, closes[i].1)) <==>
      !DropsClose(d, closes, cmd);
  }

  /** Settling a close on record is a safe transition. */
  lemma SettleIsSafe(d: Document, f: Flight, state: OperationState)
    requires Inv(d) && OnRecord(d, (f.chatId, f.ingressId)) && !state.Complete?
    ensures Safe(d, Transition(f.chatId, f.ingressId, state, Some(f.ingressHash), None))
  {
    var r := d.records[f.chatId];
    var i := IndexOf(r.journal, f.ingressId);
    if i < |r.journal| {
      RecordedIsShaped(r, i);
      assert Lineage(r)[i] == r.journal[i];
      UniqueLookup(Lineage(r), i, f.ingressId);
    }
  }

  lemma RecordedIsShaped(r: Record, i: nat)
    requires RecordOk(r) && i < |r.journal|
    ensures OperationShape(r.journal[i]) && Unique(Lineage(r))
  {
  }

  lemma SettleKeeps(d: Document, f: Flight, state: OperationState, closes: seq<(string, string)>)
    requires Recorded(d, closes) && OnRecord(d, (f.chatId, f.ingressId)) && !state.Complete?
    ensures Recorded(Settle(d, f, state), closes)
  {
    SettleIsSafe(d, f, state);
    SettleIsTransition(d, f, state);
    AllStayOnRecord(d, Do(Transition(f.chatId, f.ingressId, state, Some(f.ingressHash), None)), closes);
  }

  lemma BeginKeepsAll(d: Document, input: Ingress, closes: seq<(string, string)>)
    requires Recorded(d, closes) && LookupOperation(d, input.chatId, input.ingressId).None? && input.ingressId != ""
    requires BeginClose(d, input).outcome.Accepted?
    ensures Recorded(BeginClose(d, input).doc, closes + [(input.chatId, input.ingressId)])
    ensures forall i :: 0 <= i < |closes| ==> closes[i] != (input.chatId, input.ingressId)
  {
    BeginIsFresh(d, input);
    BeginIsCommand(d, input);
    var cmd := Begin(input.chatId, CloseId(input.ingressId), Close, Some(input.ingressHash));
    AllStayOnRecord(d, Do(cmd), closes);
  }

  lemma BeginIsCommand(d: Document, input: Ingress)
    requires BeginClose(d, input).outcome.Accepted? && BeginSafe(d, input.chatId, CloseId(input.ingressId))
    ensures var cmd := Begin(input.chatId, CloseId(input.ingressId), Close, Some(input.ingressHash));
            Safe(d, cmd) && Perform(d, Do(cmd)) == BeginClose(d, input).doc
  {
  }

  lemma FewerRecorded(d: Document, closes: seq<(string, string)>, key: (string, string))
    requires Recorded(d, closes + [key])
    ensures Recorded(d, closes)
  {
    assert forall i :: 0 <= i < |closes| ==> (closes + [key])[i] == closes[i];
  }

  /** A close that is not on record yet can be begun, and is on record then. */
  lemma BeginIsFresh(d: Document, input: Ingress)
    requires Inv(d) && LookupOperation(d, input.chatId, input.ingressId).None? && input.ingressId != ""
    requires BeginClose(d, input).outcome.Accepted?
    ensures BeginSafe(d, input.chatId, CloseId(input.ingressId))
    ensures OnRecord(BeginClose(d, input).doc, (input.chatId, input.ingressId))
  {
    var r := d.records[input.chatId];
    var oid := CloseId(input.ingressId);
    assert oid.Identifiers() == {input.ingressId};
    NoneNamed(Lineage(r), input.ingressId);
    NoOverlapInside(r.journal, ChainOps(Root(r.reassignment)), input.ingressId);
    BegunRecord(d, input);
    BeginKeeps(d, input.chatId, oid, Close, Some(input.ingressHash));
    var r' := BeginClose(d, input).doc.records[input.chatId];
    assert RecordOk(r');
    UniqueLookup(Lineage(r'), |r.journal|, input.ingressId);
  }

  /** The begun operation stands behind the old journal. */
  lemma BegunRecord(d: Document, input: Ingress)
    requires BeginClose(d, input).outcome.Accepted?
        && FirstOverlap(d.records[input.chatId].journal, CloseId(input.ingressId)) == |d.records[input.chatId].journal|
    ensures var r := d.records[input.chatId];
            var o := Operation(CloseId(input.ingressId), Close, Pending, Some(input.ingressHash), None, None);
            && input.chatId in BeginClose(d, input).doc.records
            && BeginClose(d, input).doc.records[input.chatId] == r.(journal := r.journal + [o])
            && |Lineage(r.(journal := r.journal + [o]))| > |r.journal|
            && Lineage(r.(journal := r.journal + [o]))[|r.journal|] == o
  {
  }

  lemma NoOverlapInside(a: seq<Operation>, b: seq<Operation>, name: string)
    requires forall i :: 0 <= i < |a + b| ==> name !in (a + b)[i].oid.Identifiers()
    ensures FirstOverlap(a, CloseId(name)) == |a| && !AnyOverlap(CloseId(name), b)
  {
    var oid := CloseId(name);
    assert oid.Identifiers() == {name};
    forall i | 0 <= i < |a|
      ensures !Overlap(oid, a[i].oid)
    {
      assert (a + b)[i] == a[i];
    }
    forall i | 0 <= i < |b|
      ensures !Overlap(oid, b[i].oid)
    {
      assert (a + b)[|a| + i] == b[i];
    }
  }

  lemma NoneNamed(ops: seq<Operation>, name: string)
    requires FirstNamed(ops, name).None?
    ensures forall i :: 0 <= i < |ops| ==> name !in ops[i].oid.Identifiers()
  {
    assert forall i :: 0 <= i < |ops| ==> name !in Names(ops[i]);
  }

  lemma LoggedMore(s: State, f: Flight, d: Document)
    requires Logged(s) && !f.closed
    requires forall i :: 0 <= i < |s.closes| ==> s.closes[i] != (f.chatId, f.ingressId)
    ensures Logged(s.(doc := d, flights := s.flights[|s.closes| := f], closes := s.closes + [(f.chatId, f.ingressId)]))
  {
  }

  lemma RouteOnce(s: State, input: Ingress)
    requires Once(s) && input.ingressId != ""
    ensures Once(RouteStep(s, input))
  {
    if Prior(s.doc, input).None? && BeginClose(s.doc, input).outcome.Accepted? {
      BeginKeepsAll(s.doc, input, s.closes);
      BegunOnce(s, input, BeginClose(s.doc, input).doc);
    }
  }

  lemma BegunOnce(s: State, input: Ingress, begun: Document)
    requires Logged(s) && Recorded(begun, s.closes + [(input.chatId, input.ingressId)])
    requires forall i :: 0 <= i < |s.closes| ==> s.closes[i] != (input.chatId, input.ingressId)
    ensures var f := Flight(input.chatId, input.ingressId, input.ingressHash, input.mapping, false);
            && Once(s.(doc := Settle(begun, f, Conflict)))
            && Once(s.(doc := begun, flights := s.flights[|s.closes| := f],
              closes := s.closes + [(f.chatId, f.ingressId)]))
  {
    var f := Flight(input.chatId, input.ingressId, input.ingressHash, input.mapping, false);
    var key := (input.chatId, input.ingressId);
    assert (s.closes + [key])[|s.closes|] == key;
    SettleKeeps(begun, f, Conflict, s.closes + [key]);
    FewerRecorded(Settle(begun, f, Conflict), s.closes, key);
    LoggedMore(s, f, begun);
  }

  lemma SettledOnce(s: State, id: nat, state: OperationState)
    requires Once(s) && id in s.flights && !state.Complete?
    ensures Once(s.(doc := Settle(s.doc, s.flights[id], state), flights := s.flights - {id}))
  {
    assert OnRecord(s.doc, s.closes[id]);
    SettleKeeps(s.doc, s.flights[id], state, s.closes);
  }

  lemma ReportedOnce(s: State, id: nat, f: Flight)
    requires Logged(s) && id in s.flights && f == s.flights[id].(closed := true)
    ensures Logged(s.(flights := s.flights[id := f], reported := s.reported + {(f.chatId, f.ingressId)}))
  {
  }

  lemma ReportOnce(s: State, id: nat, report: Report)
    requires Once(s) && Permitted(s, Reports(id, report))
    ensures Once(ReportStep(s, id, report))
  {
    match report
    case ReportedClosed => ReportedOnce(s, id, s.flights[id].(closed := true));
    case NotClosed => SettledOnce(s, id, Conflict);
    case CloseThrew => SettledOnce(s, id, Uncertain);
  }

  lemma PublishedOnce(s: State, id: nat, commits: bool, throws: bool)
    requires Once(s) && Permitted(s, Publishes(id, commits, throws))
    ensures Once(PublishedStep(s, id, commits, throws))
  {
    var f := s.flights[id];
    if commits {
      CompleteIsCommand(s.doc, f);
      AllStayOnRecord(s.doc, Do(CompleteClose(f)), s.closes);
    }
    SettleKeeps(PublishedDoc(s.doc, f, commits), f, Uncertain, s.closes);
  }

  lemma BootedOnce(s: State, booted: Document)
    requires Logged(s)
    ensures Once(s.(doc := booted, flights := map[])) <==> Recorded(booted, s.closes)
  {
  }

  lemma OtherOnce(s: State, cmd: Command)
    requires Once(s) && Safe(s.doc, cmd)
    ensures Once(s.(doc := Perform(s.doc, Do(cmd)))) <==> KeepsCloses(s, Other(cmd))
  {
    if StepOf(s.doc, cmd).outcome.Accepted? {
      RecordedExact(s.doc, cmd, s.closes);
    }
  }

  /** One event keeps every started close on record, each started once, exactly when it drops none. */
  lemma NextOnce(s: State, e: Event)
    requires Once(s) && Permitted(s, e)
    ensures Once(Next(s, e)) <==> KeepsCloses(s, e)
  {
    match e
    case Route(input) => RouteOnce(s, input);
    case Reports(id, report) => ReportOnce(s, id, report);
    case Publishes(id, commits, throws) => PublishedOnce(s, id, commits, throws);
    case Other(cmd) => OtherOnce(s, cmd);
    case Reboot(booted) => BootedOnce(s, booted);
  }

  ghost predicate OnceThroughout(s: State, events: seq<Event>)
    decreases |events|
  {
    Once(s) && (events != [] ==> Enabled(s, events[0]) && OnceThroughout(Next(s, events[0]), events[1..]))
  }

  /** Over any run in which no begin over a pending reassignment and no restart drops a started close, no
      chat and ingress is physically closed twice; and exactly then each stays on record all along. */
  lemma {:induction false} AtMostOneClose(s: State, events: seq<Event>, s': State)
    requires Once(s) && Reaches(s, events, s')
    ensures OnceThroughout(s, events) <==> AllKeepCloses(s, events)
    ensures AllKeepCloses(s, events) ==>
              Once(s') &&
              forall i, j :: 0 <= i < |s'.closes| && 0 <= j < |s'.closes| && s'.closes[i] == s'.closes[j] ==> i == j
    decreases |events|
  {
    if events != [] {
      NextOnce(s, events[0]);
      if KeepsCloses(s, events[0]) {
        AtMostOneClose(Next(s, events[0]), events[1..], s');
      }
    }
  }

  // ------------------------------------------------ complete means reported

  predicate HasDone(ops: seq<Operation>, oid: OperationId) {
    exists i :: 0 <= i < |ops| && ops[i].oid == oid && DoneClose(ops[i])
  }

  predicate NoneNew(a: seq<Operation>, b: seq<Operation>) {
    forall i :: 0 <= i < |b| && DoneClose(b[i]) ==> HasDone(a, b[i].oid)
  }

  /** No chat has a completed close it did not have before. */
  ghost predicate NoNewCloses(d: Document, d': Document) {
    forall c :: c in d'.records ==> NoneNew(LineageOf(d.RecordOf(c)), Lineage(d'.records[c]))
  }

  lemma NoneNewConcat(a0: seq<Operation>, b0: seq<Operation>, a1: seq<Operation>, b1: seq<Operation>)
    requires NoneNew(a0, b0) && NoneNew(a1, b1)
    ensures NoneNew(a0 + a1, b0 + b1)
  {
    var a, b := a0 + a1, b0 + b1;
    forall i | 0 <= i < |b| && DoneClose(b[i])
      ensures HasDone(a, b[i].oid)
    {
      if i < |b0| {
        assert HasDone(a0, b0[i].oid);
        var j :| 0 <= j < |a0| && a0[j].oid == b[i].oid && DoneClose(a0[j]);
        assert a[j] == a0[j];
      } else {
        assert HasDone(a1, b1[i - |b0|].oid);
        var j :| 0 <= j < |a1| && a1[j].oid == b[i].oid && DoneClose(a1[j]);
        assert a[|a0| + j] == a1[j];
      }
    }
  }

  lemma NoneNewSame(a: seq<Operation>)
    ensures NoneNew(a, a)
  {
  }

  lemma NoneNewAppend(a: seq<Operation>, extra: seq<Operation>)
    requires forall o :: o in extra ==> !DoneClose(o)
    ensures NoneNew(a, a + extra)
  {
    assert a + [] == a;
    NoneNewSame(a);
    NoneNewConcat(a, a, [], extra);
  }

  lemma NoneNewAt(a: seq<Operation>, i: nat, o: Operation)
    requires i < |a| && (DoneClose(o) ==> o.oid == a[i].oid && DoneClose(a[i]))
    ensures NoneNew(a, a[i := o])
  {
  }

  /** Only the record of one chat changed, and only in its journal's front or marker. */
  lemma OneRecord(d: Document, d': Document, chatId: string)
    requires forall c :: c in d'.records && c != chatId ==> c in d.records && d'.records[c] == d.records[c]
    requires chatId in d'.records ==> NoneNew(LineageOf(d.RecordOf(chatId)), Lineage(d'.records[chatId]))
    ensures NoNewCloses(d, d')
  {
    forall c | c in d'.records && c != chatId
      ensures NoneNew(LineageOf(d.RecordOf(c)), Lineage(d'.records[c]))
    {
      NoneNewSame(Lineage(d.records[c]));
    }
  }

  lemma SameRoot(r: Record, r': Record)
    requires Root(r.reassignment) == Root(r'.reassignment) && NoneNew(r.journal, r'.journal)
    ensures NoneNew(Lineage(r), Lineage(r'))
  {
    NoneNewSame(ChainOps(Root(r.reassignment)));
    NoneNewConcat(r.journal, r'.journal, ChainOps(Root(r.reassignment)), ChainOps(Root(r'.reassignment)));
  }

  lemma {:induction false} AppendJournalNew(existing: seq<Operation>, incoming: seq<Operation>)
    requires forall o :: o in incoming ==> !DoneClose(o)
    ensures AppendJournal(existing, incoming).Some? ==> NoneNew(existing, AppendJournal(existing, incoming).value)
    decreases |incoming|
  {
    if incoming == [] {
      NoneNewSame(existing);
    } else {
      var longer := existing + [incoming[0]];
      assert incoming[0] in incoming;
      AppendJournalNew(existing, incoming[1..]);
      AppendJournalNew(longer, incoming[1..]);
      NoneNewAppend(existing, [incoming[0]]);
      if AppendJournal(longer, incoming[1..]).Some? {
        NoneNewTransitive(existing, longer, AppendJournal(longer, incoming[1..]).value);
      }
    }
  }

  lemma NoneNewTransitive(a: seq<Operation>, b: seq<Operation>, c: seq<Operation>)
    requires NoneNew(a, b) && NoneNew(b, c)
    ensures NoneNew(a, c)
  {
    forall i | 0 <= i < |c| && DoneClose(c[i])
      ensures HasDone(a, c[i].oid)
    {
      var j :| 0 <= j < |b| && b[j].oid == c[i].oid && DoneClose(b[j]);
      assert HasDone(a, b[j].oid);
    }
  }

  lemma StoreNew(d: Document, input: Input)
    requires WellKeyed(d) && CarriesNoClose(input) && StoreStep(d, input).outcome.Accepted?
    ensures NoNewCloses(d, StoreStep(d, input).doc)
  {
    var d' := StoreStep(d, input).doc;
    var r := d.RecordOf(input.chatId);
    var existing := if r.Some? then r.value.journal else [];
    var journal := AppendJournal(existing, input.journal).value;
    AppendJournalNew(existing, input.journal);
    NoneNewAppend(journal, [ImplicitOperation(input.operationId)]);
    NoneNewSame(journal);
    NoneNewTransitive(existing, journal, WithImplicit(journal, input.operationId));
    if r.Some? {
      SameRoot(r.value, d'.records[input.chatId]);
    } else {
      assert Lineage(d'.records[input.chatId]) == WithImplicit(journal, input.operationId) + [];
    }
    OneRecord(d, d', input.chatId);
  }

  lemma PublishNew(d: Document, op: Draft, mapping: Input)
    requires Inv(d) && PublishSafe(d, op, mapping) && PublishStep(d, op, mapping).outcome.Accepted?
    ensures NoNewCloses(d, PublishStep(d, op, mapping).doc)
  {
    var d' := PublishStep(d, op, mapping).doc;
    var o := PublishedOperation(op, mapping);
    if CommitsReassignment(d.RecordOf(op.chatId), mapping) {
      var r := d.records[op.chatId];
      CommittedLineage(r, op, mapping);
      NoneNewSame(Lineage(r));
      assert NoneNew([], [o]) && [] + Lineage(r) == Lineage(r);
      NoneNewConcat([], [o], Lineage(r), Lineage(r));
      OneRecord(d, d', op.chatId);
    } else {
      StoreNew(d, mapping.(journal := [o]));
    }
  }

  lemma BeginReassignmentNew(d: Document, chatId: string, current: string, next: string, target: Option<Target>)
    requires Inv(d) && BeginReassignmentStep(d, chatId, current, next, target).outcome.Accepted?
    ensures NoNewCloses(d, BeginReassignmentStep(d, chatId, current, next, target).doc)
  {
    var d' := BeginReassignmentStep(d, chatId, current, next, target).doc;
    var r, r' := d.records[chatId], d'.records[chatId];
    MarkedLineage(r, r'.reassignment.value);
    NoneNewSame(Lineage(r));
    assert forall i :: 0 <= i < |r.journal| ==> Lineage(r)[i] == r.journal[i];
    OneRecord(d, d', chatId);
  }

  /** One operation of the active journal is rewritten in place, or one is added behind it. */
  lemma JournalNew(d: Document, d': Document, chatId: string)
    requires chatId in d.records && d'.records.Keys == d.records.Keys
    requires forall c :: c in d.records && c != chatId ==> d'.records[c] == d.records[c]
    requires Root(d'.records[chatId].reassignment) == Root(d.records[chatId].reassignment)
    requires NoneNew(d.records[chatId].journal, d'.records[chatId].journal)
    ensures NoNewCloses(d, d')
  {
    SameRoot(d.records[chatId], d'.records[chatId]);
    OneRecord(d, d', chatId);
  }

  lemma ActiveIsFound(d: Document, chatId: string, name: string)
    requires Inv(d) && chatId in d.records && IndexOf(d.records[chatId].journal, name) < |d.records[chatId].journal|
    ensures LookupOperation(d, chatId, name) ==
        Some(d.records[chatId].journal[IndexOf(d.records[chatId].journal, name)])
  {
    var r := d.records[chatId];
    var i := IndexOf(r.journal, name);
    assert RecordOk(r) && Lineage(r)[i] == r.journal[i];
    UniqueLookup(Lineage(r), i, name);
  }

  lemma TransitionNew(d: Document, chatId: string, name: string, state: OperationState,
                      detail: Option<string>, result: Option<OperationResult>)
    requires Inv(d) && (state.Complete? ==> !NamesClose(d, chatId, name))
    requires TransitionStep(d, chatId, name, state, detail, result).outcome.Accepted?
    ensures NoNewCloses(d, TransitionStep(d, chatId, name, state, detail, result).doc)
  {
    var r := d.records[chatId];
    var i := IndexOf(r.journal, name);
    ActiveIsFound(d, chatId, name);
    NoneNewAt(r.journal, i, Moved(r.journal[i], state, detail, result));
    JournalNew(d, TransitionStep(d, chatId, name, state, detail, result).doc, chatId);
  }

  lemma BeginNew(d: Document, chatId: string, oid: OperationId, kind: OperationKind, detail: Option<string>)
    requires BeginStep(d, chatId, oid, kind, detail).outcome.Accepted?
    ensures NoNewCloses(d, BeginStep(d, chatId, oid, kind, detail).doc)
  {
    var d' := BeginStep(d, chatId, oid, kind, detail).doc;
    NoneNewSame(d.records[chatId].journal);
    NoneNewAppend(d.records[chatId].journal, [Operation(oid, kind, Pending, detail, None, None)]);
    JournalNew(d, d', chatId);
  }

  lemma AcknowledgeNew(d: Document, chatId: string, name: string, hash: string, successor: Successor)
    requires AcknowledgeStep(d, chatId, name, hash, successor).outcome.Accepted?
    ensures NoNewCloses(d, AcknowledgeStep(d, chatId, name, hash, successor).doc)
  {
    var r := d.records[chatId];
    var i := IndexOf(r.journal, name);
    NoneNewSame(r.journal);
    NoneNewAt(r.journal, i, r.journal[i].(successor := Some(successor)));
    JournalNew(d, AcknowledgeStep(d, chatId, name, hash, successor).doc, chatId);
  }

  lemma SameJournalsNew(d: Document, d': Document)
    requires d'.records.Keys == d.records.Keys
    requires forall c :: c in d.records ==> d'.records[c].journal == d.records[c].journal
    requires forall c :: c in d.records ==> Root(d'.records[c].reassignment) == Root(d.records[c].reassignment)
    ensures NoNewCloses(d, d')
  {
    forall c | c in d'.records
      ensures NoneNew(LineageOf(d.RecordOf(c)), Lineage(d'.records[c]))
    {
      NoneNewSame(Lineage(d.records[c]));
    }
  }

  lemma RestartNew(d: Document)
    ensures NoNewCloses(d, ReconcileStep(d))
  {
    forall c | c in d.records
      ensures NoneNew(Lineage(d.records[c]), Lineage(RestartedRecord(d.records[c])))
    {
      var r, r' := d.records[c], RestartedRecord(d.records[c]);
      assert forall i :: 0 <= i < |r.journal| ==> r'.journal[i] == RestartedOperation(r.journal[i]);
      forall i | 0 <= i < |r'.journal| && DoneClose(r'.journal[i])
        ensures HasDone(r.journal, r'.journal[i].oid)
      {
        assert r'.journal[i] == r.journal[i];
      }
      SameRoot(r, r');
    }
  }

  lemma CompleteNew(d: Document, chatId: string, name: string, hash: string, mapping: Input, outcome: OperationResult)
    requires Inv(d) && CarriesNoClose(mapping) && !NamesClose(d, chatId, name)
    requires CompleteWithMappingStep(d, chatId, name, hash, mapping, outcome).outcome.Accepted?
    ensures NoNewCloses(d, CompleteWithMappingStep(d, chatId, name, hash, mapping, outcome).doc)
  {
    var mid := TransitionStep(d, chatId, name, Complete, Some(hash), Some(outcome)).doc;
    TransitionNew(d, chatId, name, Complete, Some(hash), Some(outcome));
    TransitionKeyed(d, chatId, name, Complete, Some(hash), Some(outcome));
    StoreNew(mid, mapping);
    NoNewTransitive(d, mid, StoreStep(mid, mapping).doc);
  }

  lemma TransitionKeyed(d: Document, chatId: string, name: string, state: OperationState,
                        detail: Option<string>, result: Option<OperationResult>)
    requires WellKeyed(d)
    ensures WellKeyed(TransitionStep(d, chatId, name, state, detail, result).doc)
  {
  }

  lemma NoNewTransitive(a: Document, b: Document, c: Document)
    requires NoNewCloses(a, b) && NoNewCloses(b, c)
    ensures NoNewCloses(a, c)
  {
    forall x | x in c.records
      ensures NoneNew(LineageOf(a.RecordOf(x)), Lineage(c.records[x]))
    {
      if x in b.records {
        NoneNewTransitive(LineageOf(a.RecordOf(x)), Lineage(b.records[x]), Lineage(c.records[x]));
      }
    }
  }

  predicate ReassignsOrReserves(cmd: Command) {
    cmd.BeginReassignment? || cmd.RollBack? || cmd.ReserveOperation? || cmd.Attach? || cmd.MoveProvisional?
  }

  lemma ReassigningCompletesNone(d: Document, cmd: Command)
    requires Inv(d) && ReassignsOrReserves(cmd) && Safe(d, cmd) && StepOf(d, cmd).outcome.Accepted?
    ensures NoNewCloses(d, StepOf(d, cmd).doc)
  {
    match cmd
    case BeginReassignment(chatId, current, next, target) => BeginReassignmentNew(d, chatId, current, next, target);
    case RollBack(chatId, current) => RollbackNew(d, chatId, current);
    case ReserveOperation(op) => ReserveNew(d, op);
    case Attach(chatId, ingress, sessionId, sessionFile, attachment) =>
      ProvisionalNew(d, AttachStep(d, chatId, ingress, sessionId, sessionFile, attachment).doc);
    case MoveProvisional(chatId, ingress, state, detail) =>
      ProvisionalNew(d, TransitionProvisionalStep(d, chatId, ingress, state, detail).doc);
  }

  lemma RollbackNew(d: Document, chatId: string, current: string)
    requires WellKeyed(d)
    ensures NoNewCloses(d, RollbackStep(d, chatId, current).doc)
  {
    SameJournalsNew(d, RollbackStep(d, chatId, current).doc);
  }

  lemma ReserveNew(d: Document, op: Draft)
    ensures NoNewCloses(d, ReserveStep(d, op).doc)
  {
    SameJournalsNew(d, ReserveStep(d, op).doc);
  }

  lemma ProvisionalNew(d: Document, d': Document)
    requires d'.records == d.records
    ensures NoNewCloses(d, d')
  {
    SameJournalsNew(d, d');
  }

  /** The rest of the system completes no close. */
  lemma OthersCompleteNone(d: Document, cmd: Command)
    requires Inv(d) && Safe(d, cmd) && LeavesCloses(d, cmd) && StepOf(d, cmd).outcome.Accepted?
    ensures NoNewCloses(d, StepOf(d, cmd).doc)
  {
    match cmd
    case Store(input) => StoreNew(d, input);
    case Publish(op, mapping) => PublishNew(d, op, mapping);
    case Begin(chatId, oid, kind, detail) => BeginNew(d, chatId, oid, kind, detail);
    case Acknowledge(chatId, name, hash, successor) => AcknowledgeNew(d, chatId, name, hash, successor);
    case Transition(chatId, name, state, detail, result) => TransitionNew(d, chatId, name, state, detail, result);
    case CompleteWithMapping(chatId, name, hash, mapping, outcome) =>
      CompleteNew(d, chatId, name, hash, mapping, outcome);
    case _ => ReassigningCompletesNone(d, cmd);
  }

  /** Every completed close is one whose physical close has reported success. */
  ghost predicate Reported(s: State) {
    forall c, i ::
      && c in s.doc.records && 0 <= i < |Lineage(s.doc.records[c])|
      && DoneClose(Lineage(s.doc.records[c])[i]) ==>
      (c, Lineage(s.doc.records[c])[i].oid.id) in s.reported
  }

  lemma NoNewReported(s: State, s': State)
    requires Reported(s) && NoNewCloses(s.doc, s'.doc) && s.reported <= s'.reported
    ensures Reported(s')
  {
    forall c, i | c in s'.doc.records && 0 <= i < |Lineage(s'.doc.records[c])|
      && DoneClose(Lineage(s'.doc.records[c])[i])
      ensures (c, Lineage(s'.doc.records[c])[i].oid.id) in s'.reported
    {
      var before, after := LineageOf(s.doc.RecordOf(c)), Lineage(s'.doc.records[c]);
      assert NoneNew(before, after);
      var j :| 0 <= j < |before| && before[j].oid == after[i].oid && DoneClose(before[j]);
    }
  }

  lemma SettleNew(d: Document, f: Flight, state: OperationState)
    requires Inv(d) && !state.Complete?
    ensures NoNewCloses(d, Settle(d, f, state))
  {
    var t := TransitionStep(d, f.chatId, f.ingressId, state, Some(f.ingressHash), None);
    if t.outcome.Accepted? {
      TransitionNew(d, f.chatId, f.ingressId, state, Some(f.ingressHash), None);
    } else {
      SameJournalsNew(d, d);
    }
  }

  /** Every flight's close is on record, and a closed one has been reported. */
  ghost predicate FlightsFound(s: State) {
    && Inv(s.doc)
    && forall id :: id in s.flights ==>
         && OnRecord(s.doc, (s.flights[id].chatId, s.flights[id].ingressId))
         && (s.flights[id].closed ==> (s.flights[id].chatId, s.flights[id].ingressId) in s.reported)
  }

  lemma OnceFindsFlights(s: State)
    requires Once(s)
    ensures FlightsFound(s)
  {
  }

  lemma RouteReported(s: State, input: Ingress)
    requires Inv(s.doc) && Reported(s) && input.ingressId != ""
    ensures Reported(RouteStep(s, input))
  {
    var begun := BeginClose(s.doc, input);
    if Prior(s.doc, input).None? && begun.outcome.Accepted? {
      var f := Flight(input.chatId, input.ingressId, input.ingressHash, input.mapping, false);
      BeginKeepsAll(s.doc, input, []);
      BeginNew(s.doc, input.chatId, CloseId(input.ingressId), Close, Some(input.ingressHash));
      NoNewReported(s, s.(doc := begun.doc));
      SettleNew(begun.doc, f, Conflict);
      NoNewReported(s.(doc := begun.doc), s.(doc := Settle(begun.doc, f, Conflict)));
    }
  }

  lemma SettleReported(s: State, f: Flight, state: OperationState)
    requires Inv(s.doc) && Reported(s) && !state.Complete?
    ensures Reported(s.(doc := Settle(s.doc, f, state)))
  {
    SettleNew(s.doc, f, state);
    NoNewReported(s, s.(doc := Settle(s.doc, f, state)));
  }

  /** A transition changes one operation of one active journal, and not its names. */
  lemma TransitionShape(d: Document, chatId: string, name: string, state: OperationState,
                        detail: Option<string>, result: Option<OperationResult>, c: string, i: nat)
    requires TransitionStep(d, chatId, name, state, detail, result).outcome.Accepted?
    requires c in d.records && i < |Lineage(d.records[c])|
    ensures var d' := TransitionStep(d, chatId, name, state, detail, result).doc;
            && d'.records.Keys == d.records.Keys && |Lineage(d'.records[c])| == |Lineage(d.records[c])|
            && Lineage(d'.records[c])[i].oid == Lineage(d.records[c])[i].oid
            && (Lineage(d'.records[c])[i] == Lineage(d.records[c])[i] ||
                (c == chatId && i == IndexOf(d.records[c].journal, name)))
  {
  }

  lemma CompletingReported(s: State, f: Flight, result: OperationResult)
    requires Inv(s.doc) && Reported(s) && OnRecord(s.doc, (f.chatId, f.ingressId))
        && (f.chatId, f.ingressId) in s.reported
    requires TransitionStep(s.doc, f.chatId, f.ingressId, Complete, Some(f.ingressHash), Some(result)).outcome.Accepted?
    ensures var done := TransitionStep(s.doc, f.chatId, f.ingressId, Complete, Some(f.ingressHash), Some(result));
            Reported(s.(doc := done.doc))
  {
    var mid := TransitionStep(s.doc, f.chatId, f.ingressId, Complete, Some(f.ingressHash), Some(result)).doc;
    ActiveIsFound(s.doc, f.chatId, f.ingressId);
    forall c, i | c in mid.records && 0 <= i < |Lineage(mid.records[c])| && DoneClose(Lineage(mid.records[c])[i])
      ensures (c, Lineage(mid.records[c])[i].oid.id) in s.reported
    {
      CompletedOne(s, f, result, c, i);
    }
  }

  lemma CompletedOne(s: State, f: Flight, result: OperationResult, c: string, i: nat)
    requires Reported(s) && (f.chatId, f.ingressId) in s.reported
    requires TransitionStep(s.doc, f.chatId, f.ingressId, Complete, Some(f.ingressHash), Some(result)).outcome.Accepted?
    requires s.doc.records[f.chatId].journal[IndexOf(s.doc.records[f.chatId].journal, f.ingressId)].oid ==
        CloseId(f.ingressId)
    requires var mid := TransitionStep(s.doc, f.chatId, f.ingressId, Complete, Some(f.ingressHash), Some(result)).doc;
             c in mid.records && i < |Lineage(mid.records[c])| && DoneClose(Lineage(mid.records[c])[i])
    ensures var done := TransitionStep(s.doc, f.chatId, f.ingressId, Complete, Some(f.ingressHash), Some(result));
            (c, Lineage(done.doc.records[c])[i].oid.id) in s.reported
  {
    var r := s.doc.records[f.chatId];
    var mid := TransitionStep(s.doc, f.chatId, f.ingressId, Complete, Some(f.ingressHash), Some(result)).doc;
    assert |Lineage(mid.records[c])| == |Lineage(s.doc.records[c])|;
    TransitionShape(s.doc, f.chatId, f.ingressId, Complete, Some(f.ingressHash), Some(result), c, i);
    assert Lineage(r)[IndexOf(r.journal, f.ingressId)] == r.journal[IndexOf(r.journal, f.ingressId)];
  }

  /** Completing a close whose report is in keeps every completed close reported. */
  lemma CompletedIsReported(s: State, f: Flight)
    requires Inv(s.doc) && Reported(s) && OnRecord(s.doc, (f.chatId, f.ingressId))
        && (f.chatId, f.ingressId) in s.reported
    requires CarriesNoClose(f.mapping) && CompleteCloseStep(s.doc, f).outcome.Accepted?
    ensures Reported(s.(doc := CompleteCloseStep(s.doc, f).doc))
  {
    var mid := TransitionStep(s.doc, f.chatId, f.ingressId, Complete, Some(f.ingressHash), Some(CloseResultOf(f))).doc;
    TransitionKeyed(s.doc, f.chatId, f.ingressId, Complete, Some(f.ingressHash), Some(CloseResultOf(f)));
    CompletingReported(s, f, CloseResultOf(f));
    StoreNew(mid, f.mapping);
    NoNewReported(s.(doc := mid), s.(doc := StoreStep(mid, f.mapping).doc));
  }

  lemma PublishedDocReported(s: State, f: Flight, commits: bool)
    requires Inv(s.doc) && Reported(s) && OnRecord(s.doc, (f.chatId, f.ingressId))
        && (f.chatId, f.ingressId) in s.reported
    requires commits ==> Safe(s.doc, CompleteClose(f)) && CarriesNoClose(f.mapping)
    ensures Inv(PublishedDoc(s.doc, f, commits)) && Reported(s.(doc := PublishedDoc(s.doc, f, commits)))
  {
    if commits {
      CompleteIsCommand(s.doc, f);
      PerformKeeps(s.doc, Do(CompleteClose(f)));
      if CompleteCloseStep(s.doc, f).outcome.Accepted? {
        CompletedIsReported(s, f);
      }
    }
  }

  lemma PublishedReported(s: State, id: nat, commits: bool, throws: bool)
    requires FlightsFound(s) && Reported(s) && Permitted(s, Publishes(id, commits, throws))
    ensures Reported(PublishedStep(s, id, commits, throws))
  {
    var f := s.flights[id];
    PublishedDocReported(s, f, commits);
    SettleReported(s.(doc := PublishedDoc(s.doc, f, commits)), f, Uncertain);
  }

  lemma ReportReported(s: State, id: nat, report: Report)
    requires Inv(s.doc) && Reported(s) && Permitted(s, Reports(id, report))
    ensures Reported(ReportStep(s, id, report))
  {
    SettleReported(s, s.flights[id], Conflict);
    SettleReported(s, s.flights[id], Uncertain);
  }

  lemma OtherReported(s: State, cmd: Command)
    requires Inv(s.doc) && Reported(s) && Permitted(s, Other(cmd))
    ensures Reported(Next(s, Other(cmd)))
  {
    if StepOf(s.doc, cmd).outcome.Accepted? {
      OthersCompleteNone(s.doc, cmd);
      NoNewReported(s, s.(doc := StepOf(s.doc, cmd).doc));
    }
  }

  lemma NextReported(s: State, e: Event)
    requires FlightsFound(s) && Reported(s) && Permitted(s, e)
    ensures Reported(Next(s, e))
  {
    match e
    case Route(input) => RouteReported(s, input);
    case Reports(id, report) => ReportReported(s, id, report);
    case Publishes(id, commits, throws) => PublishedReported(s, id, commits, throws);
    case Other(cmd) => OtherReported(s, cmd);
    case Reboot(booted) => assert Next(s, e).reported == s.reported;
  }

  // ------------------------------------------------------------ the program

  /** The router over the journal, cut where it waits for the physical close and the publication. */
  class SessionCloses {
    const journal: SessionAuthorityJournal
    var flights: map<nat, Flight>
    var closes: seq<(string, string)>
    var reported: set<(string, string)>

    constructor (journal: SessionAuthorityJournal)
      ensures this.journal == journal && flights == map[] && closes == [] && reported == {}
    {
      this.journal := journal;
      flights, closes, reported := map[], [], {};
    }

    function View(): State
      reads this, journal
    {
      State(journal.Contents(), flights, closes, reported)
    }

    method SettleOperation(f: Flight, state: OperationState)
      requires journal.Tracked()
      modifies journal`records, journal`dirtyRecords
      ensures journal.Contents() == Settle(old(journal.Contents()), f, state) && journal.Tracked()
    {
      var _ := journal.TransitionOperation(f.chatId, f.ingressId, state, Some(f.ingressHash), None);
    }

    method FindPrior(input: Ingress) returns (prior: Option<Operation>)
      ensures prior == Prior(journal.Contents(), input)
    {
      prior := journal.FindOperation(input.chatId, input.ingressId);
      if prior.None? && input.legacyIngressId.Some? {
        prior := journal.FindOperation(input.chatId, input.legacyIngressId.value);
      }
    }

    /** Returns whether the physical close was started. */
    method RouteClose(input: Ingress) returns (started: bool)
      requires journal.Tracked()
      modifies this, journal`records, journal`dirtyRecords
      ensures View() == RouteStep(old(View()), input) && journal.Tracked()
      ensures started <==> |closes| > |old(closes)|
    {
      var prior := FindPrior(input);
      if prior.Some? {
        return false;
      }
      ghost var before := journal.Contents();
      var outcome := journal.BeginOperation(input.chatId, CloseId(input.ingressId), Close, Some(input.ingressHash));
      assert BeginClose(before, input) == Step(journal.Contents(), outcome);
      if outcome.Rejected? {
        RejectedBegin(before, input);
        return false;
      }
      var f := Flight(input.chatId, input.ingressId, input.ingressHash, input.mapping, false);
      if !input.owned || !input.preflight {
        SettleOperation(f, Conflict);
        return false;
      }
      flights := flights[|closes| := f];
      closes := closes + [(f.chatId, f.ingressId)];
      return true;
    }

    lemma RejectedBegin(d: Document, input: Ingress)
      requires BeginClose(d, input).outcome.Rejected?
      ensures BeginClose(d, input).doc == d
    {
    }

    /** What a publication does with a reported close: completes it and stores its mapping as one mutation,
        or, where it throws or does not get that far, leaves the close uncertain. */
    method ClosePublished(id: nat, commits: bool, throws: bool)
      requires journal.Tracked() && id in flights && flights[id].closed
      modifies this, journal`records, journal`dirtyRecords, journal`provisional, journal`dirtyProvisional
      ensures View() == PublishedStep(old(View()), id, commits, throws) && journal.Tracked()
    {
      var f := flights[id];
      var failed := throws || !commits;
      if commits {
        var completed := CommitCompletion(f);
        failed := throws || !completed;
      }
      if failed {
        SettleOperation(f, Uncertain);
      }
      flights := flights - {id};
    }

    /** A completion that is rejected is undone as a whole. */
    method CommitCompletion(f: Flight) returns (completed: bool)
      requires journal.Tracked()
      modifies journal`records, journal`dirtyRecords, journal`provisional, journal`dirtyProvisional
      ensures journal.Contents() == PublishedDoc(old(journal.Contents()), f, true) && journal.Tracked()
      ensures completed <==> CompleteCloseStep(old(journal.Contents()), f).outcome.Accepted?
    {
      var records, provisional := journal.records, journal.provisional;
      var dirtyRecords, dirtyProvisional := journal.dirtyRecords, journal.dirtyProvisional;
      var outcome := journal.TransitionOperation(f.chatId, f.ingressId, Complete, Some(f.ingressHash),
        Some(CloseResultOf(f)));
      if outcome.Accepted? {
        outcome := journal.Store(f.mapping);
      }
      completed := outcome.Accepted?;
      if !completed {
        journal.records, journal.provisional := records, provisional;
        journal.dirtyRecords, journal.dirtyProvisional := dirtyRecords, dirtyProvisional;
      }
    }

    method CloseReturned(id: nat, report: Report)
      requires journal.Tracked() && id in flights
      modifies this, journal`records, journal`dirtyRecords
      ensures View() == ReportStep(old(View()), id, report) && journal.Tracked()
    {
      var f := flights[id];
      match report {
        case ReportedClosed =>
          flights := flights[id := f.(closed := true)];
          reported := reported + {(f.chatId, f.ingressId)};
        case NotClosed =>
          SettleOperation(f, Conflict);
          flights := flights - {id};
        case CloseThrew =>
          SettleOperation(f, Uncertain);
          flights := flights - {id};
      }
    }
  }
}
