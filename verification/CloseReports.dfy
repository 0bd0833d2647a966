/** A close is complete only if its physical close reported it, over every run: also
    where lineages are dropped and restarts come up with less. */
module CloseReports {
  import opened AuthorityTypes
  import opened JournalSteps
  import opened JournalInvariant
  import opened ReassignmentSafety
  import opened JournalRuns
  import opened CloseRouter

  // ------------------------------------------------------- a close in the air

  /** The record carries the unfinished close of this ingress in its active journal, and is not moving. */
  predicate AloftIn(r: Record, ingressId: string) {
    var i := IndexOf(r.journal, ingressId);
    && !InProgress?(Some(r)) && i < |r.journal|
    && r.journal[i].oid == CloseId(ingressId) && r.journal[i].kind.Close? && !r.journal[i].state.Complete?
  }

  predicate Aloft(d: Document, chatId: string, ingressId: string) {
    chatId in d.records && AloftIn(d.records[chatId], ingressId)
  }

  lemma GrownAloft(r: Record, r': Record, x: string)
    requires AloftIn(r, x) && r.journal <= r'.journal && r'.reassignment == r.reassignment
    ensures AloftIn(r', x)
  {
    var i, j := IndexOf(r.journal, x), IndexOf(r'.journal, x);
    assert forall k :: 0 <= k < |r.journal| ==> r'.journal[k] == r.journal[k];
    assert x in Names(r'.journal[i]);
  }

  /** Operations rewritten in place under their names leave the close where it is. */
  lemma RewrittenAloft(r: Record, r': Record, x: string)
    requires AloftIn(r, x) && |r'.journal| == |r.journal| && r'.reassignment == r.reassignment
    requires forall k :: 0 <= k < |r.journal| ==>
              r'.journal[k].oid == r.journal[k].oid && r'.journal[k].kind == r.journal[k].kind
    requires !r'.journal[IndexOf(r.journal, x)].state.Complete?
    ensures AloftIn(r', x)
  {
    var i, j := IndexOf(r.journal, x), IndexOf(r'.journal, x);
    assert forall k :: 0 <= k < |r.journal| ==> Names(r'.journal[k]) == Names(r.journal[k]);
  }

  lemma StoreAloft(d: Document, input: Input, c: string, x: string)
    requires Aloft(d, c, x) && StoreStep(d, input).outcome.Accepted?
    ensures Aloft(StoreStep(d, input).doc, c, x)
  {
    if input.chatId == c {
      GrownAloft(d.records[c], StoreStep(d, input).doc.records[c], x);
    }
  }

  lemma TransitionAloft(d: Document, chatId: string, name: string, state: OperationState,
                        detail: Option<string>, result: Option<OperationResult>, c: string, x: string)
    requires Aloft(d, c, x) && TransitionStep(d, chatId, name, state, detail, result).outcome.Accepted?
    requires state.Complete? && chatId == c ==> IndexOf(d.records[c].journal, name) != IndexOf(d.records[c].journal, x)
    ensures Aloft(TransitionStep(d, chatId, name, state, detail, result).doc, c, x)
  {
    if chatId == c {
      RewrittenAloft(d.records[c], TransitionStep(d, chatId, name, state, detail, result).doc.records[c], x);
    }
  }

  lemma AcknowledgeAloft(d: Document, chatId: string, name: string, hash: string, successor: Successor, c: string,
                         x: string)
    requires Aloft(d, c, x) && AcknowledgeStep(d, chatId, name, hash, successor).outcome.Accepted?
    ensures Aloft(AcknowledgeStep(d, chatId, name, hash, successor).doc, c, x)
  {
    if chatId == c {
      RewrittenAloft(d.records[c], AcknowledgeStep(d, chatId, name, hash, successor).doc.records[c], x);
    }
  }

  lemma BeginAloft(d: Document, chatId: string, oid: OperationId, kind: OperationKind, detail: Option<string>,
                   c: string, x: string)
    requires Aloft(d, c, x) && BeginStep(d, chatId, oid, kind, detail).outcome.Accepted?
    ensures Aloft(BeginStep(d, chatId, oid, kind, detail).doc, c, x)
  {
    if chatId == c {
      GrownAloft(d.records[c], BeginStep(d, chatId, oid, kind, detail).doc.records[c], x);
    }
  }

  /** A chat with a close in the air starts no move, so it neither rolls one back nor commits one. */
  lemma AloftStays(d: Document, chatId: string, current: string, next: string, target: Option<Target>, c: string,
                   x: string)
    requires Inv(d) && Aloft(d, c, x)
    ensures BeginReassignmentStep(d, chatId, current, next, target).outcome.Accepted? ==>
              chatId != c && Aloft(BeginReassignmentStep(d, chatId, current, next, target).doc, c, x)
    ensures Aloft(RollbackStep(d, chatId, current).doc, c, x)
  {
    var i := IndexOf(d.records[c].journal, x);
    assert d.records[c].journal[i] in d.records[c].journal;
  }

  lemma PublishAloft(d: Document, op: Draft, mapping: Input, c: string, x: string)
    requires Aloft(d, c, x) && PublishStep(d, op, mapping).outcome.Accepted?
    ensures Aloft(PublishStep(d, op, mapping).doc, c, x)
  {
    if !CommitsReassignment(d.RecordOf(op.chatId), mapping) {
      StoreAloft(d, Publication(op, mapping), c, x);
    }
  }

  lemma ReserveAloft(d: Document, op: Draft, c: string, x: string)
    requires Aloft(d, c, x) && ReserveStep(d, op).outcome.Accepted?
    ensures Aloft(ReserveStep(d, op).doc, c, x)
  {
  }

  /** Completing another operation leaves the close alone. */
  lemma CompletionAloft(d: Document, chatId: string, name: string, hash: string, mapping: Input,
                        outcome: OperationResult,
                        c: string, x: string)
    requires Aloft(d, c, x) && CompleteWithMappingStep(d, chatId, name, hash, mapping, outcome).outcome.Accepted?
    requires chatId == c ==> IndexOf(d.records[c].journal, name) != IndexOf(d.records[c].journal, x)
    ensures Aloft(CompleteWithMappingStep(d, chatId, name, hash, mapping, outcome).doc, c, x)
  {
    TransitionAloft(d, chatId, name, Complete, Some(hash), Some(outcome), c, x);
    StoreAloft(TransitionStep(d, chatId, name, Complete, Some(hash), Some(outcome)).doc, mapping, c, x);
  }

  /** What is not a close is another operation. */
  lemma NotThisClose(d: Document, c: string, name: string, x: string)
    requires Inv(d) && Aloft(d, c, x) && IndexOf(d.records[c].journal, name) < |d.records[c].journal|
    requires !NamesClose(d, c, name)
    ensures IndexOf(d.records[c].journal, name) != IndexOf(d.records[c].journal, x)
  {
    ActiveIsFound(d, c, name);
  }

  lemma TransitionNamed(d: Document, chatId: string, name: string, state: OperationState,
                        detail: Option<string>, result: Option<OperationResult>)
    requires TransitionStep(d, chatId, name, state, detail, result).outcome.Accepted?
    ensures chatId in d.records && IndexOf(d.records[chatId].journal, name) < |d.records[chatId].journal|
  {
  }

  lemma OtherAloft(d: Document, cmd: Command, c: string, x: string)
    requires Inv(d) && LeavesCloses(d, cmd) && StepOf(d, cmd).outcome.Accepted? && Aloft(d, c, x)
    ensures Aloft(StepOf(d, cmd).doc, c, x)
  {
    match cmd
    case Store(input) => StoreAloft(d, input, c, x);
    case BeginReassignment(chatId, current, next, target) => AloftStays(d, chatId, current, next, target, c, x);
    case RollBack(chatId, current) => AloftStays(d, chatId, current, current, None, c, x);
    case ReserveOperation(op) => ReserveAloft(d, op, c, x);
    case Attach(_, _, _, _, _) =>
    case MoveProvisional(_, _, _, _) =>
    case Publish(op, mapping) => PublishAloft(d, op, mapping, c, x);
    case Begin(chatId, oid, kind, detail) => BeginAloft(d, chatId, oid, kind, detail, c, x);
    case Acknowledge(chatId, name, hash, successor) => AcknowledgeAloft(d, chatId, name, hash, successor, c, x);
    case Transition(chatId, name, state, detail, result) =>
      TransitionNamed(d, chatId, name, state, detail, result);
      if state.Complete? && chatId == c {
        NotThisClose(d, c, name, x);
      }
      TransitionAloft(d, chatId, name, state, detail, result, c, x);
    case CompleteWithMapping(chatId, name, hash, mapping, outcome) =>
      TransitionNamed(d, chatId, name, Complete, Some(hash), Some(outcome));
      if chatId == c {
        NotThisClose(d, c, name, x);
      }
      CompletionAloft(d, chatId, name, hash, mapping, outcome, c, x);
  }

  // ------------------------------------------------------------------- flights

  function FlightKey(f: Flight): (string, string) {
    (f.chatId, f.ingressId)
  }

  ghost predicate FlightsAloft(d: Document, flights: map<nat, Flight>) {
    forall id :: id in flights ==> Aloft(d, flights[id].chatId, flights[id].ingressId)
  }

  /** Flights have keys and places of their own, and a closed one has been reported. */
  ghost predicate Booked(flights: map<nat, Flight>, places: nat, reported: set<(string, string)>) {
    && (forall i, j :: i in flights && j in flights && i != j ==> FlightKey(flights[i]) != FlightKey(flights[j]))
    && (forall id :: id in flights ==> id < places)
    && (forall id :: id in flights && flights[id].closed ==> FlightKey(flights[id]) in reported)
  }

  /** Each flight's close is in the air. */
  ghost predicate Airborne(s: State) {
    Inv(s.doc) && FlightsAloft(s.doc, s.flights) && Booked(s.flights, |s.closes|, s.reported)
  }

  lemma OneMoreBooked(s: State, f: Flight)
    requires Booked(s.flights, |s.closes|, s.reported) && !f.closed
    requires forall id :: id in s.flights ==> FlightKey(s.flights[id]) != FlightKey(f)
    ensures Booked(s.flights[|s.closes| := f], |s.closes + [FlightKey(f)]|, s.reported)
  {
  }

  lemma ReportBooked(s: State, id: nat)
    requires Booked(s.flights, |s.closes|, s.reported) && id in s.flights
    ensures var f := s.flights[id];
            Booked(s.flights[id := f.(closed := true)], |s.closes|, s.reported + {FlightKey(f)})
  {
  }

  lemma AloftIsFound(d: Document, c: string, x: string)
    requires Inv(d) && Aloft(d, c, x)
    ensures OnRecord(d, (c, x))
  {
    ActiveIsFound(d, c, x);
  }

  lemma AirborneFound(s: State)
    requires Airborne(s)
    ensures FlightsFound(s)
  {
    forall id | id in s.flights
      ensures OnRecord(s.doc, FlightKey(s.flights[id]))
    {
      AloftIsFound(s.doc, s.flights[id].chatId, s.flights[id].ingressId);
    }
  }

  lemma SettleAloft(d: Document, f: Flight, state: OperationState, flights: map<nat, Flight>)
    requires Inv(d) && OnRecord(d, FlightKey(f)) && !state.Complete? && FlightsAloft(d, flights)
    ensures Inv(Settle(d, f, state)) && FlightsAloft(Settle(d, f, state), flights)
  {
    SettleIsSafe(d, f, state);
    SettleIsTransition(d, f, state);
    PerformKeeps(d, Do(Transition(f.chatId, f.ingressId, state, Some(f.ingressHash), None)));
    forall id | id in flights
      ensures Aloft(Settle(d, f, state), flights[id].chatId, flights[id].ingressId)
    {
      if TransitionStep(d, f.chatId, f.ingressId, state, Some(f.ingressHash), None).outcome.Accepted? {
        TransitionAloft(d, f.chatId, f.ingressId, state, Some(f.ingressHash), None, flights[id].chatId,
          flights[id].ingressId);
      }
    }
  }

  /** A close that was begun is in the air, and so are all that were. */
  lemma BegunAloft(d: Document, input: Ingress, flights: map<nat, Flight>)
    requires Inv(d) && LookupOperation(d, input.chatId, input.ingressId).None? && input.ingressId != ""
    requires BeginClose(d, input).outcome.Accepted? && FlightsAloft(d, flights)
    ensures Inv(BeginClose(d, input).doc) && FlightsAloft(BeginClose(d, input).doc, flights)
    ensures Aloft(BeginClose(d, input).doc, input.chatId, input.ingressId)
    ensures OnRecord(BeginClose(d, input).doc, (input.chatId, input.ingressId))
  {
    BeginKeepsAll(d, input, []);
    BeginIsFresh(d, input);
    FreshAloft(d, input);
    forall id | id in flights
      ensures Aloft(BeginClose(d, input).doc, flights[id].chatId, flights[id].ingressId)
    {
      BeginAloft(d, input.chatId, CloseId(input.ingressId), Close, Some(input.ingressHash), flights[id].chatId,
        flights[id].ingressId);
    }
  }

  lemma FreshAloft(d: Document, input: Ingress)
    requires Inv(d) && LookupOperation(d, input.chatId, input.ingressId).None?
    requires BeginClose(d, input).outcome.Accepted?
    ensures Aloft(BeginClose(d, input).doc, input.chatId, input.ingressId)
  {
    var r := d.records[input.chatId];
    NoneNamed(Lineage(r), input.ingressId);
    NoOverlapInside(r.journal, ChainOps(Root(r.reassignment)), input.ingressId);
    BegunRecord(d, input);
    UnnamedLast(r.journal, Operation(CloseId(input.ingressId), Close, Pending, Some(input.ingressHash), None, None),
      input.ingressId);
  }

  lemma UnnamedLast(ops: seq<Operation>, o: Operation, x: string)
    requires FirstOverlap(ops, CloseId(x)) == |ops| && o.oid == CloseId(x)
    ensures IndexOf(ops + [o], x) == |ops| && (ops + [o])[|ops|] == o
  {
    var all := ops + [o];
    forall i | 0 <= i < |ops|
      ensures x !in Names(all[i])
    {
      assert x in CloseId(x).Identifiers() && all[i] == ops[i];
      CommonNameOverlaps(CloseId(x), ops[i].oid, x);
    }
    assert all[|ops|] == o && x in Names(o);
  }

  lemma RouteAirborne(s: State, input: Ingress)
    requires Airborne(s) && input.ingressId != ""
    ensures Airborne(RouteStep(s, input))
  {
    if Prior(s.doc, input).None? && BeginClose(s.doc, input).outcome.Accepted? {
      BegunAloft(s.doc, input, s.flights);
      BegunAirborne(s, input, BeginClose(s.doc, input).doc);
    }
  }

  lemma BegunAirborne(s: State, input: Ingress, begun: Document)
    requires Airborne(s) && LookupOperation(s.doc, input.chatId, input.ingressId).None?
    requires Inv(begun) && FlightsAloft(begun, s.flights) && Aloft(begun, input.chatId, input.ingressId)
    ensures var f := Flight(input.chatId, input.ingressId, input.ingressHash, input.mapping, false);
            && Airborne(s.(doc := Settle(begun, f, Conflict)))
            && Airborne(s.(doc := begun, flights := s.flights[|s.closes| := f],
              closes := s.closes + [(f.chatId, f.ingressId)]))
  {
    var f := Flight(input.chatId, input.ingressId, input.ingressHash, input.mapping, false);
    NewKey(s, input);
    OneMoreBooked(s, f);
    AloftIsFound(begun, input.chatId, input.ingressId);
    SettleAloft(begun, f, Conflict, s.flights);
  }

  lemma NewKey(s: State, input: Ingress)
    requires Airborne(s) && LookupOperation(s.doc, input.chatId, input.ingressId).None?
    ensures forall id :: id in s.flights ==> FlightKey(s.flights[id]) != (input.chatId, input.ingressId)
  {
    AirborneFound(s);
  }

  lemma ReportAirborne(s: State, id: nat, report: Report)
    requires Airborne(s) && id in s.flights
    ensures Airborne(ReportStep(s, id, report))
  {
    AloftIsFound(s.doc, s.flights[id].chatId, s.flights[id].ingressId);
    match report
    case ReportedClosed => ReportBooked(s, id);
    case NotClosed => SettledAirborne(s, id, s.doc, Conflict);
    case CloseThrew => SettledAirborne(s, id, s.doc, Uncertain);
  }

  /** A flight that is settled lands, and the others stay in the air. */
  lemma SettledAirborne(s: State, id: nat, doc: Document, state: OperationState)
    requires Airborne(s) && id in s.flights && !state.Complete?
    requires Inv(doc) && OnRecord(doc, FlightKey(s.flights[id])) && FlightsAloft(doc, s.flights - {id})
    ensures Airborne(s.(doc := Settle(doc, s.flights[id], state), flights := s.flights - {id}))
    ensures Airborne(s.(doc := doc, flights := s.flights - {id}))
  {
    SettleAloft(doc, s.flights[id], state, s.flights - {id});
  }

  /** Completing one flight's close leaves the others in the air. */
  lemma CompletedAloft(s: State, id: nat)
    requires Airborne(s) && id in s.flights && CompleteCloseStep(s.doc, s.flights[id]).outcome.Accepted?
    ensures FlightsAloft(CompleteCloseStep(s.doc, s.flights[id]).doc, s.flights - {id})
  {
    var f, d := s.flights[id], s.doc;
    forall j | j in s.flights - {id}
      ensures Aloft(CompleteCloseStep(d, f).doc, s.flights[j].chatId, s.flights[j].ingressId)
    {
      var g := s.flights[j];
      assert FlightKey(g) != FlightKey(f) && Aloft(d, g.chatId, g.ingressId) && Aloft(d, f.chatId, f.ingressId);
      CompletionAloft(d, f.chatId, f.ingressId, f.ingressHash, f.mapping, CloseResultOf(f), g.chatId, g.ingressId);
    }
  }

  lemma PublishedAirborne(s: State, id: nat, commits: bool, throws: bool)
    requires Airborne(s) && Permitted(s, Publishes(id, commits, throws))
    ensures Airborne(PublishedStep(s, id, commits, throws))
  {
    var doc := PublishedDoc(s.doc, s.flights[id], commits);
    PublishedDocAloft(s, id, commits);
    SettledAirborne(s, id, doc, Uncertain);
    PublishedCases(s, id, commits, throws);
  }

  lemma PublishedCases(s: State, id: nat, commits: bool, throws: bool)
    requires id in s.flights
    ensures var doc := PublishedDoc(s.doc, s.flights[id], commits);
            || PublishedStep(s, id, commits, throws) ==
              s.(doc := Settle(doc, s.flights[id], Uncertain), flights := s.flights - {id})
            || PublishedStep(s, id, commits, throws) == s.(doc := doc, flights := s.flights - {id})
  {
  }

  lemma PublishedDocAloft(s: State, id: nat, commits: bool)
    requires Airborne(s) && id in s.flights && (commits ==> Safe(s.doc, CompleteClose(s.flights[id])))
    ensures var doc := PublishedDoc(s.doc, s.flights[id], commits);
            Inv(doc) && OnRecord(doc, FlightKey(s.flights[id])) && FlightsAloft(doc, s.flights - {id})
  {
    var f := s.flights[id];
    AloftIsFound(s.doc, f.chatId, f.ingressId);
    if commits {
      CompleteIsCommand(s.doc, f);
      AllStayOnRecord(s.doc, Do(CompleteClose(f)), [FlightKey(f)]);
      assert [FlightKey(f)][0] == FlightKey(f);
      if CompleteCloseStep(s.doc, f).outcome.Accepted? {
        CompletedAloft(s, id);
      }
    }
  }

  lemma OtherAirborne(s: State, cmd: Command)
    requires Airborne(s) && Permitted(s, Other(cmd))
    ensures Airborne(Next(s, Other(cmd)))
  {
    PerformKeeps(s.doc, Do(cmd));
    forall id | id in s.flights
      ensures Aloft(Perform(s.doc, Do(cmd)), s.flights[id].chatId, s.flights[id].ingressId)
    {
      if StepOf(s.doc, cmd).outcome.Accepted? {
        OtherAloft(s.doc, cmd, s.flights[id].chatId, s.flights[id].ingressId);
      }
    }
  }

  lemma NextAirborne(s: State, e: CloseRouter.Event)
    requires Airborne(s) && Permitted(s, e)
    ensures Airborne(Next(s, e))
  {
    match e
    case Route(input) => RouteAirborne(s, input);
    case Reports(id, report) => ReportAirborne(s, id, report);
    case Publishes(id, commits, throws) => PublishedAirborne(s, id, commits, throws);
    case Other(cmd) => OtherAirborne(s, cmd);
    case Reboot(_) =>
  }

  // -------------------------------------------------------------------- results

  /** Over any run, a close is complete only if its physical close reported that it closed. */
  lemma {:induction false} CompleteMeansReported(s: State, events: seq<CloseRouter.Event>, s': State)
    requires Airborne(s) && Reported(s) && Reaches(s, events, s')
    ensures Airborne(s') && Reported(s')
    decreases |events|
  {
    if events != [] {
      AirborneFound(s);
      NextAirborne(s, events[0]);
      NextReported(s, events[0]);
      CompleteMeansReported(Next(s, events[0]), events[1..], s');
    }
  }

  const NOTHING_YET := State(EMPTY_DOCUMENT, map[], [], {})

  /** Starting from an empty authority, whatever is permitted: a close that is found complete was reported,
      and unless a started close is dropped none is started twice. */
  lemma FromTheStart(events: seq<CloseRouter.Event>, s: State)
    requires Reaches(NOTHING_YET, events, s)
    ensures forall chatId, name ::
              NamesClose(s.doc, chatId, name) && LookupOperation(s.doc, chatId, name).value.state.Complete? ==>
              (chatId, LookupOperation(s.doc, chatId, name).value.oid.id) in s.reported
    ensures AllKeepCloses(NOTHING_YET, events) ==> forall i, j :: 0 <= i < j < |s.closes| ==> s.closes[i] != s.closes[j]
  {
    EmptyInv();
    CompleteMeansReported(NOTHING_YET, events, s);
    AtMostOneClose(NOTHING_YET, events, s);
  }
}
