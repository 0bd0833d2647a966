/** Whole runs of journal commands: the invariant, and what becomes of every
    operation that was ever in a chat's lineage. */
module JournalRuns {
  import opened AuthorityTypes
  import opened RelationalValidity
  import opened JournalSteps
  import opened JournalInvariant
  import opened JournalSafety
  import opened ReassignmentSafety

  datatype Command =
    | Store(input: Input)
    | BeginReassignment(chatId: string, current: string, next: string, target: Option<Target>)
    | RollBack(chatId: string, current: string)
    | ReserveOperation(op: Draft)
    | Attach(chatId: string, ingress: string, sessionId: Option<string>, sessionFile: Option<string>,
      attachment: Option<string>)
    | MoveProvisional(chatId: string, ingress: string, state: OperationState, detail: Option<string>)
    | Publish(op: Draft, mapping: Input)
    | Begin(chatId: string, oid: OperationId, kind: OperationKind, detail: Option<string>)
    | Acknowledge(chatId: string, name: string, hash: string, successor: Successor)
    | Transition(chatId: string, name: string, state: OperationState, detail: Option<string>,
      result: Option<OperationResult>)
    | CompleteWithMapping(chatId: string, name: string, hash: string, mapping: Input, outcome: OperationResult)

  function StepOf(d: Document, cmd: Command): Step {
    match cmd
    case Store(input) => StoreStep(d, input)
    case BeginReassignment(chatId, current, next, target) => BeginReassignmentStep(d, chatId, current, next, target)
    case RollBack(chatId, current) => RollbackStep(d, chatId, current)
    case ReserveOperation(op) => ReserveStep(d, op)
    case Attach(chatId, ingress, sessionId, sessionFile, attachment) =>
      AttachStep(d, chatId, ingress, sessionId, sessionFile, attachment)
    case MoveProvisional(chatId, ingress, state, detail) => TransitionProvisionalStep(d, chatId, ingress, state, detail)
    case Publish(op, mapping) => PublishStep(d, op, mapping)
    case Begin(chatId, oid, kind, detail) => BeginStep(d, chatId, oid, kind, detail)
    case Acknowledge(chatId, name, hash, successor) => AcknowledgeStep(d, chatId, name, hash, successor)
    case Transition(chatId, name, state, detail, result) => TransitionStep(d, chatId, name, state, detail, result)
    case CompleteWithMapping(chatId, name, hash, mapping, outcome) =>
      CompleteWithMappingStep(d, chatId, name, hash, mapping, outcome)
  }

  /** What each command needs from its caller beyond what its step checks. */
  predicate Safe(d: Document, cmd: Command) {
    match cmd
    case Store(input) => StoreSafe(d, input)
    case BeginReassignment(chatId, _, next, target) => BeginReassignmentSafe(d, chatId, next, target)
    case RollBack(chatId, _) => RollbackSafe(d, chatId)
    case ReserveOperation(op) => ReserveSafe(d, op)
    case Attach(_, _, _, _, _) => true
    case MoveProvisional(chatId, ingress, state, detail) => TransitionProvisionalSafe(d, chatId, ingress, state, detail)
    case Publish(op, mapping) => PublishSafe(d, op, mapping)
    case Begin(chatId, oid, _, _) => BeginSafe(d, chatId, oid)
    case Acknowledge(_, _, _, _) => true
    case Transition(chatId, name, state, _, result) => TransitionSafe(d, chatId, name, state, result)
    case CompleteWithMapping(chatId, name, hash, mapping, outcome) =>
      && TransitionSafe(d, chatId, name, Complete, Some(outcome))
      && StoreSafe(TransitionStep(d, chatId, name, Complete, Some(hash), Some(outcome)).doc, mapping)
  }

  lemma StepKeeps(d: Document, cmd: Command)
    requires Inv(d) && Safe(d, cmd) && StepOf(d, cmd).outcome.Accepted?
    ensures Inv(StepOf(d, cmd).doc)
  {
    match cmd
    case Store(input) => StoreKeeps(d, input);
    case BeginReassignment(chatId, current, next, target) => BeginReassignmentKeeps(d, chatId, current, next, target);
    case RollBack(chatId, current) => RollbackKeeps(d, chatId, current);
    case ReserveOperation(op) => ReserveKeeps(d, op);
    case Attach(chatId, ingress, sessionId, sessionFile, attachment) =>
      AttachKeeps(d, chatId, ingress, sessionId, sessionFile, attachment);
    case MoveProvisional(chatId, ingress, state, detail) =>
      TransitionProvisionalKeeps(d, chatId, ingress, state, detail);
    case Publish(op, mapping) => PublishKeeps(d, op, mapping);
    case Begin(chatId, oid, kind, detail) => BeginKeeps(d, chatId, oid, kind, detail);
    case Acknowledge(chatId, name, hash, successor) => AcknowledgeKeeps(d, chatId, name, hash, successor);
    case Transition(chatId, name, state, detail, result) => TransitionKeeps(d, chatId, name, state, detail, result);
    case CompleteWithMapping(chatId, name, hash, mapping, outcome) =>
      TransitionKeeps(d, chatId, name, Complete, Some(hash), Some(outcome));
      StoreKeeps(TransitionStep(d, chatId, name, Complete, Some(hash), Some(outcome)).doc, mapping);
  }

  /** An event of a run: a command, undone as a whole when it is rejected, or a restart. */
  datatype RunEvent = Do(cmd: Command) | Restart

  function Perform(d: Document, e: RunEvent): Document {
    match e
    case Do(cmd) => var s := StepOf(d, cmd); if s.outcome.Accepted? then s.doc else d
    case Restart => ReconcileStep(d)
  }

  function Run(d: Document, events: seq<RunEvent>): Document
    decreases |events|
  {
    if events == [] then d else Run(Perform(d, events[0]), events[1..])
  }

  /** The accepted command is one its caller may make; a rejected one is undone. */
  predicate SafeEvent(d: Document, e: RunEvent) {
    e.Do? && StepOf(d, e.cmd).outcome.Accepted? ==> Safe(d, e.cmd)
  }

  predicate SafeRun(d: Document, events: seq<RunEvent>)
    decreases |events|
  {
    events == [] || (SafeEvent(d, events[0]) && SafeRun(Perform(d, events[0]), events[1..]))
  }

  /** A begin over a pending reassignment, which forgets the operations retired before that. */
  predicate DropsLineage(d: Document, cmd: Command) {
    && cmd.BeginReassignment?
    && InProgress?(d.RecordOf(cmd.chatId))
    && ChainOps(d.records[cmd.chatId].reassignment.value.priorTombstone) != []
  }

  /** A begin over a pending reassignment, which forgets this name unless the active journal answers to it. */
  predicate DropsName(d: Document, cmd: Command, chatId: string, name: string) {
    && cmd.BeginReassignment? && cmd.chatId == chatId
    && InProgress?(d.RecordOf(chatId))
    && FirstNamed(d.records[chatId].journal, name).None?
  }

  predicate SparesName(d: Document, e: RunEvent, chatId: string, name: string) {
    e.Do? && StepOf(d, e.cmd).outcome.Accepted? ==> !DropsName(d, e.cmd, chatId, name)
  }

  predicate AllSpareName(d: Document, events: seq<RunEvent>, chatId: string, name: string)
    decreases |events|
  {
    events == [] || (SparesName(d, events[0], chatId, name)
      && AllSpareName(Perform(d, events[0]), events[1..], chatId, name))
  }

  predicate CarefulEvent(d: Document, e: RunEvent) {
    SafeEvent(d, e) && (e.Do? && StepOf(d, e.cmd).outcome.Accepted? ==> !DropsLineage(d, e.cmd))
  }

  predicate CarefulRun(d: Document, events: seq<RunEvent>)
    decreases |events|
  {
    events == [] || (CarefulEvent(d, events[0]) && CarefulRun(Perform(d, events[0]), events[1..]))
  }

  lemma PerformKeeps(d: Document, e: RunEvent)
    requires Inv(d) && SafeEvent(d, e)
    ensures Inv(Perform(d, e))
  {
    match e
    case Do(cmd) =>
      if StepOf(d, cmd).outcome.Accepted? {
        StepKeeps(d, cmd);
      }
    case Restart => ReconcileKeeps(d);
  }

  lemma {:induction false} RunKeeps(d: Document, events: seq<RunEvent>)
    requires Inv(d) && SafeRun(d, events)
    ensures Inv(Run(d, events))
    decreases |events|
  {
    if events != [] {
      PerformKeeps(d, events[0]);
      RunKeeps(Perform(d, events[0]), events[1..]);
    }
  }

  // ------------------------------------------------------ lineage conserved

  /** The same operation later in its life: same names and kind, and completion is final. */
  predicate Continues(o: Operation, o': Operation) {
    o'.oid == o.oid && o'.kind == o.kind && (o.state.Complete? ==> o'.state.Complete?)
  }

  ghost predicate HasContinuation(o: Operation, b: seq<Operation>) {
    exists j :: 0 <= j < |b| && Continues(o, b[j])
  }

  ghost predicate Carries(a: seq<Operation>, b: seq<Operation>) {
    forall i :: 0 <= i < |a| ==> HasContinuation(a[i], b)
  }

  /** Retired evidence stays as it was; the rest of the lineage lives on. */
  ghost predicate Conserved(r: Record, r': Record) {
    && Carries(Lineage(r), Lineage(r'))
    && (forall o :: o in ChainOps(Root(r.reassignment)) ==> o in ChainOps(Root(r'.reassignment)))
  }

  ghost predicate AllConserved(d: Document, d': Document) {
    forall c :: c in d.records ==> c in d'.records && Conserved(d.records[c], d'.records[c])
  }

  lemma CarriesTransitive(a: seq<Operation>, b: seq<Operation>, c: seq<Operation>)
    requires Carries(a, b) && Carries(b, c)
    ensures Carries(a, c)
  {
    forall i | 0 <= i < |a|
      ensures HasContinuation(a[i], c)
    {
      assert HasContinuation(a[i], b);
      var j :| 0 <= j < |b| && Continues(a[i], b[j]);
      assert HasContinuation(b[j], c);
      var k :| 0 <= k < |c| && Continues(b[j], c[k]);
      assert Continues(a[i], c[k]);
    }
  }

  /** Lineages that keep every operation in place and only extend around it. */
  lemma CarriesInside(a: seq<Operation>, front: seq<Operation>, mid: seq<Operation>, back: seq<Operation>,
                      b: seq<Operation>)
    requires |mid| == |a| && b == front + mid + back
    requires forall i :: 0 <= i < |a| ==> Continues(a[i], mid[i])
    ensures Carries(a, b)
  {
    forall i | 0 <= i < |a|
      ensures HasContinuation(a[i], b)
    {
      assert b[|front| + i] == mid[i];
    }
  }

  lemma CarriesConcat(a0: seq<Operation>, a1: seq<Operation>, b0: seq<Operation>, b1: seq<Operation>)
    requires Carries(a0, b0) && Carries(a1, b1)
    ensures Carries(a0 + a1, b0 + b1)
  {
    var a, b := a0 + a1, b0 + b1;
    forall i | 0 <= i < |a|
      ensures HasContinuation(a[i], b)
    {
      if i < |a0| {
        assert HasContinuation(a0[i], b0);
        var j :| 0 <= j < |b0| && Continues(a0[i], b0[j]);
        assert b[j] == b0[j];
      } else {
        assert HasContinuation(a1[i - |a0|], b1);
        var j :| 0 <= j < |b1| && Continues(a1[i - |a0|], b1[j]);
        assert b[|b0| + j] == b1[j];
      }
    }
  }

  lemma CarriesRefl(a: seq<Operation>)
    ensures Carries(a, a)
  {
    forall i | 0 <= i < |a|
      ensures HasContinuation(a[i], a)
    {
      assert Continues(a[i], a[i]);
    }
  }

  lemma SameChainConserved(r: Record, r': Record)
    requires ChainOps(Root(r.reassignment)) == ChainOps(Root(r'.reassignment)) && Carries(r.journal, r'.journal)
    ensures Conserved(r, r')
  {
    CarriesRefl(ChainOps(Root(r.reassignment)));
    CarriesConcat(r.journal, ChainOps(Root(r.reassignment)), r'.journal, ChainOps(Root(r'.reassignment)));
  }

  lemma CarriesPointwise(a: seq<Operation>, b: seq<Operation>)
    requires |a| <= |b| && forall i :: 0 <= i < |a| ==> Continues(a[i], b[i])
    ensures Carries(a, b)
  {
    CarriesInside(a, [], b[..|a|], b[|a|..], b);
  }

  lemma SameRecordsConserved(d: Document, d': Document, chatId: string)
    requires forall c :: c in d.records && c != chatId ==> c in d'.records && d'.records[c] == d.records[c]
    requires chatId in d.records ==> chatId in d'.records && Conserved(d.records[chatId], d'.records[chatId])
    ensures AllConserved(d, d')
  {
    forall c | c in d.records
      ensures c in d'.records && Conserved(d.records[c], d'.records[c])
    {
      if c != chatId {
        CarriesRefl(Lineage(d.records[c]));
      }
    }
  }

  lemma StoreConserves(d: Document, input: Input)
    requires WellKeyed(d) && StoreStep(d, input).outcome.Accepted?
    ensures AllConserved(d, StoreStep(d, input).doc)
  {
    if input.chatId in d.records {
      var r, r' := d.records[input.chatId], StoreStep(d, input).doc.records[input.chatId];
      assert r.journal <= AppendJournal(r.journal, input.journal).value;
      CarriesPointwise(r.journal, r'.journal);
      SameChainConserved(r, r');
    }
    SameRecordsConserved(d, StoreStep(d, input).doc, input.chatId);
  }

  lemma PublishConserves(d: Document, op: Draft, mapping: Input)
    requires Inv(d) && PublishSafe(d, op, mapping) && PublishStep(d, op, mapping).outcome.Accepted?
    ensures AllConserved(d, PublishStep(d, op, mapping).doc)
  {
    var d' := PublishStep(d, op, mapping).doc;
    if CommitsReassignment(d.RecordOf(op.chatId), mapping) {
      var r, r' := d.records[op.chatId], d'.records[op.chatId];
      CommittedLineage(r, op, mapping);
      var o := PublishedOperation(op, mapping);
      CarriesInside(Lineage(r), [o], Lineage(r), [], Lineage(r'));
      SameRecordsConserved(d, d', op.chatId);
    } else {
      var input := mapping.(journal := [PublishedOperation(op, mapping)]);
      StoreConserves(d, input);
      assert d'.records == StoreStep(d, input).doc.records;
    }
  }

  lemma BeginReassignmentConserves(d: Document, chatId: string, current: string, next: string, target: Option<Target>)
    requires Inv(d) && !DropsLineage(d, BeginReassignment(chatId, current, next, target))
    requires BeginReassignmentStep(d, chatId, current, next, target).outcome.Accepted?
    ensures AllConserved(d, BeginReassignmentStep(d, chatId, current, next, target).doc)
  {
    var d' := BeginReassignmentStep(d, chatId, current, next, target).doc;
    RetainedIsRoot(d.records[chatId]);
    CarriesRefl(d.records[chatId].journal);
    SameChainConserved(d.records[chatId], d'.records[chatId]);
    SameRecordsConserved(d, d', chatId);
  }

  lemma InPlaceConserves(d: Document, d': Document, chatId: string)
    requires chatId in d.records && d'.records.Keys == d.records.Keys
    requires forall c :: c in d.records && c != chatId ==> d'.records[c] == d.records[c]
    requires Root(d.records[chatId].reassignment) == Root(d'.records[chatId].reassignment)
    requires |d.records[chatId].journal| <= |d'.records[chatId].journal|
    requires forall i :: 0 <= i < |d.records[chatId].journal| ==>
               Continues(d.records[chatId].journal[i], d'.records[chatId].journal[i])
    ensures AllConserved(d, d')
  {
    CarriesPointwise(d.records[chatId].journal, d'.records[chatId].journal);
    SameChainConserved(d.records[chatId], d'.records[chatId]);
    SameRecordsConserved(d, d', chatId);
  }

  lemma TransitionConserves(d: Document, chatId: string, name: string, state: OperationState,
                            detail: Option<string>, result: Option<OperationResult>)
    requires TransitionStep(d, chatId, name, state, detail, result).outcome.Accepted?
    ensures AllConserved(d, TransitionStep(d, chatId, name, state, detail, result).doc)
  {
    InPlaceConserves(d, TransitionStep(d, chatId, name, state, detail, result).doc, chatId);
  }

  lemma RollbackConserves(d: Document, chatId: string, current: string)
    requires Inv(d) && RollbackStep(d, chatId, current).outcome.Accepted?
    ensures AllConserved(d, RollbackStep(d, chatId, current).doc)
  {
    InPlaceConserves(d, RollbackStep(d, chatId, current).doc, chatId);
  }

  lemma ReserveConserves(d: Document, op: Draft)
    requires ReserveStep(d, op).outcome.Accepted?
    ensures AllConserved(d, ReserveStep(d, op).doc)
  {
    if op.chatId in d.records {
      InPlaceConserves(d, ReserveStep(d, op).doc, op.chatId);
    } else {
      SameRecordsConserved(d, ReserveStep(d, op).doc, op.chatId);
    }
  }

  lemma BeginConserves(d: Document, chatId: string, oid: OperationId, kind: OperationKind, detail: Option<string>)
    requires BeginStep(d, chatId, oid, kind, detail).outcome.Accepted?
    ensures AllConserved(d, BeginStep(d, chatId, oid, kind, detail).doc)
  {
    InPlaceConserves(d, BeginStep(d, chatId, oid, kind, detail).doc, chatId);
  }

  lemma AcknowledgeConserves(d: Document, chatId: string, name: string, hash: string, successor: Successor)
    requires AcknowledgeStep(d, chatId, name, hash, successor).outcome.Accepted?
    ensures AllConserved(d, AcknowledgeStep(d, chatId, name, hash, successor).doc)
  {
    InPlaceConserves(d, AcknowledgeStep(d, chatId, name, hash, successor).doc, chatId);
  }

  lemma AllConservedTransitive(a: Document, b: Document, c: Document)
    requires AllConserved(a, b) && AllConserved(b, c)
    ensures AllConserved(a, c)
  {
    forall x | x in a.records
      ensures x in c.records && Conserved(a.records[x], c.records[x])
    {
      CarriesTransitive(Lineage(a.records[x]), Lineage(b.records[x]), Lineage(c.records[x]));
    }
  }

  lemma StepConserves(d: Document, cmd: Command)
    requires Inv(d) && Safe(d, cmd) && !DropsLineage(d, cmd) && StepOf(d, cmd).outcome.Accepted?
    ensures AllConserved(d, StepOf(d, cmd).doc)
  {
    var d' := StepOf(d, cmd).doc;
    match cmd
    case Store(input) => StoreConserves(d, input);
    case BeginReassignment(chatId, current, next, target) =>
      BeginReassignmentConserves(d, chatId, current, next, target);
    case RollBack(chatId, current) => RollbackConserves(d, chatId, current);
    case ReserveOperation(op) => ReserveConserves(d, op);
    case Attach(chatId, _, _, _, _) => SameDocumentConserved(d, d');
    case MoveProvisional(chatId, _, _, _) => SameDocumentConserved(d, d');
    case Publish(op, mapping) => PublishConserves(d, op, mapping);
    case Begin(chatId, oid, kind, detail) => BeginConserves(d, chatId, oid, kind, detail);
    case Acknowledge(chatId, name, hash, successor) => AcknowledgeConserves(d, chatId, name, hash, successor);
    case Transition(chatId, name, state, detail, result) => TransitionConserves(d, chatId, name, state, detail, result);
    case CompleteWithMapping(chatId, name, hash, mapping, outcome) =>
      CompletionConserves(d, chatId, name, hash, mapping, outcome);
  }

  lemma CompletionConserves(d: Document, chatId: string, name: string, hash: string, mapping: Input,
                            outcome: OperationResult)
    requires WellKeyed(d) && CompleteWithMappingStep(d, chatId, name, hash, mapping, outcome).outcome.Accepted?
    ensures AllConserved(d, CompleteWithMappingStep(d, chatId, name, hash, mapping, outcome).doc)
  {
    var mid := TransitionStep(d, chatId, name, Complete, Some(hash), Some(outcome)).doc;
    TransitionConserves(d, chatId, name, Complete, Some(hash), Some(outcome));
    assert WellKeyed(mid);
    StoreConserves(mid, mapping);
    AllConservedTransitive(d, mid, StoreStep(mid, mapping).doc);
  }

  lemma SameDocumentConserved(d: Document, d': Document)
    requires d'.records == d.records
    ensures AllConserved(d, d')
  {
    forall c | c in d.records
      ensures Conserved(d.records[c], d'.records[c])
    {
      CarriesRefl(Lineage(d.records[c]));
    }
  }

  lemma ReconcileConserves(d: Document)
    requires Inv(d)
    ensures AllConserved(d, ReconcileStep(d))
  {
    forall c | c in d.records
      ensures Conserved(d.records[c], ReconcileStep(d).records[c])
    {
      var r, r' := d.records[c], ReconcileStep(d).records[c];
      CarriesPointwise(r.journal, r'.journal);
      SameChainConserved(r, r');
    }
  }

  /** Whatever was once done on a chat stays in its lineage, through any number of
      project reassignments, roll backs and restarts. */
  lemma {:induction false} LineageConserved(d: Document, events: seq<RunEvent>)
    requires Inv(d) && CarefulRun(d, events)
    ensures AllConserved(d, Run(d, events))
    decreases |events|
  {
    if events == [] {
      SameDocumentConserved(d, d);
    } else {
      var mid := Perform(d, events[0]);
      match events[0] {
        case Do(cmd) =>
          if StepOf(d, cmd).outcome.Accepted? {
            StepConserves(d, cmd);
          } else {
            SameDocumentConserved(d, d);
          }
        case Restart => ReconcileConserves(d);
      }
      PerformKeeps(d, events[0]);
      LineageConserved(mid, events[1..]);
      AllConservedTransitive(d, mid, Run(d, events));
    }
  }

  ghost predicate ConservesThroughout(d: Document, events: seq<RunEvent>)
    decreases |events|
  {
    events == [] || (AllConserved(d, Perform(d, events[0])) && ConservesThroughout(Perform(d, events[0]), events[1..]))
  }

  lemma ConservesEventExact(d: Document, e: RunEvent)
    requires Inv(d) && SafeEvent(d, e)
    ensures AllConserved(d, Perform(d, e)) <==> CarefulEvent(d, e)
  {
    match e
    case Restart => ReconcileConserves(d);
    case Do(cmd) =>
      if StepOf(d, cmd).outcome.Accepted? {
        ConservesExact(d, cmd);
      } else {
        SameDocumentConserved(d, d);
      }
  }

  /** Each event of a safe run conserves every lineage exactly when the run is careful. */
  lemma {:induction false} ConservesRunExact(d: Document, events: seq<RunEvent>)
    requires Inv(d) && SafeRun(d, events)
    ensures ConservesThroughout(d, events) <==> CarefulRun(d, events)
    decreases |events|
  {
    if events != [] {
      ConservesEventExact(d, events[0]);
      PerformKeeps(d, events[0]);
      ConservesRunExact(Perform(d, events[0]), events[1..]);
    }
  }

  // ---------------------------------------------------------------- lookup

  lemma UniqueLookup(ops: seq<Operation>, i: nat, name: string)
    requires Unique(ops) && i < |ops| && name in Names(ops[i])
    ensures IndexOf(ops, name) == i
  {
    var j := IndexOf(ops, name);
    assert name in ops[j].oid.Identifiers() * ops[i].oid.Identifiers();
  }

  lemma LookupCarried(a: seq<Operation>, b: seq<Operation>, name: string)
    requires Carries(a, b) && Unique(b) && IndexOf(a, name) < |a|
    ensures IndexOf(b, name) < |b| && Continues(a[IndexOf(a, name)], b[IndexOf(b, name)])
  {
    var i := IndexOf(a, name);
    assert HasContinuation(a[i], b);
    var j :| 0 <= j < |b| && Continues(a[i], b[j]);
    UniqueLookup(b, j, name);
  }

  lemma ConservedLookup(d: Document, d': Document, chatId: string, name: string)
    requires AllConserved(d, d') && Inv(d') && LookupOperation(d, chatId, name).Some?
    ensures LookupOperation(d', chatId, name).Some?
    ensures Continues(LookupOperation(d, chatId, name).value, LookupOperation(d', chatId, name).value)
  {
    assert Conserved(d.records[chatId], d'.records[chatId]) && RecordOk(d'.records[chatId]);
    LookupCarried(Lineage(d.records[chatId]), Lineage(d'.records[chatId]), name);
  }

  lemma FirstNamedInFront(a: seq<Operation>, b: seq<Operation>, name: string)
    ensures FirstNamed(a, name).Some? ==> FirstNamed(a + b, name) == FirstNamed(a, name)
    ensures FirstNamed(a, name).None? && FirstNamed(a + b, name).Some? ==> b != []
  {
    var whole := a + b;
    var i, j := IndexOf(a, name), IndexOf(whole, name);
    assert forall k :: 0 <= k < |a| ==> whole[k] == a[k];
    if i < |a| {
      assert whole[i] == a[i] && whole[j] == a[j];
    }
    assert b == [] ==> whole == a;
  }

  /** A begin that drops a lineage leaves the names of the active journal, and only those. */
  lemma DroppedLookup(d: Document, chatId: string, current: string, next: string, target: Option<Target>, name: string)
    requires Inv(d) && BeginReassignmentStep(d, chatId, current, next, target).outcome.Accepted?
    requires DropsLineage(d, BeginReassignment(chatId, current, next, target))
    ensures LookupOperation(BeginReassignmentStep(d, chatId, current, next, target).doc, chatId, name) ==
            FirstNamed(d.records[chatId].journal, name)
    ensures FirstNamed(d.records[chatId].journal, name).Some? ==>
              LookupOperation(d, chatId, name) == FirstNamed(d.records[chatId].journal, name)
  {
    var r := d.records[chatId];
    MarkedLineage(r, BeginReassignmentStep(d, chatId, current, next, target).doc.records[chatId].reassignment.value);
    FirstNamedInFront(r.journal, ChainOps(Root(r.reassignment)), name);
  }

  lemma OtherChatLookup(d: Document, chatId: string, current: string, next: string, target: Option<Target>, c: string,
                        name: string)
    requires BeginReassignmentStep(d, chatId, current, next, target).outcome.Accepted? && c != chatId
    ensures LookupOperation(BeginReassignmentStep(d, chatId, current, next, target).doc, c, name) ==
        LookupOperation(d, c, name)
  {
  }

  /** A name that is not in the active journal is in a retired lineage, if it is found at all. */
  lemma NamedBehind(d: Document, chatId: string, name: string)
    requires Inv(d) && InProgress?(d.RecordOf(chatId)) && LookupOperation(d, chatId, name).Some?
    requires FirstNamed(d.records[chatId].journal, name).None?
    ensures ChainOps(d.records[chatId].reassignment.value.priorTombstone) != []
  {
    var r := d.records[chatId];
    assert RecordOk(r) && Root(r.reassignment) == r.reassignment.value.priorTombstone;
    FirstNamedInFront(r.journal, ChainOps(Root(r.reassignment)), name);
  }

  /** An accepted command forgets an old name exactly when it drops it; otherwise the name still finds
      the very operation it found. */
  lemma LookupStepExact(d: Document, cmd: Command, chatId: string, name: string)
    requires Inv(d) && Safe(d, cmd) && StepOf(d, cmd).outcome.Accepted? && LookupOperation(d, chatId, name).Some?
    ensures LookupOperation(StepOf(d, cmd).doc, chatId, name).Some? <==> !DropsName(d, cmd, chatId, name)
    ensures !DropsName(d, cmd, chatId, name) ==>
              LookupOperation(StepOf(d, cmd).doc, chatId, name).Some? &&
              Continues(LookupOperation(d, chatId, name).value, LookupOperation(StepOf(d, cmd).doc, chatId, name).value)
  {
    if DropsLineage(d, cmd) {
      if cmd.chatId == chatId {
        DroppedLookup(d, chatId, cmd.current, cmd.next, cmd.target, name);
      } else {
        OtherChatLookup(d, cmd.chatId, cmd.current, cmd.next, cmd.target, chatId, name);
      }
    } else {
      if DropsName(d, cmd, chatId, name) {
        NamedBehind(d, chatId, name);
        assert false;
      }
      StepKeeps(d, cmd);
      StepConserves(d, cmd);
      ConservedLookup(d, StepOf(d, cmd).doc, chatId, name);
    }
  }

  lemma LookupEventExact(d: Document, e: RunEvent, chatId: string, name: string)
    requires Inv(d) && SafeEvent(d, e) && LookupOperation(d, chatId, name).Some?
    ensures LookupOperation(Perform(d, e), chatId, name).Some? <==> SparesName(d, e, chatId, name)
    ensures SparesName(d, e, chatId, name) ==>
              LookupOperation(Perform(d, e), chatId, name).Some? &&
              Continues(LookupOperation(d, chatId, name).value, LookupOperation(Perform(d, e), chatId, name).value)
  {
    match e
    case Restart =>
      ReconcileKeeps(d);
      ReconcileConserves(d);
      ConservedLookup(d, ReconcileStep(d), chatId, name);
    case Do(cmd) =>
      if StepOf(d, cmd).outcome.Accepted? {
        LookupStepExact(d, cmd, chatId, name);
      }
  }

  ghost predicate FoundThroughout(d: Document, events: seq<RunEvent>, chatId: string, name: string)
    decreases |events|
  {
    LookupOperation(d, chatId, name).Some?
      && (events != [] ==> FoundThroughout(Perform(d, events[0]), events[1..], chatId, name))
  }

  /** An old name is found all along a safe run exactly when no begin over a pending reassignment drops
      it, and then it finds at the end the very operation it used to find. */
  lemma {:induction false} LookupSurvives(d: Document, events: seq<RunEvent>, chatId: string, name: string)
    requires Inv(d) && SafeRun(d, events) && LookupOperation(d, chatId, name).Some?
    ensures FoundThroughout(d, events, chatId, name) <==> AllSpareName(d, events, chatId, name)
    ensures AllSpareName(d, events, chatId, name) ==>
              LookupOperation(Run(d, events), chatId, name).Some? &&
              Continues(LookupOperation(d, chatId, name).value, LookupOperation(Run(d, events), chatId, name).value)
    decreases |events|
  {
    if events != [] {
      LookupEventExact(d, events[0], chatId, name);
      PerformKeeps(d, events[0]);
      if SparesName(d, events[0], chatId, name) {
        LookupSurvives(Perform(d, events[0]), events[1..], chatId, name);
      }
    }
  }

  /** A commit retires the source lineage without changing what its names stand for. */
  lemma CommitKeepsLookup(d: Document, op: Draft, mapping: Input, name: string)
    requires Inv(d) && PublishSafe(d, op, mapping) && PublishStep(d, op, mapping).outcome.Accepted?
    requires CommitsReassignment(d.RecordOf(op.chatId), mapping)
    requires LookupOperation(d, op.chatId, name).Some?
    ensures LookupOperation(PublishStep(d, op, mapping).doc, op.chatId, name) == LookupOperation(d, op.chatId, name)
  {
    var d' := PublishStep(d, op, mapping).doc;
    var r, r' := d.records[op.chatId], d'.records[op.chatId];
    CommittedLineage(r, op, mapping);
    PublishKeeps(d, op, mapping);
    var i := IndexOf(Lineage(r), name);
    assert Lineage(r')[i + 1] == Lineage(r)[i];
    UniqueLookup(Lineage(r'), i + 1, name);
  }

  lemma RollbackKeepsLookup(d: Document, chatId: string, current: string, name: string)
    requires RollbackStep(d, chatId, current).outcome.Accepted? && Inv(d)
    ensures LookupOperation(RollbackStep(d, chatId, current).doc, chatId, name) == LookupOperation(d, chatId, name)
  {
    assert Lineage(RollbackStep(d, chatId, current).doc.records[chatId]) == Lineage(d.records[chatId]);
  }

  /** Of all commands only a begin over a pending reassignment forgets anything, and it does so
      exactly when something was retired before. */
  lemma ConservesExact(d: Document, cmd: Command)
    requires Inv(d) && Safe(d, cmd) && StepOf(d, cmd).outcome.Accepted?
    ensures AllConserved(d, StepOf(d, cmd).doc) <==> !DropsLineage(d, cmd)
  {
    if DropsLineage(d, cmd) {
      DroppedIsLost(d, cmd.chatId, cmd.current, cmd.next, cmd.target);
    } else {
      StepConserves(d, cmd);
    }
  }

  lemma DroppedIsLost(d: Document, chatId: string, current: string, next: string, target: Option<Target>)
    requires Inv(d) && BeginReassignmentStep(d, chatId, current, next, target).outcome.Accepted?
    requires DropsLineage(d, BeginReassignment(chatId, current, next, target))
    ensures !AllConserved(d, BeginReassignmentStep(d, chatId, current, next, target).doc)
  {
    var r := d.records[chatId];
    RetainedIsRoot(r);
    assert RecordOk(r) && ChainOps(Root(r.reassignment))[0] in ChainOps(Root(r.reassignment));
    assert ChainOps(None) == [];
  }

  /** Beginning over a pending reassignment forgets its retired lineage, and only then. */
  lemma BeginReassignmentLineageExact(d: Document, chatId: string, current: string, next: string,
                                      target: Option<Target>)
    requires Inv(d) && BeginReassignmentStep(d, chatId, current, next, target).outcome.Accepted?
    ensures var begun := BeginReassignmentStep(d, chatId, current, next, target).doc.records[chatId];
            Lineage(begun) == Lineage(d.records[chatId]) <==>
            !(InProgress?(d.RecordOf(chatId)) && ChainOps(d.records[chatId].reassignment.value.priorTombstone) != [])
  {
    var r, r' := d.records[chatId], BeginReassignmentStep(d, chatId, current, next, target).doc.records[chatId];
    if !InProgress?(Some(r)) {
      RetainedIsRoot(r);
    } else {
      assert |Lineage(r)| == |r.journal| + |ChainOps(r.reassignment.value.priorTombstone)|;
      assert Lineage(r') == r.journal + [];
    }
  }
}
