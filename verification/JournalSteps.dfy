/** What each journal operation does to the document, as one step.  A step either
    is accepted or is rejected; only `Reserve` can leave a trace when it rejects. */
module JournalSteps {
  import opened AuthorityTypes
  import opened RelationalValidity

  datatype JournalError =
    | OtherProject | UnknownChat | SameProject | NeedsReconciliation | UnrelatedReassignment
    | IdentityConflict | ReassignmentPending | TargetMismatch | UnknownOperation
    | CompletedImmutable | ResultRequired | ResultForbidden | ConflictingSuccessor
    | MissingProof | InvalidTarget | InvalidDocument

  datatype Outcome = Accepted | Rejected(error: JournalError)

  datatype Step = Step(doc: Document, outcome: Outcome)

  /** What a caller hands over to be stored as a chat's record. */
  datatype Input = Input(
    chatId: string, projectId: string, sessionId: string, operationId: string,
    observations: Option<Observations>, payload: string, assistantText: string,
    sessionFile: Option<string>, attachment: Option<string>,
    journal: seq<Operation>)

  /** A provisional operation before it is reserved. */
  datatype Draft = Draft(
    oid: OperationId, kind: OperationKind, detail: Option<string>,
    chatId: string, projectId: string,
    sessionId: Option<string>, sessionFile: Option<string>, attachment: Option<string>)

  const ROLLBACK_DETAIL := "project reassignment rolled back; external effect evidence retained"
  const RESTART_DETAIL := "restart before completion"

  // ------------------------------------------------------------- searching

  /** Index of the first operation that shares an identifier; `|ops|` when none does. */
  function FirstOverlap(ops: seq<Operation>, oid: OperationId): (i: nat)
    ensures i <= |ops|
    ensures forall j :: 0 <= j < i ==> !Overlap(oid, ops[j].oid)
    ensures i < |ops| ==> Overlap(oid, ops[i].oid)
  {
    if ops == [] then 0
    else if Overlap(oid, ops[0].oid) then 0
    else 1 + FirstOverlap(ops[1..], oid)
  }

  /** Index of the first operation answering to `name`; `|ops|` when none does. */
  function IndexOf(ops: seq<Operation>, name: string): (i: nat)
    ensures i <= |ops|
    ensures forall j :: 0 <= j < i ==> name !in Names(ops[j])
    ensures i < |ops| ==> name in Names(ops[i])
  {
    if ops == [] then 0
    else if name in Names(ops[0]) then 0
    else 1 + IndexOf(ops[1..], name)
  }

  /** The identifiers an operation is looked up by, which are the ones it reserves. */
  function Names(o: Operation): set<string> {
    o.oid.Identifiers()
  }

  predicate AnyOverlap(oid: OperationId, ops: seq<Operation>) {
    exists i :: 0 <= i < |ops| && Overlap(oid, ops[i].oid)
  }

  predicate AnyCollision(oid: OperationId, ops: seq<Operation>) {
    exists i :: 0 <= i < |ops| && Overlap(oid, ops[i].oid) && oid.Identity() != ops[i].oid.Identity()
  }

  /** Provisional operations of every chat are passed, so clashes count across chats. */
  predicate AnyProvisionalOverlap(oid: OperationId, ps: map<Key, Provisional>) {
    exists k :: k in ps && Overlap(oid, ps[k].oid)
  }

  predicate AnyProvisionalCollision(oid: OperationId, ps: map<Key, Provisional>) {
    exists k :: k in ps && Overlap(oid, ps[k].oid) && oid.Identity() != ps[k].oid.Identity()
  }

  function FirstNamed(ops: seq<Operation>, name: string): Option<Operation> {
    var i := IndexOf(ops, name);
    if i < |ops| then Some(ops[i]) else None
  }

  function LookupOperation(d: Document, chatId: string, name: string): Option<Operation> {
    FirstNamed(LineageOf(d.RecordOf(chatId)), name)
  }

  // ----------------------------------------------------------------- store

  function ImplicitOperation(operationId: string): Operation {
    Operation(OperationId(operationId, Some(operationId)), Prompt, Complete, None, None, None)
  }

  /** Incoming operations go behind the existing ones; one already there under the same ids is skipped. */
  function AppendJournal(existing: seq<Operation>, incoming: seq<Operation>): (r: Option<seq<Operation>>)
    ensures r.Some? ==> existing <= r.value
    decreases |incoming|
  {
    if incoming == [] then Some(existing)
    else
      var i := FirstOverlap(existing, incoming[0].oid);
      if i == |existing| then AppendJournal(existing + [incoming[0]], incoming[1..])
      else if existing[i].oid == incoming[0].oid then AppendJournal(existing, incoming[1..])
      else None
  }

  function WithImplicit(journal: seq<Operation>, operationId: string): seq<Operation> {
    if IndexOf(journal, operationId) < |journal| then journal
    else journal + [ImplicitOperation(operationId)]
  }

  function CreateRecord(input: Input, journal: seq<Operation>): Record {
    Record(input.chatId, input.projectId, input.sessionId, input.operationId,
           input.observations.GetOr(Observations(None, None, "")), input.payload,
           WithImplicit(journal, input.operationId), None)
  }

  function UpdateRecord(input: Input, existing: Record, journal: seq<Operation>): Record {
    existing.(chatId := input.chatId, projectId := input.projectId, sessionId := input.sessionId,
      operationId := input.operationId,
              observations := input.observations.GetOr(existing.observations), payload := input.payload,
              journal := WithImplicit(journal, input.operationId))
  }

  predicate RolledBackTarget(r: Option<Record>, p: Provisional) {
    && ReassignmentOf(r).Some?
    && ReassignmentOf(r).value.state.RolledBack?
    && ReassignmentOf(r).value.targetProjectId == p.projectId
    && ReassignmentOf(r).value.target.Some?
    && SameTarget(p.oid, p.kind, p.detail, ReassignmentOf(r).value.target.value)
    && (p.state.Uncertain? || p.state.Conflict?)
  }

  /** A provisional operation that keeps the chat tied to another project. */
  predicate ConflictingProject(r: Option<Record>, input: Input, p: Provisional) {
    && p.chatId == input.chatId && p.projectId != input.projectId
    && !(p.state.Complete? && ChainHasProject(Root(ReassignmentOf(r)), p.projectId))
    && !RolledBackTarget(r, p)
  }

  predicate Fenced(lineage: seq<Operation>, incoming: seq<Operation>) {
    forall o :: o in incoming ==>
      var i := FirstOverlap(lineage, o.oid);
      i < |lineage| ==> lineage[i].oid.Identity() == o.oid.Identity()
  }

  function StoreStep(d: Document, input: Input): Step {
    var existing := d.RecordOf(input.chatId);
    if existing.Some? && existing.value.projectId != input.projectId then Step(d, Rejected(OtherProject))
    else if exists k :: k in d.provisional && ConflictingProject(existing, input, d.provisional[k])
      then Step(d, Rejected(OtherProject))
    else if !Fenced(LineageOf(existing), input.journal) then Step(d, Rejected(IdentityConflict))
    else match existing
      case None =>
        (match AppendJournal([], input.journal)
         case None => Step(d, Rejected(IdentityConflict))
         case Some(journal) => Step(d.WithRecord(CreateRecord(input, journal)), Accepted))
      case Some(r) =>
        match AppendJournal(r.journal, input.journal)
        case None => Step(d, Rejected(IdentityConflict))
        case Some(journal) =>
          var i := IndexOf(journal, input.operationId);
          if i < |journal| && (journal[i].state.Conflict? || journal[i].state.Uncertain?)
            then Step(d, Rejected(NeedsReconciliation))
          else Step(d.WithRecord(UpdateRecord(input, r, journal)), Accepted)
  }

  // ---------------------------------------------------- project reassignment

  predicate Unresolved(d: Document, r: Record) {
    || (exists k :: k in d.provisional && d.provisional[k].chatId == r.chatId && !d.provisional[k].state.Complete?)
    || (exists o :: o in r.journal && !o.state.Complete?)
  }

  function RetainedTombstone(rea: Option<Reassignment>): Option<Tombstone> {
    match rea
    case None => None
    case Some(x) =>
      match x.state
      case Committed => x.sourceTombstone
      case RolledBack => x.priorTombstone
      case InProgress => None
  }

  function BeginReassignmentStep(
    d: Document, chatId: string, current: string, next: string, target: Option<Target>): Step
  {
    if chatId !in d.records || d.records[chatId].projectId != current then Step(d, Rejected(UnknownChat))
    else if current == next then Step(d, Rejected(SameProject))
    else if Unresolved(d, d.records[chatId]) then Step(d, Rejected(NeedsReconciliation))
    else
      var r := d.records[chatId];
      if r.reassignment.Some? && r.reassignment.value.state.InProgress? &&
         (r.reassignment.value.sourceProjectId != current || r.reassignment.value.targetProjectId != next)
        then Step(d, Rejected(UnrelatedReassignment))
      else if target.Some? && !target.value.oid.WellFormed() then Step(d, Rejected(InvalidTarget))
      else
        var marker := Reassignment(InProgress, current, next, target, None, RetainedTombstone(r.reassignment));
        Step(d.(records := d.records[chatId := r.(reassignment := Some(marker))]), Accepted)
  }

  predicate CanRollBack(d: Document, chatId: string, current: string) {
    && chatId in d.records
    && d.records[chatId].projectId == current
    && d.records[chatId].reassignment.Some?
    && d.records[chatId].reassignment.value.state.InProgress?
    && d.records[chatId].reassignment.value.sourceProjectId == current
  }

  /** The pending provisional operation stored under the target's ingress, if there is one. */
  function RollbackVictim(d: Document, chatId: string): Option<Provisional> {
    var rea := ReassignmentOf(d.RecordOf(chatId));
    if rea.None? || rea.value.target.None? then None
    else
      var p := d.ProvisionalAt(Key(chatId, rea.value.target.value.oid.Ingress()));
      if p.Some? && p.value.state.Pending? then p else None
  }

  function RollbackStep(d: Document, chatId: string, current: string): Step {
    if !CanRollBack(d, chatId, current) then Step(d, Rejected(UnknownChat))
    else
      var r := d.records[chatId];
      var victim := RollbackVictim(d, chatId);
      var d1 := match victim
        case None => d
        case Some(p) =>
          d.(provisional := d.provisional[Key(chatId, r.reassignment.value.target.value.oid.Ingress()) :=
               p.(state := Uncertain, detail := Some(ROLLBACK_DETAIL))]);
      var rolledBack := r.(reassignment := Some(r.reassignment.value.(state := RolledBack)));
      Step(d1.(records := d1.records[chatId := rolledBack]), Accepted)
  }

  // ------------------------------------------------- provisional operations

  predicate DraftMatches(op: Draft, t: Target) {
    SameTarget(op.oid, op.kind, op.detail, t)
  }

  predicate MayReserve(r: Option<Record>, op: Draft) {
    r.Some? && r.value.projectId != op.projectId ==>
      && r.value.reassignment.Some?
      && r.value.reassignment.value.state.InProgress?
      && r.value.reassignment.value.targetProjectId == op.projectId
      && (r.value.reassignment.value.target.Some? ==> DraftMatches(op, r.value.reassignment.value.target.value))
  }

  /** A foreign reservation pins the reassignment target, even if it is refused afterwards. */
  function PinTarget(d: Document, op: Draft): Document
    requires MayReserve(d.RecordOf(op.chatId), op)
  {
    if op.chatId in d.records && d.records[op.chatId].projectId != op.projectId &&
       d.records[op.chatId].reassignment.value.target.None?
    then
      var r := d.records[op.chatId];
      d.(records := d.records[op.chatId := r.(reassignment :=
        Some(r.reassignment.value.(target := Some(Target(op.oid, op.kind, op.detail)))))])
    else d
  }

  function Reserved(op: Draft): Provisional {
    Provisional(op.oid, op.kind, Pending, op.detail, None, op.chatId, op.projectId,
                op.sessionId, op.sessionFile, op.attachment)
  }

  function ReserveStep(d: Document, op: Draft): Step {
    var r := d.RecordOf(op.chatId);
    if !MayReserve(r, op) then Step(d, Rejected(OtherProject))
    else
      var d1 := PinTarget(d, op);
      var k := Key(op.chatId, op.oid.Ingress());
      if k in d.provisional then
        var prior := d.provisional[k];
        Step(d1, Rejected(if prior.kind != op.kind || prior.projectId != op.projectId || prior.detail != op.detail
                          then IdentityConflict else NeedsReconciliation))
      else if AnyCollision(op.oid, LineageOf(r)) || AnyProvisionalCollision(op.oid, d.provisional)
        then Step(d1, Rejected(IdentityConflict))
      else if AnyOverlap(op.oid, LineageOf(r)) then Step(d1, Rejected(NeedsReconciliation))
      else Step(d1.WithProvisional(Reserved(op)), Accepted)
  }

  function AttachStep(d: Document, chatId: string, ingress: string,
                      sessionId: Option<string>, sessionFile: Option<string>, attachment: Option<string>): Step
  {
    var k := Key(chatId, ingress);
    if k !in d.provisional || !d.provisional[k].state.Pending? then Step(d, Rejected(NeedsReconciliation))
    else if sessionId.None? || attachment.None? then Step(d, Rejected(MissingProof))
    else
      var p := d.provisional[k];
      Step(d.(provisional := d.provisional[k :=
        p.(sessionId := sessionId,
           sessionFile := if sessionFile.Some? then sessionFile else p.sessionFile,
           attachment := attachment)]), Accepted)
  }

  function MovedProvisional(p: Provisional, state: OperationState, detail: Option<string>): Provisional {
    p.(state := state, detail := if detail.Some? then detail else p.detail)
  }

  function TransitionProvisionalStep(d: Document, chatId: string, ingress: string,
                                     state: OperationState, detail: Option<string>): Step
  {
    var k := Key(chatId, ingress);
    if k !in d.provisional then Step(d, Rejected(UnknownOperation))
    else if d.provisional[k].state.Complete? && !state.Complete? then Step(d, Rejected(CompletedImmutable))
    else Step(d.(provisional := d.provisional[k := MovedProvisional(d.provisional[k], state, detail)]), Accepted)
  }

  function ResultOf(kind: ResultKind, input: Input): OperationResult {
    OperationResult(
      kind,
      ResultMapping(input.chatId, input.projectId, input.sessionId, input.operationId,
                    input.sessionFile, input.attachment, input.payload),
      input.assistantText, Some([]),
      if kind.CloseResult? then Some(map["closeStatus" := "closed"]) else None, None)
  }

  function PublishedOperation(op: Draft, mapping: Input): Operation {
    Operation(op.oid, Prompt, Complete, op.detail, Some(ResultOf(TurnResult, mapping)), None)
  }

  function ToTombstone(r: Record): Tombstone {
    Tombstone(r.chatId, r.projectId, r.sessionId, r.operationId, r.observations, r.payload, r.journal,
              if r.reassignment.Some? then r.reassignment.value.priorTombstone else None)
  }

  predicate InProgress?(r: Option<Record>) {
    ReassignmentOf(r).Some? && ReassignmentOf(r).value.state.InProgress?
  }

  predicate CommitsReassignment(r: Option<Record>, mapping: Input) {
    InProgress?(r) && mapping.projectId == ReassignmentOf(r).value.targetProjectId
  }

  predicate PublishableProject(r: Option<Record>, op: Draft, mapping: Input) {
    if InProgress?(r) && mapping.projectId != r.value.projectId then
      && mapping.projectId == r.value.reassignment.value.targetProjectId
      && r.value.reassignment.value.target.Some?
      && DraftMatches(op, r.value.reassignment.value.target.value)
    else r.None? || mapping.projectId == r.value.projectId
  }

  predicate PublishableReservation(op: Draft, p: Option<Provisional>) {
    && p.Some?
    && p.value.state.Pending?
    && p.value.oid.Identity() == op.oid.Identity()
    && p.value.kind == op.kind && p.value.projectId == op.projectId && p.value.detail == op.detail
  }

  function CommittedRecord(r: Record, op: Draft, mapping: Input): Record
    requires r.reassignment.Some?
  {
    CreateRecord(mapping, [PublishedOperation(op, mapping)]).(
      reassignment := Some(r.reassignment.value.(state := Committed, sourceTombstone := Some(ToTombstone(r)))))
  }

  function PublishStep(d: Document, op: Draft, mapping: Input): Step {
    var r := d.RecordOf(op.chatId);
    var k := Key(op.chatId, op.oid.Ingress());
    if !PublishableProject(r, op, mapping) then
      Step(d, Rejected(
        if InProgress?(r) && mapping.projectId != r.value.projectId then TargetMismatch else OtherProject))
    else if !PublishableReservation(op, d.ProvisionalAt(k)) then Step(d, Rejected(NeedsReconciliation))
    else if AnyCollision(op.oid, LineageOf(r)) || AnyProvisionalCollision(op.oid, d.provisional - {k})
      then Step(d, Rejected(IdentityConflict))
    else
      var done := d.provisional[k].(state := Complete);
      if CommitsReassignment(r, mapping) then
        var d1 := d.(records := d.records[op.chatId := CommittedRecord(r.value, op, mapping)]);
        Step(d1.(provisional := d1.provisional[k := done]), Accepted)
      else
        var stored := StoreStep(d, mapping.(journal := [PublishedOperation(op, mapping)]));
        if stored.outcome.Rejected? then stored
        else Step(stored.doc.(provisional := stored.doc.provisional[k := done]), Accepted)
  }

  // --------------------------------------------------------- active journal

  function BeginStep(d: Document, chatId: string, oid: OperationId, kind: OperationKind, detail: Option<string>): Step {
    if chatId !in d.records then Step(d, Rejected(UnknownChat))
    else
      var r := d.records[chatId];
      var i := FirstOverlap(r.journal, oid);
      if i < |r.journal| then
        if r.journal[i].oid != oid || r.journal[i].kind != kind then Step(d, Rejected(IdentityConflict))
        else Step(d, Accepted)
      else if InProgress?(Some(r)) then Step(d, Rejected(ReassignmentPending))
      else if AnyProvisionalCollision(oid, d.provisional) then Step(d, Rejected(IdentityConflict))
      else if AnyProvisionalOverlap(oid, d.provisional) then Step(d, Rejected(NeedsReconciliation))
      else Step(d.(records := d.records[chatId :=
        r.(journal := r.journal + [Operation(oid, kind, Pending, detail, None, None)])]), Accepted)
  }

  function AcknowledgeStep(d: Document, chatId: string, name: string, hash: string, successor: Successor): Step {
    if chatId !in d.records then Step(d, Rejected(UnknownChat))
    else
      var r := d.records[chatId];
      var i := IndexOf(r.journal, name);
      if i == |r.journal| then Step(d, Rejected(NeedsReconciliation))
      else
        var o := r.journal[i];
        if (!o.kind.Create? && !o.kind.Branch?) || (!o.state.Pending? && !o.state.Uncertain?) || o.detail != Some(hash)
          then Step(d, Rejected(NeedsReconciliation))
        else if o.successor.Some? then
          if o.successor.value != successor then Step(d, Rejected(ConflictingSuccessor)) else Step(d, Accepted)
        else Step(d.(records := d.records[chatId :=
          r.(journal := r.journal[i := o.(successor := Some(successor))])]), Accepted)
  }

  /** An uncertain operation may only complete as the acknowledged successor's own create. */
  predicate NeedsSuccessorEvidence(o: Operation, state: OperationState, detail: Option<string>,
                                   result: Option<OperationResult>) {
    && o.state.Uncertain? && state.Complete?
    && !(&& o.kind.Create?
         && o.successor.Some?
         && detail == o.detail
         && result.Some? && result.value.kind.ControlResult?
         && result.value.mapping.operationId == o.oid.id
         && result.value.mapping.sessionId == o.successor.value.sessionId
         && result.value.mapping.sessionFile.Some?
         && result.value.mapping.attachment == Some(o.successor.value.attachment))
  }

  function Moved(o: Operation, state: OperationState, detail: Option<string>,
                 result: Option<OperationResult>): Operation {
    o.(state := state,
       detail := if detail.Some? then detail else o.detail,
       result := if result.Some? then result else o.result,
       successor := if state.Complete? then None else o.successor)
  }

  function TransitionStep(d: Document, chatId: string, name: string, state: OperationState,
                          detail: Option<string>, result: Option<OperationResult>): Step
  {
    if chatId !in d.records then Step(d, Rejected(UnknownChat))
    else
      var r := d.records[chatId];
      var i := IndexOf(r.journal, name);
      if i == |r.journal| then Step(d, Rejected(UnknownOperation))
      else
        var o := r.journal[i];
        if NeedsSuccessorEvidence(o, state, detail, result) then Step(d, Rejected(NeedsReconciliation))
        else if o.state.Complete? && !state.Complete? then Step(d, Rejected(CompletedImmutable))
        else if state.Complete? && result.None? && o.result.None? then Step(d, Rejected(ResultRequired))
        else if !state.Complete? && result.Some? then Step(d, Rejected(ResultForbidden))
        else Step(d.(records := d.records[chatId :=
          r.(journal := r.journal[i := Moved(o, state, detail, result)])]), Accepted)
  }

  /** Completes an operation and stores the mapping it produced, as one mutation. */
  function CompleteWithMappingStep(d: Document, chatId: string, name: string, detail: string,
                                   mapping: Input, result: OperationResult): Step
  {
    var first := TransitionStep(d, chatId, name, Complete, Some(detail), Some(result));
    if first.outcome.Rejected? then first else StoreStep(first.doc, mapping)
  }

  // ---------------------------------------------------------------- restart

  function RestartedOperation(o: Operation): Operation {
    if o.state.Pending? then o.(state := Uncertain, detail := Some(o.detail.GetOr(RESTART_DETAIL))) else o
  }

  function RestartedRecord(r: Record): Record {
    r.(journal := seq(|r.journal|, i requires 0 <= i < |r.journal| => RestartedOperation(r.journal[i])),
       reassignment := if r.reassignment.Some? && r.reassignment.value.state.InProgress?
                       then Some(r.reassignment.value.(state := RolledBack))
                       else r.reassignment)
  }

  function RestartedProvisional(p: Provisional): Provisional {
    if p.state.Pending? then p.(state := Uncertain, detail := Some(p.detail.GetOr(RESTART_DETAIL))) else p
  }

  function ReconcileStep(d: Document): Document {
    Document(map c | c in d.records :: RestartedRecord(d.records[c]),
             map k | k in d.provisional :: RestartedProvisional(d.provisional[k]))
  }
}
