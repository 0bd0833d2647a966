/** Reservation, publication, project reassignment and restart keep the invariant. */
module ReassignmentSafety {
  import opened AuthorityTypes
  import opened RelationalValidity
  import opened JournalSteps
  import opened JournalInvariant
  import opened JournalSafety

  // ---------------------------------------------------------------- reserve

  predicate ReserveSafe(d: Document, op: Draft) {
    && op.oid.WellFormed()
    && (Foreign(d.RecordOf(op.chatId), Reserved(op)) ==> op.detail.Some?)
  }

  /** Pinning a target nobody holds yet changes no other entry's standing. */
  lemma PinKeeps(d: Document, op: Draft)
    requires Inv(d) && MayReserve(d.RecordOf(op.chatId), op) && op.oid.WellFormed()
    requires Key(op.chatId, op.oid.Ingress()) !in d.provisional
    ensures Inv(PinTarget(d, op))
    ensures PinTarget(d, op).provisional == d.provisional
  {
    var d1 := PinTarget(d, op);
    if d1 != d {
      var r, r1 := d.records[op.chatId], d1.records[op.chatId];
      assert Lineage(r1) == Lineage(r);
      forall k | k in d.provisional && d.provisional[k].chatId == op.chatId
        ensures EntryOk(Some(r1), d.provisional[k])
      {
        var q := d.provisional[k];
        assert KeyOf(q) == k;
        assert EntryOk(Some(r), q);
      }
      SwapRecord(d, r1);
    }
  }

  lemma ReserveKeeps(d: Document, op: Draft)
    requires Inv(d) && ReserveSafe(d, op) && ReserveStep(d, op).outcome.Accepted?
    ensures Inv(ReserveStep(d, op).doc)
  {
    var p := Reserved(op);
    PinKeeps(d, op);
    var d1 := PinTarget(d, op);
    var r, r1 := d.RecordOf(op.chatId), d1.RecordOf(op.chatId);
    assert LineageOf(r1) == LineageOf(r);
    if r1.Some? {
      OverlapConcat(op.oid, r1.value.journal, ChainOps(Root(r1.value.reassignment)));
    }
    forall k | k in d1.provisional && k != KeyOf(p) && k.chatId == p.chatId
      ensures !Overlap(d1.provisional[k].oid, p.oid)
    {
      var q := d1.provisional[k];
      assert KeyOf(q) == k;
      OverlapSymmetric(q.oid, p.oid);
    }
    SwapProvisional(d1, p);
  }

  // ----------------------------------------------------- begin and roll back

  /** An entry of another project must stay evidence of a lineage the new marker retains, and the
      new target must not name it. */
  predicate StaysEvidence(r: Record, next: string, target: Option<Target>, p: Provisional) {
    p.projectId != r.projectId ==>
      && ChainHasProject(RetainedTombstone(r.reassignment), p.projectId)
      && !(p.projectId == next && target.Some? && SameTarget(p.oid, p.kind, p.detail, target.value))
  }

  predicate BeginReassignmentSafe(d: Document, chatId: string, next: string, target: Option<Target>) {
    chatId in d.records ==>
      forall k :: k in d.provisional && d.provisional[k].chatId == chatId ==>
        StaysEvidence(d.records[chatId], next, target, d.provisional[k])
  }

  /** A marker retains the whole retired chain, or nothing of it. */
  lemma RetainedIsRoot(r: Record)
    requires RecordOk(r)
    ensures RetainedTombstone(r.reassignment) == if InProgress?(Some(r)) then None else Root(r.reassignment)
  {
  }

  lemma BeginReassignmentKeeps(d: Document, chatId: string, current: string, next: string, target: Option<Target>)
    requires Inv(d) && BeginReassignmentSafe(d, chatId, next, target)
    ensures Inv(BeginReassignmentStep(d, chatId, current, next, target).doc)
  {
    var s := BeginReassignmentStep(d, chatId, current, next, target);
    if s.outcome.Accepted? {
      var r, r' := d.records[chatId], s.doc.records[chatId];
      MarkedRecordOk(r, r'.reassignment.value);
      forall k | k in d.provisional && d.provisional[k].chatId == chatId
        ensures EntryOk(Some(r'), d.provisional[k])
      {
        assert EntryOk(Some(r), d.provisional[k]) && d.provisional[k].state.Complete?;
        assert StaysEvidence(r, next, target, d.provisional[k]);
        MarkedEntry(r, r', d.provisional[k]);
      }
      SwapRecord(d, r');
    }
  }

  /** A fresh marker keeps the retired lineage or drops all of it. */
  lemma MarkedLineage(r: Record, marker: Reassignment)
    requires RecordOk(r) && marker.sourceTombstone.None? && marker.priorTombstone == RetainedTombstone(r.reassignment)
    ensures Lineage(r.(reassignment := Some(marker))) == if InProgress?(Some(r)) then r.journal else Lineage(r)
  {
    RetainedIsRoot(r);
    assert r.journal + [] == r.journal;
  }

  lemma MarkedRecordOk(r: Record, marker: Reassignment)
    requires RecordOk(r) && marker.state.InProgress? && marker.sourceTombstone.None?
    requires marker.sourceProjectId == r.projectId && marker.targetProjectId != r.projectId
    requires marker.priorTombstone == RetainedTombstone(r.reassignment)
    requires marker.target.Some? ==> marker.target.value.oid.WellFormed()
    ensures RecordOk(r.(reassignment := Some(marker)))
  {
    MarkedLineage(r, marker);
    RetainedIsRoot(r);
    assert forall i :: 0 <= i < |r.journal| ==> Lineage(r)[i] == r.journal[i];
  }

  lemma MarkedEntry(r: Record, r': Record, p: Provisional)
    requires EntryOk(Some(r), p) && p.state.Complete? && RecordOk(r)
    requires r' == r.(reassignment := r'.reassignment) && InProgress?(Some(r'))
    requires r'.reassignment.value.sourceTombstone.None?
    requires r'.reassignment.value.priorTombstone == RetainedTombstone(r.reassignment)
    requires StaysEvidence(r, r'.reassignment.value.targetProjectId, r'.reassignment.value.target, p)
    ensures EntryOk(Some(r'), p)
  {
    MarkedLineage(r, r'.reassignment.value);
    SharesConcat(p.oid, r.journal, ChainOps(Root(r.reassignment)));
  }

  /** A begin without a target that overwrites no pending reassignment needs nothing of its caller. */
  lemma FirstBeginSafe(d: Document, chatId: string, current: string, next: string)
    requires Inv(d) && BeginReassignmentStep(d, chatId, current, next, None).outcome.Accepted?
    requires !InProgress?(d.RecordOf(chatId))
    ensures BeginReassignmentSafe(d, chatId, next, None)
  {
    var r := d.records[chatId];
    RetainedIsRoot(r);
    forall k | k in d.provisional && d.provisional[k].chatId == chatId
      ensures StaysEvidence(r, next, None, d.provisional[k])
    {
      assert EntryOk(Some(r), d.provisional[k]) && d.provisional[k].state.Complete?;
    }
  }

  /** A pending target survives its own roll back only if its detail is already the one written. */
  predicate RollbackSafe(d: Document, chatId: string) {
    var victim := RollbackVictim(d, chatId);
    victim.Some? && Foreign(d.RecordOf(chatId), victim.value) ==> victim.value.detail == Some(ROLLBACK_DETAIL)
  }

  function RolledBackRecord(r: Record): Record
    requires r.reassignment.Some?
  {
    r.(reassignment := Some(r.reassignment.value.(state := RolledBack)))
  }

  /** No entry but the pending target minds the roll back. */
  lemma RolledBackEntry(r: Record, q: Provisional)
    requires RecordOk(r) && InProgress?(Some(r)) && EntryOk(Some(r), q)
    requires Foreign(Some(r), q) && MatchesReassignment(r, q) ==> !q.state.Pending?
    ensures EntryOk(Some(RolledBackRecord(r)), q)
  {
    assert Lineage(RolledBackRecord(r)) == Lineage(r);
  }

  lemma RolledBackRecordOk(r: Record)
    requires RecordOk(r) && InProgress?(Some(r))
    ensures RecordOk(RolledBackRecord(r))
  {
    assert Lineage(RolledBackRecord(r)) == Lineage(r);
  }

  /** The document once the pending target, if there is one, is marked uncertain. */
  function VictimMarked(d: Document, chatId: string): Document {
    match RollbackVictim(d, chatId)
    case None => d
    case Some(p) =>
      d.(provisional := d.provisional[Key(chatId, d.records[chatId].reassignment.value.target.value.oid.Ingress()) :=
           p.(state := Uncertain, detail := Some(ROLLBACK_DETAIL))])
  }

  lemma VictimKeeps(d: Document, chatId: string)
    requires Inv(d) && RollbackSafe(d, chatId) && chatId in d.records && InProgress?(Some(d.records[chatId]))
    ensures Inv(VictimMarked(d, chatId)) && VictimMarked(d, chatId).records == d.records
  {
    var victim := RollbackVictim(d, chatId);
    if victim.Some? {
      var r := d.records[chatId];
      var k := Key(chatId, r.reassignment.value.target.value.oid.Ingress());
      var p' := victim.value.(state := Uncertain, detail := Some(ROLLBACK_DETAIL));
      assert KeyOf(d.provisional[k]) == k && EntryOk(Some(r), victim.value);
      SameNameApart(d, k, p');
      SwapProvisional(d, p');
    }
  }

  /** Whatever matches the target afterwards is not pending. */
  lemma NoPendingTarget(d: Document, chatId: string, k: Key)
    requires Inv(d) && chatId in d.records && InProgress?(Some(d.records[chatId]))
    requires k in VictimMarked(d, chatId).provisional && k.chatId == chatId
    ensures var r, q := d.records[chatId], VictimMarked(d, chatId).provisional[k];
            MatchesReassignment(r, q) ==> !q.state.Pending?
  {
    if k in d.provisional {
      assert KeyOf(d.provisional[k]) == k;
    }
  }

  lemma RollbackKeeps(d: Document, chatId: string, current: string)
    requires Inv(d) && RollbackSafe(d, chatId)
    ensures Inv(RollbackStep(d, chatId, current).doc)
  {
    if CanRollBack(d, chatId, current) {
      var r, d1 := d.records[chatId], VictimMarked(d, chatId);
      VictimKeeps(d, chatId);
      RolledBackRecordOk(r);
      forall k | k in d1.provisional && d1.provisional[k].chatId == chatId
        ensures EntryOk(Some(RolledBackRecord(r)), d1.provisional[k])
      {
        assert EntryOk(d1.RecordOf(chatId), d1.provisional[k]) && KeyOf(d1.provisional[k]) == k;
        NoPendingTarget(d, chatId, k);
        RolledBackEntry(r, d1.provisional[k]);
      }
      SwapRecord(d1, RolledBackRecord(r));
      assert RollbackStep(d, chatId, current).doc == d1.WithRecord(RolledBackRecord(r));
    }
  }

  // ---------------------------------------------------------------- publish

  /** A commit needs a mapping that names the operation, names no lineage operation has, and no open
      reservation of the source project; any other publication is a store into its own project. */
  predicate PublishSafe(d: Document, op: Draft, mapping: Input) {
    if CommitsReassignment(d.RecordOf(op.chatId), mapping) then CommitSafe(d, op, mapping)
    else !Foreign(d.RecordOf(op.chatId), Reserved(op)) && StoreSafe(d, Publication(op, mapping))
  }

  predicate CommitSafe(d: Document, op: Draft, mapping: Input) {
    && mapping.chatId == op.chatId && mapping.operationId == op.oid.id
    && !AnyOverlap(op.oid, LineageOf(d.RecordOf(op.chatId)))
    && SourceQuiet(d, op)
  }

  /** The mapping as a publication stores it, carrying the published operation. */
  function Publication(op: Draft, mapping: Input): Input {
    mapping.(journal := [PublishedOperation(op, mapping)])
  }

  predicate SourceQuiet(d: Document, op: Draft) {
    op.chatId in d.records ==>
      forall k :: k in d.provisional && k != Key(op.chatId, op.oid.Ingress()) && d.provisional[k].chatId == op.chatId
                  && d.provisional[k].projectId == d.records[op.chatId].projectId ==>
        d.provisional[k].state.Complete?
  }

  lemma PublishedShape(op: Draft, mapping: Input)
    requires op.oid.WellFormed() && mapping.operationId == op.oid.id
    ensures OperationShape(PublishedOperation(op, mapping))
    ensures ResultBound(PublishedOperation(op, mapping), mapping.chatId, mapping.projectId)
  {
  }

  /** Completing a reservation whose record already carries the published operation. */
  lemma CompleteReservation(d: Document, k: Key)
    requires Inv(d) && k in d.provisional && !Foreign(d.RecordOf(k.chatId), d.provisional[k])
    ensures Inv(d.WithProvisional(d.provisional[k].(state := Complete)))
  {
    var p := d.provisional[k].(state := Complete);
    assert KeyOf(d.provisional[k]) == k;
    assert EntryOk(d.RecordOf(k.chatId), d.provisional[k]);
    SameNameApart(d, k, p);
    SwapProvisional(d, p);
  }

  lemma IndexOfFound(ops: seq<Operation>, i: nat, name: string)
    requires i < |ops| && name in Names(ops[i])
    ensures IndexOf(ops, name) < |ops|
  {
  }

  /** Only the reservation itself can share a name with what it publishes. */
  lemma PublishedClashes(d: Document, op: Draft, k: Key)
    requires Inv(d) && k == Key(op.chatId, op.oid.Ingress())
    requires PublishableReservation(op, d.ProvisionalAt(k))
    ensures forall j :: j in d.provisional && d.provisional[j].chatId == op.chatId ==>
              Overlap(d.provisional[j].oid, op.oid) ==> j == k
  {
    var p := d.provisional[k];
    assert KeyOf(p) == k;
    SameIdentitySameNames(op.oid, p.oid);
    forall j | j in d.provisional && d.provisional[j].chatId == op.chatId && Overlap(d.provisional[j].oid, op.oid)
      ensures j == k
    {
      assert KeyOf(d.provisional[j]) == j;
      assert Overlap(d.provisional[j].oid, p.oid);
    }
  }

  lemma PublishStoreKeeps(d: Document, op: Draft, mapping: Input)
    requires Inv(d) && PublishSafe(d, op, mapping)
    requires PublishStep(d, op, mapping).outcome.Accepted? && !CommitsReassignment(d.RecordOf(op.chatId), mapping)
    ensures Inv(PublishStep(d, op, mapping).doc)
  {
    var k := Key(op.chatId, op.oid.Ingress());
    var input := Publication(op, mapping);
    var stored := StoreStep(d, input);
    assert KeyOf(d.provisional[k]) == k;
    StoreKeeps(d, input);
    ActiveUnique(d, input.chatId);
    StoreEffect(d, input);
    assert !ConflictingProject(d.RecordOf(input.chatId), input, d.provisional[k]);
    CompleteReservation(stored.doc, k);
    assert stored.doc.WithProvisional(d.provisional[k].(state := Complete)) == PublishStep(d, op, mapping).doc;
  }

  /** What a reservation does not overlap, neither does the operation published for it. */
  lemma SameIdentitySameOverlap(a: OperationId, b: OperationId, ops: seq<Operation>)
    requires a.Identity() == b.Identity()
    ensures AnyOverlap(a, ops) <==> AnyOverlap(b, ops)
  {
    SameIdentitySameNames(a, b);
    forall i | 0 <= i < |ops|
      ensures Overlap(a, ops[i].oid) <==> Overlap(b, ops[i].oid)
    {
    }
  }

  /** A mapping of the operation itself is safe to publish unless it commits beside an open
      reservation of the source project. */
  lemma NamedPublishSafe(d: Document, op: Draft, mapping: Input)
    requires Inv(d) && PublishStep(d, op, mapping).outcome.Accepted?
    requires mapping.chatId == op.chatId && mapping.projectId == op.projectId && mapping.operationId == op.oid.id
    requires CommitsReassignment(d.RecordOf(op.chatId), mapping) ==> SourceQuiet(d, op)
    ensures PublishSafe(d, op, mapping)
  {
    if CommitsReassignment(d.RecordOf(op.chatId), mapping) {
      NamedCommitSafe(d, op, mapping);
    } else {
      NamedStoreSafe(d, op, mapping);
    }
  }

  lemma NamedCommitSafe(d: Document, op: Draft, mapping: Input)
    requires Inv(d) && PublishStep(d, op, mapping).outcome.Accepted?
    requires mapping.chatId == op.chatId && mapping.projectId == op.projectId && mapping.operationId == op.oid.id
    requires CommitsReassignment(d.RecordOf(op.chatId), mapping) && SourceQuiet(d, op)
    ensures PublishSafe(d, op, mapping)
  {
    var k := Key(op.chatId, op.oid.Ingress());
    var p := d.provisional[k];
    assert KeyOf(p) == k && EntryOk(d.RecordOf(op.chatId), p);
    SameIdentitySameOverlap(op.oid, p.oid, LineageOf(d.RecordOf(op.chatId)));
  }

  lemma NamedStoreSafe(d: Document, op: Draft, mapping: Input)
    requires Inv(d) && PublishStep(d, op, mapping).outcome.Accepted?
    requires mapping.chatId == op.chatId && mapping.projectId == op.projectId && mapping.operationId == op.oid.id
    requires !CommitsReassignment(d.RecordOf(op.chatId), mapping)
    ensures PublishSafe(d, op, mapping)
  {
    ActiveUnique(d, op.chatId);
    StoreEffect(d, Publication(op, mapping));
    PublicationAdds(d, op, mapping);
    PublicationAdmissible(d, op, mapping);
  }

  lemma AppendOne(journal: seq<Operation>, o: Operation)
    ensures var i := FirstOverlap(journal, o.oid);
            AppendJournal(journal, [o]) ==
              if i == |journal| then Some(journal + [o])
              else if journal[i].oid == o.oid then Some(journal) else None
  {
    assert [o][1..] == [];
  }

  /** A publication adds its operation once, and nothing else when its mapping names it. */
  lemma PublicationAdds(d: Document, op: Draft, mapping: Input)
    requires mapping.operationId == op.oid.id
        && AppendJournal(ActiveJournal(d, mapping.chatId), Publication(op, mapping).journal).Some?
    ensures Added(d, Publication(op, mapping)) ==
            if FirstOverlap(ActiveJournal(d, mapping.chatId), op.oid) == |ActiveJournal(d, mapping.chatId)|
            then [PublishedOperation(op, mapping)] else []
  {
    var before, o := ActiveJournal(d, mapping.chatId), PublishedOperation(op, mapping);
    var i := FirstOverlap(before, op.oid);
    AppendOne(before, o);
    var journal := if i == |before| then before + [o] else before;
    assert AppendJournal(before, [o]) == Some(journal);
    assert journal[i].oid == op.oid;
    IndexOfFound(journal, i, mapping.operationId);
  }

  lemma PublicationAdmissible(d: Document, op: Draft, mapping: Input)
    requires Inv(d) && PublishableReservation(op, d.ProvisionalAt(Key(op.chatId, op.oid.Ingress())))
    requires mapping.chatId == op.chatId && mapping.operationId == op.oid.id
    ensures Admissible(d, op.chatId, mapping.projectId, PublishedOperation(op, mapping))
  {
    var k := Key(op.chatId, op.oid.Ingress());
    var p := d.provisional[k];
    assert KeyOf(p) == k && EntryOk(d.RecordOf(op.chatId), p);
    SameIdentitySameOverlap(op.oid, p.oid, ChainOps(Root(ReassignmentOf(d.RecordOf(op.chatId)))));
    PublishedShape(op, mapping);
    PublishedClashes(d, op, k);
  }

  /** What a publication makes, over a commit or over a store. */
  lemma PublishedDocument(d: Document, op: Draft, mapping: Input)
    ensures var k := Key(op.chatId, op.oid.Ingress());
            var stored := StoreStep(d, mapping.(journal := [PublishedOperation(op, mapping)]));
            var step := PublishStep(d, op, mapping);
            if step.outcome.Rejected? then step.doc == d
            else if CommitsReassignment(d.RecordOf(op.chatId), mapping) then
              && k in d.provisional && op.chatId in d.records && d.records[op.chatId].reassignment.Some?
              && step.doc == Document(d.records[op.chatId := CommittedRecord(d.records[op.chatId], op, mapping)],
                                      d.provisional[k := d.provisional[k].(state := Complete)])
            else
              && k in stored.doc.provisional && stored.doc.provisional == d.provisional
              && step.doc == stored.doc.(provisional :=
                   stored.doc.provisional[k := d.provisional[k].(state := Complete)])
  {
  }

  /** A result that binds a mapping, without gate or events. */
  predicate Binds(result: OperationResult, mapping: Input) {
    && result.assistantText == mapping.assistantText && result.events == Some([]) && result.gate.None?
    && result.mapping.chatId == mapping.chatId && result.mapping.projectId == mapping.projectId
    && result.mapping.sessionId == mapping.sessionId && result.mapping.operationId == mapping.operationId
    && result.mapping.sessionFile == mapping.sessionFile && result.mapping.attachment == mapping.attachment
    && result.mapping.rest == mapping.payload
  }

  /** The finished turn of a reservation, with the detail it was reserved under. */
  predicate PublishedAs(o: Operation, op: Draft, mapping: Input) {
    && o.oid == op.oid && o.kind.Prompt? && o.state.Complete? && o.detail == op.detail && o.successor.None?
    && o.result.Some? && o.result.value.kind.TurnResult? && o.result.value.correlation.None?
    && Binds(o.result.value, mapping)
  }

  /** A retired half holds the record as it was, with what had been retired before. */
  predicate Retires(t: Tombstone, r: Record) {
    && t.chatId == r.chatId && t.projectId == r.projectId && t.sessionId == r.sessionId
    && t.operationId == r.operationId && t.observations == r.observations && t.payload == r.payload
    && t.journal == r.journal
    && (r.reassignment.Some? ==> t.prior == r.reassignment.value.priorTombstone)
    && (r.reassignment.None? ==> t.prior.None?)
  }

  /** Committing puts the mapping in the place of the record, moves the whole source lineage behind the one
      published operation, and keeps the marker but for its state and the retired half. */
  lemma CommittedLineage(r: Record, op: Draft, mapping: Input)
    requires RecordOk(r) && InProgress?(Some(r)) && mapping.operationId == op.oid.id
    ensures Lineage(CommittedRecord(r, op, mapping)) == [PublishedOperation(op, mapping)] + Lineage(r)
    ensures CommittedRecord(r, op, mapping).journal == [PublishedOperation(op, mapping)]
    ensures PublishedAs(PublishedOperation(op, mapping), op, mapping)
    ensures var r' := CommittedRecord(r, op, mapping);
            && r'.chatId == mapping.chatId && r'.projectId == mapping.projectId && r'.sessionId == mapping.sessionId
            && r'.operationId == mapping.operationId && r'.payload == mapping.payload
            && (mapping.observations.Some? ==> r'.observations == mapping.observations.value)
            && r'.reassignment.Some? && r'.reassignment.value.state.Committed?
            && r'.reassignment.value.sourceProjectId == r.reassignment.value.sourceProjectId
            && r'.reassignment.value.targetProjectId == r.reassignment.value.targetProjectId
            && r'.reassignment.value.target == r.reassignment.value.target
            && r'.reassignment.value.priorTombstone == r.reassignment.value.priorTombstone
            && r'.reassignment.value.sourceTombstone.Some? && Retires(r'.reassignment.value.sourceTombstone.value, r)
  {
    IndexOfFound([PublishedOperation(op, mapping)], 0, mapping.operationId);
    var t := ToTombstone(r);
    assert ChainOps(Some(t)) == r.journal + ChainOps(t.prior);
  }

  lemma CommitRecordOk(r: Record, op: Draft, mapping: Input)
    requires RecordOk(r) && CommitsReassignment(Some(r), mapping)
    requires op.oid.WellFormed() && mapping.operationId == op.oid.id && mapping.chatId == r.chatId
    requires !AnyOverlap(op.oid, Lineage(r))
    ensures RecordOk(CommittedRecord(r, op, mapping))
  {
    var o, r' := PublishedOperation(op, mapping), CommittedRecord(r, op, mapping);
    CommittedLineage(r, op, mapping);
    PublishedShape(op, mapping);
    UniqueInsert([], o, Lineage(r));
    assert [] + Lineage(r) == Lineage(r) && [] + [o] + Lineage(r) == [o] + Lineage(r);
    assert r'.journal == [o];
  }

  lemma CommitEntryOk(r: Record, op: Draft, mapping: Input, q: Provisional)
    requires RecordOk(r) && CommitsReassignment(Some(r), mapping) && mapping.operationId == op.oid.id
    requires EntryOk(Some(r), q) && q.state.Complete?
    requires Overlap(q.oid, op.oid) ==> q.oid.Identity() == op.oid.Identity()
    requires Placed(Some(CommittedRecord(r, op, mapping)), q)
    ensures EntryOk(Some(CommittedRecord(r, op, mapping)), q)
  {
    var o := PublishedOperation(op, mapping);
    CommittedLineage(r, op, mapping);
    SingletonClashes(q.oid, o);
    SharesConcat(q.oid, [o], Lineage(r));
  }

  lemma CommitKeeps(d: Document, op: Draft, mapping: Input)
    requires Inv(d) && PublishSafe(d, op, mapping)
    requires PublishStep(d, op, mapping).outcome.Accepted? && CommitsReassignment(d.RecordOf(op.chatId), mapping)
    ensures Inv(PublishStep(d, op, mapping).doc)
  {
    var k := Key(op.chatId, op.oid.Ingress());
    var r := d.records[op.chatId];
    CommitRecordOk(r, op, mapping);
    var d' := PublishStep(d, op, mapping).doc;
    forall j | j in d'.provisional
      ensures EntryOk(d'.RecordOf(d'.provisional[j].chatId), d'.provisional[j]) && KeyOf(d'.provisional[j]) == j
    {
      assert EntryOk(d.RecordOf(d.provisional[j].chatId), d.provisional[j]) && KeyOf(d.provisional[j]) == j;
      if j == k {
        CommitTargetOk(d, op, mapping);
      } else if j.chatId == op.chatId {
        CommitOtherOk(d, op, mapping, j);
      }
    }
    forall i, j | i in d'.provisional && j in d'.provisional && i != j && i.chatId == j.chatId
      ensures !Overlap(d'.provisional[i].oid, d'.provisional[j].oid)
    {
      assert d'.provisional[i].oid == d.provisional[i].oid && d'.provisional[j].oid == d.provisional[j].oid;
    }
  }

  /** The reservation that commits shares its names with the published operation only. */
  lemma CommitTargetOk(d: Document, op: Draft, mapping: Input)
    requires Inv(d) && PublishSafe(d, op, mapping)
    requires PublishStep(d, op, mapping).outcome.Accepted? && CommitsReassignment(d.RecordOf(op.chatId), mapping)
    ensures EntryOk(Some(CommittedRecord(d.records[op.chatId], op, mapping)),
                    d.provisional[Key(op.chatId, op.oid.Ingress())].(state := Complete))
  {
    var k := Key(op.chatId, op.oid.Ingress());
    var p, r := d.provisional[k], d.records[op.chatId];
    var o := PublishedOperation(op, mapping);
    assert KeyOf(p) == k && EntryOk(Some(r), p);
    SameIdentitySameNames(op.oid, p.oid);
    CommittedLineage(r, op, mapping);
    SingletonClashes(p.oid, o);
    SharesConcat(p.oid, [o], Lineage(r));
  }

  lemma CommitOtherOk(d: Document, op: Draft, mapping: Input, j: Key)
    requires Inv(d) && PublishSafe(d, op, mapping)
    requires PublishStep(d, op, mapping).outcome.Accepted? && CommitsReassignment(d.RecordOf(op.chatId), mapping)
    requires j in d.provisional && j.chatId == op.chatId && j != Key(op.chatId, op.oid.Ingress())
    ensures EntryOk(Some(CommittedRecord(d.records[op.chatId], op, mapping)), d.provisional[j])
  {
    var k := Key(op.chatId, op.oid.Ingress());
    var r, q := d.records[op.chatId], d.provisional[j];
    assert KeyOf(q) == j && EntryOk(Some(r), q);
    assert KeyOf(d.provisional[k]) == k && EntryOk(Some(r), d.provisional[k]);
    SameIdentitySameNames(op.oid, d.provisional[k].oid);
    SameIdentitySameOverlap(op.oid, d.provisional[k].oid, Lineage(r));
    PublishedClashes(d, op, k);
    CommitEntryOk(r, op, mapping, q);
  }

  lemma PublishKeeps(d: Document, op: Draft, mapping: Input)
    requires Inv(d) && PublishSafe(d, op, mapping) && PublishStep(d, op, mapping).outcome.Accepted?
    ensures Inv(PublishStep(d, op, mapping).doc)
  {
    if CommitsReassignment(d.RecordOf(op.chatId), mapping) {
      CommitKeeps(d, op, mapping);
    } else {
      PublishStoreKeeps(d, op, mapping);
    }
  }

  // ---------------------------------------------------------------- restart

  lemma RestartedLineage(r: Record)
    requires RecordOk(r)
    ensures SameNames(Lineage(r), Lineage(RestartedRecord(r)))
    ensures RecordOk(RestartedRecord(r))
  {
    var r' := RestartedRecord(r);
    UniqueByName(Lineage(r), Lineage(r'));
    forall o | o in r'.journal
      ensures OperationShape(o) && ResultBound(o, r.chatId, r.projectId)
    {
      var i :| 0 <= i < |r'.journal| && r'.journal[i] == o;
      assert r.journal[i] in r.journal;
    }
  }

  lemma RestartedEntry(r: Option<Record>, p: Provisional)
    requires r.Some? ==> RecordOk(r.value)
    requires EntryOk(r, p)
    ensures EntryOk(if r.Some? then Some(RestartedRecord(r.value)) else None, RestartedProvisional(p))
  {
    if r.Some? {
      RestartedLineage(r.value);
      SameNamesSameClashes(p.oid, Lineage(r.value), Lineage(RestartedRecord(r.value)));
    }
  }

  /** A restart turns every unfinished operation uncertain and stays within the invariant. */
  lemma ReconcileKeeps(d: Document)
    requires Inv(d)
    ensures Inv(ReconcileStep(d))
  {
    var d' := ReconcileStep(d);
    forall c | c in d'.records
      ensures RecordOk(d'.records[c]) && d'.records[c].chatId == c
    {
      RestartedLineage(d.records[c]);
    }
    forall k | k in d'.provisional
      ensures EntryOk(d'.RecordOf(d'.provisional[k].chatId), d'.provisional[k]) && KeyOf(d'.provisional[k]) == k
    {
      RestartedEntry(d.RecordOf(d.provisional[k].chatId), d.provisional[k]);
    }
    RestartedApart(d);
  }

  lemma RestartedApart(d: Document)
    requires ProvisionalDisjoint(d)
    ensures ProvisionalDisjoint(ReconcileStep(d))
  {
    assert forall k :: k in d.provisional ==> ReconcileStep(d).provisional[k].oid == d.provisional[k].oid;
  }
}
