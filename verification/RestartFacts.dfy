/** What the boot and reload paths need to know about pending work. */
module RestartFacts {
  import opened AuthorityTypes
  import opened RelationalValidity
  import opened JournalSteps
  import opened ReassignmentSafety
  import opened JournalRuns
  import opened DocumentLists
  import opened Normalize

  predicate PendingRecord(r: Record) {
    || (r.reassignment.Some? && r.reassignment.value.state.InProgress?)
    || (exists i :: 0 <= i < |r.journal| && r.journal[i].state.Pending?)
  }

  predicate HasPending(d: Document) {
    || (exists c :: c in d.records && PendingRecord(d.records[c]))
    || (exists k :: k in d.provisional && d.provisional[k].state.Pending?)
  }

  lemma RestartedRecordQuiet(r: Record)
    ensures !PendingRecord(RestartedRecord(r))
    ensures !PendingRecord(r) ==> RestartedRecord(r) == r
  {
    assert forall i :: 0 <= i < |r.journal| ==> RestartedRecord(r).journal[i] == RestartedOperation(r.journal[i]);
    if !PendingRecord(r) {
      assert RestartedRecord(r).journal == r.journal;
    }
  }

  /** Reconciling leaves nothing pending, and changes nothing when nothing was. */
  lemma ReconciledQuiet(d: Document)
    ensures !HasPending(ReconcileStep(d))
    ensures !HasPending(d) ==> ReconcileStep(d) == d
  {
    forall c | c in d.records
      ensures !PendingRecord(RestartedRecord(d.records[c]))
      ensures !PendingRecord(d.records[c]) ==> RestartedRecord(d.records[c]) == d.records[c]
    {
      RestartedRecordQuiet(d.records[c]);
    }
    if !HasPending(d) {
      assert ReconcileStep(d).records == d.records;
      assert ReconcileStep(d).provisional == d.provisional;
    }
  }

  lemma NormalizedQuiet(d: Document)
    ensures HasPending(Normalized(d)) <==> HasPending(d)
  {
    forall c | c in d.records
      ensures PendingRecord(NormalizeRecord(d.records[c])) <==> PendingRecord(d.records[c])
    {
      var r, n := d.records[c], NormalizeRecord(d.records[c]);
      assert forall i :: 0 <= i < |r.journal| ==> n.journal[i].state == r.journal[i].state;
    }
    forall k | k in d.provisional
      ensures Normalized(d).provisional[k].state == d.provisional[k].state
    {
    }
    if HasPending(d) {
      if c :| c in d.records && PendingRecord(d.records[c]) {
        assert c in Normalized(d).records;
      } else {
        var k :| k in d.provisional && d.provisional[k].state.Pending?;
        assert k in Normalized(d).provisional;
      }
    }
  }

  lemma StoreKeyed(d: Document, input: Input)
    requires WellKeyed(d)
    ensures WellKeyed(StoreStep(d, input).doc)
  {
  }

  lemma ReassignmentKeyed(d: Document, chatId: string, current: string, next: string, target: Option<Target>)
    requires WellKeyed(d)
    ensures WellKeyed(BeginReassignmentStep(d, chatId, current, next, target).doc)
    ensures WellKeyed(RollbackStep(d, chatId, current).doc)
  {
  }

  lemma ReserveKeyed(d: Document, op: Draft)
    requires WellKeyed(d)
    ensures WellKeyed(ReserveStep(d, op).doc)
  {
  }

  /** A publication that commits a reassignment puts its mapping in the place of its own chat's record.
      The retired half names that chat, so under another name the record is not well-shaped. */
  lemma PublishListable(d: Document, op: Draft, mapping: Input)
    requires WellKeyed(d)
    ensures Listable(PublishStep(d, op, mapping).doc)
  {
    var stored := StoreStep(d, mapping.(journal := [PublishedOperation(op, mapping)])).doc;
    StoreKeyed(d, mapping.(journal := [PublishedOperation(op, mapping)]));
    PublishedDocument(d, op, mapping);
    if !CommitsReassignment(d.RecordOf(op.chatId), mapping) {
      CompletedKeyed(stored, Key(op.chatId, op.oid.Ingress()));
    } else if PublishStep(d, op, mapping).outcome.Accepted? {
      CompletedKeyed(d, Key(op.chatId, op.oid.Ingress()));
      CommitListable(d, op, mapping, PublishStep(d, op, mapping).doc);
    }
  }

  lemma CompletedKeyed(d: Document, k: Key)
    requires WellKeyed(d)
    ensures k in d.provisional ==>
              WellKeyed(d.(provisional := d.provisional[k := d.provisional[k].(state := Complete)]))
  {
  }

  lemma CommitListable(d: Document, op: Draft, mapping: Input, d': Document)
    requires WellKeyed(d) && op.chatId in d.records && d.records[op.chatId].reassignment.Some?
    requires d'.records == d.records[op.chatId := CommittedRecord(d.records[op.chatId], op, mapping)]
    requires forall k :: k in d'.provisional ==> KeyOf(d'.provisional[k]) == k
    ensures Listable(d')
  {
    var r := CommittedRecord(d.records[op.chatId], op, mapping);
    assert d'.records[op.chatId] == r && r.chatId == mapping.chatId;
    assert mapping.chatId != op.chatId ==> !RecordShape(r);
  }

  lemma TransitionKeyed(d: Document, chatId: string, name: string, state: OperationState,
                        detail: Option<string>, result: Option<OperationResult>)
    requires WellKeyed(d)
    ensures WellKeyed(TransitionStep(d, chatId, name, state, detail, result).doc)
  {
  }

  lemma CompletionKeyed(d: Document, chatId: string, name: string, hash: string, mapping: Input,
                        outcome: OperationResult)
    requires WellKeyed(d)
    ensures WellKeyed(CompleteWithMappingStep(d, chatId, name, hash, mapping, outcome).doc)
  {
    TransitionKeyed(d, chatId, name, Complete, Some(hash), Some(outcome));
    StoreKeyed(TransitionStep(d, chatId, name, Complete, Some(hash), Some(outcome)).doc, mapping);
  }

  lemma OneChatKeyed(d: Document, cmd: Command)
    requires WellKeyed(d) && !cmd.Publish? && !cmd.CompleteWithMapping?
    ensures WellKeyed(StepOf(d, cmd).doc)
  {
    match cmd
    case Store(input) => StoreKeyed(d, input);
    case BeginReassignment(chatId, current, next, target) => ReassignmentKeyed(d, chatId, current, next, target);
    case RollBack(chatId, current) => ReassignmentKeyed(d, chatId, current, current, None);
    case ReserveOperation(op) => ReserveKeyed(d, op);
    case Transition(chatId, name, state, detail, result) => TransitionKeyed(d, chatId, name, state, detail, result);
    case _ =>
  }

  /** Every command keeps entries under their own keys, or leaves a record that is not well-shaped. */
  lemma StepListable(d: Document, cmd: Command)
    requires WellKeyed(d)
    ensures Listable(StepOf(d, cmd).doc)
  {
    match cmd
    case Publish(op, mapping) =>
      PublishListable(d, op, mapping);
    case CompleteWithMapping(chatId, name, hash, mapping, outcome) =>
      CompletionKeyed(d, chatId, name, hash, mapping, outcome);
    case _ =>
      OneChatKeyed(d, cmd);
  }

  /** A marked record that is not well-shaped is listed. */
  lemma IllShapedMarked(clean: Document, now: Document, dirtyRecords: set<string>, dirtyProvisional: set<Key>,
                        rs: seq<Record>)
    requires Shapes(clean) && Covers(clean, now, dirtyRecords, dirtyProvisional)
    requires forall c :: c in dirtyRecords && c in now.records ==> now.records[c] in rs
    requires exists c :: c in now.records && !RecordShape(now.records[c])
    ensures exists r :: r in rs && !RecordShape(r)
  {
    var c :| c in now.records && !RecordShape(now.records[c]);
    assert now.records[c] in rs;
  }

  lemma NothingMarked(clean: Document, now: Document)
    requires Covers(clean, now, {}, {})
    ensures clean == now
  {
    assert clean.records == now.records && clean.provisional == now.provisional;
  }

  /** Once every changed entry is listed, the lists are well-shaped exactly when the document is. */
  lemma MarkedShapes(clean: Document, now: Document, dirtyRecords: set<string>, dirtyProvisional: set<Key>,
                     rs: seq<Record>, ps: seq<Provisional>)
    requires Shapes(clean) && Covers(clean, now, dirtyRecords, dirtyProvisional)
    requires ListsMarked(now, dirtyRecords, dirtyProvisional, rs, ps)
    ensures Shapes(now) <==> (forall r :: r in rs ==> RecordShape(r)) && (forall p :: p in ps ==> ProvisionalShape(p))
  {
    if (forall r :: r in rs ==> RecordShape(r)) && (forall p :: p in ps ==> ProvisionalShape(p)) {
      forall c | c in now.records
        ensures RecordShape(now.records[c])
      {
        assert c in dirtyRecords ==> now.records[c] in rs;
        assert c !in dirtyRecords ==> clean.records[c] == now.records[c];
      }
      forall k | k in now.provisional
        ensures ProvisionalShape(now.provisional[k])
      {
        assert k in dirtyProvisional ==> now.provisional[k] in ps;
        assert k !in dirtyProvisional ==> clean.provisional[k] == now.provisional[k];
      }
    }
  }
}
