/** Each journal step keeps the invariant under the conditions its code does not check itself. */
module JournalSafety {
  import opened AuthorityTypes
  import opened RelationalValidity
  import opened JournalSteps
  import opened JournalInvariant

  // ---------------------------------------- steps on one journal operation

  /** Two records of a chat that differ only inside journal operations. */
  predicate SameFrame(r: Record, r': Record) {
    && r'.chatId == r.chatId && r'.projectId == r.projectId && r'.reassignment == r.reassignment
    && SameNames(r.journal, r'.journal)
  }

  lemma SameFrameLineage(r: Record, r': Record)
    requires SameFrame(r, r')
    ensures SameNames(Lineage(r), Lineage(r'))
    ensures Unique(Lineage(r)) <==> Unique(Lineage(r'))
  {
    UniqueByName(Lineage(r), Lineage(r'));
  }

  lemma SameFrameEntry(r: Record, r': Record, p: Provisional)
    requires SameFrame(r, r')
    ensures EntryOk(Some(r), p) <==> EntryOk(Some(r'), p)
    ensures ProvisionalRelations(Some(r), p) <==> ProvisionalRelations(Some(r'), p)
  {
    SameFrameLineage(r, r');
    SameNamesSameClashes(p.oid, Lineage(r), Lineage(r'));
  }

  lemma RewriteOperation(d: Document, chatId: string, i: nat, o: Operation)
    requires Inv(d) && chatId in d.records && i < |d.records[chatId].journal|
    requires o.oid == d.records[chatId].journal[i].oid
    requires OperationShape(o) && ResultBound(o, chatId, d.records[chatId].projectId)
    ensures var r := d.records[chatId];
            Inv(d.(records := d.records[chatId := r.(journal := r.journal[i := o])]))
  {
    var r := d.records[chatId];
    var r' := r.(journal := r.journal[i := o]);
    SameFrameLineage(r, r');
    forall x | x in r'.journal
      ensures OperationShape(x) && ResultBound(x, chatId, r.projectId)
    {
      assert x == o || x in r.journal;
    }
    forall k | k in d.provisional && d.provisional[k].chatId == chatId
      ensures EntryOk(Some(r'), d.provisional[k])
    {
      SameFrameEntry(r, r', d.provisional[k]);
    }
    SwapRecord(d, r');
  }

  lemma AcknowledgeKeeps(d: Document, chatId: string, name: string, hash: string, successor: Successor)
    requires Inv(d)
    ensures Inv(AcknowledgeStep(d, chatId, name, hash, successor).doc)
  {
    var s := AcknowledgeStep(d, chatId, name, hash, successor);
    if s.doc != d {
      var r := d.records[chatId];
      var i := IndexOf(r.journal, name);
      var o := r.journal[i];
      assert o in r.journal;
      RewriteOperation(d, chatId, i, o.(successor := Some(successor)));
    }
  }

  /** A result handed to `transition` is trusted to name its own operation. */
  predicate ResultTrusted(o: Operation, r: Record, result: Option<OperationResult>) {
    result.Some? ==>
      && ResultShape(result.value)
      && ResultBound(o.(result := result), r.chatId, r.projectId)
  }

  /** The state may be reached without leaving a stale successor behind. */
  predicate SuccessorDropped(o: Operation, state: OperationState) {
    state.Conflict? ==> o.successor.None?
  }

  predicate TransitionSafe(d: Document, chatId: string, name: string, state: OperationState,
                           result: Option<OperationResult>) {
    chatId in d.records ==>
      var r := d.records[chatId];
      var i := IndexOf(r.journal, name);
      i < |r.journal| ==> ResultTrusted(r.journal[i], r, result) && SuccessorDropped(r.journal[i], state)
  }

  lemma TransitionKeeps(d: Document, chatId: string, name: string, state: OperationState,
                        detail: Option<string>, result: Option<OperationResult>)
    requires Inv(d) && TransitionSafe(d, chatId, name, state, result)
    ensures Inv(TransitionStep(d, chatId, name, state, detail, result).doc)
  {
    var s := TransitionStep(d, chatId, name, state, detail, result);
    if s.outcome.Accepted? {
      var r := d.records[chatId];
      var i := IndexOf(r.journal, name);
      var o := r.journal[i];
      assert o in r.journal;
      RewriteOperation(d, chatId, i, Moved(o, state, detail, result));
    }
  }

  // ------------------------------------------------------------------ begin

  predicate BeginSafe(d: Document, chatId: string, oid: OperationId) {
    oid.WellFormed() && (chatId in d.records ==> !AnyOverlap(oid, ChainOps(Root(d.records[chatId].reassignment))))
  }

  lemma FirstOverlapNone(ops: seq<Operation>, oid: OperationId)
    ensures FirstOverlap(ops, oid) == |ops| <==> !AnyOverlap(oid, ops)
  {
  }

  /** An unfinished reassignment target keeps its names to itself. */
  predicate BlocksAppend(r: Record, p: Provisional) {
    !p.state.Complete? && Foreign(Some(r), p) && InProgress?(Some(r))
  }

  /** An operation a chat may take on: well-formed, with a result of its own, and under names that
      are neither retired nor reserved for something else. */
  predicate Admissible(d: Document, chatId: string, projectId: string, o: Operation) {
    && OperationShape(o) && ResultBound(o, chatId, projectId)
    && !AnyOverlap(o.oid, ChainOps(Root(ReassignmentOf(d.RecordOf(chatId)))))
    && (forall k :: k in d.provisional && d.provisional[k].chatId == chatId && Overlap(d.provisional[k].oid, o.oid) ==>
          d.provisional[k].oid.Identity() == o.oid.Identity())
  }

  predicate AllAdmissible(d: Document, chatId: string, projectId: string, ops: seq<Operation>) {
    forall o :: o in ops ==> Admissible(d, chatId, projectId, o)
  }

  lemma AdmissibleShares(d: Document, chatId: string, projectId: string, ops: seq<Operation>, k: Key)
    requires AllAdmissible(d, chatId, projectId, ops) && k in d.provisional && d.provisional[k].chatId == chatId
    ensures SharesIdentityOnly(d.provisional[k].oid, ops)
  {
    assert forall i :: 0 <= i < |ops| ==> ops[i] in ops;
  }

  /** Adding operations to the end of the active journal. */
  lemma AppendOperations(d: Document, chatId: string, ops: seq<Operation>)
    requires Inv(d) && chatId in d.records
    requires Unique(d.records[chatId].journal + ops) && AllAdmissible(d, chatId, d.records[chatId].projectId, ops)
    requires forall k ::
               && k in d.provisional && d.provisional[k].chatId == chatId
               && BlocksAppend(d.records[chatId], d.provisional[k]) ==>
               !AnyOverlap(d.provisional[k].oid, ops)
    ensures var r := d.records[chatId];
            Inv(d.(records := d.records[chatId := r.(journal := r.journal + ops)]))
  {
    var r := d.records[chatId];
    var r' := r.(journal := r.journal + ops);
    assert RecordOk(r);
    ExtendedRecordOk(r, ops);
    forall k | k in d.provisional && d.provisional[k].chatId == chatId
      ensures EntryOk(Some(r'), d.provisional[k])
    {
      assert EntryOk(Some(r), d.provisional[k]);
      AdmissibleShares(d, chatId, r.projectId, ops, k);
      ExtendedEntry(r, ops, d.provisional[k]);
    }
    SwapRecord(d, r');
  }

  lemma ExtendedRecordOk(r: Record, ops: seq<Operation>)
    requires RecordOk(r) && Unique(r.journal + ops)
    requires forall o :: o in ops ==>
               OperationShape(o) && ResultBound(o, r.chatId, r.projectId)
                 && !AnyOverlap(o.oid, ChainOps(Root(r.reassignment)))
    ensures RecordOk(r.(journal := r.journal + ops))
  {
    var chain := ChainOps(Root(r.reassignment));
    forall i, j | 0 <= i < |ops| && 0 <= j < |chain|
      ensures !Overlap(ops[i].oid, chain[j].oid)
    {
      assert ops[i] in ops;
    }
    UniqueBetween(r.journal, ops, chain);
  }

  lemma OverlapSymmetric(a: OperationId, b: OperationId)
    ensures Overlap(a, b) <==> Overlap(b, a)
  {
    assert a.Identifiers() * b.Identifiers() == b.Identifiers() * a.Identifiers();
  }

  lemma SingletonClashes(oid: OperationId, o: Operation)
    ensures AnyOverlap(oid, [o]) <==> Overlap(oid, o.oid)
    ensures SharesIdentityOnly(oid, [o]) <==> (Overlap(oid, o.oid) ==> oid.Identity() == o.oid.Identity())
  {
    assert [o][0] == o;
  }

  lemma ExtendedEntry(r: Record, ops: seq<Operation>, p: Provisional)
    requires EntryOk(Some(r), p) && SharesIdentityOnly(p.oid, ops)
    requires BlocksAppend(r, p) ==> !AnyOverlap(p.oid, ops)
    ensures EntryOk(Some(r.(journal := r.journal + ops)), p)
  {
    var r' := r.(journal := r.journal + ops);
    var chain := ChainOps(Root(r.reassignment));
    SharesConcat(p.oid, r.journal, chain);
    SharesConcat(p.oid, r.journal, ops);
    SharesConcat(p.oid, r'.journal, chain);
    OverlapConcat(p.oid, r.journal, chain);
    OverlapConcat(p.oid, r.journal, ops);
    OverlapConcat(p.oid, r'.journal, chain);
  }

  /** One operation behind a list none of whose names it has. */
  lemma UniqueMore(a: seq<Operation>, o: Operation)
    requires Unique(a) && !AnyOverlap(o.oid, a)
    ensures Unique(a + [o])
  {
    assert a + [] == a;
    UniqueInsert(a, o, []);
    assert a + [o] + [] == a + [o];
  }

  lemma BeginKeeps(d: Document, chatId: string, oid: OperationId, kind: OperationKind, detail: Option<string>)
    requires Inv(d) && BeginSafe(d, chatId, oid)
    ensures Inv(BeginStep(d, chatId, oid, kind, detail).doc)
  {
    var s := BeginStep(d, chatId, oid, kind, detail);
    if s.doc != d {
      var r := d.records[chatId];
      var o := Operation(oid, kind, Pending, detail, None, None);
      FirstOverlapNone(r.journal, oid);
      UniquePrefixOf(r.journal, ChainOps(Root(r.reassignment)));
      UniqueMore(r.journal, o);
      forall k | k in d.provisional
        ensures !Overlap(d.provisional[k].oid, oid)
        ensures !AnyOverlap(d.provisional[k].oid, [o])
      {
        OverlapSymmetric(d.provisional[k].oid, oid);
        SingletonClashes(d.provisional[k].oid, o);
      }
      AppendOperations(d, chatId, [o]);
    }
  }

  // --------------------------------------------- one provisional operation

  lemma AttachKeeps(d: Document, chatId: string, ingress: string,
                    sessionId: Option<string>, sessionFile: Option<string>, attachment: Option<string>)
    requires Inv(d)
    ensures Inv(AttachStep(d, chatId, ingress, sessionId, sessionFile, attachment).doc)
  {
    var s := AttachStep(d, chatId, ingress, sessionId, sessionFile, attachment);
    if s.outcome.Accepted? {
      var k := Key(chatId, ingress);
      var p := s.doc.provisional[k];
      assert KeyOf(d.provisional[k]) == k;
      SameNameApart(d, k, p);
      SwapProvisional(d, p);
    }
  }

  /** Moving an entry of another project must leave it a live target under its own label, or, once
      complete, evidence of a retired lineage under a label that is not the target's. */
  predicate MoveSafe(r: Option<Record>, p: Provisional, state: OperationState, detail: Option<string>) {
    Foreign(r, p) ==>
      if state.Complete? then
        IsRetiredEvidence(r.value, p.(state := Complete))
          && !MatchesReassignment(r.value, MovedProvisional(p, state, detail))
      else
        (detail.Some? ==> detail == p.detail) && (InProgress?(r) || state.Uncertain? || state.Conflict?)
  }

  predicate TransitionProvisionalSafe(d: Document, chatId: string, ingress: string,
                                      state: OperationState, detail: Option<string>)
  {
    var k := Key(chatId, ingress);
    k in d.provisional ==> MoveSafe(d.RecordOf(chatId), d.provisional[k], state, detail)
  }

  lemma TransitionProvisionalKeeps(d: Document, chatId: string, ingress: string,
                                   state: OperationState, detail: Option<string>)
    requires Inv(d) && TransitionProvisionalSafe(d, chatId, ingress, state, detail)
    ensures Inv(TransitionProvisionalStep(d, chatId, ingress, state, detail).doc)
  {
    var s := TransitionProvisionalStep(d, chatId, ingress, state, detail);
    if s.outcome.Accepted? {
      var k := Key(chatId, ingress);
      var p, p' := d.provisional[k], s.doc.provisional[k];
      assert KeyOf(p) == k;
      assert EntryOk(d.RecordOf(chatId), p);
      SameNameApart(d, k, p');
      SwapProvisional(d, p');
    }
  }

  // ------------------------------------------------------------------ store

  function ActiveJournal(d: Document, chatId: string): seq<Operation> {
    var r := d.RecordOf(chatId);
    if r.Some? then r.value.journal else []
  }

  /** The operations a store puts behind the chat's journal. */
  function Added(d: Document, input: Input): seq<Operation> {
    var before := ActiveJournal(d, input.chatId);
    match AppendJournal(before, input.journal)
    case None => []
    case Some(journal) => WithImplicit(journal, input.operationId)[|before|..]
  }

  predicate StoreSafe(d: Document, input: Input) {
    AllAdmissible(d, input.chatId, input.projectId, Added(d, input))
  }

  lemma NotNamed(ops: seq<Operation>, name: string)
    requires IndexOf(ops, name) == |ops|
    ensures !AnyOverlap(OperationId(name, Some(name)), ops)
  {
    assert OperationId(name, Some(name)).Identifiers() == {name};
    forall i | 0 <= i < |ops|
      ensures !Overlap(OperationId(name, Some(name)), ops[i].oid)
    {
      assert name !in Names(ops[i]);
    }
  }

  lemma {:induction false} AppendJournalUnique(existing: seq<Operation>, incoming: seq<Operation>)
    requires Unique(existing)
    ensures AppendJournal(existing, incoming).Some? ==> Unique(AppendJournal(existing, incoming).value)
    decreases |incoming|
  {
    if incoming != [] {
      FirstOverlapNone(existing, incoming[0].oid);
      if FirstOverlap(existing, incoming[0].oid) == |existing| {
        UniqueMore(existing, incoming[0]);
        AppendJournalUnique(existing + [incoming[0]], incoming[1..]);
      } else {
        AppendJournalUnique(existing, incoming[1..]);
      }
    }
  }

  lemma AddedUnique(d: Document, input: Input)
    requires Unique(ActiveJournal(d, input.chatId))
        && AppendJournal(ActiveJournal(d, input.chatId), input.journal).Some?
    ensures Unique(ActiveJournal(d, input.chatId) + Added(d, input))
    ensures WithImplicit(AppendJournal(ActiveJournal(d, input.chatId), input.journal).value, input.operationId) ==
            ActiveJournal(d, input.chatId) + Added(d, input)
  {
    var journal := AppendJournal(ActiveJournal(d, input.chatId), input.journal).value;
    AppendJournalUnique(ActiveJournal(d, input.chatId), input.journal);
    if IndexOf(journal, input.operationId) == |journal| {
      NotNamed(journal, input.operationId);
      UniqueMore(journal, ImplicitOperation(input.operationId));
    }
  }

  /** What a store leaves: the mapping's fields, and the old journal with what it adds behind it. */
  function StoredRecord(d: Document, input: Input): Record {
    var found := d.RecordOf(input.chatId);
    var journal := ActiveJournal(d, input.chatId) + Added(d, input);
    if found.Some? then
      found.value.(chatId := input.chatId, projectId := input.projectId, sessionId := input.sessionId,
        operationId := input.operationId,
                   observations := input.observations.GetOr(found.value.observations), payload := input.payload,
                   journal := journal)
    else Record(input.chatId, input.projectId, input.sessionId, input.operationId,
                input.observations.GetOr(Observations(None, None, "")), input.payload, journal, None)
  }

  lemma StoreEffect(d: Document, input: Input)
    requires WellKeyed(d) && Unique(ActiveJournal(d, input.chatId)) && StoreStep(d, input).outcome.Accepted?
    ensures StoreStep(d, input).doc == d.WithRecord(StoredRecord(d, input))
    ensures Unique(ActiveJournal(d, input.chatId) + Added(d, input))
    ensures input.chatId in d.records ==> d.records[input.chatId].projectId == input.projectId
    ensures forall k :: k in d.provisional ==> !ConflictingProject(d.RecordOf(input.chatId), input, d.provisional[k])
  {
    AddedUnique(d, input);
  }

  lemma ActiveUnique(d: Document, chatId: string)
    requires Inv(d)
    ensures Unique(ActiveJournal(d, chatId))
  {
    if chatId in d.records {
      var r := d.records[chatId];
      assert RecordOk(r);
      UniquePrefixOf(r.journal, ChainOps(Root(r.reassignment)));
    }
  }

  /** A chat without a record: whatever was reserved for it belongs to the stored project. */
  lemma NewRecordEntry(r: Record, p: Provisional)
    requires r.reassignment.None? && p.projectId == r.projectId
    requires EntryOk(None, p) && SharesIdentityOnly(p.oid, r.journal)
    ensures EntryOk(Some(r), p)
  {
    assert Lineage(r) == r.journal;
  }

  lemma StoreNewKeeps(d: Document, input: Input)
    requires Inv(d) && StoreSafe(d, input) && input.chatId !in d.records && StoreStep(d, input).outcome.Accepted?
    ensures Inv(StoreStep(d, input).doc)
  {
    StoreEffect(d, input);
    var r := StoredRecord(d, input);
    assert [] + Added(d, input) == Added(d, input) == r.journal == Lineage(r);
    forall k | k in d.provisional && d.provisional[k].chatId == r.chatId
      ensures EntryOk(Some(r), d.provisional[k])
    {
      assert !ConflictingProject(None, input, d.provisional[k]);
      AdmissibleShares(d, input.chatId, input.projectId, Added(d, input), k);
      NewRecordEntry(r, d.provisional[k]);
    }
    SwapRecord(d, r);
  }

  /** Replacing the mapping fields of a record leaves everything else alone. */
  lemma RelabelKeeps(d: Document, r: Record, r': Record)
    requires Inv(d) && r.chatId in d.records && d.records[r.chatId] == r
    requires r' == r.(sessionId := r'.sessionId, operationId := r'.operationId,
                      observations := r'.observations, payload := r'.payload)
    ensures Inv(d.WithRecord(r'))
  {
    forall k | k in d.provisional && d.provisional[k].chatId == r.chatId
      ensures EntryOk(Some(r'), d.provisional[k])
    {
      SameFrameEntry(r, r', d.provisional[k]);
    }
    SwapRecord(d, r');
  }

  lemma StoreIntoKeeps(d: Document, input: Input)
    requires Inv(d) && StoreSafe(d, input) && input.chatId in d.records && StoreStep(d, input).outcome.Accepted?
    ensures Inv(StoreStep(d, input).doc)
  {
    ActiveUnique(d, input.chatId);
    StoreEffect(d, input);
    var r, r' := d.records[input.chatId], StoredRecord(d, input);
    var r1 := r.(journal := r'.journal);
    var d1 := d.(records := d.records[input.chatId := r1]);
    forall k | k in d.provisional && d.provisional[k].chatId == input.chatId
      ensures !BlocksAppend(r, d.provisional[k])
    {
      assert !ConflictingProject(Some(r), input, d.provisional[k]);
    }
    AppendOperations(d, input.chatId, Added(d, input));
    RelabelKeeps(d1, r1, r');
    assert d1.WithRecord(r') == d.WithRecord(r');
  }

  lemma StoreKeeps(d: Document, input: Input)
    requires Inv(d) && StoreSafe(d, input)
    ensures Inv(StoreStep(d, input).doc)
  {
    if StoreStep(d, input).outcome.Accepted? {
      if input.chatId in d.records {
        StoreIntoKeeps(d, input);
      } else {
        StoreNewKeeps(d, input);
      }
    } else {
      RejectedStore(d, input);
    }
  }

  lemma RejectedStore(d: Document, input: Input)
    requires StoreStep(d, input).outcome.Rejected?
    ensures StoreStep(d, input).doc == d
  {
  }
}
