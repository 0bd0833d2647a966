/** Exactly when an accepted step leaves a document that can be loaded again.
    The log append does not look: a document that fails here is written and then
    refused at the next start. */
module JournalExactness {
  import opened AuthorityTypes
  import opened RelationalValidity
  import opened JournalSteps
  import opened JournalInvariant
  import opened JournalSafety
  import opened ReassignmentSafety
  import opened JournalRuns

  /** The document can be loaded, and loaded again behind a restart. */
  ghost predicate LoadsAgain(d: Document) {
    Loadable(d) && Loadable(ReconcileStep(d))
  }

  lemma LoadableRecord(d: Document, c: string)
    requires Loadable(d) && c in d.records
    ensures RecordShape(d.records[c]) && RecordRelations(d.records[c]) && d.records[c].chatId == c
  {
  }

  lemma LoadableEntry(d: Document, k: Key)
    requires Loadable(d) && k in d.provisional
    ensures ProvisionalRelations(d.RecordOf(k.chatId), d.provisional[k]) && KeyOf(d.provisional[k]) == k
  {
  }

  /** What loading demands of the last operation of a journal. */
  lemma AppendedIsFresh(d: Document, chatId: string, journal: seq<Operation>, o: Operation)
    requires Loadable(d) && chatId in d.records && d.records[chatId].journal == journal + [o]
    ensures OperationShape(o)
    ensures !AnyOverlap(o.oid, ChainOps(Root(d.records[chatId].reassignment)))
    ensures forall k :: k in d.provisional && k.chatId == chatId && Overlap(d.provisional[k].oid, o.oid) ==>
              d.provisional[k].oid.Identity() == o.oid.Identity()
  {
    var r := d.records[chatId];
    var chain := ChainOps(Root(r.reassignment));
    LoadableRecord(d, chatId);
    assert r.journal[|journal|] == o && o in r.journal;
    var whole := Lineage(r);
    forall i | 0 <= i < |chain|
      ensures !Overlap(o.oid, chain[i].oid)
    {
      assert whole[|journal|] == o && whole[|journal| + 1 + i] == chain[i];
    }
    forall k | k in d.provisional && k.chatId == chatId && Overlap(d.provisional[k].oid, o.oid)
      ensures d.provisional[k].oid.Identity() == o.oid.Identity()
    {
      LoadableEntry(d, k);
      assert whole[|journal|] == o;
    }
  }

  lemma BeginExact(d: Document, chatId: string, oid: OperationId, kind: OperationKind, detail: Option<string>)
    requires Inv(d)
    requires var s := BeginStep(d, chatId, oid, kind, detail); s.outcome.Accepted? && s.doc != d
    ensures Loadable(BeginStep(d, chatId, oid, kind, detail).doc) <==> BeginSafe(d, chatId, oid)
  {
    var d' := BeginStep(d, chatId, oid, kind, detail).doc;
    if BeginSafe(d, chatId, oid) {
      BeginKeeps(d, chatId, oid, kind, detail);
      InvIsLoadable(d');
    }
    if Loadable(d') {
      AppendedIsFresh(d', chatId, d.records[chatId].journal, Operation(oid, kind, Pending, detail, None, None));
    }
  }

  lemma TransitionExact(d: Document, chatId: string, name: string, state: OperationState,
                        detail: Option<string>, result: Option<OperationResult>)
    requires Inv(d) && TransitionStep(d, chatId, name, state, detail, result).outcome.Accepted?
    ensures Loadable(TransitionStep(d, chatId, name, state, detail, result).doc) <==>
            TransitionSafe(d, chatId, name, state, result)
  {
    var d' := TransitionStep(d, chatId, name, state, detail, result).doc;
    if TransitionSafe(d, chatId, name, state, result) {
      TransitionKeeps(d, chatId, name, state, detail, result);
    }
    if Loadable(d') {
      LoadableRecord(d', chatId);
      MovedIsValid(d, chatId, name, state, detail, result);
    }
  }

  /** What loading demands of the moved operation is what the transition trusted its caller with. */
  lemma MovedIsValid(d: Document, chatId: string, name: string, state: OperationState,
                     detail: Option<string>, result: Option<OperationResult>)
    requires TransitionStep(d, chatId, name, state, detail, result).outcome.Accepted?
    requires var r' := TransitionStep(d, chatId, name, state, detail, result).doc.records[chatId];
             RecordShape(r') && RecordRelations(r') && r'.chatId == chatId
    ensures TransitionSafe(d, chatId, name, state, result)
  {
    var r := d.records[chatId];
    var i := IndexOf(r.journal, name);
    var r' := TransitionStep(d, chatId, name, state, detail, result).doc.records[chatId];
    var o := Moved(r.journal[i], state, detail, result);
    assert o == r'.journal[i] && o in r'.journal;
    assert OperationShape(o) && ResultBound(o, r'.chatId, r'.projectId);
  }

  /** An acknowledged create that ends in conflict cannot be read back. */
  lemma ConflictAfterAcknowledgeFails(d: Document, chatId: string, name: string, detail: Option<string>)
    requires Inv(d) && chatId in d.records
    requires var r := d.records[chatId]; var i := IndexOf(r.journal, name);
             i < |r.journal| && r.journal[i].successor.Some?
    ensures var s := TransitionStep(d, chatId, name, Conflict, detail, None);
            s.outcome.Accepted? && !Loadable(s.doc)
  {
    var r := d.records[chatId];
    assert r.journal[IndexOf(r.journal, name)] in r.journal;
    TransitionExact(d, chatId, name, Conflict, detail, None);
  }

  /** Behind a store, whatever it added can be loaded only if it was admissible. */
  lemma AddedIsAdmissible(d: Document, input: Input, d': Document)
    requires WellKeyed(d) && Unique(ActiveJournal(d, input.chatId)) && StoreStep(d, input).outcome.Accepted?
    requires Loadable(d') && d'.records == StoreStep(d, input).doc.records
    requires forall k :: k in d.provisional ==> k in d'.provisional && d'.provisional[k].oid == d.provisional[k].oid
    ensures StoreSafe(d, input)
  {
    StoreEffect(d, input);
    forall o | o in Added(d, input)
      ensures Admissible(d, input.chatId, input.projectId, o)
    {
      LoadedIsAdmissible(d, input, d', StoredRecord(d, input), o);
    }
  }

  lemma LoadedIsAdmissible(d: Document, input: Input, d': Document, r': Record, o: Operation)
    requires WellKeyed(d) && Loadable(d') && d'.RecordOf(input.chatId) == Some(r') && o in Added(d, input)
    requires r'.journal == ActiveJournal(d, input.chatId) + Added(d, input)
    requires r'.projectId == input.projectId && r'.reassignment == ReassignmentOf(d.RecordOf(input.chatId))
    requires forall k :: k in d.provisional ==> k in d'.provisional && d'.provisional[k].oid == d.provisional[k].oid
    ensures Admissible(d, input.chatId, input.projectId, o)
  {
    var before, added := ActiveJournal(d, input.chatId), Added(d, input);
    LoadableRecord(d', input.chatId);
    BetweenIsFresh(before, added, ChainOps(Root(r'.reassignment)));
    var i :| 0 <= i < |added| && added[i] == o;
    assert r'.journal[|before| + i] == o && o in r'.journal;
    assert Lineage(r')[|before| + i] == o;
    BesideReservations(d, d', r', |before| + i);
  }

  /** An operation of a loadable record shares names with a reservation of its chat only as itself. */
  lemma BesideReservations(d: Document, d': Document, r: Record, i: nat)
    requires WellKeyed(d) && Loadable(d') && d'.RecordOf(r.chatId) == Some(r) && i < |Lineage(r)|
    requires forall k :: k in d.provisional ==> k in d'.provisional && d'.provisional[k].oid == d.provisional[k].oid
    ensures var oid := Lineage(r)[i].oid;
            forall k :: k in d.provisional && d.provisional[k].chatId == r.chatId ==>
              (Overlap(d.provisional[k].oid, oid) ==> d.provisional[k].oid.Identity() == oid.Identity())
  {
    var oid := Lineage(r)[i].oid;
    forall k | k in d.provisional && d.provisional[k].chatId == r.chatId && Overlap(d.provisional[k].oid, oid)
      ensures d.provisional[k].oid.Identity() == oid.Identity()
    {
      assert KeyOf(d.provisional[k]) == k;
      LoadableEntry(d', k);
    }
  }

  lemma BetweenIsFresh(a: seq<Operation>, mid: seq<Operation>, b: seq<Operation>)
    requires Unique(a + mid + b)
    ensures NoneShared(mid, b)
  {
    UniqueConcat(a + mid, b);
    ApartConcat(a, mid, b);
  }

  /** An accepted store can be loaded exactly when everything it adds may be taken on by its chat. */
  lemma StoreExact(d: Document, input: Input)
    requires Inv(d) && StoreStep(d, input).outcome.Accepted?
    ensures Loadable(StoreStep(d, input).doc) <==> StoreSafe(d, input)
  {
    var d' := StoreStep(d, input).doc;
    ActiveUnique(d, input.chatId);
    StoreEffect(d, input);
    if StoreSafe(d, input) {
      StoreKeeps(d, input);
      InvIsLoadable(d');
    }
    if Loadable(d') {
      AddedIsAdmissible(d, input, d');
    }
  }

  /** A mapping without a journal of its own clashes only through the operation it stands for. */
  lemma BareStoreSafe(d: Document, input: Input)
    requires input.journal == []
    ensures StoreSafe(d, input) <==>
            IndexOf(ActiveJournal(d, input.chatId), input.operationId) < |ActiveJournal(d, input.chatId)| ||
            Admissible(d, input.chatId, input.projectId, ImplicitOperation(input.operationId))
  {
    var before, o := ActiveJournal(d, input.chatId), ImplicitOperation(input.operationId);
    assert AppendJournal(before, input.journal) == Some(before);
    assert Added(d, input) == if IndexOf(before, input.operationId) < |before| then [] else [o];
  }

  lemma RollbackExact(d: Document, chatId: string, current: string)
    requires Inv(d) && CanRollBack(d, chatId, current)
    ensures Loadable(RollbackStep(d, chatId, current).doc) <==> RollbackSafe(d, chatId)
  {
    var d' := RollbackStep(d, chatId, current).doc;
    if RollbackSafe(d, chatId) {
      RollbackKeeps(d, chatId, current);
      InvIsLoadable(d');
    }
    if Loadable(d') && RollbackVictim(d, chatId).Some? && Foreign(d.RecordOf(chatId), RollbackVictim(d, chatId).value) {
      var r, p := d.records[chatId], RollbackVictim(d, chatId).value;
      var k := Key(chatId, r.reassignment.value.target.value.oid.Ingress());
      assert EntryOk(Some(r), p) && KeyOf(p) == k;
      LoadableEntry(d', k);
      RelabelledTarget(r, p);
    }
  }

  /** A relabelled target is in place only if the label was its own already. */
  lemma RelabelledTarget(r: Record, p: Provisional)
    requires RecordOk(r) && InProgress?(Some(r)) && EntryOk(Some(r), p) && Foreign(Some(r), p) && p.state.Pending?
    requires Placed(Some(RolledBackRecord(r)), p.(state := Uncertain, detail := Some(ROLLBACK_DETAIL)))
    ensures p.detail == Some(ROLLBACK_DETAIL)
  {
  }

  /** A publication survives a load and a restart exactly when it is safe, committing or not. */
  lemma PublishExact(d: Document, op: Draft, mapping: Input)
    requires Inv(d) && PublishStep(d, op, mapping).outcome.Accepted?
    ensures var d' := PublishStep(d, op, mapping).doc;
            LoadsAgain(d') <==> PublishSafe(d, op, mapping)
  {
    var d' := PublishStep(d, op, mapping).doc;
    if PublishSafe(d, op, mapping) {
      PublishKeeps(d, op, mapping);
      SurvivesRestart(d');
    }
    if LoadsAgain(d') {
      if CommitsReassignment(d.RecordOf(op.chatId), mapping) {
        CommittedWasSafe(d, op, mapping);
      } else {
        StoredWasSafe(d, op, mapping);
      }
    }
  }

  lemma CommittedWasSafe(d: Document, op: Draft, mapping: Input)
    requires Inv(d) && PublishStep(d, op, mapping).outcome.Accepted?
    requires CommitsReassignment(d.RecordOf(op.chatId), mapping) && Loadable(PublishStep(d, op, mapping).doc)
    ensures CommitSafe(d, op, mapping)
  {
    var d' := PublishStep(d, op, mapping).doc;
    var r, r', o := d.records[op.chatId], CommittedRecord(d.records[op.chatId], op, mapping),
      PublishedOperation(op, mapping);
    assert RecordOk(r) && d'.records[op.chatId] == r';
    LoadableRecord(d', op.chatId);
    assert r'.journal[0] == o && o in r'.journal;
    CommittedLineage(r, op, mapping);
    UniqueConcat([o], Lineage(r));
    assert [o][0] == o;
    SourceEntriesComplete(d, op, mapping);
  }

  /** A loadable commit left no open reservation of the project it came from. */
  lemma SourceEntriesComplete(d: Document, op: Draft, mapping: Input)
    requires Inv(d) && PublishStep(d, op, mapping).outcome.Accepted?
    requires CommitsReassignment(d.RecordOf(op.chatId), mapping) && Loadable(PublishStep(d, op, mapping).doc)
    ensures SourceQuiet(d, op)
  {
    var d', r := PublishStep(d, op, mapping).doc, d.records[op.chatId];
    forall k | k in d.provisional && k != Key(op.chatId, op.oid.Ingress()) && d.provisional[k].chatId == op.chatId
               && d.provisional[k].projectId == r.projectId
      ensures d.provisional[k].state.Complete?
    {
      assert KeyOf(d.provisional[k]) == k;
      LoadableEntry(d', k);
      SourceEntryComplete(r, op, mapping, d.provisional[k]);
    }
  }

  lemma StoredWasSafe(d: Document, op: Draft, mapping: Input)
    requires Inv(d) && PublishStep(d, op, mapping).outcome.Accepted?
    requires !CommitsReassignment(d.RecordOf(op.chatId), mapping)
    requires LoadsAgain(PublishStep(d, op, mapping).doc)
    ensures !Foreign(d.RecordOf(op.chatId), Reserved(op)) && StoreSafe(d, Publication(op, mapping))
  {
    var d' := PublishStep(d, op, mapping).doc;
    var k := Key(op.chatId, op.oid.Ingress());
    ActiveUnique(d, mapping.chatId);
    PublishedOverStore(d, op, mapping, d');
    AddedIsAdmissible(d, Publication(op, mapping), d');
    SurvivingTarget(d', k);
    OwnReservation(d, op, mapping, d');
  }

  lemma PublishedOverStore(d: Document, op: Draft, mapping: Input, d': Document)
    requires PublishStep(d, op, mapping) == Step(d', Accepted) && !CommitsReassignment(d.RecordOf(op.chatId), mapping)
    ensures Key(op.chatId, op.oid.Ingress()) in d.provisional
    ensures var stored := StoreStep(d, Publication(op, mapping));
            var k := Key(op.chatId, op.oid.Ingress());
            && stored.outcome.Accepted? && d'.records == stored.doc.records
            && d'.provisional == d.provisional[k := d.provisional[k].(state := Complete)]
  {
  }

  lemma OwnReservation(d: Document, op: Draft, mapping: Input, d': Document)
    requires Inv(d) && Unique(ActiveJournal(d, mapping.chatId))
    requires PublishStep(d, op, mapping) == Step(d', Accepted) && !CommitsReassignment(d.RecordOf(op.chatId), mapping)
    requires Key(op.chatId, op.oid.Ingress()) in d'.provisional
    requires TargetRestarts(d'.RecordOf(op.chatId), d'.provisional[Key(op.chatId, op.oid.Ingress())])
    ensures !Foreign(d.RecordOf(op.chatId), Reserved(op))
  {
    var k, input := Key(op.chatId, op.oid.Ingress()), Publication(op, mapping);
    var p := d.provisional[k];
    assert KeyOf(p) == k && EntryOk(d.RecordOf(op.chatId), p);
    PublishedOverStore(d, op, mapping, d');
    StoreEffect(d, input);
    if input.chatId == op.chatId {
      assert !ConflictingProject(d.RecordOf(input.chatId), input, p);
    } else if op.chatId in d.records {
      assert d'.records[op.chatId] == d.records[op.chatId];
      PendingTargetStays(d.records[op.chatId], p);
    }
  }

  /** A pending reservation of another project is a live target, and completing it does not survive a restart. */
  lemma PendingTargetStays(r: Record, p: Provisional)
    requires EntryOk(Some(r), p) && p.state.Pending?
    requires TargetRestarts(Some(r), p.(state := Complete))
    ensures !Foreign(Some(r), p)
  {
  }

  /** Behind a commit an entry of the source project can only be retired evidence. */
  lemma SourceEntryComplete(r: Record, op: Draft, mapping: Input, p: Provisional)
    requires RecordOk(r) && CommitsReassignment(Some(r), mapping) && p.projectId == r.projectId
    requires Placed(Some(CommittedRecord(r, op, mapping)), p)
    ensures p.state.Complete?
  {
  }

  // ---------------------------------------------------------------- restart

  /** Every reserved target can be rolled back by a restart. */
  predicate TargetRestarts(r: Option<Record>, p: Provisional) {
    Foreign(r, p) && InProgress?(r) && MatchesReassignment(r.value, p) ==>
      !p.state.Complete? && (p.state.Pending? ==> p.detail.Some?)
  }

  ghost predicate RestartSafe(d: Document) {
    forall k :: k in d.provisional ==> TargetRestarts(d.RecordOf(d.provisional[k].chatId), d.provisional[k])
  }

  lemma RestartedRecordValid(r: Record)
    requires RecordShape(r) && RecordRelations(r)
    ensures RecordShape(RestartedRecord(r)) && RecordRelations(RestartedRecord(r))
    ensures SameNames(Lineage(r), Lineage(RestartedRecord(r)))
  {
    var r' := RestartedRecord(r);
    UniqueByName(Lineage(r), Lineage(r'));
    forall o | o in r'.journal
      ensures OperationShape(o) && ResultBound(o, r.chatId, r.projectId)
    {
      var i :| 0 <= i < |r'.journal| && r'.journal[i] == o;
      assert r.journal[i] in r.journal;
    }
  }

  lemma RestartedPlaced(r: Record, p: Provisional)
    requires RecordShape(r) && RecordRelations(r) && ProvisionalRelations(Some(r), p)
    ensures ProvisionalRelations(Some(RestartedRecord(r)), RestartedProvisional(p)) <==> TargetRestarts(Some(r), p)
  {
    RestartedRecordValid(r);
    SameNamesSameClashes(p.oid, Lineage(r), Lineage(RestartedRecord(r)));
  }

  lemma RestartedRelations(d: Document)
    requires Loadable(d)
    ensures WellKeyed(ReconcileStep(d)) && Shapes(ReconcileStep(d)) && ProvisionalDisjoint(ReconcileStep(d))
    ensures forall c :: c in d.records ==> RecordRelations(ReconcileStep(d).records[c])
  {
    forall c | c in d.records
      ensures RecordShape(RestartedRecord(d.records[c])) && RecordRelations(RestartedRecord(d.records[c]))
    {
      LoadableRecord(d, c);
      RestartedRecordValid(d.records[c]);
    }
    RestartedEntries(d);
  }

  lemma RestartedEntries(d: Document)
    requires Loadable(d)
    ensures WellKeyed(ReconcileStep(d)) && ProvisionalDisjoint(ReconcileStep(d))
    ensures forall k :: k in d.provisional ==> ProvisionalShape(ReconcileStep(d).provisional[k])
  {
    forall k | k in d.provisional
      ensures ProvisionalShape(RestartedProvisional(d.provisional[k]))
          && RestartedProvisional(d.provisional[k]).oid == d.provisional[k].oid
    {
      assert ProvisionalShape(d.provisional[k]);
    }
  }

  lemma RestartedEntryValid(d: Document, k: Key)
    requires Loadable(d) && k in d.provisional
    ensures ProvisionalRelations(ReconcileStep(d).RecordOf(d.provisional[k].chatId),
        ReconcileStep(d).provisional[k]) <==>
            TargetRestarts(d.RecordOf(d.provisional[k].chatId), d.provisional[k])
  {
    LoadableEntry(d, k);
    if k.chatId in d.records {
      LoadableRecord(d, k.chatId);
      RestartedPlaced(d.records[k.chatId], d.provisional[k]);
    }
  }

  lemma ReconcileExact(d: Document)
    requires Loadable(d)
    ensures Loadable(ReconcileStep(d)) <==> RestartSafe(d)
  {
    RestartedRelations(d);
    forall k | k in d.provisional
      ensures ProvisionalRelations(ReconcileStep(d).RecordOf(d.provisional[k].chatId),
          ReconcileStep(d).provisional[k]) <==>
              TargetRestarts(d.RecordOf(d.provisional[k].chatId), d.provisional[k])
    {
      RestartedEntryValid(d, k);
    }
  }

  lemma SurvivingTarget(d: Document, k: Key)
    requires LoadsAgain(d) && k in d.provisional
    ensures ProvisionalRelations(d.RecordOf(k.chatId), d.provisional[k])
    ensures TargetRestarts(d.RecordOf(k.chatId), d.provisional[k])
  {
    LoadableEntry(d, k);
    RestartedEntryValid(d, k);
    LoadableEntry(ReconcileStep(d), k);
  }

  // ------------------------------------------------------ begin reassignment

  /** A begun reassignment survives a load and a restart exactly when every entry of another project
      stays evidence of a retained lineage that the new target does not name. */
  lemma BeginReassignmentExact(d: Document, chatId: string, current: string, next: string, target: Option<Target>)
    requires Inv(d) && BeginReassignmentStep(d, chatId, current, next, target).outcome.Accepted?
    ensures var d' := BeginReassignmentStep(d, chatId, current, next, target).doc;
            LoadsAgain(d') <==> BeginReassignmentSafe(d, chatId, next, target)
  {
    var d' := BeginReassignmentStep(d, chatId, current, next, target).doc;
    if BeginReassignmentSafe(d, chatId, next, target) {
      BeginReassignmentKeeps(d, chatId, current, next, target);
      SurvivesRestart(d');
    }
    if LoadsAgain(d') {
      forall k | k in d.provisional && d.provisional[k].chatId == chatId
        ensures StaysEvidence(d.records[chatId], next, target, d.provisional[k])
      {
        assert KeyOf(d.provisional[k]) == k;
        SurvivingTarget(d', k);
        EvidenceNeeded(d.records[chatId], d'.records[chatId], d.provisional[k]);
      }
    }
  }

  lemma SurvivesRestart(d: Document)
    requires Inv(d)
    ensures LoadsAgain(d)
  {
    InvIsLoadable(d);
    ReconcileKeeps(d);
    InvIsLoadable(ReconcileStep(d));
  }

  lemma EvidenceNeeded(r: Record, r': Record, p: Provisional)
    requires r' == r.(reassignment := r'.reassignment) && InProgress?(Some(r')) && p.state.Complete?
    requires r'.reassignment.value.sourceTombstone.None?
    requires r'.reassignment.value.priorTombstone == RetainedTombstone(r.reassignment)
    requires Placed(Some(r'), p) && TargetRestarts(Some(r'), p)
    ensures StaysEvidence(r, r'.reassignment.value.targetProjectId, r'.reassignment.value.target, p)
  {
  }

  /** A moved entry survives a load and a restart exactly when the move is safe: whatever state it was
      in, whatever detail is written, whichever project it belongs to. */
  lemma MoveExact(d: Document, chatId: string, ingress: string, state: OperationState, detail: Option<string>)
    requires Inv(d) && TransitionProvisionalStep(d, chatId, ingress, state, detail).outcome.Accepted?
    ensures var d' := TransitionProvisionalStep(d, chatId, ingress, state, detail).doc;
            LoadsAgain(d') <==> TransitionProvisionalSafe(d, chatId, ingress, state, detail)
  {
    var k := Key(chatId, ingress);
    var p := d.provisional[k];
    var d' := TransitionProvisionalStep(d, chatId, ingress, state, detail).doc;
    if TransitionProvisionalSafe(d, chatId, ingress, state, detail) {
      TransitionProvisionalKeeps(d, chatId, ingress, state, detail);
      SurvivesRestart(d');
    }
    if LoadsAgain(d') && Foreign(d.RecordOf(chatId), p) {
      assert KeyOf(p) == k && EntryOk(d.RecordOf(chatId), p);
      SurvivingTarget(d', k);
      MovedInPlace(d.records[chatId], p, state, detail);
    }
  }

  lemma MovedInPlace(r: Record, p: Provisional, state: OperationState, detail: Option<string>)
    requires EntryOk(Some(r), p) && (p.state.Complete? ==> state.Complete?)
    requires Placed(Some(r), MovedProvisional(p, state, detail))
        && TargetRestarts(Some(r), MovedProvisional(p, state, detail))
    ensures MoveSafe(Some(r), p, state, detail)
  {
  }

  /** Writing a new detail on an unfinished target is survived only by completing it into evidence of a
      retired lineage; keeping its detail is survived only by leaving it unfinished. */
  lemma TargetMoves(d: Document, chatId: string, ingress: string, state: OperationState, detail: Option<string>)
    requires Inv(d) && Key(chatId, ingress) in d.provisional
    requires var p := d.provisional[Key(chatId, ingress)]; Foreign(d.RecordOf(chatId), p) && !p.state.Complete?
    ensures var r, p := d.records[chatId], d.provisional[Key(chatId, ingress)];
            MoveSafe(Some(r), p, state, detail) <==>
            if detail.Some? && detail != p.detail then state.Complete? && IsRetiredEvidence(r, p.(state := Complete))
            else if InProgress?(Some(r)) then !state.Complete?
            else state.Uncertain? || state.Conflict?
  {
    var k := Key(chatId, ingress);
    assert KeyOf(d.provisional[k]) == k && EntryOk(d.RecordOf(chatId), d.provisional[k]);
  }

  /** A target reserved without a detail loads, but not after a restart. */
  lemma ReserveExact(d: Document, op: Draft)
    requires Inv(d) && op.oid.WellFormed() && ReserveStep(d, op).outcome.Accepted?
    ensures LoadsAgain(ReserveStep(d, op).doc) <==> ReserveSafe(d, op)
  {
    var d' := ReserveStep(d, op).doc;
    var p := Reserved(op);
    if ReserveSafe(d, op) {
      ReserveKeeps(d, op);
      SurvivesRestart(d');
    }
    if LoadsAgain(d') {
      SurvivingTarget(d', KeyOf(p));
      assert d'.provisional[KeyOf(p)] == p;
    }
  }

  // ------------------------------------------------------- steps and whole runs

  lemma CompletionExact(d: Document, chatId: string, name: string, hash: string, mapping: Input,
                        outcome: OperationResult)
    requires Inv(d) && CompleteWithMappingStep(d, chatId, name, hash, mapping, outcome).outcome.Accepted?
    ensures LoadsAgain(CompleteWithMappingStep(d, chatId, name, hash, mapping, outcome).doc) <==>
            Safe(d, CompleteWithMapping(chatId, name, hash, mapping, outcome))
  {
    var mid := TransitionStep(d, chatId, name, Complete, Some(hash), Some(outcome)).doc;
    var d' := CompleteWithMappingStep(d, chatId, name, hash, mapping, outcome).doc;
    if TransitionSafe(d, chatId, name, Complete, Some(outcome)) {
      TransitionKeeps(d, chatId, name, Complete, Some(hash), Some(outcome));
      StoreExact(mid, mapping);
      if StoreSafe(mid, mapping) {
        StoreKeeps(mid, mapping);
        SurvivesRestart(d');
      }
    } else if Loadable(d') {
      CompletedIsValid(d, chatId, name, hash, mapping, outcome);
      assert false;
    }
  }

  /** The completed operation is still there behind the store of the mapping, bound as the transition left it. */
  lemma CompletedIsValid(d: Document, chatId: string, name: string, hash: string, mapping: Input,
                         outcome: OperationResult)
    requires Inv(d) && CompleteWithMappingStep(d, chatId, name, hash, mapping, outcome).outcome.Accepted?
    requires Loadable(CompleteWithMappingStep(d, chatId, name, hash, mapping, outcome).doc)
    ensures TransitionSafe(d, chatId, name, Complete, Some(outcome))
  {
    var mid := TransitionStep(d, chatId, name, Complete, Some(hash), Some(outcome)).doc;
    var d' := CompleteWithMappingStep(d, chatId, name, hash, mapping, outcome).doc;
    var r := d.records[chatId];
    var i := IndexOf(r.journal, name);
    var o := Moved(r.journal[i], Complete, Some(hash), Some(outcome));
    StoreExtends(mid, mapping, chatId);
    LoadableRecord(d', chatId);
    assert mid.records[chatId].journal[i] == o && d'.records[chatId].journal[i] == o && o in d'.records[chatId].journal;
    assert OperationShape(o) && ResultBound(o, chatId, r.projectId);
  }

  lemma StoreExtends(d: Document, input: Input, chatId: string)
    requires chatId in d.records && StoreStep(d, input).outcome.Accepted?
    ensures var d' := StoreStep(d, input).doc;
            && chatId in d'.records && d.records[chatId].journal <= d'.records[chatId].journal
            && d'.records[chatId].projectId == d.records[chatId].projectId
  {
  }

  lemma BeginStepExact(d: Document, chatId: string, oid: OperationId, kind: OperationKind, detail: Option<string>)
    requires Inv(d) && BeginStep(d, chatId, oid, kind, detail).outcome.Accepted?
    ensures LoadsAgain(BeginStep(d, chatId, oid, kind, detail).doc) <==> BeginSafe(d, chatId, oid)
  {
    var d' := BeginStep(d, chatId, oid, kind, detail).doc;
    if BeginSafe(d, chatId, oid) {
      BeginKeeps(d, chatId, oid, kind, detail);
      SurvivesRestart(d');
    } else if d' == d {
      BegunBefore(d.records[chatId], oid);
      assert false;
    } else {
      BeginExact(d, chatId, oid, kind, detail);
    }
  }

  lemma BegunBefore(r: Record, oid: OperationId)
    requires RecordOk(r) && FirstOverlap(r.journal, oid) < |r.journal|
        && r.journal[FirstOverlap(r.journal, oid)].oid == oid
    ensures oid.WellFormed() && !AnyOverlap(oid, ChainOps(Root(r.reassignment)))
  {
    var i := FirstOverlap(r.journal, oid);
    UniqueConcat(r.journal, ChainOps(Root(r.reassignment)));
    assert r.journal[i] in r.journal;
  }

  lemma AlwaysSafeExact(d: Document, cmd: Command)
    requires Inv(d) && (cmd.Attach? || cmd.Acknowledge?) && StepOf(d, cmd).outcome.Accepted?
    ensures LoadsAgain(StepOf(d, cmd).doc)
  {
    StepKeeps(d, cmd);
    SurvivesRestart(StepOf(d, cmd).doc);
  }

  lemma RollbackStepExact(d: Document, chatId: string, current: string)
    requires Inv(d) && RollbackStep(d, chatId, current).outcome.Accepted?
    ensures LoadsAgain(RollbackStep(d, chatId, current).doc) <==> RollbackSafe(d, chatId)
  {
    RollbackExact(d, chatId, current);
    if RollbackSafe(d, chatId) {
      RollbackKeeps(d, chatId, current);
      SurvivesRestart(RollbackStep(d, chatId, current).doc);
    }
  }

  lemma TransitionStepExact(d: Document, chatId: string, name: string, state: OperationState,
                            detail: Option<string>, result: Option<OperationResult>)
    requires Inv(d) && TransitionStep(d, chatId, name, state, detail, result).outcome.Accepted?
    ensures LoadsAgain(TransitionStep(d, chatId, name, state, detail, result).doc) <==>
              TransitionSafe(d, chatId, name, state, result)
  {
    TransitionExact(d, chatId, name, state, detail, result);
    if TransitionSafe(d, chatId, name, state, result) {
      TransitionKeeps(d, chatId, name, state, detail, result);
      SurvivesRestart(TransitionStep(d, chatId, name, state, detail, result).doc);
    }
  }

  lemma StoreStepExact(d: Document, input: Input)
    requires Inv(d) && StoreStep(d, input).outcome.Accepted?
    ensures LoadsAgain(StoreStep(d, input).doc) <==> StoreSafe(d, input)
  {
    StoreExact(d, input);
    if StoreSafe(d, input) {
      StoreKeeps(d, input);
      SurvivesRestart(StoreStep(d, input).doc);
    }
  }

  lemma ReservedWell(d: Document, op: Draft)
    requires ReserveStep(d, op).outcome.Accepted? && Loadable(ReserveStep(d, op).doc)
    ensures op.oid.WellFormed()
  {
    assert ReserveStep(d, op).doc.provisional[KeyOf(Reserved(op))] == Reserved(op);
  }

  lemma ReserveStepExact(d: Document, op: Draft)
    requires Inv(d) && ReserveStep(d, op).outcome.Accepted?
    ensures LoadsAgain(ReserveStep(d, op).doc) <==> ReserveSafe(d, op)
  {
    if op.oid.WellFormed() {
      ReserveExact(d, op);
    } else if Loadable(ReserveStep(d, op).doc) {
      ReservedWell(d, op);
    }
  }

  /** An accepted command, any of them, leaves an authority that can be loaded now and behind a restart
      exactly when it meets what `Safe` asks of its caller. */
  lemma StepExact(d: Document, cmd: Command)
    requires Inv(d) && StepOf(d, cmd).outcome.Accepted?
    ensures LoadsAgain(StepOf(d, cmd).doc) <==> Safe(d, cmd)
  {
    match cmd
    case Store(input) => StoreStepExact(d, input);
    case BeginReassignment(chatId, current, next, target) => BeginReassignmentExact(d, chatId, current, next, target);
    case RollBack(chatId, current) => RollbackStepExact(d, chatId, current);
    case ReserveOperation(op) => ReserveStepExact(d, op);
    case MoveProvisional(chatId, ingress, state, detail) => MoveExact(d, chatId, ingress, state, detail);
    case Publish(op, mapping) => PublishExact(d, op, mapping);
    case Begin(chatId, oid, kind, detail) => BeginStepExact(d, chatId, oid, kind, detail);
    case Transition(chatId, name, state, detail, result) => TransitionStepExact(d, chatId, name, state, detail, result);
    case CompleteWithMapping(chatId, name, hash, mapping, outcome) =>
      CompletionExact(d, chatId, name, hash, mapping, outcome);
    case _ => AlwaysSafeExact(d, cmd);
  }

  ghost predicate LoadsThroughout(d: Document, events: seq<RunEvent>)
    decreases |events|
  {
    LoadsAgain(d) && (events != [] ==> LoadsThroughout(Perform(d, events[0]), events[1..]))
  }

  lemma EventExact(d: Document, e: RunEvent)
    requires Inv(d)
    ensures LoadsAgain(Perform(d, e)) <==> SafeEvent(d, e)
  {
    if e.Do? && StepOf(d, e.cmd).outcome.Accepted? {
      StepExact(d, e.cmd);
    } else {
      PerformKeeps(d, e);
      SurvivesRestart(Perform(d, e));
    }
  }

  /** A run never passes through a state that cannot be loaded, now or behind a restart, exactly when
      every command of it that is accepted is safe. */
  lemma {:induction false} RunExact(d: Document, events: seq<RunEvent>)
    requires Inv(d)
    ensures LoadsThroughout(d, events) <==> SafeRun(d, events)
    decreases |events|
  {
    SurvivesRestart(d);
    if events != [] {
      EventExact(d, events[0]);
      if SafeEvent(d, events[0]) {
        PerformKeeps(d, events[0]);
        RunExact(Perform(d, events[0]), events[1..]);
      } else {
        NotThroughout(Perform(d, events[0]), events[1..]);
      }
    }
  }

  lemma NotThroughout(d: Document, events: seq<RunEvent>)
    requires !LoadsAgain(d)
    ensures !LoadsThroughout(d, events)
  {
  }
}
