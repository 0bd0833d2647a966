/** The in-memory journal: two maps, the marks of what changed since the last
    durable write, and the flag that asks for a full rewrite. */
module Journal {
  import opened AuthorityTypes
  import opened RelationalValidity
  import opened JournalSteps
  import opened JournalRuns
  import opened DocumentLists

  /** The active journal followed by every retired one, collected along the chain. */
  method JournalFor(r: Option<Record>) returns (journal: seq<Operation>)
    ensures journal == LineageOf(r)
  {
    if r.None? {
      return [];
    }
    journal := r.value.journal;
    var tombstone := Root(r.value.reassignment);
    while tombstone.Some?
      invariant journal + ChainOps(tombstone) == Lineage(r.value)
      decreases tombstone
    {
      assert journal + ChainOps(tombstone) == (journal + tombstone.value.journal) + ChainOps(tombstone.value.prior);
      journal := journal + tombstone.value.journal;
      tombstone := tombstone.value.prior;
    }
  }

  lemma FirstNamedConcat(a: seq<Operation>, b: seq<Operation>, name: string)
    ensures FirstNamed(a + b, name) == if FirstNamed(a, name).Some? then FirstNamed(a, name) else FirstNamed(b, name)
  {
    var i, j, k := IndexOf(a + b, name), IndexOf(a, name), IndexOf(b, name);
    assert forall x :: 0 <= x < |a| ==> (a + b)[x] == a[x];
    assert forall x :: 0 <= x < |b| ==> (a + b)[|a| + x] == b[x];
    assert j < |a| ==> (a + b)[j] == a[j];
    assert k < |b| ==> (a + b)[|a| + k] == b[k];
    assert i < |a + b| ==> (a + b)[i] == if i < |a| then a[i] else b[i - |a|];
  }

  method SearchChain(root: Option<Tombstone>, name: string) returns (found: Option<Operation>)
    ensures found == FirstNamed(ChainOps(root), name)
  {
    var tombstone := root;
    while tombstone.Some?
      invariant FirstNamed(ChainOps(root), name) == FirstNamed(ChainOps(tombstone), name)
      decreases tombstone
    {
      FirstNamedConcat(tombstone.value.journal, ChainOps(tombstone.value.prior), name);
      found := FirstNamed(tombstone.value.journal, name);
      if found.Some? {
        return;
      }
      tombstone := tombstone.value.prior;
    }
    return None;
  }

  /** Applies the restart rule record by record, marking the ones it changed. */
  method RestartRecords(before: map<string, Record>) returns (after: map<string, Record>, changed: set<string>)
    ensures after == map c | c in before :: RestartedRecord(before[c])
    ensures forall c :: c in before && c !in changed ==> after[c] == before[c]
  {
    after, changed := before, {};
    var todo := before.Keys;
    while todo != {}
      invariant todo <= before.Keys && after.Keys == before.Keys
      invariant forall c :: c in todo ==> after[c] == before[c]
      invariant forall c :: c in before && c !in todo ==> after[c] == RestartedRecord(before[c])
      invariant forall c :: c in before && c !in changed ==> after[c] == before[c]
      decreases |todo|
    {
      var c :| c in todo;
      todo := todo - {c};
      var next := RestartedRecord(before[c]);
      if next != before[c] {
        after := after[c := next];
        changed := changed + {c};
      }
    }
  }

  method RestartProvisional(before: map<Key, Provisional>) returns (after: map<Key, Provisional>, changed: set<Key>)
    requires forall k :: k in before ==> KeyOf(before[k]) == k
    ensures after == map k | k in before :: RestartedProvisional(before[k])
    ensures forall k :: k in before && k !in changed ==> after[k] == before[k]
  {
    after, changed := before, {};
    var todo := before.Keys;
    while todo != {}
      invariant todo <= before.Keys && after.Keys == before.Keys
      invariant forall k :: k in todo ==> after[k] == before[k]
      invariant forall k :: k in before && k !in todo ==> after[k] == RestartedProvisional(before[k])
      invariant forall k :: k in before && k !in changed ==> after[k] == before[k]
      decreases |todo|
    {
      var k :| k in todo;
      todo := todo - {k};
      if before[k].state.Pending? {
        after := after[KeyOf(before[k]) := RestartedProvisional(before[k])];
        changed := changed + {k};
      }
    }
  }

  method ListRecords(m: map<string, Record>) returns (ms: seq<Record>)
    ensures forall c :: c in m ==> m[c] in ms
    ensures OwnKeys(m) ==> DistinctChats(ms) && RecordsInto(map[], ms) == m
  {
    ms := [];
    var todo := m.Keys;
    while todo != {}
      invariant todo <= m.Keys && forall c :: c in m && c !in todo ==> m[c] in ms
      invariant OwnKeys(m) ==> ListedUpTo(m, todo, ms)
      decreases |todo|
    {
      var c :| c in todo;
      if OwnKeys(m) {
        ListOneMore(m, todo, ms, c);
      }
      ms := ms + [m[c]];
      todo := todo - {c};
    }
    if OwnKeys(m) {
      assert RecordsInto(map[], ms) == m;
    }
  }

  ghost predicate OwnKeys(m: map<string, Record>) {
    forall c :: c in m ==> m[c].chatId == c
  }

  ghost predicate ListedUpTo(m: map<string, Record>, todo: set<string>, ms: seq<Record>) {
    && DistinctChats(ms) && (forall i :: 0 <= i < |ms| ==> ms[i].chatId in m && ms[i].chatId !in todo)
    && RecordsInto(map[], ms) == map c | c in m && c !in todo :: m[c]
  }

  lemma ListOneMore(m: map<string, Record>, todo: set<string>, ms: seq<Record>, c: string)
    requires OwnKeys(m) && ListedUpTo(m, todo, ms) && c in todo && c in m
    ensures ListedUpTo(m, todo - {c}, ms + [m[c]])
  {
    assert (ms + [m[c]])[..|ms|] == ms;
  }

  method ListProvisional(m: map<Key, Provisional>) returns (ps: seq<Provisional>)
    requires forall k :: k in m ==> KeyOf(m[k]) == k
    ensures DistinctKeys(ps) && ProvisionalInto(map[], ps) == m
  {
    ps := [];
    var todo := m.Keys;
    while todo != {}
      invariant todo <= m.Keys && DistinctKeys(ps)
      invariant forall i :: 0 <= i < |ps| ==> KeyOf(ps[i]) in m && KeyOf(ps[i]) !in todo
      invariant ProvisionalInto(map[], ps) == map k | k in m && k !in todo :: m[k]
      decreases |todo|
    {
      var k :| k in todo;
      assert (ps + [m[k]])[..|ps|] == ps;
      ps := ps + [m[k]];
      todo := todo - {k};
    }
  }

  class SessionAuthorityJournal {
    var records: map<string, Record>
    var provisional: map<Key, Provisional>
    var dirtyRecords: set<string>
    var dirtyProvisional: set<Key>
    var forceCompaction: bool
    /** The contents when the marks were last cleared. */
    ghost var clean: Document

    function Contents(): Document
      reads this
    {
      Document(records, provisional)
    }

    /** Nothing has changed since the last durable write without leaving a mark. */
    ghost predicate Tracked()
      reads this
    {
      forceCompaction || Covers(clean, Contents(), dirtyRecords, dirtyProvisional)
    }

    constructor ()
      ensures Contents() == EMPTY_DOCUMENT && clean == EMPTY_DOCUMENT && Tracked()
      ensures !forceCompaction && dirtyRecords == {} && dirtyProvisional == {}
    {
      records, provisional := map[], map[];
      dirtyRecords, dirtyProvisional, forceCompaction := {}, {}, false;
      clean := EMPTY_DOCUMENT;
    }

    predicate HasDirty()
      reads this
    {
      forceCompaction || dirtyRecords != {} || dirtyProvisional != {}
    }

    // ------------------------------------------------------------ bookkeeping

    method SetRecord(chatId: string, record: Record)
      requires Tracked()
      modifies `records, `dirtyRecords
      ensures Contents() == old(Contents()).(records := old(records)[chatId := record])
      ensures Tracked()
    {
      var same := chatId in records && records[chatId] == record;
      records := records[chatId := record];
      if !same {
        dirtyRecords := dirtyRecords + {chatId};
      }
    }

    method SetProvisional(key: Key, operation: Provisional)
      requires Tracked()
      modifies `provisional, `dirtyProvisional
      ensures Contents() == old(Contents()).(provisional := old(provisional)[key := operation])
      ensures Tracked()
    {
      var same := key in provisional && provisional[key] == operation;
      provisional := provisional[key := operation];
      if !same {
        dirtyProvisional := dirtyProvisional + {key};
      }
    }

    method ClearDirty()
      modifies `dirtyRecords, `dirtyProvisional, `forceCompaction, `clean
      ensures Tracked() && !HasDirty() && clean == Contents()
    {
      dirtyRecords, dirtyProvisional, forceCompaction := {}, {}, false;
      clean := Contents();
    }

    /** Hands out what changed and forgets that it did. */
    method TakeDirty() returns (rs: seq<Record>, ps: seq<Provisional>)
      requires forall k :: k in provisional ==> KeyOf(provisional[k]) == k
      modifies `dirtyRecords, `dirtyProvisional, `clean
      ensures WellKeyed(Contents()) ==> ListsMarked(Contents(), old(dirtyRecords), old(dirtyProvisional), rs, ps)
      ensures forall c :: c in old(dirtyRecords) && c in records ==> records[c] in rs
      ensures dirtyRecords == {} && dirtyProvisional == {} && clean == Contents()
    {
      clean := Contents();
      rs := TakeRecords();
      ps := TakeProvisional();
    }

    method TakeRecords() returns (rs: seq<Record>)
      modifies `dirtyRecords
      ensures dirtyRecords == {} && forall c :: c in old(dirtyRecords) && c in records ==> records[c] in rs
      ensures OwnKeys(records) ==> DistinctChats(rs)
      ensures OwnKeys(records) ==> forall r :: r in rs ==> r.chatId in records && records[r.chatId] == r
    {
      rs := [];
      while dirtyRecords != {}
        invariant dirtyRecords <= old(dirtyRecords) && (OwnKeys(records) ==> DistinctChats(rs))
        invariant OwnKeys(records) ==> forall r :: r in rs ==>
                    r.chatId !in dirtyRecords && r.chatId in records && records[r.chatId] == r
        invariant forall c :: c in old(dirtyRecords) - dirtyRecords && c in records ==> records[c] in rs
        decreases |dirtyRecords|
      {
        var c :| c in dirtyRecords;
        dirtyRecords := dirtyRecords - {c};
        if c in records {
          rs := rs + [records[c]];
        }
      }
    }

    method TakeProvisional() returns (ps: seq<Provisional>)
      requires forall k :: k in provisional ==> KeyOf(provisional[k]) == k
      modifies `dirtyProvisional
      ensures dirtyProvisional == {} && DistinctKeys(ps)
      ensures forall p :: p in ps ==> KeyOf(p) in provisional && provisional[KeyOf(p)] == p
      ensures forall k :: k in old(dirtyProvisional) && k in provisional ==> provisional[k] in ps
    {
      ps := [];
      while dirtyProvisional != {}
        invariant dirtyProvisional <= old(dirtyProvisional) && DistinctKeys(ps)
        invariant forall p :: p in ps ==>
                    KeyOf(p) !in dirtyProvisional && KeyOf(p) in provisional && provisional[KeyOf(p)] == p
        invariant forall k :: k in old(dirtyProvisional) - dirtyProvisional && k in provisional ==> provisional[k] in ps
        decreases |dirtyProvisional|
      {
        var k :| k in dirtyProvisional;
        dirtyProvisional := dirtyProvisional - {k};
        if k in provisional {
          ps := ps + [provisional[k]];
        }
      }
    }

    /** Replaces everything by validated lists; refuses an invalid document untouched. */
    method ReplaceReferences(ms: seq<Record>, ps: seq<Provisional>) returns (ok: bool)
      modifies `records, `provisional, `dirtyRecords, `dirtyProvisional, `forceCompaction
      ensures ok <==> ListsValid(ms, ps)
      ensures ok ==> Enumerates(Contents(), ms, ps) && forceCompaction
      ensures !ok ==> Contents() == old(Contents()) && dirtyRecords == old(dirtyRecords)
                      && dirtyProvisional == old(dirtyProvisional) && forceCompaction == old(forceCompaction)
    {
      ok := IsRelationallyValid(ms, ps);
      if !ok {
        return;
      }
      ListsValidDistinct(ms, ps);
      records, provisional := map[], map[];
      for i := 0 to |ms|
        modifies `records, `dirtyRecords
        invariant records == RecordsInto(map[], ms[..i])
      {
        assert ms[..i + 1][..i] == ms[..i];
        records := records[ms[i].chatId := ms[i]];
        dirtyRecords := dirtyRecords + {ms[i].chatId};
      }
      for i := 0 to |ps|
        modifies `provisional, `dirtyProvisional
        invariant provisional == ProvisionalInto(map[], ps[..i])
      {
        assert ps[..i + 1][..i] == ps[..i];
        provisional := provisional[KeyOf(ps[i]) := ps[i]];
        dirtyProvisional := dirtyProvisional + {KeyOf(ps[i])};
      }
      assert ms[..|ms|] == ms && ps[..|ps|] == ps;
      forceCompaction := true;
    }

    // ---------------------------------------------------------------- lookup

    /** First match in the active journal, then along the retired lineages. */
    method FindOperation(chatId: string, name: string) returns (found: Option<Operation>)
      ensures found == LookupOperation(Contents(), chatId, name)
    {
      if chatId !in records {
        return None;
      }
      var record := records[chatId];
      FirstNamedConcat(record.journal, ChainOps(Root(record.reassignment)), name);
      found := FirstNamed(record.journal, name);
      if found.None? {
        found := SearchChain(Root(record.reassignment), name);
      }
    }

    // ------------------------------------------------------------- operations

    method Store(input: Input) returns (outcome: Outcome)
      requires Tracked()
      modifies `records, `dirtyRecords
      ensures Step(Contents(), outcome) == StoreStep(old(Contents()), input)
      ensures Tracked()
    {
      var existing := Contents().RecordOf(input.chatId);
      if existing.Some? && existing.value.projectId != input.projectId {
        return Rejected(OtherProject);
      }
      if exists k :: k in provisional && ConflictingProject(existing, input, provisional[k]) {
        return Rejected(OtherProject);
      }
      var prior := JournalFor(existing);
      if !Fenced(prior, input.journal) {
        return Rejected(IdentityConflict);
      }
      var journal := AppendJournal(if existing.Some? then existing.value.journal else [], input.journal);
      if journal.None? {
        return Rejected(IdentityConflict);
      }
      var next;
      if existing.None? {
        next := CreateRecord(input, journal.value);
      } else {
        var i := IndexOf(journal.value, input.operationId);
        if i < |journal.value| && (journal.value[i].state.Conflict? || journal.value[i].state.Uncertain?) {
          return Rejected(NeedsReconciliation);
        }
        next := UpdateRecord(input, existing.value, journal.value);
      }
      SetRecord(next.chatId, next);
      return Accepted;
    }

    method BeginProjectReassignment(chatId: string, current: string, next: string, target: Option<Target>)
      returns (outcome: Outcome)
      requires Tracked()
      modifies `records, `dirtyRecords
      ensures Step(Contents(), outcome) == BeginReassignmentStep(old(Contents()), chatId, current, next, target)
      ensures Tracked()
    {
      if chatId !in records || records[chatId].projectId != current {
        return Rejected(UnknownChat);
      }
      if current == next {
        return Rejected(SameProject);
      }
      var existing := records[chatId];
      if (exists k :: k in provisional && provisional[k].chatId == existing.chatId && !provisional[k].state.Complete?)
         || (exists o :: o in existing.journal && !o.state.Complete?) {
        return Rejected(NeedsReconciliation);
      }
      var prior := existing.reassignment;
      if prior.Some? && prior.value.state.InProgress? &&
         (prior.value.sourceProjectId != current || prior.value.targetProjectId != next) {
        return Rejected(UnrelatedReassignment);
      }
      if target.Some? && !target.value.oid.WellFormed() {
        return Rejected(InvalidTarget);
      }
      SetRecord(chatId, existing.(reassignment :=
        Some(Reassignment(InProgress, current, next, target, None, RetainedTombstone(prior)))));
      return Accepted;
    }

    method RollbackProjectReassignment(chatId: string, current: string) returns (outcome: Outcome)
      requires Tracked()
      modifies `records, `dirtyRecords, `provisional, `dirtyProvisional
      ensures Step(Contents(), outcome) == RollbackStep(old(Contents()), chatId, current)
      ensures Tracked()
    {
      if !CanRollBack(Contents(), chatId, current) {
        return Rejected(UnknownChat);
      }
      var existing := records[chatId];
      var reassignment := existing.reassignment.value;
      if reassignment.target.Some? {
        var key := Key(chatId, reassignment.target.value.oid.Ingress());
        if key in provisional && provisional[key].state.Pending? {
          SetProvisional(key, provisional[key].(state := Uncertain, detail := Some(ROLLBACK_DETAIL)));
        }
      }
      SetRecord(chatId, existing.(reassignment := Some(reassignment.(state := RolledBack))));
      return Accepted;
    }

    method Reserve(op: Draft) returns (outcome: Outcome)
      requires Tracked()
      modifies `records, `dirtyRecords, `provisional, `dirtyProvisional
      ensures Step(Contents(), outcome) == ReserveStep(old(Contents()), op)
      ensures Tracked()
    {
      var record := Contents().RecordOf(op.chatId);
      if record.Some? && record.value.projectId != op.projectId {
        if !MayReserve(record, op) {
          return Rejected(OtherProject);
        }
        if record.value.reassignment.value.target.None? {
          SetRecord(op.chatId, record.value.(reassignment :=
            Some(record.value.reassignment.value.(target := Some(Target(op.oid, op.kind, op.detail))))));
        }
      }
      var key := Key(op.chatId, op.oid.Ingress());
      if key in provisional {
        var prior := provisional[key];
        if prior.kind != op.kind || prior.projectId != op.projectId || prior.detail != op.detail {
          return Rejected(IdentityConflict);
        }
        return Rejected(NeedsReconciliation);
      }
      var journal := JournalFor(record);
      if AnyCollision(op.oid, journal) || AnyProvisionalCollision(op.oid, provisional) {
        return Rejected(IdentityConflict);
      }
      if AnyOverlap(op.oid, journal) {
        return Rejected(NeedsReconciliation);
      }
      SetProvisional(key, Reserved(op));
      return Accepted;
    }

    method Publish(op: Draft, mapping: Input) returns (outcome: Outcome)
      requires Tracked()
      modifies `records, `dirtyRecords, `provisional, `dirtyProvisional
      ensures Step(Contents(), outcome) == PublishStep(old(Contents()), op, mapping)
      ensures Tracked()
    {
      var record := Contents().RecordOf(op.chatId);
      var key := Key(op.chatId, op.oid.Ingress());
      if !PublishableProject(record, op, mapping) {
        if InProgress?(record) && mapping.projectId != record.value.projectId {
          return Rejected(TargetMismatch);
        }
        return Rejected(OtherProject);
      }
      if !PublishableReservation(op, Contents().ProvisionalAt(key)) {
        return Rejected(NeedsReconciliation);
      }
      var journal := JournalFor(record);
      if AnyCollision(op.oid, journal) || AnyProvisionalCollision(op.oid, provisional - {key}) {
        return Rejected(IdentityConflict);
      }
      var reserved := provisional[key];
      if CommitsReassignment(record, mapping) {
        SetRecord(op.chatId, CommittedRecord(record.value, op, mapping));
        SetProvisional(key, reserved.(state := Complete));
        return Accepted;
      }
      outcome := Store(mapping.(journal := [PublishedOperation(op, mapping)]));
      if outcome.Accepted? {
        SetProvisional(key, reserved.(state := Complete));
      }
    }

    method TransitionProvisional(chatId: string, ingress: string, state: OperationState, detail: Option<string>)
      returns (outcome: Outcome)
      requires Tracked()
      modifies `provisional, `dirtyProvisional
      ensures Step(Contents(), outcome) == TransitionProvisionalStep(old(Contents()), chatId, ingress, state, detail)
      ensures Tracked()
    {
      var key := Key(chatId, ingress);
      if key !in provisional {
        return Rejected(UnknownOperation);
      }
      var current := provisional[key];
      if current.state.Complete? && !state.Complete? {
        return Rejected(CompletedImmutable);
      }
      SetProvisional(key, MovedProvisional(current, state, detail));
      return Accepted;
    }

    method AttachProvisional(chatId: string, ingress: string,
                             sessionId: Option<string>, sessionFile: Option<string>, attachment: Option<string>)
      returns (outcome: Outcome)
      requires Tracked()
      modifies `provisional, `dirtyProvisional
      ensures Step(Contents(), outcome) ==
          AttachStep(old(Contents()), chatId, ingress, sessionId, sessionFile, attachment)
      ensures Tracked()
    {
      var key := Key(chatId, ingress);
      if key !in provisional || !provisional[key].state.Pending? {
        return Rejected(NeedsReconciliation);
      }
      if sessionId.None? || attachment.None? {
        return Rejected(MissingProof);
      }
      var current := provisional[key];
      if sessionFile.Some? {
        current := current.(sessionFile := sessionFile);
      }
      SetProvisional(key, current.(sessionId := sessionId, attachment := attachment));
      return Accepted;
    }

    method BeginOperation(chatId: string, oid: OperationId, kind: OperationKind, detail: Option<string>)
      returns (outcome: Outcome)
      requires Tracked()
      modifies `records, `dirtyRecords
      ensures Step(Contents(), outcome) == BeginStep(old(Contents()), chatId, oid, kind, detail)
      ensures Tracked()
    {
      if chatId !in records {
        return Rejected(UnknownChat);
      }
      var record := records[chatId];
      var i := FirstOverlap(record.journal, oid);
      if i < |record.journal| {
        if record.journal[i].oid != oid || record.journal[i].kind != kind {
          return Rejected(IdentityConflict);
        }
        return Accepted;
      }
      if InProgress?(Some(record)) {
        return Rejected(ReassignmentPending);
      }
      if AnyProvisionalCollision(oid, provisional) {
        return Rejected(IdentityConflict);
      }
      if AnyProvisionalOverlap(oid, provisional) {
        return Rejected(NeedsReconciliation);
      }
      SetRecord(chatId, record.(journal := record.journal + [Operation(oid, kind, Pending, detail, None, None)]));
      return Accepted;
    }

    method AcknowledgeSuccessor(chatId: string, name: string, hash: string, successor: Successor)
      returns (outcome: Outcome)
      requires Tracked()
      modifies `records, `dirtyRecords
      ensures Step(Contents(), outcome) == AcknowledgeStep(old(Contents()), chatId, name, hash, successor)
      ensures Tracked()
    {
      if chatId !in records {
        return Rejected(UnknownChat);
      }
      var record := records[chatId];
      var i := IndexOf(record.journal, name);
      if i == |record.journal| {
        return Rejected(NeedsReconciliation);
      }
      var current := record.journal[i];
      if (!current.kind.Create? && !current.kind.Branch?) || (!current.state.Pending? && !current.state.Uncertain?)
         || current.detail != Some(hash) {
        return Rejected(NeedsReconciliation);
      }
      if current.successor.Some? {
        if current.successor.value != successor {
          return Rejected(ConflictingSuccessor);
        }
        return Accepted;
      }
      SetRecord(chatId, record.(journal := record.journal[i := current.(successor := Some(successor))]));
      return Accepted;
    }

    method TransitionOperation(chatId: string, name: string, state: OperationState,
                               detail: Option<string>, result: Option<OperationResult>)
      returns (outcome: Outcome)
      requires Tracked()
      modifies `records, `dirtyRecords
      ensures Step(Contents(), outcome) == TransitionStep(old(Contents()), chatId, name, state, detail, result)
      ensures Tracked()
    {
      if chatId !in records {
        return Rejected(UnknownChat);
      }
      var record := records[chatId];
      var i := IndexOf(record.journal, name);
      if i == |record.journal| {
        return Rejected(UnknownOperation);
      }
      var current := record.journal[i];
      if NeedsSuccessorEvidence(current, state, detail, result) {
        return Rejected(NeedsReconciliation);
      }
      if current.state.Complete? && !state.Complete? {
        return Rejected(CompletedImmutable);
      }
      if state.Complete? && result.None? && current.result.None? {
        return Rejected(ResultRequired);
      }
      if !state.Complete? && result.Some? {
        return Rejected(ResultForbidden);
      }
      var moved := current.(state := state);
      if state.Complete? {
        moved := moved.(successor := None);
      }
      if detail.Some? {
        moved := moved.(detail := detail);
      }
      if result.Some? {
        moved := moved.(result := result);
      }
      SetRecord(chatId, record.(journal := record.journal[i := moved]));
      return Accepted;
    }

    // ---------------------------------------------------------------- restart

    method Reconcile()
      requires WellKeyed(Contents()) && Tracked()
      modifies `records, `dirtyRecords, `provisional, `dirtyProvisional
      ensures Contents() == ReconcileStep(old(Contents())) && Tracked()
    {
      var changedRecords, changedProvisional;
      records, changedRecords := RestartRecords(records);
      provisional, changedProvisional := RestartProvisional(provisional);
      dirtyRecords := dirtyRecords + changedRecords;
      dirtyProvisional := dirtyProvisional + changedProvisional;
    }

    // --------------------------------------------------------------- commands

    /** One public mutation.  A rejected command may leave a trace here; the file authority undoes it. */
    method Mutate(cmd: Command) returns (outcome: Outcome)
      requires Tracked()
      modifies `records, `dirtyRecords, `provisional, `dirtyProvisional
      ensures Step(Contents(), outcome) == StepOf(old(Contents()), cmd)
      ensures Tracked()
    {
      match cmd {
        case Store(input) => outcome := Store(input);
        case BeginReassignment(chatId, current, next, target) =>
          outcome := BeginProjectReassignment(chatId, current, next, target);
        case RollBack(chatId, current) => outcome := RollbackProjectReassignment(chatId, current);
        case ReserveOperation(op) => outcome := Reserve(op);
        case Attach(chatId, ingress, sessionId, sessionFile, attachment) =>
          outcome := AttachProvisional(chatId, ingress, sessionId, sessionFile, attachment);
        case MoveProvisional(chatId, ingress, state, detail) =>
          outcome := TransitionProvisional(chatId, ingress, state, detail);
        case Publish(op, mapping) => outcome := Publish(op, mapping);
        case Begin(chatId, oid, kind, detail) => outcome := BeginOperation(chatId, oid, kind, detail);
        case Acknowledge(chatId, name, hash, successor) =>
          outcome := AcknowledgeSuccessor(chatId, name, hash, successor);
        case Transition(chatId, name, state, detail, result) =>
          outcome := TransitionOperation(chatId, name, state, detail, result);
        case CompleteWithMapping(chatId, name, hash, mapping, result) =>
          outcome := TransitionOperation(chatId, name, Complete, Some(hash), Some(result));
          if outcome.Accepted? {
            outcome := Store(mapping);
          }
      }
    }
  }
}
