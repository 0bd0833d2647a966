/** When each journal operation is accepted, and every field it writes. */
module JournalAcceptance {
  import opened AuthorityTypes
  import opened RelationalValidity
  import opened JournalSteps
  import opened JournalInvariant
  import opened JournalSafety
  import opened ReassignmentSafety
  import opened JournalEffects

  // ------------------------------------------------------------------ names

  /** One of the two names of the one is one of the other's. */
  predicate ShareName(a: OperationId, b: OperationId) {
    a.id == b.id || a.id == b.Ingress() || a.Ingress() == b.id || a.Ingress() == b.Ingress()
  }

  predicate SameNames(a: OperationId, b: OperationId) {
    a.id == b.id && a.Ingress() == b.Ingress()
  }

  lemma OverlapIsShared(a: OperationId, b: OperationId)
    ensures Overlap(a, b) <==> ShareName(a, b)
    ensures a.Identity() == b.Identity() <==> SameNames(a, b)
  {
    if Overlap(a, b) {
      var x :| x in a.Identifiers() * b.Identifiers();
    }
    assert a.id in a.Identifiers() && a.Ingress() in a.Identifiers();
    assert a.id == b.id ==> a.id in a.Identifiers() * b.Identifiers();
    assert a.id == b.Ingress() ==> a.id in a.Identifiers() * b.Identifiers();
    assert a.Ingress() == b.id ==> b.id in a.Identifiers() * b.Identifiers();
    assert a.Ingress() == b.Ingress() ==> a.Ingress() in a.Identifiers() * b.Identifiers();
  }

  /** No operation of the list shares a name with this one. */
  predicate Unshared(oid: OperationId, ops: seq<Operation>) {
    forall o :: o in ops ==> !ShareName(oid, o.oid)
  }

  /** Whatever shares a name with it is the very operation. */
  predicate OnlyItself(oid: OperationId, ops: seq<Operation>) {
    forall o :: o in ops && ShareName(oid, o.oid) ==> SameNames(oid, o.oid)
  }

  ghost predicate UnsharedByReservations(oid: OperationId, ps: map<Key, Provisional>) {
    forall k :: k in ps ==> !ShareName(oid, ps[k].oid)
  }

  ghost predicate ReservedOnlyAsItself(oid: OperationId, ps: map<Key, Provisional>) {
    forall k :: k in ps && ShareName(oid, ps[k].oid) ==> SameNames(oid, ps[k].oid)
  }

  lemma SharedNames(oid: OperationId, ops: seq<Operation>, ps: map<Key, Provisional>)
    ensures AnyOverlap(oid, ops) <==> !Unshared(oid, ops)
    ensures AnyCollision(oid, ops) <==> !OnlyItself(oid, ops)
    ensures AnyProvisionalOverlap(oid, ps) <==> !UnsharedByReservations(oid, ps)
    ensures AnyProvisionalCollision(oid, ps) <==> !ReservedOnlyAsItself(oid, ps)
  {
    forall o: Operation
      ensures Overlap(oid, o.oid) <==> ShareName(oid, o.oid)
      ensures oid.Identity() == o.oid.Identity() <==> SameNames(oid, o.oid)
    {
      OverlapIsShared(oid, o.oid);
    }
    forall p: Provisional
      ensures Overlap(oid, p.oid) <==> ShareName(oid, p.oid)
      ensures oid.Identity() == p.oid.Identity() <==> SameNames(oid, p.oid)
    {
      OverlapIsShared(oid, p.oid);
    }
    ListedNames(oid, ops);
  }

  lemma ListedNames(oid: OperationId, ops: seq<Operation>)
    ensures AnyOverlap(oid, ops) <==> exists o :: o in ops && Overlap(oid, o.oid)
    ensures AnyCollision(oid, ops) <==>
              exists o :: o in ops && Overlap(oid, o.oid) && oid.Identity() != o.oid.Identity()
  {
    if o :| o in ops && Overlap(oid, o.oid) {
      var i :| 0 <= i < |ops| && ops[i] == o;
      assert Overlap(oid, ops[i].oid);
    }
    if o :| o in ops && Overlap(oid, o.oid) && oid.Identity() != o.oid.Identity() {
      var i :| 0 <= i < |ops| && ops[i] == o;
      assert Overlap(oid, ops[i].oid) && oid.Identity() != ops[i].oid.Identity();
    }
  }

  // ------------------------------------------------------ active operations

  /** A begin is accepted for a chat that is there: as a repeat of an operation of its active journal with
      the same ids and kind, or anew where no project change is pending and no operation of that journal
      and no reservation of any chat shares a name. */
  lemma BeginAccepted(d: Document, chatId: string, oid: OperationId, kind: OperationKind, detail: Option<string>)
    requires Inv(d)
    ensures BeginStep(d, chatId, oid, kind, detail).outcome.Accepted? <==>
            && chatId in d.records
            && var journal := d.records[chatId].journal;
               || (exists o :: o in journal && o.oid == oid && o.kind == kind)
               || (Unshared(oid, journal) && !InProgress?(Some(d.records[chatId]))
                   && UnsharedByReservations(oid, d.provisional))
    ensures chatId in d.records && !Unshared(oid, d.records[chatId].journal) ==>
              BeginStep(d, chatId, oid, kind, detail).doc == d
  {
    if chatId in d.records {
      var journal := d.records[chatId].journal;
      var i := FirstOverlap(journal, oid);
      SharedNames(oid, journal, d.provisional);
      FirstOverlapNone(journal, oid);
      assert RecordOk(d.records[chatId]);
      UniquePrefixOf(journal, ChainOps(Root(d.records[chatId].reassignment)));
      RepeatIsFirst(journal, oid);
    }
  }

  lemma RepeatIsFirst(journal: seq<Operation>, oid: OperationId)
    requires Unique(journal)
    ensures var i := FirstOverlap(journal, oid);
            forall o :: o in journal && o.oid == oid ==> i < |journal| && journal[i] == o
    ensures (exists o :: o in journal && o.oid == oid) ==> !Unshared(oid, journal)
  {
    forall o | o in journal && o.oid == oid
      ensures FirstOverlap(journal, oid) < |journal| && journal[FirstOverlap(journal, oid)] == o
    {
      var j :| 0 <= j < |journal| && journal[j] == o;
      FirstOverlapIs(journal, oid, j);
    }
  }

  /** An uncertain create completes as its acknowledged successor's own. */
  predicate SuccessorEvidence(o: Operation, detail: Option<string>, result: Option<OperationResult>) {
    && o.kind.Create? && o.successor.Some? && detail == o.detail && result.Some?
    && result.value.kind.ControlResult? && result.value.mapping.operationId == o.oid.id
    && result.value.mapping.sessionId == o.successor.value.sessionId && result.value.mapping.sessionFile.Some?
    && result.value.mapping.attachment == Some(o.successor.value.attachment)
  }

  /** A transition is accepted for an operation of the active journal that is not taken back from complete;
      a result is given or bound already exactly where it completes, and an uncertain one completes on its
      successor's evidence only. */
  lemma TransitionAccepted(d: Document, chatId: string, name: string, state: OperationState,
                           detail: Option<string>, result: Option<OperationResult>)
    ensures TransitionStep(d, chatId, name, state, detail, result).outcome.Accepted? <==>
            && chatId in d.records && FirstNamed(d.records[chatId].journal, name).Some?
            && var o := FirstNamed(d.records[chatId].journal, name).value;
               if state.Complete? then
                 && (result.Some? || o.result.Some?)
                 && (o.state.Uncertain? ==> SuccessorEvidence(o, detail, result))
               else !o.state.Complete? && result.None?
  {
  }

  /** A successor is acknowledged for an open create or branch of the active journal under its own hash,
      once. */
  lemma AcknowledgeAccepted(d: Document, chatId: string, name: string, hash: string, successor: Successor)
    ensures AcknowledgeStep(d, chatId, name, hash, successor).outcome.Accepted? <==>
            && chatId in d.records && FirstNamed(d.records[chatId].journal, name).Some?
            && var o := FirstNamed(d.records[chatId].journal, name).value;
               && (o.kind.Create? || o.kind.Branch?) && (o.state.Pending? || o.state.Uncertain?)
               && o.detail == Some(hash) && (o.successor.Some? ==> o.successor.value == successor)
  {
  }

  // ----------------------------------------------------- project reassignment

  /** Nothing of the chat is under way. */
  ghost predicate AllComplete(d: Document, chatId: string) {
    && (forall k :: k in d.provisional && d.provisional[k].chatId == chatId ==> d.provisional[k].state.Complete?)
    && (chatId in d.records ==> forall o :: o in d.records[chatId].journal ==> o.state.Complete?)
  }

  /** A reassignment begins from the chat's own project to another one while nothing is under way; a pending
      one may be begun again between the same projects only.  The marker names both and the target, keeps
      what was retired before unless it overwrites a pending one, and nothing else changes. */
  lemma BeginReassignmentAccepted(d: Document, chatId: string, current: string, next: string, target: Option<Target>)
    requires Inv(d)
    ensures var s := BeginReassignmentStep(d, chatId, current, next, target);
            && (s.outcome.Accepted? <==>
                  && chatId in d.records && d.records[chatId].projectId == current && current != next
                  && AllComplete(d, chatId)
                  && (InProgress?(Some(d.records[chatId])) ==>
                        && d.records[chatId].reassignment.value.sourceProjectId == current
                        && d.records[chatId].reassignment.value.targetProjectId == next)
                  && (target.Some? ==> target.value.oid.id != "" && target.value.oid.ingressId != Some("")))
            && (s.outcome.Rejected? ==> s.doc == d)
            && (s.outcome.Accepted? ==>
                  && s.doc.provisional == d.provisional && s.doc.records.Keys == d.records.Keys
                  && (forall c :: c in d.records && c != chatId ==> s.doc.records[c] == d.records[c])
                  && var r, r' := d.records[chatId], s.doc.records[chatId];
                  && r' == r.(reassignment := r'.reassignment) && r'.reassignment.Some?
                  && var marker := r'.reassignment.value;
                  && marker.state.InProgress? && marker.sourceProjectId == current && marker.targetProjectId == next
                  && marker.target == target && marker.sourceTombstone.None?
                  && marker.priorTombstone == (if InProgress?(Some(r)) then None else Root(r.reassignment)))
  {
    if chatId in d.records {
      assert RecordOk(d.records[chatId]);
      RetainedIsRoot(d.records[chatId]);
    }
  }

  /** A roll back is accepted for the pending reassignment of the chat's own project.  The marker says so;
      a pending reservation of the target is left uncertain with the evidence noted; nothing else changes. */
  lemma RollbackAccepted(d: Document, chatId: string, current: string)
    requires Inv(d)
    ensures var s := RollbackStep(d, chatId, current);
            && (s.outcome.Accepted? <==>
                  && chatId in d.records && d.records[chatId].projectId == current
                  && InProgress?(Some(d.records[chatId])))
            && (s.outcome.Rejected? ==> s.doc == d)
            && (s.outcome.Accepted? ==>
                  && s.doc.records.Keys == d.records.Keys && s.doc.provisional.Keys == d.provisional.Keys
                  && (forall c :: c in d.records && c != chatId ==> s.doc.records[c] == d.records[c])
                  && var marker := d.records[chatId].reassignment.value;
                  && s.doc.records[chatId] ==
                       d.records[chatId].(reassignment := Some(marker.(state := RolledBack)))
                  && (forall k :: k in d.provisional ==>
                        s.doc.provisional[k] ==
                          if marker.target.Some? && k == Key(chatId, marker.target.value.oid.Ingress())
                             && d.provisional[k].state.Pending?
                          then d.provisional[k].(state := Uncertain,
                            detail := Some("project reassignment rolled back; external effect evidence retained"))
                          else d.provisional[k]))
  {
    if chatId in d.records {
      assert RecordOk(d.records[chatId]);
    }
  }

  // ------------------------------------------------------------ reservations

  /** The chat has no record, or one of this project, or is moving to this project for this very target. */
  predicate MayTake(r: Option<Record>, op: Draft) {
    r.None? || r.value.projectId == op.projectId ||
    (InProgress?(r) && r.value.reassignment.value.targetProjectId == op.projectId &&
     (r.value.reassignment.value.target.Some? ==>
        var t := r.value.reassignment.value.target.value;
        SameNames(op.oid, t.oid) && op.kind == t.kind && op.detail == t.detail))
  }

  /** A reservation is accepted where its chat may take it, none is stored under its ingress, no operation of
      the chat shares a name and no reservation of any chat does but as itself.  It is found pending with
      everything it was handed over with.  A move without a target is pinned to it, even if it is refused
      for its names. */
  lemma ReserveAccepted(d: Document, op: Draft)
    ensures var s, k := ReserveStep(d, op), Key(op.chatId, op.oid.Ingress());
            && (s.outcome.Accepted? <==>
                  && MayTake(d.RecordOf(op.chatId), op) && k !in d.provisional
                  && Unshared(op.oid, LineageOf(d.RecordOf(op.chatId)))
                  && ReservedOnlyAsItself(op.oid, d.provisional))
            && (s.outcome.Rejected? ==> s.doc.provisional == d.provisional)
            && (s.outcome.Accepted? ==>
                  && s.doc.provisional.Keys == d.provisional.Keys + {k}
                  && (forall j :: j in d.provisional ==> s.doc.provisional[j] == d.provisional[j])
                  && var p := s.doc.provisional[k];
                  && p.oid == op.oid && p.kind == op.kind && p.state.Pending? && p.detail == op.detail
                  && p.result.None? && p.chatId == op.chatId && p.projectId == op.projectId
                  && p.sessionId == op.sessionId && p.sessionFile == op.sessionFile && p.attachment == op.attachment)
  {
    SharedNames(op.oid, LineageOf(d.RecordOf(op.chatId)), d.provisional);
    ReserveTakes(d, op);
    SharedIsCollision(op.oid, LineageOf(d.RecordOf(op.chatId)));
  }

  lemma SharedIsCollision(oid: OperationId, ops: seq<Operation>)
    ensures AnyCollision(oid, ops) ==> AnyOverlap(oid, ops)
  {
  }

  lemma ReserveTakes(d: Document, op: Draft)
    ensures MayReserve(d.RecordOf(op.chatId), op) <==> MayTake(d.RecordOf(op.chatId), op)
  {
  }

  /** What a reservation, accepted or not, does to the records: a move of its chat to its project that names
      no target yet is pinned to it, and nothing else changes. */
  lemma ReservePins(d: Document, op: Draft)
    ensures var s, r := ReserveStep(d, op), d.RecordOf(op.chatId);
            var pins := MayTake(r, op) && r.Some? && r.value.projectId != op.projectId
              && r.value.reassignment.value.target.None?;
            && s.doc.records.Keys == d.records.Keys
            && (forall c :: c in d.records && c != op.chatId ==> s.doc.records[c] == d.records[c])
            && (pins ==>
                  var t := s.doc.records[op.chatId].reassignment;
                  && t.Some? && s.doc.records[op.chatId] == r.value.(reassignment := t)
                  && t.value == r.value.reassignment.value.(target := t.value.target) && t.value.target.Some?
                  && t.value.target.value.oid == op.oid && t.value.target.value.kind == op.kind
                  && t.value.target.value.detail == op.detail)
            && (!pins ==> s.doc.records == d.records)
  {
    ReserveTakes(d, op);
  }

  /** Proof is attached to a pending reservation, whole: session and pane, with a session file if one is
      given.  Nothing else of it changes, and nothing else. */
  lemma AttachAccepted(d: Document, chatId: string, ingress: string,
                       sessionId: Option<string>, sessionFile: Option<string>, attachment: Option<string>)
    ensures var s, k := AttachStep(d, chatId, ingress, sessionId, sessionFile, attachment), Key(chatId, ingress);
            && (s.outcome.Accepted? <==>
                  k in d.provisional && d.provisional[k].state.Pending? && sessionId.Some? && attachment.Some?)
            && (s.outcome.Rejected? ==> s.doc == d)
            && (s.outcome.Accepted? ==>
                  && s.doc.records == d.records && s.doc.provisional.Keys == d.provisional.Keys
                  && (forall j :: j in d.provisional && j != k ==> s.doc.provisional[j] == d.provisional[j])
                  && var p, q := d.provisional[k], s.doc.provisional[k];
                  && q.sessionId == sessionId && q.attachment == attachment
                  && q.sessionFile == (if sessionFile.Some? then sessionFile else p.sessionFile)
                  && q.oid == p.oid && q.kind == p.kind && q.state == p.state && q.detail == p.detail
                  && q.result == p.result && q.chatId == p.chatId && q.projectId == p.projectId)
  {
  }

  /** A reservation moves to any state, but not back from complete.  It keeps its detail unless it is given a
      new one, and nothing else changes. */
  lemma MoveAccepted(d: Document, chatId: string, ingress: string, state: OperationState, detail: Option<string>)
    ensures var s, k := TransitionProvisionalStep(d, chatId, ingress, state, detail), Key(chatId, ingress);
            && (s.outcome.Accepted? <==>
                  k in d.provisional && (d.provisional[k].state.Complete? ==> state.Complete?))
            && (s.outcome.Rejected? ==> s.doc == d)
            && (s.outcome.Accepted? ==>
                  && s.doc.records == d.records && s.doc.provisional.Keys == d.provisional.Keys
                  && (forall j :: j in d.provisional && j != k ==> s.doc.provisional[j] == d.provisional[j])
                  && var p, q := d.provisional[k], s.doc.provisional[k];
                  && q.state == state && q.detail == (if detail.Some? then detail else p.detail)
                  && q == p.(state := q.state, detail := q.detail))
  {
  }

  /** A publication is accepted for a pending reservation handed over as it was reserved: into the chat's own
      project, or, while the chat moves, into the target's project as the very target.  Of its names only
      it may be known; and where it does not commit, its mapping must be storable. */
  lemma PublishAccepted(d: Document, op: Draft, mapping: Input)
    ensures var r, k := d.RecordOf(op.chatId), Key(op.chatId, op.oid.Ingress());
            PublishStep(d, op, mapping).outcome.Accepted? <==>
            && (r.None? || mapping.projectId == r.value.projectId ||
                (InProgress?(r) && mapping.projectId == r.value.reassignment.value.targetProjectId
                 && r.value.reassignment.value.target.Some?
                 && var t := r.value.reassignment.value.target.value;
                    SameNames(op.oid, t.oid) && op.kind == t.kind && op.detail == t.detail))
            && k in d.provisional
            && var p := d.provisional[k];
            && p.state.Pending? && SameNames(p.oid, op.oid) && p.kind == op.kind && p.projectId == op.projectId
            && p.detail == op.detail
            && OnlyItself(op.oid, LineageOf(r)) && ReservedOnlyAsItself(op.oid, d.provisional - {k})
            && ((InProgress?(r) && mapping.projectId == r.value.reassignment.value.targetProjectId) ||
                StoreStep(d, Publication(op, mapping)).outcome.Accepted?)
  {
    SharedNames(op.oid, LineageOf(d.RecordOf(op.chatId)), d.provisional - {Key(op.chatId, op.oid.Ingress())});
  }

  // ------------------------------------------------------------------ stores

  /** A reservation of another project that ties the chat to it: not a complete one of a project the chat has
      left, nor the unsettled target of a move that was rolled back. */
  predicate TiesElsewhere(r: Option<Record>, input: Input, p: Provisional) {
    && p.chatId == input.chatId && p.projectId != input.projectId
    && !(p.state.Complete? && r.Some? && ChainHasProject(Root(r.value.reassignment), p.projectId))
    && !(r.Some? && r.value.reassignment.Some? && r.value.reassignment.value.state.RolledBack?
         && r.value.reassignment.value.targetProjectId == p.projectId && r.value.reassignment.value.target.Some?
         && (p.state.Uncertain? || p.state.Conflict?)
         && var t := r.value.reassignment.value.target.value;
            SameNames(p.oid, t.oid) && p.kind == t.kind && p.detail == t.detail)
  }

  /** A mapping is stored for a new chat or one of its project that no reservation ties elsewhere, if the
      operations it carries can be appended and are known as themselves or not at all, and the operation it
      stands for is not in conflict and not uncertain. */
  lemma StoreAccepted(d: Document, input: Input)
    requires Inv(d)
    ensures var r := d.RecordOf(input.chatId);
            StoreStep(d, input).outcome.Accepted? <==>
            && (r.Some? ==> r.value.projectId == input.projectId)
            && (forall k :: k in d.provisional ==> !TiesElsewhere(r, input, d.provisional[k]))
            && (forall o :: o in input.journal ==> OnlyItself(o.oid, LineageOf(r)))
            && AppendJournal(ActiveJournal(d, input.chatId), input.journal).Some?
            && (r.Some? ==>
                  var found := FirstNamed(AppendJournal(r.value.journal, input.journal).value, input.operationId);
                  found.Some? ==> !found.value.state.Conflict? && !found.value.state.Uncertain?)
  {
    var r := d.RecordOf(input.chatId);
    forall o | o in input.journal
      ensures var i := FirstOverlap(LineageOf(r), o.oid);
              (i < |LineageOf(r)| ==> LineageOf(r)[i].oid.Identity() == o.oid.Identity()) <==>
              OnlyItself(o.oid, LineageOf(r))
    {
      if r.Some? {
        assert RecordOk(r.value);
      }
      FirstDecides(LineageOf(r), o.oid);
    }
    forall k | k in d.provisional
      ensures ConflictingProject(r, input, d.provisional[k]) <==> TiesElsewhere(r, input, d.provisional[k])
    {
    }
  }

  /** In a lineage the first operation that shares a name decides: were there another, that one would share
      a name with the first. */
  lemma FirstDecides(ops: seq<Operation>, oid: OperationId)
    requires Unique(ops)
    ensures var i := FirstOverlap(ops, oid);
            (i < |ops| ==> ops[i].oid.Identity() == oid.Identity()) <==> OnlyItself(oid, ops)
  {
    var i := FirstOverlap(ops, oid);
    SharedNames(oid, ops, map[]);
    FirstOverlapNone(ops, oid);
    if i < |ops| && ops[i].oid.Identity() == oid.Identity() {
      forall j | 0 <= j < |ops| && Overlap(oid, ops[j].oid)
        ensures j == i
      {
        OverlapIsShared(oid, ops[j].oid);
        OverlapIsShared(ops[i].oid, ops[j].oid);
        OverlapIsShared(ops[j].oid, ops[i].oid);
      }
    }
  }

  /** Whatever shares a name with an incoming operation, before or among them, has its very ids. */
  predicate Compatible(existing: seq<Operation>, incoming: seq<Operation>) {
    forall o, x :: o in incoming && x in existing + incoming && ShareName(o.oid, x.oid) ==> o.oid == x.oid
  }

  /** Operations can be appended if and only if they are compatible with what is there and with each other. */
  lemma {:induction false} AppendAccepted(existing: seq<Operation>, incoming: seq<Operation>)
    requires Unique(existing)
    ensures AppendJournal(existing, incoming).Some? <==> Compatible(existing, incoming)
    decreases |incoming|
  {
    if incoming != [] {
      var o, rest := incoming[0], incoming[1..];
      var i := FirstOverlap(existing, o.oid);
      assert incoming == [o] + rest;
      if i == |existing| {
        FirstOverlapNone(existing, o.oid);
        UniqueMore(existing, o);
        AppendAccepted(existing + [o], rest);
        FirstShares(existing, o, rest);
      } else if existing[i].oid == o.oid {
        AppendAccepted(existing, rest);
        SkippedShares(existing, i, o, rest);
      } else {
        OverlapIsShared(o.oid, existing[i].oid);
        assert existing[i] in existing + incoming && o in incoming;
      }
    }
  }

  lemma FirstShares(existing: seq<Operation>, o: Operation, rest: seq<Operation>)
    requires !AnyOverlap(o.oid, existing)
    ensures Compatible(existing + [o], rest) <==> Compatible(existing, [o] + rest)
  {
    SharedNames(o.oid, existing, map[]);
    assert existing + [o] + rest == existing + ([o] + rest);
    if Compatible(existing + [o], rest) {
      forall p, x | p in [o] + rest && x in existing + ([o] + rest) && ShareName(p.oid, x.oid)
        ensures p.oid == x.oid
      {
        assert p in rest || (p == o && (x == o || (x in rest && ShareName(x.oid, p.oid))));
      }
    }
  }

  lemma SkippedShares(existing: seq<Operation>, i: nat, o: Operation, rest: seq<Operation>)
    requires i < |existing| && existing[i].oid == o.oid && Unique(existing)
    ensures Compatible(existing, rest) <==> Compatible(existing, [o] + rest)
  {
    SharesOnlyItself(existing, i, o.oid);
    assert existing[i] in existing + rest;
    assert forall x :: x in existing + ([o] + rest) <==> x in existing + rest || x == o;
    if Compatible(existing, rest) {
      forall p, x | p in [o] + rest && x in existing + ([o] + rest) && ShareName(p.oid, x.oid)
        ensures p.oid == x.oid
      {
        if p in rest {
          assert x == o ==> ShareName(p.oid, existing[i].oid);
        } else {
          assert p == o && (x in existing || x == o || (x in rest && ShareName(x.oid, existing[i].oid)));
        }
      }
    }
  }

  lemma SharesOnlyItself(ops: seq<Operation>, i: nat, oid: OperationId)
    requires i < |ops| && ops[i].oid == oid && Unique(ops)
    ensures forall x :: x in ops && ShareName(oid, x.oid) ==> x.oid == oid
  {
    forall x | x in ops && ShareName(oid, x.oid)
      ensures x.oid == oid
    {
      var j :| 0 <= j < |ops| && ops[j] == x;
      OverlapIsShared(ops[i].oid, ops[j].oid);
      OverlapIsShared(ops[j].oid, ops[i].oid);
    }
  }

  // ---------------------------------------------------------------- restarts

  /** A restart leaves everything pending uncertain, with a note where it has no detail, and rolls a pending
      move back; everything else stays. */
  lemma RestartReadBack(d: Document)
    ensures var d' := ReconcileStep(d);
            && d'.records.Keys == d.records.Keys && d'.provisional.Keys == d.provisional.Keys
            && (forall k :: k in d.provisional ==>
                  var p, q := d.provisional[k], d'.provisional[k];
                  if p.state.Pending? then
                    q == p.(state := Uncertain,
                            detail := if p.detail.Some? then p.detail else Some("restart before completion"))
                  else q == p)
            && (forall c :: c in d.records ==> RestartsAs(d.records[c], d'.records[c]))
  {
  }

  predicate RestartsAs(r: Record, r': Record) {
    && r' == r.(journal := r'.journal, reassignment := r'.reassignment) && |r'.journal| == |r.journal|
    && (forall i :: 0 <= i < |r.journal| ==>
          var o := r.journal[i];
          r'.journal[i] ==
            if o.state.Pending?
            then o.(state := Uncertain,
                    detail := if o.detail.Some? then o.detail else Some("restart before completion"))
            else o)
    && r'.reassignment ==
         if r.reassignment.Some? && r.reassignment.value.state.InProgress?
         then Some(r.reassignment.value.(state := RolledBack)) else r.reassignment
  }
}
