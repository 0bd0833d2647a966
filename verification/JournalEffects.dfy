/** What can be read back after each accepted journal operation, and what it
    leaves as it was. */
module JournalEffects {
  import opened AuthorityTypes
  import opened RelationalValidity
  import opened JournalSteps
  import opened JournalInvariant
  import opened JournalSafety
  import opened ReassignmentSafety
  import opened JournalRuns

  /** Every name that found an operation other than `oid` still finds the same one. */
  ghost predicate OthersFound(d: Document, d': Document, chatId: string, oid: OperationId) {
    forall c, name ::
      && LookupOperation(d, c, name).Some?
      && (c != chatId || LookupOperation(d, c, name).value.oid != oid) ==>
      LookupOperation(d', c, name) == LookupOperation(d, c, name)
  }

  /** Rewriting one operation of a lineage in place under its own names. */
  lemma RewrittenLineage(a: seq<Operation>, b: seq<Operation>, i: nat)
    requires |a| == |b| && i < |a| && Unique(a) && a[i].oid == b[i].oid
    requires forall j :: 0 <= j < |a| && j != i ==> a[j] == b[j]
    ensures forall name :: FirstNamed(a, name).Some? && FirstNamed(a, name).value.oid != a[i].oid ==>
              FirstNamed(b, name) == FirstNamed(a, name)
    ensures forall name :: name in Names(a[i]) ==> FirstNamed(b, name) == Some(b[i])
  {
    forall name
      ensures IndexOf(b, name) == IndexOf(a, name)
    {
      assert forall j :: 0 <= j < |a| ==> Names(a[j]) == Names(b[j]);
      var x, y := IndexOf(a, name), IndexOf(b, name);
    }
    forall name | name in Names(a[i])
      ensures IndexOf(a, name) == i
    {
      UniqueLookup(a, i, name);
    }
  }

  lemma JournalRewritten(d: Document, d': Document, chatId: string, i: nat, o: Operation)
    requires Inv(d) && chatId in d.records && i < |d.records[chatId].journal|
        && o.oid == d.records[chatId].journal[i].oid
    requires d' == d.(records := d.records[chatId := d.records[chatId].(journal := d.records[chatId].journal[i := o])])
    ensures forall name :: name in Names(o) ==> LookupOperation(d', chatId, name) == Some(o)
    ensures OthersFound(d, d', chatId, o.oid)
  {
    var r, r' := d.records[chatId], d'.records[chatId];
    assert RecordOk(r);
    assert Lineage(r)[i] == r.journal[i] && Lineage(r')[i] == o;
    RewrittenLineage(Lineage(r), Lineage(r'), i);
  }

  /** A transition is read back under every name of the operation: its new state, a given detail
      and result, no successor once complete; nothing else is found differently. */
  lemma TransitionReadBack(d: Document, chatId: string, name: string, state: OperationState,
                           detail: Option<string>, result: Option<OperationResult>)
    requires Inv(d) && TransitionStep(d, chatId, name, state, detail, result).outcome.Accepted?
    ensures var d' := TransitionStep(d, chatId, name, state, detail, result).doc;
            var before, after := LookupOperation(d, chatId, name), LookupOperation(d', chatId, name);
            && before.Some? && after.Some? && after.value.oid == before.value.oid
              && after.value.kind == before.value.kind
            && after.value.state == state
            && after.value.detail == (if detail.Some? then detail else before.value.detail)
            && after.value.result == (if result.Some? then result else before.value.result)
            && (!state.Complete? ==> after.value.successor == before.value.successor)
            && (state.Complete? ==> after.value.successor.None? && after.value.result.Some?)
            && OthersFound(d, d', chatId, before.value.oid)
  {
    var r := d.records[chatId];
    var i := IndexOf(r.journal, name);
    assert RecordOk(r) && Lineage(r)[i] == r.journal[i];
    UniqueLookup(Lineage(r), i, name);
    JournalRewritten(d, TransitionStep(d, chatId, name, state, detail, result).doc, chatId, i,
      Moved(r.journal[i], state, detail, result));
  }

  /** A completion with a mapping is read back as both: the operation complete under its hash with the very
      outcome, and the chat's record as the mapping's. */
  lemma CompleteReadBack(d: Document, chatId: string, name: string, hash: string, mapping: Input,
                         outcome: OperationResult)
    requires Inv(d) && Safe(d, CompleteWithMapping(chatId, name, hash, mapping, outcome))
    requires CompleteWithMappingStep(d, chatId, name, hash, mapping, outcome).outcome.Accepted?
    ensures var d' := CompleteWithMappingStep(d, chatId, name, hash, mapping, outcome).doc;
            var before, after := LookupOperation(d, chatId, name), LookupOperation(d', chatId, name);
            && before.Some? && after.Some? && after.value.oid == before.value.oid
            && after.value.kind == before.value.kind && after.value.state.Complete?
            && after.value.detail == Some(hash) && after.value.result == Some(outcome) && after.value.successor.None?
            && mapping.chatId in d'.records && HoldsMapping(d'.records[mapping.chatId], mapping)
            && d'.provisional == d.provisional && OthersFound(d, d', chatId, before.value.oid)
  {
    var mid := CompletedMid(d, chatId, name, hash, mapping, outcome);
    StoredBehind(d, mid, mapping, chatId, LookupOperation(d, chatId, name).value.oid);
  }

  /** The document between the two halves of a completion with a mapping. */
  lemma CompletedMid(d: Document, chatId: string, name: string, hash: string, mapping: Input, outcome: OperationResult)
    returns (mid: Document)
    requires Inv(d) && Safe(d, CompleteWithMapping(chatId, name, hash, mapping, outcome))
    requires CompleteWithMappingStep(d, chatId, name, hash, mapping, outcome).outcome.Accepted?
    ensures Inv(mid) && StoreSafe(mid, mapping) && mid.provisional == d.provisional
    ensures CompleteWithMappingStep(d, chatId, name, hash, mapping, outcome) == StoreStep(mid, mapping)
    ensures var before, after := LookupOperation(d, chatId, name), LookupOperation(mid, chatId, name);
            && before.Some? && after.Some? && after.value.oid == before.value.oid
            && after.value.kind == before.value.kind && after.value.state.Complete?
            && after.value.detail == Some(hash) && after.value.result == Some(outcome) && after.value.successor.None?
            && OthersFound(d, mid, chatId, before.value.oid)
  {
    mid := TransitionStep(d, chatId, name, Complete, Some(hash), Some(outcome)).doc;
    CompletionParts(d, chatId, name, hash, mapping, outcome);
    CompletionSafe(d, chatId, name, hash, mapping, outcome);
    TransitionKeeps(d, chatId, name, Complete, Some(hash), Some(outcome));
    TransitionReadBack(d, chatId, name, Complete, Some(hash), Some(outcome));
  }

  lemma CompletionParts(d: Document, chatId: string, name: string, hash: string, mapping: Input,
                        outcome: OperationResult)
    requires CompleteWithMappingStep(d, chatId, name, hash, mapping, outcome).outcome.Accepted?
    ensures var first := TransitionStep(d, chatId, name, Complete, Some(hash), Some(outcome));
            && first.outcome.Accepted? && first.doc.provisional == d.provisional
            && CompleteWithMappingStep(d, chatId, name, hash, mapping, outcome) == StoreStep(first.doc, mapping)
  {
  }

  lemma CompletionSafe(d: Document, chatId: string, name: string, hash: string, mapping: Input,
                       outcome: OperationResult)
    requires Safe(d, CompleteWithMapping(chatId, name, hash, mapping, outcome))
    ensures TransitionSafe(d, chatId, name, Complete, Some(outcome))
    ensures StoreSafe(TransitionStep(d, chatId, name, Complete, Some(hash), Some(outcome)).doc, mapping)
  {
  }

  lemma StoredBehind(d: Document, mid: Document, mapping: Input, chatId: string, oid: OperationId)
    requires Inv(mid) && StoreSafe(mid, mapping) && StoreStep(mid, mapping).outcome.Accepted?
    requires OthersFound(d, mid, chatId, oid)
    ensures var d' := StoreStep(mid, mapping).doc;
            && AllFound(mid, d') && OthersFound(d, d', chatId, oid) && d'.provisional == mid.provisional
            && mapping.chatId in d'.records && HoldsMapping(d'.records[mapping.chatId], mapping)
  {
    StoreReadBack(mid, mapping);
  }

  /** An acknowledged successor is read back, and nothing else is found differently. */
  lemma AcknowledgeReadBack(d: Document, chatId: string, name: string, hash: string, successor: Successor)
    requires Inv(d) && AcknowledgeStep(d, chatId, name, hash, successor).outcome.Accepted?
    ensures var d' := AcknowledgeStep(d, chatId, name, hash, successor).doc;
            && LookupOperation(d', chatId, name).Some?
              && LookupOperation(d', chatId, name).value.successor == Some(successor)
            && LookupOperation(d', chatId, name).value.detail == Some(hash)
            && OthersFound(d, d', chatId, LookupOperation(d', chatId, name).value.oid)
  {
    var r := d.records[chatId];
    var i := IndexOf(r.journal, name);
    assert RecordOk(r) && Lineage(r)[i] == r.journal[i];
    AcknowledgeWrites(d, chatId, name, hash, successor);
    JournalRewritten(d, AcknowledgeStep(d, chatId, name, hash, successor).doc, chatId, i,
      r.journal[i].(successor := Some(successor)));
  }

  lemma AcknowledgeWrites(d: Document, chatId: string, name: string, hash: string, successor: Successor)
    requires AcknowledgeStep(d, chatId, name, hash, successor).outcome.Accepted?
    ensures chatId in d.records && IndexOf(d.records[chatId].journal, name) < |d.records[chatId].journal|
    ensures var r := d.records[chatId];
            var i := IndexOf(r.journal, name);
            && AcknowledgeStep(d, chatId, name, hash, successor).doc ==
                 d.(records := d.records[chatId :=
                   r.(journal := r.journal[i := r.journal[i].(successor := Some(successor))])])
            && r.journal[i].detail == Some(hash)
  {
    var r := d.records[chatId];
    var i := IndexOf(r.journal, name);
    if r.journal[i].successor == Some(successor) {
      assert r.journal[i := r.journal[i].(successor := Some(successor))] == r.journal;
      assert d.records[chatId := r] == d.records;
    }
  }

  /** Acknowledging the same successor again is accepted and changes nothing. */
  lemma AcknowledgeAgain(d: Document, chatId: string, name: string, hash: string, successor: Successor)
    requires AcknowledgeStep(d, chatId, name, hash, successor).outcome.Accepted?
    ensures var d' := AcknowledgeStep(d, chatId, name, hash, successor).doc;
            AcknowledgeStep(d', chatId, name, hash, successor) == Step(d', Accepted)
  {
    var r := d.records[chatId];
    var i := IndexOf(r.journal, name);
    AcknowledgeWrites(d, chatId, name, hash, successor);
    SameNamesIndex(r.journal, r.journal[i := r.journal[i].(successor := Some(successor))], name);
  }

  lemma SameNamesIndex(a: seq<Operation>, b: seq<Operation>, name: string)
    requires |a| == |b| && forall j :: 0 <= j < |a| ==> a[j].oid == b[j].oid
    ensures IndexOf(a, name) == IndexOf(b, name)
  {
    assert forall j :: 0 <= j < |a| ==> Names(a[j]) == Names(b[j]);
    var x, y := IndexOf(a, name), IndexOf(b, name);
  }

  /** A begun operation is found pending under both its names, and hides no other one. */
  lemma BeginReadBack(d: Document, chatId: string, oid: OperationId, kind: OperationKind, detail: Option<string>)
    requires Inv(d) && BeginSafe(d, chatId, oid) && BeginStep(d, chatId, oid, kind, detail).outcome.Accepted?
    requires BeginStep(d, chatId, oid, kind, detail).doc != d
    ensures var d' := BeginStep(d, chatId, oid, kind, detail).doc;
            && (forall name :: name in oid.Identifiers() ==>
                  LookupOperation(d', chatId, name) == Some(Operation(oid, kind, Pending, detail, None, None)))
            && AllFound(d, d')
  {
    var d' := BeginStep(d, chatId, oid, kind, detail).doc;
    var o := Operation(oid, kind, Pending, detail, None, None);
    BeginKeeps(d, chatId, oid, kind, detail);
    assert d' == d.(records := d.records[chatId := d.records[chatId].(journal := d.records[chatId].journal + [o])]);
    JournalExtended(d, d', chatId, o);
  }

  /** An operation added behind a journal is found under its names and hides no other one. */
  lemma JournalExtended(d: Document, d': Document, chatId: string, o: Operation)
    requires Inv(d') && chatId in d.records
    requires d' == d.(records := d.records[chatId := d.records[chatId].(journal := d.records[chatId].journal + [o])])
    ensures forall name :: name in Names(o) ==> LookupOperation(d', chatId, name) == Some(o)
    ensures AllFound(d, d')
  {
    var r, r' := d.records[chatId], d'.records[chatId];
    assert RecordOk(r');
    InsertedFound(r.journal, [o], ChainOps(Root(r.reassignment)), Lineage(r'));
    assert [o][0] == o;
    assert forall c :: c != chatId ==> d'.RecordOf(c) == d.RecordOf(c);
  }

  /** Beginning the same operation again is accepted and changes nothing. */
  lemma BeginAgain(d: Document, chatId: string, oid: OperationId, kind: OperationKind, detail: Option<string>,
                   later: Option<string>)
    requires Inv(d) && BeginSafe(d, chatId, oid) && BeginStep(d, chatId, oid, kind, detail).outcome.Accepted?
    ensures var d' := BeginStep(d, chatId, oid, kind, detail).doc;
            BeginStep(d', chatId, oid, kind, later) == Step(d', Accepted)
  {
    var d' := BeginStep(d, chatId, oid, kind, detail).doc;
    var r' := d'.records[chatId];
    BeginKeeps(d, chatId, oid, kind, detail);
    assert RecordOk(r');
    UniquePrefixOf(r'.journal, ChainOps(Root(r'.reassignment)));
    BegunAt(d, chatId, oid, kind, detail);
    FirstOverlapIs(r'.journal, oid, FirstOverlap(d.records[chatId].journal, oid));
  }

  lemma BegunAt(d: Document, chatId: string, oid: OperationId, kind: OperationKind, detail: Option<string>)
    requires BeginStep(d, chatId, oid, kind, detail).outcome.Accepted?
    ensures var i := FirstOverlap(d.records[chatId].journal, oid);
            var r' := BeginStep(d, chatId, oid, kind, detail).doc.records[chatId];
            i < |r'.journal| && r'.journal[i].oid == oid && r'.journal[i].kind == kind
  {
  }

  lemma FirstOverlapIs(ops: seq<Operation>, oid: OperationId, i: nat)
    requires Unique(ops) && i < |ops| && ops[i].oid == oid
    ensures FirstOverlap(ops, oid) == i
  {
    var j := FirstOverlap(ops, oid);
    assert oid.id in oid.Identifiers() * ops[i].oid.Identifiers();
    assert oid.Identifiers() * ops[j].oid.Identifiers() == ops[j].oid.Identifiers() * ops[i].oid.Identifiers();
  }

  /** Operations put between two lists hide none of theirs and are found themselves. */
  lemma InsertedFound(a: seq<Operation>, mid: seq<Operation>, b: seq<Operation>, all: seq<Operation>)
    requires all == a + mid + b && Unique(all)
    ensures forall name :: FirstNamed(a + b, name).Some? ==> FirstNamed(all, name) == FirstNamed(a + b, name)
    ensures forall i, name :: 0 <= i < |mid| && name in Names(mid[i]) ==> FirstNamed(all, name) == Some(mid[i])
  {
    forall i, name | 0 <= i < |mid| && name in Names(mid[i])
      ensures FirstNamed(all, name) == Some(mid[i])
    {
      assert all[|a| + i] == mid[i];
      UniqueLookup(all, |a| + i, name);
    }
    forall name | FirstNamed(a + b, name).Some?
      ensures FirstNamed(all, name) == FirstNamed(a + b, name)
    {
      var i := IndexOf(a + b, name);
      var j := if i < |a| then i else i + |mid|;
      assert all[j] == (a + b)[i];
      UniqueLookup(all, j, name);
    }
  }

  /** Whatever could be looked up still is, as the very same operation. */
  ghost predicate AllFound(d: Document, d': Document) {
    forall c, name :: LookupOperation(d, c, name).Some? ==> LookupOperation(d', c, name) == LookupOperation(d, c, name)
  }

  /** Each operation of a list is in another under its own ids. */
  predicate Holds(ops: seq<Operation>, incoming: seq<Operation>) {
    forall o :: o in incoming ==> exists i :: 0 <= i < |ops| && ops[i].oid == o.oid
  }

  lemma {:induction false} AppendedHolds(existing: seq<Operation>, incoming: seq<Operation>)
    ensures AppendJournal(existing, incoming).Some? ==> Holds(AppendJournal(existing, incoming).value, incoming)
    decreases |incoming|
  {
    if incoming != [] && AppendJournal(existing, incoming).Some? {
      var o, rest := incoming[0], incoming[1..];
      var i := FirstOverlap(existing, o.oid);
      var next := if i == |existing| then existing + [o] else existing;
      AppendedHolds(next, rest);
      var journal := AppendJournal(existing, incoming).value;
      assert next <= journal && journal[i].oid == o.oid;
      forall x | x in incoming
        ensures exists j :: 0 <= j < |journal| && journal[j].oid == x.oid
      {
        assert x == o || x in rest;
      }
    }
  }

  lemma ImplicitNamed(journal: seq<Operation>, operationId: string)
    ensures IndexOf(WithImplicit(journal, operationId), operationId) < |WithImplicit(journal, operationId)|
  {
    var w := WithImplicit(journal, operationId);
    if w != journal {
      assert w[|journal|].oid == OperationId(operationId, Some(operationId));
      assert operationId in Names(w[|journal|]);
    }
  }

  /** The lineage behind a store is the old one with the added operations between journal and chain. */
  lemma StoredLineage(d: Document, input: Input)
    requires Inv(d) && StoreSafe(d, input) && StoreStep(d, input).outcome.Accepted?
    ensures StoreStep(d, input).doc == d.WithRecord(StoredRecord(d, input))
    ensures var chain := ChainOps(Root(ReassignmentOf(d.RecordOf(input.chatId))));
            && LineageOf(d.RecordOf(input.chatId)) == ActiveJournal(d, input.chatId) + chain
            && Lineage(StoredRecord(d, input)) == ActiveJournal(d, input.chatId) + Added(d, input) + chain
            && Unique(Lineage(StoredRecord(d, input))) && Unique(ActiveJournal(d, input.chatId))
  {
    ActiveUnique(d, input.chatId);
    StoreEffect(d, input);
    StoreKeeps(d, input);
    assert RecordOk(StoreStep(d, input).doc.records[input.chatId]);
  }

  /** The chat's record is the mapping's. */
  predicate HoldsMapping(r: Record, mapping: Input) {
    && r.chatId == mapping.chatId && r.projectId == mapping.projectId && r.sessionId == mapping.sessionId
    && r.operationId == mapping.operationId && r.payload == mapping.payload
    && (mapping.observations.Some? ==> r.observations == mapping.observations.value)
  }

  /** A stored mapping is read back as the chat's record.  The operation it stands for and every one
      it carries are found under their ids, and nothing that was found is found differently. */
  lemma StoreReadBack(d: Document, input: Input)
    requires Inv(d) && StoreSafe(d, input) && StoreStep(d, input).outcome.Accepted?
    ensures var d' := StoreStep(d, input).doc;
            && input.chatId in d'.records && d'.provisional == d.provisional
            && var r' := d'.records[input.chatId];
            && HoldsMapping(r', input)
            && (input.observations.None? ==>
                  r'.observations ==
                    if input.chatId in d.records then d.records[input.chatId].observations
                    else Observations(None, None, ""))
            && r'.reassignment == ReassignmentOf(d.RecordOf(input.chatId))
            && (forall c :: c != input.chatId ==> d'.RecordOf(c) == d.RecordOf(c))
    ensures var d' := StoreStep(d, input).doc;
            && LookupOperation(d', input.chatId, input.operationId).Some?
            && (forall o, name :: o in input.journal && name in Names(o) ==>
                  LookupOperation(d', input.chatId, name).Some?
                    && LookupOperation(d', input.chatId, name).value.oid == o.oid)
            && AllFound(d, d')
  {
    StoredLineage(d, input);
    StoreAppends(d, input);
    StoredNames(d, input);
    HeldIsFound(StoredRecord(d, input), input.journal, input.operationId);
    StoredFindsAll(d, input, d.WithRecord(StoredRecord(d, input)));
  }

  /** Of the operations a store adds each is one that was handed over, or the finished prompt the mapping
      stands for where none of them answers to it: a name nobody had finds one of these. */
  lemma StoreAddsOnly(d: Document, input: Input, name: string)
    requires Inv(d) && StoreSafe(d, input) && StoreStep(d, input).outcome.Accepted?
    requires LookupOperation(d, input.chatId, name).None?
    ensures var found := LookupOperation(StoreStep(d, input).doc, input.chatId, name);
            found.Some? ==>
              || found.value in input.journal
              || (name == input.operationId && (forall o :: o in input.journal ==> name !in Names(o))
                  && found.value.oid == OperationId(name, Some(name)) && found.value.kind.Prompt?
                  && found.value.state.Complete? && found.value.detail.None? && found.value.result.None?
                  && found.value.successor.None?)
  {
    StoredLineage(d, input);
    StoreAppends(d, input);
    AddedUnique(d, input);
    AddedFound(ActiveJournal(d, input.chatId), input.journal, input.operationId, Added(d, input),
      ChainOps(Root(ReassignmentOf(d.RecordOf(input.chatId)))), Lineage(StoredRecord(d, input)), name);
  }

  lemma AddedFound(before: seq<Operation>, incoming: seq<Operation>, operationId: string, added: seq<Operation>,
                   chain: seq<Operation>, all: seq<Operation>, name: string)
    requires AppendJournal(before, incoming).Some? && FirstNamed(before + chain, name).None?
    requires WithImplicit(AppendJournal(before, incoming).value, operationId) == before + added
    requires all == before + added + chain
    ensures FirstNamed(all, name).Some? ==>
              || FirstNamed(all, name).value in incoming
              || (FirstNamed(all, name).value == ImplicitOperation(operationId) && name == operationId
                  && forall p :: p in incoming ==> name !in Names(p))
  {
    if FirstNamed(all, name).Some? {
      var k := FoundBetween(before, added, chain, all, name);
      AddedAre(before, incoming, operationId, added, k);
      OnlyName(added[k], operationId, name);
    }
  }

  lemma OnlyName(o: Operation, operationId: string, name: string)
    requires name in Names(o)
    ensures o == ImplicitOperation(operationId) ==> name == operationId
  {
  }

  lemma FoundBetween(before: seq<Operation>, added: seq<Operation>, chain: seq<Operation>, all: seq<Operation>,
                     name: string)
    returns (k: nat)
    requires all == before + added + chain
    requires FirstNamed(before + chain, name).None? && FirstNamed(all, name).Some?
    ensures k < |added| && FirstNamed(all, name) == Some(added[k]) && name in Names(added[k])
  {
    NotIn(before + chain, name);
    BetweenOnly(before, added, chain, IndexOf(all, name), name);
    k := IndexOf(all, name) - |before|;
  }

  lemma NotIn(ops: seq<Operation>, name: string)
    requires FirstNamed(ops, name).None?
    ensures forall i :: 0 <= i < |ops| ==> name !in Names(ops[i])
  {
  }

  lemma BetweenOnly(a: seq<Operation>, mid: seq<Operation>, b: seq<Operation>, i: nat, name: string)
    requires i < |a + mid + b| && name in Names((a + mid + b)[i])
    requires forall j :: 0 <= j < |a + b| ==> name !in Names((a + b)[j])
    ensures |a| <= i < |a| + |mid| && (a + mid + b)[i] == mid[i - |a|]
  {
    assert forall k :: 0 <= k < |a| ==> (a + mid + b)[k] == (a + b)[k];
    assert forall k :: |a| + |mid| <= k < |a + mid + b| ==> (a + mid + b)[k] == (a + b)[k - |mid|];
  }

  lemma AddedAre(before: seq<Operation>, incoming: seq<Operation>, operationId: string, added: seq<Operation>, i: nat)
    requires AppendJournal(before, incoming).Some? && i < |added|
    requires WithImplicit(AppendJournal(before, incoming).value, operationId) == before + added
    ensures || added[i] in incoming
            || (added[i] == ImplicitOperation(operationId) && forall p :: p in incoming ==> operationId !in Names(p))
  {
    var journal := AppendJournal(before, incoming).value;
    AppendedFrom(before, incoming);
    AppendedHolds(before, incoming);
    assert (before + added)[|before| + i] == added[i];
    if |before| + i == |journal| {
      forall p | p in incoming
        ensures operationId !in Names(p)
      {
        var j :| 0 <= j < |journal| && journal[j].oid == p.oid;
        assert operationId !in Names(journal[j]);
      }
    } else {
      assert journal[|before| + i] == added[i];
    }
  }

  lemma {:induction false} AppendedFrom(existing: seq<Operation>, incoming: seq<Operation>)
    ensures AppendJournal(existing, incoming).Some? ==>
              var journal := AppendJournal(existing, incoming).value;
              existing <= journal && forall i :: |existing| <= i < |journal| ==> journal[i] in incoming
    decreases |incoming|
  {
    if incoming != [] {
      var o, rest := incoming[0], incoming[1..];
      assert incoming == [o] + rest;
      AppendedFrom(if FirstOverlap(existing, o.oid) == |existing| then existing + [o] else existing, rest);
    }
  }

  lemma StoredFindsAll(d: Document, input: Input, d': Document)
    requires d' == d.WithRecord(StoredRecord(d, input)) && Unique(Lineage(StoredRecord(d, input)))
    requires var chain := ChainOps(Root(ReassignmentOf(d.RecordOf(input.chatId))));
             && LineageOf(d.RecordOf(input.chatId)) == ActiveJournal(d, input.chatId) + chain
             && Lineage(StoredRecord(d, input)) == ActiveJournal(d, input.chatId) + Added(d, input) + chain
    ensures AllFound(d, d')
  {
    var chain := ChainOps(Root(ReassignmentOf(d.RecordOf(input.chatId))));
    InsertedFound(ActiveJournal(d, input.chatId), Added(d, input), chain, Lineage(StoredRecord(d, input)));
    assert forall c :: c != input.chatId ==> d'.RecordOf(c) == d.RecordOf(c);
  }

  lemma StoreAppends(d: Document, input: Input)
    requires StoreStep(d, input).outcome.Accepted?
    ensures AppendJournal(ActiveJournal(d, input.chatId), input.journal).Some?
  {
  }

  /** What the active journal holds is what a lookup finds. */
  lemma HeldIsFound(r: Record, incoming: seq<Operation>, operationId: string)
    requires Unique(Lineage(r)) && Holds(r.journal, incoming) && IndexOf(r.journal, operationId) < |r.journal|
    ensures FirstNamed(Lineage(r), operationId).Some?
    ensures forall o, name :: o in incoming && name in Names(o) ==>
              FirstNamed(Lineage(r), name).Some? && FirstNamed(Lineage(r), name).value.oid == o.oid
  {
    var i := IndexOf(r.journal, operationId);
    assert Lineage(r)[i] == r.journal[i];
    UniqueLookup(Lineage(r), i, operationId);
    forall o, name | o in incoming && name in Names(o)
      ensures FirstNamed(Lineage(r), name).Some? && FirstNamed(Lineage(r), name).value.oid == o.oid
    {
      var j :| 0 <= j < |r.journal| && r.journal[j].oid == o.oid;
      assert Lineage(r)[j] == r.journal[j];
      UniqueLookup(Lineage(r), j, name);
    }
  }

  lemma StoredNames(d: Document, input: Input)
    requires Unique(ActiveJournal(d, input.chatId))
        && AppendJournal(ActiveJournal(d, input.chatId), input.journal).Some?
    ensures IndexOf(StoredRecord(d, input).journal, input.operationId) < |StoredRecord(d, input).journal|
    ensures Holds(StoredRecord(d, input).journal, input.journal)
  {
    AddedUnique(d, input);
    var journal := AppendJournal(ActiveJournal(d, input.chatId), input.journal).value;
    AppendedHolds(ActiveJournal(d, input.chatId), input.journal);
    ImplicitNamed(journal, input.operationId);
    var stored := StoredRecord(d, input).journal;
    assert stored == WithImplicit(journal, input.operationId);
    HoldsLonger(journal, stored, input.journal);
  }

  lemma HoldsLonger(a: seq<Operation>, b: seq<Operation>, incoming: seq<Operation>)
    requires a <= b && Holds(a, incoming)
    ensures Holds(b, incoming)
  {
    forall o | o in incoming
      ensures exists i :: 0 <= i < |b| && b[i].oid == o.oid
    {
      var i :| 0 <= i < |a| && a[i].oid == o.oid;
      assert b[i] == a[i];
    }
  }

  /** What was reserved can be published under a mapping of its own: always as the target of a pending
      reassignment, otherwise exactly when no other project holds an entry of the chat. */
  lemma ReserveThenPublish(d: Document, op: Draft, mapping: Input)
    requires Inv(d) && ReserveStep(d, op).outcome.Accepted?
    requires mapping.chatId == op.chatId && mapping.projectId == op.projectId && mapping.operationId == op.oid.id
    ensures PublishStep(ReserveStep(d, op).doc, op, mapping).outcome.Accepted? <==>
            Foreign(d.RecordOf(op.chatId), Reserved(op)) ||
            forall k :: k in d.provisional ==> !ConflictingProject(d.RecordOf(op.chatId), mapping, d.provisional[k])
  {
    var d', k := ReserveStep(d, op).doc, Key(op.chatId, op.oid.Ingress());
    ReservedLineage(d, op);
    assert d'.provisional - {k} == d.provisional;
    assert d'.provisional[k] == Reserved(op);
    if !Foreign(d.RecordOf(op.chatId), Reserved(op)) {
      assert d'.records == d.records;
      OwnPublication(d, d', op, mapping);
    }
  }

  lemma ReservedLineage(d: Document, op: Draft)
    requires ReserveStep(d, op).outcome.Accepted?
    ensures LineageOf(ReserveStep(d, op).doc.RecordOf(op.chatId)) == LineageOf(d.RecordOf(op.chatId))
    ensures !AnyCollision(op.oid, LineageOf(d.RecordOf(op.chatId))) && !AnyProvisionalCollision(op.oid, d.provisional)
  {
  }

  /** Publishing into the reservation's own project is a store that only another project's entry stops. */
  lemma OwnPublication(d: Document, d': Document, op: Draft, mapping: Input)
    requires Inv(d) && d'.records == d.records && d'.provisional == d.provisional[KeyOf(Reserved(op)) := Reserved(op)]
    requires KeyOf(Reserved(op)) !in d.provisional && !Foreign(d.RecordOf(op.chatId), Reserved(op))
    requires !AnyOverlap(op.oid, LineageOf(d.RecordOf(op.chatId)))
    requires mapping.chatId == op.chatId && mapping.projectId == op.projectId && mapping.operationId == op.oid.id
    ensures StoreStep(d', Publication(op, mapping)).outcome.Accepted? <==>
            forall k :: k in d.provisional ==> !ConflictingProject(d.RecordOf(op.chatId), mapping, d.provisional[k])
    ensures !CommitsReassignment(d.RecordOf(op.chatId), mapping)
  {
    assert op.chatId in d.records ==> RecordOk(d.records[op.chatId]);
    FreshPublication(d, op, mapping);
    OwnNeverConflicts(d, d', op, mapping);
  }

  /** Nothing about the published operation itself stops its store. */
  lemma FreshPublication(d: Document, op: Draft, mapping: Input)
    requires !AnyOverlap(op.oid, LineageOf(d.RecordOf(op.chatId)))
    ensures var before, o := ActiveJournal(d, op.chatId), PublishedOperation(op, mapping);
            && Fenced(LineageOf(d.RecordOf(op.chatId)), [o]) && AppendJournal(before, [o]) == Some(before + [o])
            && IndexOf(before + [o], op.oid.id) == |before| && (before + [o])[|before|] == o
  {
    var before, o := ActiveJournal(d, op.chatId), PublishedOperation(op, mapping);
    var r := d.RecordOf(op.chatId);
    var chain := ChainOps(Root(ReassignmentOf(r)));
    assert LineageOf(r) == before + chain;
    OverlapConcat(op.oid, before, chain);
    FirstOverlapNone(before, op.oid);
    FirstOverlapNone(LineageOf(r), op.oid);
    AppendOne(before, o);
    NamedLast(before, o, op.oid.id);
  }

  /** The reservation itself belongs to the stored project. */
  lemma OwnNeverConflicts(d: Document, d': Document, op: Draft, mapping: Input)
    requires d'.provisional == d.provisional[KeyOf(Reserved(op)) := Reserved(op)]
        && KeyOf(Reserved(op)) !in d.provisional
    requires mapping.projectId == op.projectId
    ensures (exists k ::
               && k in d'.provisional
               && ConflictingProject(d.RecordOf(op.chatId), Publication(op, mapping), d'.provisional[k])) <==>
            !(forall k :: k in d.provisional ==> !ConflictingProject(d.RecordOf(op.chatId), mapping, d.provisional[k]))
  {
    assert forall k :: k in d.provisional ==> d'.provisional[k] == d.provisional[k];
    assert forall k :: k in d'.provisional ==> k in d.provisional || d'.provisional[k] == Reserved(op);
  }

  lemma NamedLast(before: seq<Operation>, o: Operation, name: string)
    requires name == o.oid.id && !AnyOverlap(o.oid, before)
    ensures IndexOf(before + [o], name) == |before| && (before + [o])[|before|] == o
  {
    var i := IndexOf(before + [o], name);
    assert (before + [o])[|before|] == o && name in Names(o);
    IndexOfFound(before + [o], |before|, name);
    forall j | 0 <= j < |before|
      ensures name !in Names((before + [o])[j])
    {
      CommonNameOverlaps(o.oid, before[j].oid, name);
    }
  }

  /** A publication is read back under every name of its operation: what was found there before, or else
      the finished turn with the detail it was reserved under and a result binding the mapping.  Nothing
      else is found differently, its reservation is complete and otherwise as it was, and publishing it
      again is refused. */
  lemma PublishReadBack(d: Document, op: Draft, mapping: Input)
    requires Inv(d) && PublishSafe(d, op, mapping) && PublishStep(d, op, mapping).outcome.Accepted?
    ensures var d' := PublishStep(d, op, mapping).doc;
            && (forall name :: name in op.oid.Identifiers() ==>
                  && (LookupOperation(d, mapping.chatId, name).Some? ==>
                        LookupOperation(d', mapping.chatId, name) == LookupOperation(d, mapping.chatId, name))
                  && LookupOperation(d', mapping.chatId, name).Some?
                  && LookupOperation(d', mapping.chatId, name).value.oid == op.oid
                  && (LookupOperation(d, mapping.chatId, name).None? ==>
                        PublishedAs(LookupOperation(d', mapping.chatId, name).value, op, mapping)))
            && AllFound(d, d')
            && mapping.chatId in d'.records && HoldsMapping(d'.records[mapping.chatId], mapping)
            && (forall c :: c != mapping.chatId ==> d'.RecordOf(c) == d.RecordOf(c))
            && (CommitsReassignment(d.RecordOf(op.chatId), mapping) ==>
                  d'.records[op.chatId].reassignment.Some? && d'.records[op.chatId].reassignment.value.state.Committed?)
            && var k := Key(op.chatId, op.oid.Ingress());
            && k in d.provisional && d'.provisional.Keys == d.provisional.Keys
            && d'.provisional[k] == d.provisional[k].(state := Complete)
            && (forall j :: j in d.provisional && j != k ==> d'.provisional[j] == d.provisional[j])
            && PublishStep(d', op, mapping).outcome.Rejected?
  {
    PublishFound(d, op, mapping);
    PublishedRecord(d, op, mapping);
    PublishedReservation(d, op, mapping);
  }

  lemma PublishFound(d: Document, op: Draft, mapping: Input)
    requires Inv(d) && PublishSafe(d, op, mapping) && PublishStep(d, op, mapping).outcome.Accepted?
    ensures FindsPublished(d, PublishStep(d, op, mapping).doc, op, mapping)
    ensures PublishedAs(PublishedOperation(op, mapping), op, mapping)
  {
    if CommitsReassignment(d.RecordOf(op.chatId), mapping) {
      CommitReadBack(d, op, mapping);
    } else {
      OwnReadBack(d, op, mapping);
    }
  }

  lemma PublishedRecord(d: Document, op: Draft, mapping: Input)
    requires Inv(d) && PublishSafe(d, op, mapping) && PublishStep(d, op, mapping).outcome.Accepted?
    ensures var d' := PublishStep(d, op, mapping).doc;
            && mapping.chatId in d'.records && HoldsMapping(d'.records[mapping.chatId], mapping)
            && (forall c :: c != mapping.chatId ==> d'.RecordOf(c) == d.RecordOf(c))
            && (CommitsReassignment(d.RecordOf(op.chatId), mapping) ==>
                  d'.records[op.chatId].reassignment.Some? && d'.records[op.chatId].reassignment.value.state.Committed?)
  {
    var d' := PublishStep(d, op, mapping).doc;
    PublishedDocument(d, op, mapping);
    if CommitsReassignment(d.RecordOf(op.chatId), mapping) {
      CommittedHolds(d, op, mapping, d');
    } else {
      StoredHolds(d, op, mapping, d');
    }
  }

  lemma CommittedHolds(d: Document, op: Draft, mapping: Input, d': Document)
    requires Inv(d) && op.chatId in d.records && InProgress?(Some(d.records[op.chatId]))
    requires mapping.chatId == op.chatId && mapping.operationId == op.oid.id
    requires d'.records == d.records[op.chatId := CommittedRecord(d.records[op.chatId], op, mapping)]
    ensures HoldsMapping(d'.records[op.chatId], mapping)
    ensures d'.records[op.chatId].reassignment.Some? && d'.records[op.chatId].reassignment.value.state.Committed?
    ensures forall c :: c != op.chatId ==> d'.RecordOf(c) == d.RecordOf(c)
  {
    assert RecordOk(d.records[op.chatId]);
    CommittedLineage(d.records[op.chatId], op, mapping);
  }

  lemma StoredHolds(d: Document, op: Draft, mapping: Input, d': Document)
    requires Inv(d) && StoreSafe(d, Publication(op, mapping))
        && StoreStep(d, Publication(op, mapping)).outcome.Accepted?
    requires d'.records == StoreStep(d, Publication(op, mapping)).doc.records
    ensures mapping.chatId in d'.records && HoldsMapping(d'.records[mapping.chatId], mapping)
    ensures forall c :: c != mapping.chatId ==> d'.RecordOf(c) == d.RecordOf(c)
  {
    StoreReadBack(d, Publication(op, mapping));
    assert forall c :: d'.RecordOf(c) == StoreStep(d, Publication(op, mapping)).doc.RecordOf(c);
  }

  lemma PublishedReservation(d: Document, op: Draft, mapping: Input)
    requires PublishStep(d, op, mapping).outcome.Accepted?
    ensures var d', k := PublishStep(d, op, mapping).doc, Key(op.chatId, op.oid.Ingress());
            && k in d.provisional && d'.provisional.Keys == d.provisional.Keys
            && d'.provisional[k] == d.provisional[k].(state := Complete)
            && (forall j :: j in d.provisional && j != k ==> d'.provisional[j] == d.provisional[j])
            && PublishStep(d', op, mapping).outcome.Rejected?
  {
    PublishedDocument(d, op, mapping);
  }

  lemma CommitReadBack(d: Document, op: Draft, mapping: Input)
    requires Inv(d) && CommitSafe(d, op, mapping) && PublishStep(d, op, mapping).outcome.Accepted?
    requires CommitsReassignment(d.RecordOf(op.chatId), mapping)
    ensures FindsPublished(d, PublishStep(d, op, mapping).doc, op, mapping)
  {
    PublishKeeps(d, op, mapping);
    PublishedDocument(d, op, mapping);
    CommittedFinds(d, op, mapping, PublishStep(d, op, mapping).doc);
  }

  lemma CommittedFinds(d: Document, op: Draft, mapping: Input, d': Document)
    requires Inv(d) && Inv(d') && CommitSafe(d, op, mapping)
    requires op.chatId in d.records && InProgress?(Some(d.records[op.chatId]))
    requires d'.records == d.records[op.chatId := CommittedRecord(d.records[op.chatId], op, mapping)]
    ensures FindsPublished(d, d', op, mapping)
  {
    var r, r' := d.records[op.chatId], CommittedRecord(d.records[op.chatId], op, mapping);
    assert RecordOk(r) && RecordOk(d'.records[op.chatId]);
    assert forall c :: c != op.chatId ==> d'.RecordOf(c) == d.RecordOf(c);
    CommittedLineage(r, op, mapping);
    FrontFound(PublishedOperation(op, mapping), Lineage(r), Lineage(r'));
    FreshUnnamed(op.oid, Lineage(r));
  }

  lemma FrontFound(o: Operation, ops: seq<Operation>, all: seq<Operation>)
    requires all == [o] + ops && Unique(all)
    ensures forall name :: FirstNamed(ops, name).Some? ==> FirstNamed(all, name) == FirstNamed(ops, name)
    ensures forall name :: name in Names(o) ==> FirstNamed(all, name) == Some(o)
  {
    assert [] + ops == ops && [] + [o] + ops == all;
    InsertedFound([], [o], ops, all);
    assert [o][0] == o;
  }

  lemma FreshUnnamed(oid: OperationId, ops: seq<Operation>)
    requires !AnyOverlap(oid, ops)
    ensures forall name :: name in oid.Identifiers() ==> FirstNamed(ops, name).None?
  {
    forall name | name in oid.Identifiers()
      ensures FirstNamed(ops, name).None?
    {
      forall i | 0 <= i < |ops|
        ensures name !in Names(ops[i])
      {
        CommonNameOverlaps(oid, ops[i].oid, name);
      }
    }
  }

  lemma OwnReadBack(d: Document, op: Draft, mapping: Input)
    requires Inv(d) && PublishSafe(d, op, mapping) && PublishStep(d, op, mapping).outcome.Accepted?
    requires !CommitsReassignment(d.RecordOf(op.chatId), mapping)
    ensures FindsPublished(d, PublishStep(d, op, mapping).doc, op, mapping)
  {
    PublishedDocument(d, op, mapping);
    StoredFinds(d, op, mapping, PublishStep(d, op, mapping).doc);
  }

  /** Every name of the published operation finds what it found before, or else that operation. */
  ghost predicate FindsPublished(d: Document, d': Document, op: Draft, mapping: Input) {
    && (forall name :: name in op.oid.Identifiers() ==>
          && LookupOperation(d', mapping.chatId, name) ==
               (if LookupOperation(d, mapping.chatId, name).Some? then LookupOperation(d, mapping.chatId, name)
                else Some(PublishedOperation(op, mapping)))
          && LookupOperation(d', mapping.chatId, name).value.oid == op.oid)
    && AllFound(d, d')
  }

  lemma StoredFinds(d: Document, op: Draft, mapping: Input, d': Document)
    requires Inv(d) && StoreSafe(d, Publication(op, mapping))
        && StoreStep(d, Publication(op, mapping)).outcome.Accepted?
    requires d'.records == StoreStep(d, Publication(op, mapping)).doc.records
    ensures FindsPublished(d, d', op, mapping)
  {
    var input := Publication(op, mapping);
    var stored := StoreStep(d, input).doc;
    StoreReadBack(d, input);
    assert forall c :: d'.RecordOf(c) == stored.RecordOf(c);
    assert PublishedOperation(op, mapping) in input.journal;
    forall name | name in op.oid.Identifiers() && LookupOperation(d, mapping.chatId, name).None?
      ensures LookupOperation(stored, mapping.chatId, name) == Some(PublishedOperation(op, mapping))
    {
      PublishedFound(d, op, mapping, name);
    }
  }

  /** A name nobody had finds the published operation itself. */
  lemma PublishedFound(d: Document, op: Draft, mapping: Input, name: string)
    requires Inv(d) && StoreSafe(d, Publication(op, mapping))
        && StoreStep(d, Publication(op, mapping)).outcome.Accepted?
    requires name in op.oid.Identifiers() && LookupOperation(d, mapping.chatId, name).None?
    ensures LookupOperation(StoreStep(d, Publication(op, mapping)).doc, mapping.chatId, name) ==
        Some(PublishedOperation(op, mapping))
  {
    var input, o := Publication(op, mapping), PublishedOperation(op, mapping);
    var before, added := ActiveJournal(d, input.chatId), Added(d, input);
    StoredLineage(d, input);
    AppendedOne(d, op, mapping, name);
    InsertedFound(before, added, ChainOps(Root(StoredRecord(d, input).reassignment)), Lineage(StoredRecord(d, input)));
    assert added[0] == o && name in Names(o);
  }

  lemma AppendedOne(d: Document, op: Draft, mapping: Input, name: string)
    requires AppendJournal(ActiveJournal(d, mapping.chatId), Publication(op, mapping).journal).Some?
    requires name in op.oid.Identifiers() && LookupOperation(d, mapping.chatId, name).None?
    ensures |Added(d, Publication(op, mapping))| > 0
        && Added(d, Publication(op, mapping))[0] == PublishedOperation(op, mapping)
  {
    var before, o := ActiveJournal(d, mapping.chatId), PublishedOperation(op, mapping);
    NotInActive(d, mapping.chatId, name);
    AppendOne(before, o);
    assert (before + [o])[|before|] == o;
  }

  lemma NotInActive(d: Document, chatId: string, name: string)
    requires LookupOperation(d, chatId, name).None?
    ensures forall i :: 0 <= i < |ActiveJournal(d, chatId)| ==> name !in Names(ActiveJournal(d, chatId)[i])
  {
    var before, lineage := ActiveJournal(d, chatId), LineageOf(d.RecordOf(chatId));
    assert forall i :: 0 <= i < |before| ==> lineage[i] == before[i];
    assert forall i :: 0 <= i < |lineage| ==> name !in Names(lineage[i]);
  }
}
