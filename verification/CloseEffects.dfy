/** What each step of a close does, exactly: when the physical close is started,
    and how the operation is found behind every outcome. */
module CloseEffects {
  import opened AuthorityTypes
  import opened JournalSteps
  import opened JournalInvariant
  import opened JournalSafety
  import opened ReassignmentSafety
  import opened JournalRuns
  import opened JournalEffects
  import opened CloseRouter
  import opened Journal

  /** A close in this state, under its ingress and with its hash, that holds no result. */
  predicate FoundAs(d: Document, chatId: string, ingressId: string, state: OperationState, hash: string) {
    var found := LookupOperation(d, chatId, ingressId);
    && found.Some? && found.value.oid == OperationId(ingressId, Some(ingressId)) && found.value.kind.Close?
    && found.value.state == state && found.value.detail == Some(hash)
    && found.value.result.None? && found.value.successor.None?
  }

  /** The begin of a close is accepted: the chat is there and at rest, and no reservation of any chat
      answers to the ingress. */
  ghost predicate CanBegin(d: Document, chatId: string, ingressId: string) {
    && chatId in d.records && !InProgress?(Some(d.records[chatId]))
    && forall k :: k in d.provisional ==> ingressId !in d.provisional[k].oid.Identifiers()
  }

  lemma BeginAccepted(d: Document, input: Ingress)
    requires LookupOperation(d, input.chatId, input.ingressId).None? && input.ingressId != ""
    ensures BeginClose(d, input).outcome.Accepted? <==> CanBegin(d, input.chatId, input.ingressId)
    ensures BeginClose(d, input).outcome.Accepted? ==> BeginSafe(d, input.chatId, CloseId(input.ingressId))
    ensures BeginClose(d, input).outcome.Accepted? ==> BeginClose(d, input).doc != d
  {
    var oid := CloseId(input.ingressId);
    assert oid.Identifiers() == {input.ingressId};
    if input.chatId in d.records {
      var r := d.records[input.chatId];
      NoneNamed(Lineage(r), input.ingressId);
      NoOverlapInside(r.journal, ChainOps(Root(r.reassignment)), input.ingressId);
    }
    forall k | k in d.provisional
      ensures Overlap(oid, d.provisional[k].oid) <==> input.ingressId in d.provisional[k].oid.Identifiers()
    {
      assert input.ingressId in d.provisional[k].oid.Identifiers() ==>
          input.ingressId in oid.Identifiers() * d.provisional[k].oid.Identifiers();
    }
    if BeginClose(d, input).outcome.Accepted? {
      BegunGrows(d, input);
    }
  }

  lemma BegunGrows(d: Document, input: Ingress)
    requires input.chatId in d.records && BeginClose(d, input).outcome.Accepted?
    requires FirstOverlap(d.records[input.chatId].journal, CloseId(input.ingressId)) ==
        |d.records[input.chatId].journal|
    ensures BeginClose(d, input).doc != d
  {
    assert |BeginClose(d, input).doc.records[input.chatId].journal| == |d.records[input.chatId].journal| + 1;
  }

  /** A request starts a physical close if and only if nothing is found under its ingress or its older
      ingress, its close can be begun, the session owns its pane and the preflight passes.  The close is
      then found pending; where only ownership or preflight is missing it is found in conflict and nothing
      is started; otherwise nothing changes. */
  lemma RouteExact(s: State, input: Ingress)
    requires Inv(s.doc) && input.ingressId != ""
    ensures var fresh' :=
              && LookupOperation(s.doc, input.chatId, input.ingressId).None?
              && (input.legacyIngressId.Some? ==>
                    LookupOperation(s.doc, input.chatId, input.legacyIngressId.value).None?)
              && CanBegin(s.doc, input.chatId, input.ingressId);
            var s', key := RouteStep(s, input), (input.chatId, input.ingressId);
            && s'.reported == s.reported && AllFound(s.doc, s'.doc)
            && (s'.closes != s.closes <==> fresh' && input.owned && input.preflight)
            && (!fresh' ==> s' == s)
            && (fresh' && input.owned && input.preflight ==>
                  && s'.closes == s.closes + [key]
                  && s'.flights ==
                       s.flights[|s.closes| := Flight(key.0, key.1, input.ingressHash, input.mapping, false)]
                  && FoundAs(s'.doc, key.0, key.1, Pending, input.ingressHash))
            && (fresh' && (!input.owned || !input.preflight) ==>
                  && s'.closes == s.closes && s'.flights == s.flights
                  && FoundAs(s'.doc, key.0, key.1, Conflict, input.ingressHash))
  {
    if LookupOperation(s.doc, input.chatId, input.ingressId).None? {
      BeginAccepted(s.doc, input);
      if BeginClose(s.doc, input).outcome.Accepted? {
        BegunOutcomes(s.doc, input, BeginClose(s.doc, input).doc);
      }
    }
  }

  lemma BegunOutcomes(d: Document, input: Ingress, begun: Document)
    requires Inv(d) && LookupOperation(d, input.chatId, input.ingressId).None? && input.ingressId != ""
    requires BeginClose(d, input) == Step(begun, Accepted) && begun != d
    requires BeginSafe(d, input.chatId, CloseId(input.ingressId))
    ensures AllFound(d, begun) && FoundAs(begun, input.chatId, input.ingressId, Pending, input.ingressHash)
    ensures var f := Flight(input.chatId, input.ingressId, input.ingressHash, input.mapping, false);
            var d' := Settle(begun, f, Conflict);
            AllFound(d, d') && FoundAs(d', input.chatId, input.ingressId, Conflict, input.ingressHash)
  {
    BegunFound(d, input);
    BegunActive(d, input);
    BegunSettles(d, begun, input);
  }

  lemma BegunFound(d: Document, input: Ingress)
    requires Inv(d) && LookupOperation(d, input.chatId, input.ingressId).None? && input.ingressId != ""
    requires BeginClose(d, input).outcome.Accepted? && BeginSafe(d, input.chatId, CloseId(input.ingressId))
    requires BeginClose(d, input).doc != d
    ensures Inv(BeginClose(d, input).doc) && AllFound(d, BeginClose(d, input).doc)
    ensures FoundAs(BeginClose(d, input).doc, input.chatId, input.ingressId, Pending, input.ingressHash)
  {
    BeginReadBack(d, input.chatId, CloseId(input.ingressId), Close, Some(input.ingressHash));
    BeginKeeps(d, input.chatId, CloseId(input.ingressId), Close, Some(input.ingressHash));
    assert input.ingressId in CloseId(input.ingressId).Identifiers();
  }

  /** Settling an operation of the active journal that is not complete: it is found in the new state with
      the hash, and otherwise as it was; nothing else is found differently. */
  lemma SettleReadBack(d: Document, f: Flight, state: OperationState)
    requires Inv(d) && !state.Complete? && f.chatId in d.records
    requires FirstNamed(d.records[f.chatId].journal, f.ingressId).Some?
    requires !FirstNamed(d.records[f.chatId].journal, f.ingressId).value.state.Complete?
    ensures var d' := Settle(d, f, state);
            var before, after := LookupOperation(d, f.chatId, f.ingressId), LookupOperation(d', f.chatId, f.ingressId);
            && before == FirstNamed(d.records[f.chatId].journal, f.ingressId)
            && after == Some(before.value.(state := state, detail := Some(f.ingressHash)))
            && OthersFound(d, d', f.chatId, before.value.oid)
  {
    var r := d.records[f.chatId];
    var i := IndexOf(r.journal, f.ingressId);
    var o := r.journal[i].(state := state, detail := Some(f.ingressHash));
    assert RecordOk(r) && Lineage(r)[i] == r.journal[i];
    UniqueLookup(Lineage(r), i, f.ingressId);
    assert Settle(d, f, state) == d.(records := d.records[f.chatId := r.(journal := r.journal[i := o])]);
    JournalRewritten(d, Settle(d, f, state), f.chatId, i, o);
    assert f.ingressId in Names(o);
  }

  /** A complete close, or one no longer in the active journal, is not settled any more. */
  lemma SettleRefused(d: Document, f: Flight, state: OperationState)
    requires !state.Complete?
    requires f.chatId in d.records ==>
               var found := FirstNamed(d.records[f.chatId].journal, f.ingressId);
               found.Some? ==> found.value.state.Complete?
    ensures Settle(d, f, state) == d
  {
  }

  lemma BegunSettles(d: Document, begun: Document, input: Ingress)
    requires Inv(begun) && LookupOperation(d, input.chatId, input.ingressId).None? && AllFound(d, begun)
    requires FoundAs(begun, input.chatId, input.ingressId, Pending, input.ingressHash)
    requires input.chatId in begun.records
    requires FirstNamed(begun.records[input.chatId].journal, input.ingressId).Some?
    ensures var f := Flight(input.chatId, input.ingressId, input.ingressHash, input.mapping, false);
            var d' := Settle(begun, f, Conflict);
            FoundAs(d', input.chatId, input.ingressId, Conflict, input.ingressHash) && AllFound(d, d')
  {
    var f := Flight(input.chatId, input.ingressId, input.ingressHash, input.mapping, false);
    var r := begun.records[input.chatId];
    assert FirstNamed(r.journal, input.ingressId) == LookupOperation(begun, input.chatId, input.ingressId) by {
      FirstInJournal(r, input.ingressId);
    }
    SettleReadBack(begun, f, Conflict);
    NobodyElse(d, input.chatId, input.ingressId);
    FoundThrough(d, begun, Settle(begun, f, Conflict), input.chatId, CloseId(input.ingressId));
  }

  /** What the active journal finds is found first. */
  lemma FirstInJournal(r: Record, name: string)
    ensures FirstNamed(r.journal, name).Some? ==> FirstNamed(Lineage(r), name) == FirstNamed(r.journal, name)
  {
    FirstNamedConcat(r.journal, ChainOps(Root(r.reassignment)), name);
  }

  /** Where an ingress finds nothing, no name finds a close of that ingress. */
  lemma NobodyElse(d: Document, chatId: string, ingressId: string)
    requires LookupOperation(d, chatId, ingressId).None?
    ensures forall name :: LookupOperation(d, chatId, name).Some? ==>
              LookupOperation(d, chatId, name).value.oid != CloseId(ingressId)
  {
    NoneNamed(LineageOf(d.RecordOf(chatId)), ingressId);
  }

  lemma FoundThrough(d: Document, mid: Document, d': Document, chatId: string, oid: OperationId)
    requires AllFound(d, mid) && OthersFound(mid, d', chatId, oid)
    requires forall name :: LookupOperation(d, chatId, name).Some? ==> LookupOperation(d, chatId, name).value.oid != oid
    ensures AllFound(d, d')
  {
  }

  lemma BegunActive(d: Document, input: Ingress)
    requires BeginClose(d, input).outcome.Accepted? && BeginClose(d, input).doc != d
    ensures input.chatId in BeginClose(d, input).doc.records
    ensures FirstNamed(BeginClose(d, input).doc.records[input.chatId].journal, input.ingressId).Some?
  {
    var begun := BeginClose(d, input).doc;
    var journal := begun.records[input.chatId].journal;
    assert input.ingressId in Names(journal[|journal| - 1]);
  }

  // --------------------------------------------------- the report and behind it

  /** The close under way is in the active journal and open. */
  predicate OpenClose(d: Document, f: Flight) {
    && f.chatId in d.records && FirstNamed(d.records[f.chatId].journal, f.ingressId).Some?
    && !FirstNamed(d.records[f.chatId].journal, f.ingressId).value.state.Complete?
  }

  /** The operation is found in this state with the close's hash, and otherwise as it was. */
  predicate SettledAs(d: Document, d': Document, f: Flight, state: OperationState) {
    var before, after := LookupOperation(d, f.chatId, f.ingressId), LookupOperation(d', f.chatId, f.ingressId);
    && before.Some? && after.Some? && after.value.state == state && after.value.detail == Some(f.ingressHash)
    && after.value.oid == before.value.oid && after.value.kind == before.value.kind
    && after.value.result == before.value.result && after.value.successor == before.value.successor
  }

  /** A physical close that reports closed is kept for publication and changes no document.  One that does
      not is settled: in conflict if it said otherwise, uncertain if it threw; unless the operation is
      complete or gone it is found so. */
  lemma ReportExact(s: State, id: nat, report: Report)
    requires Inv(s.doc) && id in s.flights
    ensures var s', f := ReportStep(s, id, report), s.flights[id];
            && s'.closes == s.closes
            && (report.ReportedClosed? ==>
                  && s'.doc == s.doc && s'.reported == s.reported + {(f.chatId, f.ingressId)}
                  && s'.flights == s.flights[id := Flight(f.chatId, f.ingressId, f.ingressHash, f.mapping, true)])
            && (!report.ReportedClosed? ==>
                  && s'.reported == s.reported && s'.flights == s.flights - {id}
                  && (!OpenClose(s.doc, f) ==> s'.doc == s.doc))
            && (report.NotClosed? && OpenClose(s.doc, f) ==> SettledAs(s.doc, s'.doc, f, Conflict))
            && (report.CloseThrew? && OpenClose(s.doc, f) ==> SettledAs(s.doc, s'.doc, f, Uncertain))
  {
    var f := s.flights[id];
    if OpenClose(s.doc, f) {
      SettleReadBack(s.doc, f, Conflict);
      SettleReadBack(s.doc, f, Uncertain);
    } else {
      SettleRefused(s.doc, f, Conflict);
      SettleRefused(s.doc, f, Uncertain);
    }
  }

  /** The outcome of a close binds its mapping under the close's own name, says that the session is closed
      and which operation the mapping stood for. */
  lemma CloseResultReadBack(f: Flight)
    ensures var result := CloseResultOf(f);
            && result.kind.CloseResult? && Binds(result, f.mapping.(operationId := f.ingressId))
            && result.correlation ==
                 Some(map["closeStatus" := "closed", "mappingOperationId" := f.mapping.operationId])
  {
  }

  /** The publication of a reported close: where it commits, the operation is found complete under its hash
      with the close's outcome and the mapping is the chat's, whether it throws behind that or not;
      otherwise the operation is left uncertain, if it is open still. */
  lemma PublishExact(s: State, id: nat, commits: bool, throws: bool)
    requires Inv(s.doc) && id in s.flights
    requires commits ==> Safe(s.doc, CompleteClose(s.flights[id]))
    ensures var s', f := PublishedStep(s, id, commits, throws), s.flights[id];
            && s'.closes == s.closes && s'.reported == s.reported && s'.flights == s.flights - {id}
            && (commits && CompleteCloseStep(s.doc, f).outcome.Accepted? ==>
                  && s'.doc == CompleteCloseStep(s.doc, f).doc
                  && var found := LookupOperation(s'.doc, f.chatId, f.ingressId);
                  && found.Some? && found.value.state.Complete? && found.value.detail == Some(f.ingressHash)
                  && found.value.result == Some(CloseResultOf(f)) && found.value.successor.None?
                  && f.mapping.chatId in s'.doc.records && HoldsMapping(s'.doc.records[f.mapping.chatId], f.mapping))
            && (!(commits && CompleteCloseStep(s.doc, f).outcome.Accepted?) ==>
                  if OpenClose(s.doc, f) then SettledAs(s.doc, s'.doc, f, Uncertain) else s'.doc == s.doc)
  {
    var f := s.flights[id];
    if commits && CompleteCloseStep(s.doc, f).outcome.Accepted? {
      CompletedStays(s.doc, f);
    } else if OpenClose(s.doc, f) {
      SettleReadBack(s.doc, f, Uncertain);
    } else {
      SettleRefused(s.doc, f, Uncertain);
    }
  }

  lemma CompletedStays(d: Document, f: Flight)
    requires Inv(d) && Safe(d, CompleteClose(f)) && CompleteCloseStep(d, f).outcome.Accepted?
    ensures var d' := CompleteCloseStep(d, f).doc;
            var found := LookupOperation(d', f.chatId, f.ingressId);
            && found.Some? && found.value.state.Complete? && found.value.detail == Some(f.ingressHash)
            && found.value.result == Some(CloseResultOf(f)) && found.value.successor.None?
            && f.mapping.chatId in d'.records && HoldsMapping(d'.records[f.mapping.chatId], f.mapping)
            && Settle(d', f, Uncertain) == d'
  {
    var d' := CompleteCloseStep(d, f).doc;
    CompleteReadBack(d, f.chatId, f.ingressId, f.ingressHash, f.mapping, CloseResultOf(f));
    if f.chatId in d'.records {
      FirstInJournal(d'.records[f.chatId], f.ingressId);
    }
    SettleRefused(d', f, Uncertain);
  }
}
