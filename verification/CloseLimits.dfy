/** Where a session is closed a second time: behind a begin that drops the close's
    lineage, and behind the revival of a retired chat. */
module CloseLimits {
  import opened AuthorityTypes
  import opened RelationalValidity
  import opened JournalSteps
  import opened JournalInvariant
  import opened ReassignmentSafety
  import opened JournalRuns
  import opened Journal
  import opened ScopedStore
  import opened CloseRouter

  /** The request to close a chat again under an ingress it was closed under. */
  function Again(chatId: string, ingressId: string, ingressHash: string, mapping: Input): Ingress {
    Ingress(chatId, ingressId, ingressHash, None, true, true, mapping)
  }

  /** A request that passes its own checks starts a physical close exactly when nothing is found under its
      ingress, the chat is not moving, and no reservation uses the name. */
  lemma RouteStartsExact(s: CloseRouter.State, c: string, x: string, hash: string, mapping: Input)
    requires c in s.doc.records
    ensures var r := s.doc.records[c];
            RouteStep(s, Again(c, x, hash, mapping)).closes == s.closes + [(c, x)] <==>
            FirstNamed(Lineage(r), x).None? && !InProgress?(Some(r))
              && !AnyProvisionalOverlap(CloseId(x), s.doc.provisional)
  {
    var r := s.doc.records[c];
    if FirstNamed(Lineage(r), x).None? {
      NoneNamed(Lineage(r), x);
      NoOverlapInside(r.journal, ChainOps(Root(r.reassignment)), x);
    }
  }

  // --------------------------------------------------------- a dropped lineage

  /** The chat behind a begin over its pending reassignment and the roll back of that. */
  function MovedBack(d: Document, chatId: string, current: string, next: string, target: Option<Target>): Document {
    RollbackStep(BeginReassignmentStep(d, chatId, current, next, target).doc, chatId, current).doc
  }

  lemma MovedBackRecord(d: Document, chatId: string, current: string, next: string, target: Option<Target>)
    requires Inv(d) && InProgress?(d.RecordOf(chatId))
    requires BeginReassignmentStep(d, chatId, current, next, target).outcome.Accepted?
    ensures var d1 := BeginReassignmentStep(d, chatId, current, next, target).doc;
            && RollbackStep(d1, chatId, current).outcome.Accepted? && RollbackSafe(d1, chatId)
    ensures var d2 := MovedBack(d, chatId, current, next, target);
            && chatId in d2.records && Lineage(d2.records[chatId]) == d.records[chatId].journal
            && !InProgress?(Some(d2.records[chatId])) && d2.provisional == d.provisional
  {
    var r, d1 := d.records[chatId], BeginReassignmentStep(d, chatId, current, next, target).doc;
    RetainedIsRoot(r);
    MarkedLineage(r, d1.records[chatId].reassignment.value);
    forall k | k in d.provisional && k.chatId == chatId
      ensures d.provisional[k].state.Complete?
    {
      assert KeyOf(d.provisional[k]) == k;
    }
    assert RollbackVictim(d1, chatId).None?;
    assert MovedBack(d, chatId, current, next, target).records[chatId] == RolledBackRecord(d1.records[chatId]);
    assert Lineage(RolledBackRecord(d1.records[chatId])) == Lineage(d1.records[chatId]);
  }

  /** Whenever an accepted begin drops a started close, rolling it back and asking again under the same
      ingress starts the close a second time, exactly unless a reservation uses its name. */
  lemma DroppedClosesAgain(s: CloseRouter.State, i: nat, current: string, next: string, target: Option<Target>,
                           hash: string, mapping: Input)
    requires Once(s) && i < |s.closes| && s.closes[i].1 != ""
    requires var cmd := BeginReassignment(s.closes[i].0, current, next, target);
             && StepOf(s.doc, cmd).outcome.Accepted? && Safe(s.doc, cmd)
               && DropsName(s.doc, cmd, s.closes[i].0, s.closes[i].1)
    ensures var (c, x) := s.closes[i];
            var moved := s.(doc := MovedBack(s.doc, c, current, next, target));
            && Reaches(s, [Other(BeginReassignment(c, current, next, target)), Other(RollBack(c, current))], moved)
            && (RouteStep(moved, Again(c, x, hash, mapping)).closes == s.closes + [s.closes[i]] <==>
                !AnyProvisionalOverlap(CloseId(x), s.doc.provisional))
  {
    var (c, x) := s.closes[i];
    var moved := s.(doc := MovedBack(s.doc, c, current, next, target));
    MovedBackRecord(s.doc, c, current, next, target);
    MovedBackReaches(s, c, current, next, target);
    RouteStartsExact(moved, c, x, hash, mapping);
    assert (c, x) == s.closes[i];
  }

  lemma MovedBackReaches(s: CloseRouter.State, c: string, current: string, next: string, target: Option<Target>)
    requires BeginReassignmentStep(s.doc, c, current, next, target).outcome.Accepted?
        && BeginReassignmentSafe(s.doc, c, next, target)
    requires var d1 := BeginReassignmentStep(s.doc, c, current, next, target).doc;
             RollbackStep(d1, c, current).outcome.Accepted? && RollbackSafe(d1, c)
    ensures Reaches(s, [Other(BeginReassignment(c, current, next, target)), Other(RollBack(c, current))],
                    s.(doc := MovedBack(s.doc, c, current, next, target)))
  {
    var begin, back := Other(BeginReassignment(c, current, next, target)), Other(RollBack(c, current));
    var s1 := s.(doc := BeginReassignmentStep(s.doc, c, current, next, target).doc);
    var s2 := s.(doc := MovedBack(s.doc, c, current, next, target));
    assert Next(s, begin) == s1 && Next(s1, back) == s2;
    assert [begin, back][1..] == [back] && [back][1..] == [];
    assert Reaches(s2, [], s2);
    assert Reaches(s1, [back], s2);
  }

  const SEEN := Observations(None, None, "")
  const CLOSED := Operation(CloseId("x"), Close, Complete, None, None, None)
  const FORMER := Tombstone("c", "z", "s", "o", SEEN, "", [CLOSED], None)
  const MOVING := Record("c", "p", "s", "o", SEEN, "", [],
    Some(Reassignment(InProgress, "p", "q", None, None, Some(FORMER))))
  const MOVING_CHAT := Document(map["c" := MOVING], map[])
  const CLOSED_ONCE := CloseRouter.State(MOVING_CHAT, map[], [("c", "x")], {("c", "x")})

  lemma MovingOk()
    ensures RecordOk(MOVING) && Lineage(MOVING) == [CLOSED] && Inv(MOVING_CHAT)
  {
    assert "p" != "q" by {
      assert "p"[0] != "q"[0];
    }
    assert OperationShape(CLOSED) && ChainShape(None) && ChainBound(None, "c");
    assert ChainShape(Some(FORMER)) && ChainBound(Some(FORMER), "c");
    assert ChainOps(Some(FORMER)) == [CLOSED] + ChainOps(None) == [CLOSED];
    assert Lineage(MOVING) == [] + [CLOSED] == [CLOSED];
  }

  lemma ClosedOnceFacts()
    ensures Once(CLOSED_ONCE) && Reported(CLOSED_ONCE)
  {
    MovingOk();
    assert "x" in Names(CLOSED) && [CLOSED][0] == CLOSED;
    assert IndexOf(Lineage(MOVING), "x") == 0;
    assert MOVING_CHAT.RecordOf("c") == Some(MOVING);
  }

  /** A chat closed before it moved is closed again behind a second begin and its roll back. */
  lemma SecondBeginClosesTwice()
    ensures Once(CLOSED_ONCE) && Reported(CLOSED_ONCE)
    ensures var moved := CLOSED_ONCE.(doc := MovedBack(MOVING_CHAT, "c", "p", "q", None));
            && Reaches(CLOSED_ONCE, [Other(BeginReassignment("c", "p", "q", None)), Other(RollBack("c", "p"))], moved)
            && RouteStep(moved, Again("c", "x", "h", Input("c", "p", "s", "o", None, "", "", None, None, []))).closes ==
                 [("c", "x"), ("c", "x")]
  {
    ClosedOnceFacts();
    assert "p" != "q" by {
      assert "p"[0] != "q"[0];
    }
    assert MOVING_CHAT.RecordOf("c") == Some(MOVING) && FirstNamed(MOVING.journal, "x").None?;
    DroppedClosesAgain(CLOSED_ONCE, 0, "p", "q", None, "h", Input("c", "p", "s", "o", None, "", "", None, None, []));
  }

  // ------------------------------------------------------------ a retired chat

  /** A retired chat starts no close: as long as its key is spared, the begin of one is refused, scoped or not. */
  lemma RetiredStartsNoClose(d: Document, scope: Scope, ids: seq<string>, events: seq<StoreEvent>, x: string,
                             hash: string, later: seq<string>)
    requires WellKeyed(d) && CallStep(d, Retire(scope), ids).reply == Done(Accepted)
    requires AllSpare(CallStep(d, Retire(scope), ids).doc, events, KeyOfScope(scope).value)
    ensures var d', key := AfterAll(CallStep(d, Retire(scope), ids).doc, events), KeyOfScope(scope).value;
            && CallStep(d', Scoped(scope, Begin(scope.chatId, CloseId(x), Close, Some(hash))), later) ==
              Called(d', Unavailable)
            && CallStep(d', Legacy(Begin(key, CloseId(x), Close, Some(hash))), later) == Called(d', Unavailable)
  {
    RetiredStaysRefused(d, scope, ids, events, Begin(scope.chatId, CloseId(x), Close, Some(hash)), later);
    RetiredStaysRefused(d, scope, ids, events, Begin(KeyOfScope(scope).value, CloseId(x), Close, Some(hash)), later);
  }

  /** The operations a store makes of a chat without any. */
  function StoredAnew(mapping: Input): seq<Operation>
    requires AppendJournal([], mapping.journal).Some?
  {
    WithImplicit(AppendJournal([], mapping.journal).value, mapping.operationId)
  }

  /** A retired chat that a stored mapping has brought back has forgotten the closes of its emptied journal.
      It can be closed under an ingress exactly when neither that mapping's operations, nor a lineage retired
      before, nor a reservation answers to it. */
  lemma RevivedClosesExact(d: Document, mapping: Input, key: string, r: Record, s: CloseRouter.State, x: string,
                           hash: string)
    requires Frozen(d, key, r) && mapping.chatId == key
    requires StoreStep(d, mapping).outcome.Accepted? && s.doc == StoreStep(d, mapping).doc
    ensures AppendJournal([], mapping.journal).Some?
    ensures RouteStep(s, Again(key, x, hash, mapping)).closes == s.closes + [(key, x)] <==>
            && FirstNamed(StoredAnew(mapping), x).None? && FirstNamed(ChainOps(Root(r.reassignment)), x).None?
            && !AnyProvisionalOverlap(CloseId(x), d.provisional)
  {
    RevivedRecord(d, mapping, key, r);
    RouteStartsExact(s, key, x, hash, mapping);
    FirstNamedConcat(StoredAnew(mapping), ChainOps(Root(r.reassignment)), x);
  }

  lemma RevivedRecord(d: Document, mapping: Input, key: string, r: Record)
    requires Frozen(d, key, r) && mapping.chatId == key && StoreStep(d, mapping).outcome.Accepted?
    ensures AppendJournal([], mapping.journal).Some?
    ensures var d' := StoreStep(d, mapping).doc;
            && key in d'.records && d'.provisional == d.provisional && !InProgress?(Some(d'.records[key]))
            && Lineage(d'.records[key]) == StoredAnew(mapping) + ChainOps(Root(r.reassignment))
  {
  }
}
