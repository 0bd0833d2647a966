/** Closing at most once across crashes: what has to survive on disk, and what
    happens when it does not. */
module CloseDurability {
  import opened AuthorityTypes
  import opened RelationalValidity
  import opened JournalSteps
  import opened JournalInvariant
  import opened JournalRuns
  import opened Wal
  import opened Normalize
  import opened AuthorityDisk
  import opened CrashSafety
  import opened DurabilityLimits
  import opened CloseRouter

  // ------------------------------------------------- the compact form keeps it

  lemma OverlapNormalized(oid: OperationId, ops: seq<Operation>)
    ensures AnyOverlap(oid, NormalizeOps(ops)) <==> AnyOverlap(oid, ops)
  {
    var n := NormalizeOps(ops);
    assert forall i :: 0 <= i < |ops| ==> n[i].oid == ops[i].oid;
    SameNamesSameClashes(oid, ops, n);
  }

  lemma LiveNormalized(r: Option<Record>, p: Provisional)
    requires Live(r, p)
    ensures Live(NormalizeFound(r), NormalizeProvisional(p))
  {
    if r.Some? {
      LineageNormalized(r.value);
      RootNormalized(r.value.reassignment);
      ChainFacts(Root(r.value.reassignment), "", "");
      OverlapNormalized(p.oid, ChainOps(Root(r.value.reassignment)));
      OverlapNormalized(p.oid, Lineage(r.value));
    }
  }

  lemma NormalizedInv(d: Document)
    requires Inv(d)
    ensures Inv(Normalized(d))
  {
    var n := Normalized(d);
    InvIsLoadable(d);
    NormalizedLoadable(d);
    forall c | c in n.records
      ensures RecordOk(n.records[c])
    {
      NormalizedMarker(d, c);
    }
    forall k | k in n.provisional
      ensures Live(n.RecordOf(n.provisional[k].chatId), n.provisional[k])
    {
      NormalizedLive(d, k);
    }
  }

  lemma NormalizedMarker(d: Document, c: string)
    requires Inv(d) && c in d.records && Loadable(Normalized(d))
    ensures RecordOk(Normalized(d).records[c])
  {
    assert RecordOk(d.records[c]);
  }

  lemma NormalizedLive(d: Document, k: Key)
    requires Inv(d) && k in d.provisional
    ensures Live(Normalized(d).RecordOf(d.provisional[k].chatId), Normalized(d).provisional[k])
  {
    assert EntryOk(d.RecordOf(d.provisional[k].chatId), d.provisional[k]);
    LiveNormalized(d.RecordOf(d.provisional[k].chatId), d.provisional[k]);
    assert Normalized(d).RecordOf(d.provisional[k].chatId) == NormalizeFound(d.RecordOf(d.provisional[k].chatId));
  }

  lemma NormalizedRecorded(d: Document, closes: seq<(string, string)>)
    requires Recorded(d, closes)
    ensures Recorded(Normalized(d), closes)
  {
    NormalizedInv(d);
    forall i | 0 <= i < |closes|
      ensures OnRecord(Normalized(d), closes[i])
    {
      NormalizedLookup(d, closes[i].0, closes[i].1);
    }
  }

  lemma NormalizedReported(s: State)
    requires Reported(s)
    ensures Reported(s.(doc := Normalized(s.doc)))
  {
    var n := Normalized(s.doc);
    forall c, i | c in n.records && 0 <= i < |Lineage(n.records[c])| && DoneClose(Lineage(n.records[c])[i])
      ensures (c, Lineage(n.records[c])[i].oid.id) in s.reported
    {
      LineageNormalized(s.doc.records[c]);
      assert Lineage(n.records[c])[i] == NormalizeOperation(Lineage(s.doc.records[c])[i]);
    }
  }

  // ------------------------------------------------------------- across a crash

  /** Every started close is still on record, and no close is complete whose physical close did not report. */
  ghost predicate StillOnRecord(s: State, booted: Document) {
    Recorded(booted, s.closes) && Reported(s.(doc := booted))
  }

  /** A call a crash may interrupt: of another client, or the router's own completion of a reported close. */
  ghost predicate Underway(s: State, cmd: Command) {
    && Safe(s.doc, cmd) && KeepsCloses(s, Other(cmd))
    && (LeavesCloses(s.doc, cmd) ||
        exists id :: id in s.flights && s.flights[id].closed && CarriesNoClose(s.flights[id].mapping)
          && cmd == CompleteClose(s.flights[id]))
  }

  /** What recovery can find: with no call under way the state itself, otherwise also what the call was making. */
  function Landings(d: Document, underway: Option<Command>): set<Document> {
    match underway
    case None => {d, Normalized(d)}
    case Some(cmd) => {d, Perform(d, Do(cmd)), Normalized(Perform(d, Do(cmd)))}
  }

  /** The boot behind a crash of a settled authority, whatever call was under way. */
  ghost predicate CrashOutcome(w: Wire, s: State, booted: Document) {
    exists f, underway: Option<Command> ::
      && (underway.Some? ==> Underway(s, underway.value))
      && Lands(w, f, Landings(s.doc, underway)) && BootOf(Recover(w, f).doc, booted)
  }

  lemma UnderwayKeeps(s: State, cmd: Command)
    requires Once(s) && Reported(s) && Underway(s, cmd)
    ensures StillOnRecord(s, Perform(s.doc, Do(cmd)))
  {
    AllStayOnRecord(s.doc, Do(cmd), s.closes);
    if LeavesCloses(s.doc, cmd) {
      OtherReported(s, cmd);
    } else {
      var id :| id in s.flights && s.flights[id].closed && CarriesNoClose(s.flights[id].mapping)
        && cmd == CompleteClose(s.flights[id]);
      CompletionKeeps(s, id);
    }
  }

  lemma CompletionKeeps(s: State, id: nat)
    requires Once(s) && Reported(s) && id in s.flights && s.flights[id].closed && CarriesNoClose(s.flights[id].mapping)
    requires Safe(s.doc, CompleteClose(s.flights[id]))
    ensures Reported(s.(doc := Perform(s.doc, Do(CompleteClose(s.flights[id])))))
  {
    assert OnRecord(s.doc, s.closes[id]);
    PublishedDocReported(s, s.flights[id], true);
    CompleteIsCommand(s.doc, s.flights[id]);
  }

  lemma CompactKeeps(s: State, d: Document)
    requires StillOnRecord(s, d)
    ensures StillOnRecord(s, Normalized(d))
  {
    NormalizedRecorded(d, s.closes);
    NormalizedReported(s.(doc := d));
  }

  lemma BootKeeps(s: State, recovered: Document, booted: Document)
    requires StillOnRecord(s, recovered) && BootOf(recovered, booted)
    ensures StillOnRecord(s, booted)
  {
    AllStayOnRecord(recovered, Restart, s.closes);
    RestartNew(recovered);
    NoNewReported(s.(doc := recovered), s.(doc := ReconcileStep(recovered)));
    CompactKeeps(s, ReconcileStep(recovered));
  }

  /** A crash of a settled authority at any moment, and the boot behind it, keep every started close on
      record and complete none that did not report. */
  lemma CrashStaysOnRecord(w: Wire, s: State, booted: Document)
    requires Once(s) && Reported(s) && CrashOutcome(w, s, booted)
    ensures StillOnRecord(s, booted)
  {
    var f, underway: Option<Command> :|
      && (underway.Some? ==> Underway(s, underway.value))
      && Lands(w, f, Landings(s.doc, underway)) && BootOf(Recover(w, f).doc, booted);
    assert s.(doc := s.doc) == s && StillOnRecord(s, s.doc);
    CompactKeeps(s, s.doc);
    if underway.Some? {
      UnderwayKeeps(s, underway.value);
      CompactKeeps(s, Perform(s.doc, Do(underway.value)));
    }
    BootKeeps(s, Recover(w, f).doc, booted);
  }

  /** A run whose restarts come behind crashes of a settled authority. */
  ghost predicate ReachesSettled(w: Wire, s: State, events: seq<CloseRouter.Event>, s': State)
    decreases |events|
  {
    if events == [] then s' == s
    else
      && (if events[0].Reboot? then CrashOutcome(w, s, events[0].booted)
          else Permitted(s, events[0]) && KeepsCloses(s, events[0]))
      && ReachesSettled(w, Next(s, events[0]), events[1..], s')
  }

  /** As long as every call that returned was durable, no chat and ingress is physically closed twice and
      no close is complete that did not report, whatever crashes come between. */
  lemma {:induction false} AtMostOneCloseDurably(w: Wire, s: State, events: seq<CloseRouter.Event>, s': State)
    requires Once(s) && Reported(s) && ReachesSettled(w, s, events, s')
    ensures Once(s') && Reported(s')
    ensures forall i, j :: 0 <= i < j < |s'.closes| ==> s'.closes[i] != s'.closes[j]
    decreases |events|
  {
    if events != [] {
      if events[0].Reboot? {
        CrashStaysOnRecord(w, s, events[0].booted);
      }
      OnceFindsFlights(s);
      NextOnce(s, events[0]);
      NextReported(s, events[0]);
      AtMostOneCloseDurably(w, Next(s, events[0]), events[1..], s');
    }
  }

  // ------------------------------------------------------------- a lost begin

  const OPEN_SESSION := Record("c", "p", "s", "o", Observations(None, None, ""), "", [], None)
  const BEFORE := Document(map["c" := OPEN_SESSION], map[])
  const CLOSING := Ingress("c", "x", "h", None, true, true, Input("c", "p", "s", "x", None, "", "", None, None, []))

  lemma RouteStarts(s: State)
    requires s.doc == BEFORE
    ensures RouteStep(s, CLOSING).closes == s.closes + [("c", "x")]
  {
    assert Lineage(OPEN_SESSION) == [];
    assert LookupOperation(BEFORE, "c", "x").None?;
    assert FirstOverlap(OPEN_SESSION.journal, CloseId("x")) == 0;
  }

  /** Where the begin of a close was acknowledged without being durable and a crash loses it, the same
      request closes the session a second time. */
  lemma LostBeginClosesTwice()
    ensures var s := RouteStep(State(BEFORE, map[], [], {}), CLOSING);
            && s.closes == [("c", "x")] && !StillOnRecord(s, BEFORE)
            && RouteStep(s.(doc := BEFORE, flights := map[]), CLOSING).closes == [("c", "x"), ("c", "x")]
  {
    var s := RouteStep(State(BEFORE, map[], [], {}), CLOSING);
    RouteStarts(State(BEFORE, map[], [], {}));
    RouteStarts(s.(doc := BEFORE, flights := map[]));
    assert Lineage(OPEN_SESSION) == [];
    assert s.closes[0] == ("c", "x") && !OnRecord(BEFORE, s.closes[0]);
  }
}
