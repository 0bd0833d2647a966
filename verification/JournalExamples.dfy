/** One concrete document for each way an accepted step can leave an authority
    that cannot be loaded again, or forgets part of a lineage. */
module JournalExamples {
  import opened AuthorityTypes
  import opened RelationalValidity
  import opened JournalSteps
  import opened JournalInvariant
  import opened ReassignmentSafety
  import opened JournalExactness

  const NOTHING_SEEN := Observations(None, None, "")

  function ChatRecord(journal: seq<Operation>, reassignment: Option<Reassignment>): Record {
    Record("c", "p", "s", "o", NOTHING_SEEN, "", journal, reassignment)
  }

  function Moving(target: Option<Target>): Reassignment {
    Reassignment(InProgress, "p", "q", target, None, None)
  }

  function Waiting(id: string, ingress: string, projectId: string, detail: Option<string>): Provisional {
    Provisional(OperationId(id, Some(ingress)), Prompt, Pending, detail, None, "c", projectId, None, None, None)
  }

  function Mapped(chatId: string, projectId: string, operationId: string): Input {
    Input(chatId, projectId, "s", operationId, None, "", "", None, None, [])
  }

  function WithOne(r: Record, p: Provisional): Document {
    Document(map[r.chatId := r], map[KeyOf(p) := p])
  }

  lemma OneIsInv(r: Record, p: Provisional)
    requires RecordOk(r) && p.chatId == r.chatId && EntryOk(Some(r), p)
    ensures Inv(WithOne(r, p))
  {
  }

  lemma EmptyLineageOk(r: Record)
    requires r.journal == [] && MarkerOk(r.reassignment) && Root(r.reassignment).None?
    requires r.reassignment.Some? ==> ReassignmentShape(r.reassignment.value, r.chatId, r.projectId)
    ensures RecordOk(r) && Lineage(r) == []
  {
  }

  const TARGETED := ChatRecord([], Some(Moving(Some(Target(OperationId("t", Some("t")), Prompt, Some("h"))))))

  /** Rolling a reassignment back relabels its pending target, which then matches nothing. */
  lemma RollBackBreaks()
    ensures var d := WithOne(TARGETED, Waiting("t", "t", "q", Some("h")));
            Inv(d) && RollbackStep(d, "c", "p").outcome.Accepted? && !Loadable(RollbackStep(d, "c", "p").doc)
  {
    var p := Waiting("t", "t", "q", Some("h"));
    var d := WithOne(TARGETED, p);
    EmptyLineageOk(TARGETED);
    OneIsInv(TARGETED, p);
    assert KeyOf(p) == Key("c", "t") && RollbackVictim(d, "c") == Some(p);
    assert p.detail.value != ROLLBACK_DETAIL by {
      assert |p.detail.value| == 1;
    }
    RollbackExact(d, "c", "p");
  }

  const UNTARGETED := ChatRecord([], Some(Moving(None)))

  /** A target reserved without a detail gets one at the next restart, and matches nothing then. */
  lemma RestartBreaks()
    ensures var d := Document(map["c" := UNTARGETED], map[]);
            var op := Draft(OperationId("t", None), Prompt, None, "c", "q", None, None, None);
            && Inv(d) && ReserveStep(d, op).outcome.Accepted?
            && !LoadsAgain(ReserveStep(d, op).doc)
  {
    var d := Document(map["c" := UNTARGETED], map[]);
    var op := Draft(OperationId("t", None), Prompt, None, "c", "q", None, None, None);
    EmptyLineageOk(UNTARGETED);
    assert Inv(d);
    assert LineageOf(d.RecordOf("c")) == [];
    ReserveExact(d, op);
  }

  /** An operation that is stored under its own id clashes with a reservation using that id differently. */
  lemma StoreBreaks()
    ensures var d := Document(map[], map[Key("c", "y") := Waiting("x", "y", "p", None)]);
            && Inv(d) && StoreStep(d, Mapped("c", "p", "x")).outcome.Accepted?
            && !Loadable(StoreStep(d, Mapped("c", "p", "x")).doc)
  {
    var p := Waiting("x", "y", "p", None);
    var d := Document(map[], map[Key("c", "y") := p]);
    var input := Mapped("c", "p", "x");
    assert KeyOf(p) == Key("c", "y");
    assert Inv(d);
    assert d.provisional[Key("c", "y")] == p;
    assert StoreStep(d, input).outcome.Accepted?;
    assert "x" in p.oid.Identifiers() * ImplicitOperation("x").oid.Identifiers();
    assert p.oid.Identity() == ("x", "y") && ImplicitOperation("x").oid.Identity() == ("x", "x");
    assert "x" != "y" by {
      assert "x"[0] != "y"[0];
    }
    BareStoreSafe(d, input);
    StoreExact(d, input);
  }

  const RETIRED_OPERATION := Operation(OperationId("old", None), Prompt, Complete, None, None, None)

  const MOVED := ChatRecord([], Some(Reassignment(
    Committed, "z", "p", None, Some(Tombstone("c", "z", "s", "o", NOTHING_SEEN, "", [RETIRED_OPERATION], None)), None)))

  lemma MovedOk()
    ensures RecordOk(MOVED)
  {
    var t := MOVED.reassignment.value.sourceTombstone;
    assert "z" != "p" by {
      assert "z"[0] != "p"[0];
    }
    assert OperationShape(RETIRED_OPERATION);
    assert ChainShape(t) && ChainShape(None) && ChainBound(None, "c");
    assert ChainBound(t, "c");
    assert ChainOps(t) == [RETIRED_OPERATION] + ChainOps(None);
    assert Lineage(MOVED) == [RETIRED_OPERATION];
  }

  /** An operation begun under a name the chat used in its former project is used twice. */
  lemma BeginBreaks()
    ensures var d := Document(map["c" := MOVED], map[]);
            && Inv(d) && BeginStep(d, "c", OperationId("old", None), Prompt, None).outcome.Accepted?
            && !Loadable(BeginStep(d, "c", OperationId("old", None), Prompt, None).doc)
  {
    var d := Document(map["c" := MOVED], map[]);
    var chain := ChainOps(Root(MOVED.reassignment));
    assert chain == [RETIRED_OPERATION] + ChainOps(None) == [RETIRED_OPERATION];
    assert Lineage(MOVED) == [RETIRED_OPERATION];
    MovedOk();
    assert Inv(d);
    assert "old" in OperationId("old", None).Identifiers() * chain[0].oid.Identifiers();
    assert AnyOverlap(OperationId("old", None), chain);
    BeginExact(d, "c", OperationId("old", None), Prompt, None);
  }

  const PAUSED := ChatRecord([RETIRED_OPERATION], Some(Reassignment(
    InProgress, "p", "q", None, None, Some(Tombstone("c", "z", "s", "o", NOTHING_SEEN, "", [OLDER], None)))))

  /** A second begin over a pending reassignment drops the lineage retired before it. */
  lemma SecondBeginForgets()
    ensures var d := Document(map["c" := PAUSED], map[]);
            && BeginReassignmentStep(d, "c", "p", "q", None).outcome.Accepted?
            && LookupOperation(d, "c", "older").Some?
            && LookupOperation(BeginReassignmentStep(d, "c", "p", "q", None).doc, "c", "older").None?
  {
    var d := Document(map["c" := PAUSED], map[]);
    var d' := BeginReassignmentStep(d, "c", "p", "q", None).doc;
    assert ChainOps(Root(PAUSED.reassignment)) == [OLDER] + ChainOps(None);
    assert Lineage(PAUSED)[1] == OLDER && "older" in Names(OLDER);
    assert Lineage(d'.records["c"]) == [RETIRED_OPERATION];
    assert "older" != "old" by {
      assert |"older"| != |"old"|;
    }
    assert Names(RETIRED_OPERATION) == {"old"};
  }

  const TARGET := Waiting("t", "t", "q", Some("h"))
  const OTHER := Waiting("u", "u", "p", None)
  const TWO_OPEN := Document(map["c" := TARGETED], map[Key("c", "t") := TARGET, Key("c", "u") := OTHER])
  const COMMIT := Draft(OperationId("t", Some("t")), Prompt, Some("h"), "c", "q", None, None, None)

  lemma TwoOpenFacts()
    ensures KeyOf(TARGET) == Key("c", "t") && KeyOf(OTHER) == Key("c", "u") && Key("c", "t") != Key("c", "u")
    ensures !Overlap(TARGET.oid, OTHER.oid) && !Overlap(OTHER.oid, TARGET.oid)
    ensures !Overlap(COMMIT.oid, OTHER.oid) && "p" != "q"
  {
    assert "t" != "u" && "p" != "q" by {
      assert "t"[0] != "u"[0] && "p"[0] != "q"[0];
    }
    assert TARGET.oid.Identifiers() == {"t"} && OTHER.oid.Identifiers() == {"u"} && COMMIT.oid.Identifiers() == {"t"};
  }

  lemma TwoOpenInv()
    ensures Inv(TWO_OPEN)
  {
    TwoOpenFacts();
    EmptyLineageOk(TARGETED);
    TwoOpenEntries();
    var d := TWO_OPEN;
    assert d.provisional[Key("c", "t")] == TARGET && d.provisional[Key("c", "u")] == OTHER;
    assert forall k :: k in d.provisional ==> k == Key("c", "t") || k == Key("c", "u");
    assert d.RecordOf("c") == Some(TARGETED);
    assert WellKeyed(d) && ProvisionalDisjoint(d);
  }

  lemma TwoOpenEntries()
    ensures EntryOk(Some(TARGETED), TARGET) && EntryOk(Some(TARGETED), OTHER)
  {
    TwoOpenFacts();
    EmptyLineageOk(TARGETED);
    assert ChainOps(Root(TARGETED.reassignment)) == [];
    assert !Foreign(Some(TARGETED), OTHER);
    assert MatchesReassignment(TARGETED, TARGET);
  }

  lemma TwoOpenCommits()
    ensures PublishStep(TWO_OPEN, COMMIT, Mapped("c", "q", "t")).outcome.Accepted?
    ensures CommitsReassignment(TWO_OPEN.RecordOf("c"), Mapped("c", "q", "t"))
  {
    TwoOpenFacts();
    EmptyLineageOk(TARGETED);
    assert TWO_OPEN.provisional - {Key("c", "t")} == map[Key("c", "u") := OTHER];
    assert TWO_OPEN.ProvisionalAt(Key("c", "t")) == Some(TARGET);
    assert PublishableReservation(COMMIT, Some(TARGET));
  }

  /** Committing a reassignment leaves another open reservation of the source project out of place. */
  lemma CommitBreaks()
    ensures Inv(TWO_OPEN) && PublishStep(TWO_OPEN, COMMIT, Mapped("c", "q", "t")).outcome.Accepted?
    ensures var d' := PublishStep(TWO_OPEN, COMMIT, Mapped("c", "q", "t")).doc;
            !LoadsAgain(d')
  {
    TwoOpenInv();
    TwoOpenCommits();
    TwoOpenFacts();
    assert TWO_OPEN.provisional[Key("c", "u")] == OTHER;
    assert !SourceQuiet(TWO_OPEN, COMMIT);
    PublishExact(TWO_OPEN, COMMIT, Mapped("c", "q", "t"));
  }

  lemma TargetedInv()
    ensures var p := Waiting("t", "t", "q", Some("h"));
            && Inv(WithOne(TARGETED, p)) && KeyOf(p) == Key("c", "t") && "p" != "q"
            && WithOne(TARGETED, p).ProvisionalAt(Key("c", "t")) == Some(p)
  {
    var p := Waiting("t", "t", "q", Some("h"));
    EmptyLineageOk(TARGETED);
    OneIsInv(TARGETED, p);
    assert "p" != "q" by {
      assert "p"[0] != "q"[0];
    }
  }

  /** Moving a reserved target to complete leaves it out of place at the next restart. */
  lemma MoveBreaks()
    ensures var d := WithOne(TARGETED, Waiting("t", "t", "q", Some("h")));
            var s := TransitionProvisionalStep(d, "c", "t", Complete, None);
            && Inv(d) && s.outcome.Accepted? && !LoadsAgain(s.doc)
  {
    TargetedInv();
    MoveExact(WithOne(TARGETED, Waiting("t", "t", "q", Some("h"))), "c", "t", Complete, None);
  }

  /** Marking a reserved target uncertain under another detail leaves it out of place. */
  lemma RelabelBreaks()
    ensures var d := WithOne(TARGETED, Waiting("t", "t", "q", Some("h")));
            var s := TransitionProvisionalStep(d, "c", "t", Uncertain, Some("other"));
            && Inv(d) && s.outcome.Accepted? && !LoadsAgain(s.doc)
  {
    TargetedInv();
    var d := WithOne(TARGETED, Waiting("t", "t", "q", Some("h")));
    assert "other" != "h" by {
      assert |"other"| != |"h"|;
    }
    MoveExact(d, "c", "t", Uncertain, Some("other"));
  }

  // -------------------------------------------------------- begun a second time

  const OLDER := Operation(OperationId("older", None), Prompt, Complete, None, None, None)
  const SPENT := Provisional(OperationId("older", None), Prompt, Complete, None, None, "c", "z", None, None, None)

  lemma PausedOk()
    ensures RecordOk(PAUSED) && EntryOk(Some(PAUSED), SPENT)
  {
    var t := PAUSED.reassignment.value.priorTombstone;
    assert "p" != "q" && "z" != "p" && "z" != "q" && "older" != "old" by {
      assert "p"[0] != "q"[0] && "z"[0] != "p"[0] && "z"[0] != "q"[0] && |"older"| != |"old"|;
    }
    assert OperationShape(RETIRED_OPERATION) && OperationShape(OLDER);
    assert ChainShape(None) && ChainBound(None, "c");
    assert ChainShape(t) && ChainBound(t, "c");
    assert ChainOps(t) == [OLDER] + ChainOps(None);
    assert Lineage(PAUSED) == [RETIRED_OPERATION, OLDER];
    assert RETIRED_OPERATION.oid.Identifiers() == {"old"} && OLDER.oid.Identifiers() == {"older"};
    assert SPENT.oid.Identifiers() == {"older"};
    assert ChainHasProject(t, "z");
  }

  /** A second begin over a pending reassignment drops the lineage whose evidence is still stored, and
      the authority cannot be loaded again. */
  lemma SecondBeginBreaks()
    ensures var d := WithOne(PAUSED, SPENT);
            var s := BeginReassignmentStep(d, "c", "p", "q", None);
            && Inv(d) && s.outcome.Accepted? && !LoadsAgain(s.doc)
  {
    var d := WithOne(PAUSED, SPENT);
    PausedOk();
    OneIsInv(PAUSED, SPENT);
    assert d.provisional[KeyOf(SPENT)] == SPENT && d.records["c"] == PAUSED;
    assert "z" != "p" && "p" != "q" by {
      assert "z"[0] != "p"[0] && "p"[0] != "q"[0];
    }
    BeginReassignmentExact(d, "c", "p", "q", None);
    assert !StaysEvidence(PAUSED, "q", None, SPENT);
  }

  const REUSED := Provisional(OperationId("old", None), Prompt, Complete, None, None, "c", "z", None, None, None)

  /** A chat that moves back under a target of a name already spent there cannot be loaded after a restart. */
  lemma TargetReuseBreaks()
    ensures var d := WithOne(MOVED, REUSED);
            var s := BeginReassignmentStep(d, "c", "p", "z", Some(Target(REUSED.oid, Prompt, None)));
            && Inv(d) && s.outcome.Accepted? && !LoadsAgain(s.doc)
  {
    var d, target := WithOne(MOVED, REUSED), Target(REUSED.oid, Prompt, None);
    MovedOk();
    var t := MOVED.reassignment.value.sourceTombstone;
    assert ChainOps(t) == [RETIRED_OPERATION] + ChainOps(None) && Lineage(MOVED) == [RETIRED_OPERATION];
    assert ChainHasProject(t, "z");
    OneIsInv(MOVED, REUSED);
    assert d.provisional[KeyOf(REUSED)] == REUSED && d.records["c"] == MOVED;
    assert "z" != "p" by {
      assert "z"[0] != "p"[0];
    }
    BeginReassignmentExact(d, "c", "p", "z", Some(target));
    assert !StaysEvidence(MOVED, "z", Some(target), REUSED);
  }
}
