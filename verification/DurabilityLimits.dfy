/** Where durability depends on more than one call, and exactly when it holds. */
module DurabilityLimits {
  import opened AuthorityTypes
  import opened RelationalValidity
  import opened JournalSteps
  import opened JournalExactness
  import opened JournalInvariant
  import opened JournalRuns
  import opened DocumentLists
  import opened Wal
  import opened Normalize
  import opened AuthorityDisk
  import opened CrashSafety
  import opened FileAuthority

  /** A base rewrite whose directory sync failed leaves the old log for the old base.  The next
      call deletes that log as stale, without a sync.  Should the rename be lost and the deletion
      kept, nothing acknowledged is lost if and only if the log had nothing to add to the old
      base, or the new base holds no more than the old one. */
  lemma UnsyncedDropExact(w: Wire, f: Files, b: BaseFile, clock: nat)
    requires f.base.Some? && f.wal.Some? && Recover(w, f).Recovered? && Known(w, f, clock)
    requires ValidBase(b) && b.id.generation == Some(clock)
    ensures (forall g :: g in Unlinked(Renamed(iset{f}, b)) ==> Lands(w, g, {Recover(w, f).doc, BaseDocument(b)}))
            <==> BaseDocument(f.base.value) in {Recover(w, f).doc, BaseDocument(b)}
  {
    var docs := {Recover(w, f).doc, BaseDocument(b)};
    FourOutcomes(f, b);
    FreshBaseRecovers(w, f, b, clock);
    FreshBaseRecovers(w, f.(wal := None), b, clock);
    var unlogged := f.(wal := None);
    assert Recover(w, unlogged) == Recovered(BaseDocument(f.base.value), None, false);
    if BaseDocument(f.base.value) in docs {
      forall g | g in Unlinked(Renamed(iset{f}, b))
        ensures Lands(w, g, docs)
      {
        assert g == f || g == f.(base := Some(b)) || g == unlogged || g == unlogged.(base := Some(b));
      }
    }
  }

  lemma FourOutcomes(f: Files, b: BaseFile)
    ensures Unlinked(Renamed(iset{f}, b)) ==
            iset{f, f.(base := Some(b)), f.(wal := None), f.(wal := None).(base := Some(b))}
  {
    assert f in Renamed(iset{f}, b) && f.(base := Some(b)) in Renamed(iset{f}, b);
  }

  ghost function AfterAppend(s: iset<Files>, log: WalFile, bytes: string): iset<Files> {
    Flushed(Grown(s, log.inode, log.text, bytes), log.(text := log.text + bytes))
  }

  /** A log whose name was not synced when it was created keeps a later, synced append only if
      its name has reached storage since. */
  lemma UnsyncedNameExact(w: Wire, now: Files, s: iset<Files>, rs: seq<Record>, ps: seq<Provisional>)
    requires Faithful(w) && Appendable(w, now) && now in s
    requires forall f :: f in s ==> f.base == now.base && (f.wal.None? || HasLog(f, now.wal.value.inode))
    requires Replayable(Recover(w, now).doc, rs, ps)
    requires Overlay(Recover(w, now).doc, rs, ps) != BaseDocument(now.base.value)
    ensures var post := Overlay(Recover(w, now).doc, rs, ps);
            var bytes := BehindText(w, rs, ps, Recover(w, now).id.value.digest);
            (forall f :: f in AfterAppend(s, now.wal.value, bytes) ==> RecoversTo(w, f, post))
            <==> (forall f :: f in s ==> f.wal.Some?)
  {
    var post := Overlay(Recover(w, now).doc, rs, ps);
    var bytes := BehindText(w, rs, ps, Recover(w, now).id.value.digest);
    var log := now.wal.value;
    var after := AfterAppend(s, log, bytes);
    var done := now.(wal := Some(log.(text := log.text + bytes)));
    AppendedRecovers(w, now, rs, ps, done);
    forall f | f in after
      ensures f == done || (f.wal.None? && f in s)
    {
    }
    forall f | f in s && f.wal.None?
      ensures f in after && !RecoversTo(w, f, post)
    {
    }
  }

  /** The boot compaction of an oversized authority writes what it reconciled without
      validating it again; the base it writes can be loaded exactly when reconciling was safe. */
  lemma UncheckedCompactionExact(d: Document)
    requires Loadable(d)
    ensures Loadable(Normalized(ReconcileStep(d))) <==> RestartSafe(d)
  {
    ReconcileExact(d);
    NormalizedLoadable(ReconcileStep(d));
  }

  // ------------------------------------------------------- concrete losses

  const FIRST: Record := Record("c", "p", "s", "o", Observations(None, None, ""), "", [], None)
  const SECOND: Record := FIRST.(chatId := "d")
  const OLD_ID := BaseId(0, 0, Some(0), true, "#")
  const OLD_BASE := BaseFile([], [], true, OLD_ID)
  const NEW_BASE := BaseFile([FIRST], [], true, BaseId(0, 0, Some(1), true, "#"))

  /** An empty base with one acknowledged record in the log beside it. */
  function Logged(w: Wire): Files {
    Files(Some(OLD_BASE), Some(WalFile(0, CreatedText(w, OLD_ID, [FIRST], []))))
  }

  lemma RecordAloneValid(r: Record)
    requires r.journal == [] && r.reassignment.None?
    ensures RecordShape(r) && RecordRelations(r)
  {
    assert Lineage(r) == [];
  }

  lemma BasesValid()
    ensures ValidBase(OLD_BASE) && BaseDocument(OLD_BASE) == EMPTY_DOCUMENT
    ensures ValidBase(NEW_BASE) && BaseDocument(NEW_BASE) == Document(map["c" := FIRST], map[])
  {
    RecordAloneValid(FIRST);
    assert [FIRST][..0] == [];
    assert RecordsInto(map[], [FIRST]) == RecordsInto(map[], [])["c" := FIRST];
  }

  lemma LoggedFacts(w: Wire)
    requires Faithful(w)
    ensures Recover(w, Logged(w)).Recovered? && Recover(w, Logged(w)).id.Some?
    ensures Recover(w, Logged(w)).doc == Document(map["c" := FIRST], map[])
  {
    BasesValid();
    RecordAloneValid(FIRST);
    var post := Document(map["c" := FIRST], map[]);
    assert Overlay(EMPTY_DOCUMENT, [FIRST], []) == post by {
      assert [FIRST][..0] == [];
    }
    assert Relational(post);
    CreatedRecovers(w, OLD_BASE, [FIRST], [], Logged(w));
  }

  /** A rename that was not synced and a log deleted behind it: the acknowledged record can be gone. */
  lemma UnsyncedDropLoses(w: Wire)
    requires Faithful(w)
    ensures exists g :: g in Unlinked(Renamed(iset{Logged(w)}, NEW_BASE)) && RecoversTo(w, g, EMPTY_DOCUMENT)
    ensures RecoversTo(w, Logged(w), BaseDocument(NEW_BASE)) && "c" in BaseDocument(NEW_BASE).records
  {
    LoggedFacts(w);
    BasesValid();
    FourOutcomes(Logged(w), NEW_BASE);
    var g := Logged(w).(wal := None);
    assert RecoversTo(w, g, EMPTY_DOCUMENT);
  }

  /** A log whose name was not synced, and a second append acknowledged behind it: both can be gone. */
  lemma UnsyncedNameLoses(w: Wire, bytes: string)
    requires Faithful(w)
    ensures exists f :: f in AfterAppend(iset{Logged(w), Logged(w).(wal := None)}, Logged(w).wal.value, bytes)
                        && RecoversTo(w, f, EMPTY_DOCUMENT)
    ensures RecoversTo(w, Logged(w), BaseDocument(NEW_BASE))
  {
    LoggedFacts(w);
    BasesValid();
    var f := Logged(w).(wal := None);
    assert RecoversTo(w, f, EMPTY_DOCUMENT);
    assert f in AfterAppend(iset{Logged(w), f}, Logged(w).wal.value, bytes);
  }

  // ---------------------------------------------- memory ahead of the files

  function RecordKeys(rs: seq<Record>): set<string> {
    set i | 0 <= i < |rs| :: rs[i].chatId
  }

  function ProvisionalKeys(ps: seq<Provisional>): set<Key> {
    set i | 0 <= i < |ps| :: KeyOf(ps[i])
  }

  lemma NamedKeys(rs: seq<Record>, ps: seq<Provisional>)
    ensures forall c :: c in RecordKeys(rs) <==> NamesChat(rs, c)
    ensures forall k :: k in ProvisionalKeys(ps) <==> NamesKey(ps, k)
  {
  }

  /** The lists name every entry the two documents differ in. */
  ghost predicate RewritesDifferences(pre: Document, post: Document, rs: seq<Record>, ps: seq<Provisional>) {
    && (forall c :: c !in RecordKeys(rs) ==> pre.RecordOf(c) == post.RecordOf(c))
    && (forall k :: k !in ProvisionalKeys(ps) ==> pre.ProvisionalAt(k) == post.ProvisionalAt(k))
  }

  /** Memory ahead of the files is behind a failed reload that the next call does not repeat: it holds
      `ahead` where the files hold the base alone.  The next append creates a log.  What the files with
      that log recover to is what memory holds if and only if the delta can be replayed over the base
      and happens to rewrite every entry memory was ahead in. */
  lemma AheadExact(w: Wire, b: BaseFile, ahead: Document, rs: seq<Record>, ps: seq<Provisional>, f: Files)
    requires Faithful(w) && ValidBase(b) && DistinctChats(rs) && DistinctKeys(ps)
    requires f.base == Some(b) && f.wal.Some? && f.wal.value.text == CreatedText(w, b.id, rs, ps)
    ensures RecoversTo(w, f, Overlay(ahead, rs, ps)) <==>
            Replayable(BaseDocument(b), rs, ps) && RewritesDifferences(BaseDocument(b), ahead, rs, ps)
  {
    CreatedRecovers(w, b, rs, ps, f);
    SameOverlaysExact(BaseDocument(b), ahead, rs, ps);
  }

  lemma SameOverlaysExact(pre: Document, post: Document, rs: seq<Record>, ps: seq<Provisional>)
    requires DistinctChats(rs) && DistinctKeys(ps)
    ensures Overlay(pre, rs, ps) == Overlay(post, rs, ps) <==> RewritesDifferences(pre, post, rs, ps)
  {
    NamedKeys(rs, ps);
    OverlaidAt(pre, rs, ps);
    OverlaidAt(post, rs, ps);
    var a, b := Overlay(pre, rs, ps), Overlay(post, rs, ps);
    if a == b {
      assert forall c :: a.RecordOf(c) == b.RecordOf(c);
      assert forall k :: a.ProvisionalAt(k) == b.ProvisionalAt(k);
    }
    if RewritesDifferences(pre, post, rs, ps) {
      SameEntries(a, b);
    }
  }

  lemma OverlaidAt(d: Document, rs: seq<Record>, ps: seq<Provisional>)
    requires DistinctChats(rs) && DistinctKeys(ps)
    ensures forall c :: !NamesChat(rs, c) ==> Overlay(d, rs, ps).RecordOf(c) == d.RecordOf(c)
    ensures forall k :: !NamesKey(ps, k) ==> Overlay(d, rs, ps).ProvisionalAt(k) == d.ProvisionalAt(k)
    ensures forall i :: 0 <= i < |rs| ==> Overlay(d, rs, ps).RecordOf(rs[i].chatId) == Some(rs[i])
    ensures forall i :: 0 <= i < |ps| ==> Overlay(d, rs, ps).ProvisionalAt(KeyOf(ps[i])) == Some(ps[i])
  {
    RecordsIntoLookup(d.records, rs);
    ProvisionalIntoLookup(d.provisional, ps);
  }

  lemma SameEntries(a: Document, b: Document)
    requires forall c :: a.RecordOf(c) == b.RecordOf(c)
    requires forall k :: a.ProvisionalAt(k) == b.ProvisionalAt(k)
    ensures a == b
  {
    forall c
      ensures c in a.records <==> c in b.records
      ensures c in a.records ==> a.records[c] == b.records[c]
    {
      assert a.RecordOf(c) == b.RecordOf(c);
    }
    forall k
      ensures k in a.provisional <==> k in b.provisional
      ensures k in a.provisional ==> a.provisional[k] == b.provisional[k]
    {
      assert a.ProvisionalAt(k) == b.ProvisionalAt(k);
    }
    assert a.records == b.records && a.provisional == b.provisional;
  }

  const AHEAD := Document(map["c" := FIRST], map[])

  function NextAppend(w: Wire): Files {
    Files(Some(OLD_BASE), Some(WalFile(0, CreatedText(w, OLD_ID, [SECOND], []))))
  }

  lemma OverlaidSecond()
    ensures Overlay(EMPTY_DOCUMENT, [SECOND], []) == Document(map["d" := SECOND], map[])
    ensures Overlay(AHEAD, [SECOND], []) == Document(map["c" := FIRST, "d" := SECOND], map[]) && "c" != "d"
  {
    assert "c"[0] != "d"[0];
    assert [SECOND][..0] == [];
    assert RecordsInto(map[], [SECOND]) == RecordsInto(map[], [])["d" := SECOND];
    assert RecordsInto(AHEAD.records, [SECOND]) == RecordsInto(AHEAD.records, [])["d" := SECOND];
  }

  lemma NextRecovers(w: Wire)
    requires Faithful(w)
    ensures RecoversTo(w, NextAppend(w), Document(map["d" := SECOND], map[]))
  {
    BasesValid();
    OverlaidSecond();
    RecordAloneValid(SECOND);
    assert Relational(Document(map["d" := SECOND], map[]));
    CreatedRecovers(w, OLD_BASE, [SECOND], [], NextAppend(w));
  }

  /** Creating a log failed, removing it succeeded, and neither the directory sync nor the reload did:
      memory holds a record, no log is remembered, and the live check recognises the files.  The next
      append, of another record, is acknowledged with both in memory and recovers without the first. */
  lemma ForgottenLogLoses(w: Wire)
    requires Faithful(w)
    ensures Recognises(w, Some(OLD_ID), None, Files(Some(OLD_BASE), None))
    ensures RecoversTo(w, Files(Some(OLD_BASE), None), EMPTY_DOCUMENT) && "c" in AHEAD.records
    ensures "c" in Overlay(AHEAD, [SECOND], []).records
    ensures RecoversTo(w, NextAppend(w), Overlay(EMPTY_DOCUMENT, [SECOND], []))
    ensures "c" !in Overlay(EMPTY_DOCUMENT, [SECOND], []).records
  {
    BasesValid();
    OverlaidSecond();
    NextRecovers(w);
  }

  // --------------------------------------------------------- boot loses nothing

  lemma RestartedLineage(r: Record, name: string)
    ensures IndexOf(Lineage(RestartedRecord(r)), name) == IndexOf(Lineage(r), name)
    ensures forall i :: 0 <= i < |Lineage(r)| ==>
              Lineage(RestartedRecord(r))[i] == if i < |r.journal| then RestartedOperation(Lineage(r)[i])
                else Lineage(r)[i]
  {
    var a, b := Lineage(r), Lineage(RestartedRecord(r));
    assert RestartedRecord(r).reassignment.Some? <==> r.reassignment.Some?;
    assert Root(RestartedRecord(r).reassignment) == Root(r.reassignment);
    SameNamesFound(a, b, name);
  }

  lemma SameNamesFound(a: seq<Operation>, b: seq<Operation>, name: string)
    requires |a| == |b| && forall i :: 0 <= i < |a| ==> Names(a[i]) == Names(b[i])
    ensures IndexOf(b, name) == IndexOf(a, name)
  {
    var i, j := IndexOf(a, name), IndexOf(b, name);
  }

  /** Recovery at boot finds every operation again, a settled one with its state, detail and outcome
      and a pending one as uncertain, and invents none. */
  lemma BootKeepsOperations(d: Document, chatId: string, name: string)
    ensures var found, kept :=
        LookupOperation(d, chatId, name), LookupOperation(Normalized(ReconcileStep(d)), chatId, name);
            match found
            case None => kept.None?
            case Some(o) =>
              kept == Some(NormalizeOperation(o)) ||
              (o.state.Pending? && kept == Some(NormalizeOperation(RestartedOperation(o))))
  {
    NormalizedLookup(ReconcileStep(d), chatId, name);
    if chatId in d.records {
      RestartedLineage(d.records[chatId], name);
    }
  }

  /** The document a boot may make of a recovered one. */
  predicate BootOf(recovered: Document, booted: Document) {
    booted == recovered || booted == Normalized(ReconcileStep(recovered))
  }

  lemma BootContinues(d: Document, booted: Document, chatId: string, name: string)
    requires BootOf(d, booted) && LookupOperation(d, chatId, name).Some?
    ensures LookupOperation(booted, chatId, name).Some?
    ensures Continues(LookupOperation(d, chatId, name).value, LookupOperation(booted, chatId, name).value)
  {
    BootKeepsOperations(d, chatId, name);
  }

  lemma LandingContinues(w: Wire, pre: Document, post: Document, f: Files, booted: Document, chatId: string,
                         name: string)
    requires LookupOperation(pre, chatId, name).Some? && LookupOperation(post, chatId, name).Some?
    requires Continues(LookupOperation(pre, chatId, name).value, LookupOperation(post, chatId, name).value)
    requires Lands(w, f, {pre, post, Normalized(post)}) && BootOf(Recover(w, f).doc, booted)
    ensures LookupOperation(booted, chatId, name).Some?
    ensures Continues(LookupOperation(pre, chatId, name).value, LookupOperation(booted, chatId, name).value)
  {
    var d := Recover(w, f).doc;
    RecoveredContinues(pre, post, d, chatId, name);
    BootContinues(d, booted, chatId, name);
  }

  lemma RecoveredContinues(pre: Document, post: Document, d: Document, chatId: string, name: string)
    requires LookupOperation(pre, chatId, name).Some? && LookupOperation(post, chatId, name).Some?
    requires Continues(LookupOperation(pre, chatId, name).value, LookupOperation(post, chatId, name).value)
    requires d == pre || d == post || d == Normalized(post)
    ensures LookupOperation(d, chatId, name).Some?
    ensures Continues(LookupOperation(pre, chatId, name).value, LookupOperation(d, chatId, name).value)
  {
    NormalizedLookup(post, chatId, name);
  }

  /** A crash at any moment of a call, and the boot behind it: whatever operation could be looked up
      before the call can be looked up afterwards, under the same names, and complete if it was. */
  lemma CrashAndBootKeepOperations(w: Wire, pre: Document, cmd: Command, f: Files, booted: Document,
                                   chatId: string, name: string)
    requires Inv(pre) && SafeEvent(pre, Do(cmd)) && SparesName(pre, Do(cmd), chatId, name)
    requires Lands(w, f, {pre, Perform(pre, Do(cmd)), Normalized(Perform(pre, Do(cmd)))})
    requires BootOf(Recover(w, f).doc, booted) && LookupOperation(pre, chatId, name).Some?
    ensures LookupOperation(booted, chatId, name).Some?
    ensures Continues(LookupOperation(pre, chatId, name).value, LookupOperation(booted, chatId, name).value)
  {
    LookupEventExact(pre, Do(cmd), chatId, name);
    LandingContinues(w, pre, Perform(pre, Do(cmd)), f, booted, chatId, name);
  }
}
