/** The file-backed session authority: an in-memory journal kept equal to a base
    file plus the log beside it. */
module FileAuthority {
  import opened AuthorityTypes
  import opened RelationalValidity
  import opened JournalSteps
  import opened JournalExactness
  import opened JournalRuns
  import opened DocumentLists
  import opened Journal
  import opened LogText
  import opened Wal
  import opened Normalize
  import opened AuthorityDisk
  import opened CrashSafety
  import opened RestartFacts

  /** How a call ends: normally, rejected by the journal, failed without effect, with
      durability uncertain but memory reloaded, or with memory left out of step with the disk. */
  datatype Exit = Returned | Refused(error: JournalError) | Failed | DurabilityUncertain | OutOfStep

  /** A mutation: one journal command, or the replacement of everything. */
  datatype Mutation = Apply(cmd: Command) | ReplaceAll(mappings: seq<Record>, provisional: seq<Provisional>)

  ghost function MutationStep(d: Document, m: Mutation): Step {
    match m
    case Apply(cmd) => StepOf(d, cmd)
    case ReplaceAll(ms, ps) =>
      if ListsValid(ms, ps) then Step(Overlay(EMPTY_DOCUMENT, ms, ps), Accepted) else Step(d, Rejected(InvalidDocument))
  }

  /** What a mutation makes of a document; a rejected one leaves it. */
  ghost function After(d: Document, m: Mutation): Document {
    if MutationStep(d, m).outcome.Accepted? then MutationStep(d, m).doc else d
  }

  /** What the live check compares: the remembered identities and the files as they are. */
  predicate Recognises(w: Wire, base: Option<BaseId>, wal: Option<WalId>, f: Files) {
    && base == BaseIdOf(f) && (wal.Some? <==> f.wal.Some?)
    && (base.Some? && base.value.generation.Some? ==> base.value.located)
    && (wal.Some? ==>
          && wal.value.size == |f.wal.value.text|
          && (if wal.value.version.Legacy? then w.sample(f.wal.value.text) == wal.value.digest
              else VerifiedHead(w, base, f.wal.value.text) == Some(wal.value.digest)))
  }

  class FileSessionAuthority {
    const wire: Wire
    const disk: Disk
    const journal: SessionAuthorityJournal
    const compactionThreshold: nat
    var baseIdentity: Option<BaseId>
    var walIdentity: Option<WalId>
    var normalized: bool

    constructor (wire: Wire, disk: Disk, compactionThreshold: nat)
      ensures this.wire == wire && this.disk == disk && this.compactionThreshold == compactionThreshold
      ensures fresh(journal) && Clean() && journal.Contents() == EMPTY_DOCUMENT
      ensures baseIdentity.None? && walIdentity.None? && !normalized
    {
      this.wire, this.disk, this.compactionThreshold := wire, disk, compactionThreshold;
      journal := new SessionAuthorityJournal();
      baseIdentity, walIdentity, normalized := None, None, false;
    }

    ghost predicate DiskOk()
      reads disk
    {
      Faithful(wire) && disk.Sound() && AllKnown(wire, disk.trail, disk.clock)
    }

    ghost function Visible(): Recovery
      reads disk
    {
      Recover(wire, disk.files)
    }

    ghost predicate Clean()
      reads journal
    {
      !journal.HasDirty() && journal.clean == journal.Contents()
    }

    /** Memory is what recovering the visible files gives. */
    ghost predicate Coherent()
      reads this, disk, journal
    {
      && DiskOk() && Clean()
      && Visible().Recovered? && journal.Contents() == Visible().doc
      && baseIdentity == BaseIdOf(disk.files)
      && (walIdentity.Some? ==> walIdentity == Visible().id)
      && (disk.files.base.None? ==> disk.files.wal.None?)
    }

    /** The live check takes the files for the remembered ones, so the next call does not reload them. */
    predicate Recognised()
      reads this, disk
    {
      Recognises(wire, baseIdentity, walIdentity, disk.files)
    }

    /** The remembered base was drawn before, and a forgotten one has no remembered log. */
    ghost predicate Remembering()
      reads this, disk
    {
      && (baseIdentity.Some? && baseIdentity.value.generation.Some? ==>
        baseIdentity.value.generation.value < disk.clock)
      && (baseIdentity != BaseIdOf(disk.files) ==> walIdentity.None?)
    }

    /** What every exit leaves, whatever is in memory: the next call can check the files and reload them. */
    ghost predicate Standing()
      reads this, disk, journal
    {
      && DiskOk() && Remembering()
      && (disk.files.base.None? ==> disk.files.wal.None? && journal.Contents() == EMPTY_DOCUMENT)
    }

    /** The next call starts from what recovering the files gives: it reloads them or holds it already. */
    ghost predicate Trustworthy()
      reads this, disk, journal
    {
      Standing() && (Recognised() ==> Coherent())
    }

    lemma CoherentIsTrustworthy()
      requires Coherent()
      ensures Trustworthy()
    {
      assert Known(wire, disk.files, disk.clock);
    }

    /** Unless it is done, some step of the disk has failed. */
    twostate predicate DoneUnlessFaulty(done: bool)
      reads disk
    {
      old(disk.faults) <= disk.faults && (done || old(disk.faults) < disk.faults)
    }

    // ------------------------------------------------------------- reading

    method Load() returns (ok: bool)
      modifies this, journal, disk`faults
      ensures DoneUnlessFaulty(ok || (disk.files.base.Some? && !ValidBase(disk.files.base.value)))
      ensures walIdentity == old(walIdentity)
      ensures ok ==> baseIdentity == BaseIdOf(disk.files) && Clean()
      ensures ok && disk.files.base.None? ==> journal.Contents() == old(journal.Contents())
      ensures !ok ==> disk.files.base.Some? && SameMemory()
      ensures ok && disk.files.base.Some? ==>
                && ValidBase(disk.files.base.value)
                && journal.Contents() == BaseDocument(disk.files.base.value)
                && normalized == disk.files.base.value.normalized
    {
      if disk.files.base.None? {
        baseIdentity := None;
        journal.ClearDirty();
        return true;
      }
      ok := disk.Attempt();
      if !ok {
        return;
      }
      var b := disk.files.base.value;
      if (exists r :: r in b.mappings && !RecordShape(r)) || (exists p :: p in b.provisional && !ProvisionalShape(p)) {
        return false;
      }
      ok := journal.ReplaceReferences(b.mappings, b.provisional);
      if ok {
        normalized := b.normalized;
        baseIdentity := Some(b.id);
        journal.ClearDirty();
      }
    }

    method DropLog() returns (ok: bool)
      requires DiskOk()
      modifies this`walIdentity, disk
      ensures DoneUnlessFaulty(ok)
      ensures DiskOk() && disk.clock == old(disk.clock)
      ensures !ok ==> UnchangedDisk() && walIdentity == old(walIdentity)
      ensures ok ==> walIdentity.None? && disk.files == old(disk.files).(wal := None)
      ensures ok ==> UnchangedDisk() || UnlinkedLog()
    {
      ok := true;
      if disk.files.wal.Some? {
        ok := disk.UnlinkLog();
      }
      if ok {
        walIdentity := None;
      }
    }

    twostate predicate UnchangedDisk()
      reads disk
    {
      disk.files == old(disk.files) && disk.survivors == old(disk.survivors) && disk.trail == old(disk.trail)
    }

    twostate predicate UnlinkedLog()
      reads disk
    {
      && old(disk.files.wal.Some?) && disk.files == old(disk.files).(wal := None)
      && disk.survivors == Unlinked(old(disk.survivors))
      && disk.trail == old(disk.trail) + disk.survivors
    }

    /** Applies the log to the loaded base.  A stale or empty one is deleted. */
    method ReplayLog() returns (ok: bool, torn: bool)
      requires DiskOk() && disk.files.wal.Some?
      requires Clean() && Loadable(journal.Contents()) && baseIdentity == BaseIdOf(disk.files)
      modifies this`walIdentity, disk, journal
      ensures DoneUnlessFaulty(ok
          || ReplayOf(wire, old(journal.Contents()), old(baseIdentity), old(disk.files.wal.value.text)).Unusable?)
      ensures DiskOk() && disk.clock == old(disk.clock)
      ensures var replay := ReplayOf(wire, old(journal.Contents()), baseIdentity, old(disk.files.wal.value.text));
              if replay.Replayed? then
                && UnchangedDisk()
                && (ok ==> Clean() && journal.Contents() == replay.doc)
                && (ok ==> walIdentity == Some(replay.id) && torn == replay.torn)
              else
                && (ok ==> replay.Ignored? && torn == replay.torn && walIdentity.None? && disk.files.wal.None?)
                && (ok ==> Clean() && journal.Contents() == old(journal.Contents()))
                && (UnchangedDisk() || (replay.Ignored? && UnlinkedLog()))
      ensures !ok ==> UnchangedDisk() && walIdentity == old(walIdentity)
    {
      torn := false;
      ok := disk.Attempt();
      if !ok {
        return;
      }
      var text := disk.files.wal.value.text;
      var lines := WholeLines(text);
      if lines == [] {
        torn := !Terminated(text);
        ok := DropLog();
        return;
      }
      var header := wire.read(lines[0]);
      if !header.HeaderLine? || !HeaderShape(header.header) {
        ok := false;
        return;
      }
      if !Bound(header.header, baseIdentity) {
        ok := DropLog();
        return;
      }
      ok, torn := ReplayBound(text, header.header);
    }

    /** Applies the deltas of a log that is bound to the loaded base. */
    method ReplayBound(text: string, header: Header) returns (ok: bool, torn: bool)
      requires Clean() && Loadable(journal.Contents())
      requires WholeLines(text) != [] && wire.read(WholeLines(text)[0]) == HeaderLine(header)
      requires HeaderShape(header) && Bound(header, baseIdentity)
      modifies this`walIdentity, journal
      ensures var replay := ReplayOf(wire, old(journal.Contents()), old(baseIdentity), text);
              && (if ok then replay.Replayed? else replay.Unusable?)
              && (ok ==> Clean() && journal.Contents() == replay.doc && walIdentity == Some(replay.id))
              && (ok ==> torn == replay.torn)
      ensures !ok ==> walIdentity == old(walIdentity)
    {
      torn := false;
      var lines := WholeLines(text);
      var chained := header.version.Chained?;
      var head := FirstHead(wire, header, lines[0]);
      var doc := journal.Contents();
      var progress := ReplayDeltas(wire, chained, head, doc, lines[1..]);
      if !progress.Intact? {
        return false, torn;
      }
      ReplayedShapes(wire, chained, head, doc, lines[1..]);
      ok := Install(progress.doc);
      if ok {
        torn := !Terminated(text);
        walIdentity := Some(IdentityOf(wire, header, progress.head, text));
      }
    }

    /** Takes a document into memory, if it is valid. */
    method Install(d: Document) returns (ok: bool)
      requires Listable(d) && Shapes(d)
      modifies journal
      ensures ok <==> Relational(d)
      ensures ok ==> Clean() && journal.Contents() == d
    {
      var rs := ListRecords(d.records);
      var ps := ListProvisional(d.provisional);
      ListsValidIffRelational(d, rs, ps);
      ok := journal.ReplaceReferences(rs, ps);
      if ok {
        journal.ClearDirty();
      }
    }

    /** Loads the base and replays the log beside it. */
    method LoadVisible() returns (ok: bool, torn: bool)
      requires DiskOk()
      requires disk.files.base.None? ==> disk.files.wal.None? && journal.Contents() == EMPTY_DOCUMENT
      modifies this, disk, journal
      ensures DoneUnlessFaulty(ok || old(Visible()) == Lost)
      ensures DiskOk() && disk.clock == old(disk.clock)
      ensures ok ==> Coherent() && old(Visible()).Recovered? && journal.Contents() == old(Visible()).doc
      ensures ok ==> torn == old(Visible()).torn && (walIdentity.None? <==> disk.files.wal.None?)
      ensures ok && disk.files.base.Some? ==> normalized == disk.files.base.value.normalized
      ensures UnchangedDisk() || (UnlinkedLog() && old(Visible()).Recovered? && old(Visible()).id.None?)
      ensures !ok ==> UnchangedDisk() && disk.files.base.Some? && walIdentity == old(walIdentity)
      ensures !ok ==> SameMemory() || (baseIdentity == BaseIdOf(disk.files) && disk.files.wal.Some?)
    {
      torn := false;
      ok := Load();
      if !ok {
        return;
      }
      if disk.files.wal.None? {
        walIdentity := None;
        return;
      }
      BaseLoadable(disk.files.base.value);
      ok, torn := ReplayLog();
    }

    /** Reloads memory after a write whose durability is uncertain. */
    method Reload() returns (exit: Exit)
      requires DiskOk() && disk.files.base.Some?
      modifies this, disk, journal
      ensures DoneUnlessFaulty(exit.DurabilityUncertain? || old(Visible()) == Lost)
      ensures DiskOk() && disk.clock == old(disk.clock)
      ensures exit == DurabilityUncertain || exit == OutOfStep
      ensures exit.DurabilityUncertain? ==>
                Coherent() && old(Visible()).Recovered? && journal.Contents() == old(Visible()).doc
      ensures exit.OutOfStep? ==> UnchangedDisk() && walIdentity.None?
      ensures exit.OutOfStep? ==>
                (SameJournal() && baseIdentity == old(baseIdentity))
                  || (baseIdentity == BaseIdOf(disk.files) && disk.files.wal.Some?)
      ensures UnchangedDisk() || (UnlinkedLog() && old(Visible()).Recovered? && old(Visible()).id.None?)
    {
      var ok, _ := LoadVisible();
      if !ok {
        walIdentity := None;
        return OutOfStep;
      }
      return DurabilityUncertain;
    }

    // ---------------------------------------------------------- base rewrite

    twostate predicate SameMemory()
      reads this, journal
    {
      && baseIdentity == old(baseIdentity) && walIdentity == old(walIdentity) && normalized == old(normalized)
      && journal.Contents() == old(journal.Contents()) && journal.clean == old(journal.clean)
      && journal.dirtyRecords == old(journal.dirtyRecords) && journal.dirtyProvisional == old(journal.dirtyProvisional)
      && journal.forceCompaction == old(journal.forceCompaction)
    }

    /** Only the new base is left to be found, with no log beside it. */
    ghost predicate Rewritten(d: Document)
      reads this, disk, journal
    {
      && Coherent() && journal.Contents() == d
      && disk.files.base.Some? && disk.files.base.value.normalized && disk.files.base.value.id.located
      && disk.files.base.value.id.generation.Some?
      && disk.files.wal.None? && walIdentity.None? && normalized
      && disk.survivors == iset{disk.files}
    }

    method IsPersistable(rs: seq<Record>, ps: seq<Provisional>) returns (ok: bool)
      ensures ok <==> EntryShapes(rs, ps) && ListsValid(rs, ps)
    {
      if (exists r :: r in rs && !RecordShape(r)) || (exists p :: p in ps && !ProvisionalShape(p)) {
        return false;
      }
      ok := IsRelationallyValid(rs, ps);
    }

    /** Writes the whole document as a new base under a fresh generation, then deletes the log. */
    method Persist() returns (exit: Exit)
      requires DiskOk() && Listable(journal.Contents())
      modifies this, disk, journal
      ensures DoneUnlessFaulty(exit.Returned? || !Loadable(old(journal.Contents())))
      ensures DiskOk()
      ensures exit == Returned || exit == Failed || exit == DurabilityUncertain || exit == OutOfStep
      ensures exit.OutOfStep? && old(Remembering()) ==> Standing() && !Recognised()
      ensures !Loadable(old(journal.Contents())) ==> exit.Failed?
      ensures exit.Failed? ==> UnchangedDisk() && old(disk.clock) <= disk.clock && SameMemory()
      ensures exit.Returned? ==>
                Rewritten(Normalized(old(journal.Contents()))) && disk.files.base != old(disk.files.base)
      ensures exit.DurabilityUncertain? ==> Coherent() && journal.Contents() == Normalized(old(journal.Contents()))
      ensures AllLand(wire, old(disk.trail), disk.trail, {Normalized(old(journal.Contents()))})
    {
      ghost var doc := journal.Contents();
      var rs := ListRecords(journal.records);
      var ps := ListProvisional(journal.provisional);
      Listed(doc, rs, ps);
      var ok := IsPersistable(rs, ps);
      if !ok {
        return Failed;
      }
      CompactLists(doc, rs, ps);
      exit := ReplaceBase(NormalizeRecords(rs), NormalizeProvisionals(ps));
    }

    lemma Listed(doc: Document, rs: seq<Record>, ps: seq<Provisional>)
      requires Listable(doc) && (WellKeyed(doc) ==> Enumerates(doc, rs, ps))
      requires forall c :: c in doc.records ==> doc.records[c] in rs
      ensures EntryShapes(rs, ps) && ListsValid(rs, ps) <==> Loadable(doc)
    {
      if WellKeyed(doc) {
        EnumerationOf(doc, rs, ps);
        ListsValidIffRelational(doc, rs, ps);
      }
    }

    method ReplaceBase(rs: seq<Record>, ps: seq<Provisional>) returns (exit: Exit)
      requires DiskOk() && EntryShapes(rs, ps)
      modifies this, disk, journal
      ensures DoneUnlessFaulty(exit.Returned? || !ListsValid(rs, ps))
      ensures DiskOk()
      ensures exit == Returned || exit == Failed || exit == DurabilityUncertain || exit == OutOfStep
      ensures !ListsValid(rs, ps) ==> exit.Failed? || (exit.OutOfStep? && Visible() == Lost)
      ensures exit.OutOfStep? && old(Remembering()) ==> Standing() && !Recognised()
      ensures exit.Failed? ==> UnchangedDisk() && old(disk.clock) <= disk.clock && SameMemory()
      ensures exit.Returned? ==> Rewritten(Overlay(EMPTY_DOCUMENT, rs, ps)) && disk.files.base != old(disk.files.base)
      ensures exit.DurabilityUncertain? ==> Coherent() && journal.Contents() == Overlay(EMPTY_DOCUMENT, rs, ps)
      ensures ListsValid(rs, ps) ==> AllLand(wire, old(disk.trail), disk.trail, {Overlay(EMPTY_DOCUMENT, rs, ps)})
    {
      ghost var clock := disk.clock;
      var ok := disk.Attempt();
      if ok {
        ok := disk.RenameBase(rs, ps);
      }
      if !ok {
        return Failed;
      }
      var b := disk.files.base.value;
      assert Known(wire, old(disk.files), clock);
      RenamedKnown(wire, old(disk.survivors), b, clock);
      if ListsValid(rs, ps) {
        RenameLands(wire, old(disk.survivors), b, clock);
        RenamedVisible(wire, old(disk.files), old(disk.survivors), b, clock);
      }
      exit := FinishRewrite(b);
    }

    /** The steps behind the rename: sync, delete the log, sync again, refresh memory. */
    method FinishRewrite(b: BaseFile) returns (exit: Exit)
      requires DiskOk() && Freshly(b)
      requires ValidBase(b) ==> OnBase(wire, Synced(disk.survivors, disk.files), b)
      modifies this, disk, journal
      ensures DoneUnlessFaulty(exit.Returned? || !ValidBase(b))
      ensures DiskOk()
      ensures exit == Returned || exit == DurabilityUncertain || exit == OutOfStep
      ensures !ValidBase(b) ==> exit.OutOfStep?
      ensures exit.OutOfStep? ==> disk.files.base == Some(b) && disk.clock == old(disk.clock)
      ensures exit.OutOfStep? ==> baseIdentity == old(baseIdentity) && walIdentity.None?
      ensures exit.Returned? ==> Rewritten(BaseDocument(b)) && disk.files.base == Some(b)
      ensures exit.DurabilityUncertain? ==> Coherent() && journal.Contents() == BaseDocument(b)
      ensures ValidBase(b) ==> AllLand(wire, old(disk.trail), disk.trail, {BaseDocument(b)})
    {
      var ok := disk.SyncDirectory();
      if ok {
        ok := ResetLog(b);
      }
      if !ok {
        walIdentity := None;
        exit := ReloadBase(b);
        return;
      }
      ok := journal.ReplaceReferences(b.mappings, b.provisional);
      if !ok {
        return OutOfStep;
      }
      ok := disk.Attempt();
      if !ok {
        exit := ReloadBase(b);
        return;
      }
      baseIdentity := Some(b.id);
      normalized := true;
      journal.ClearDirty();
      return Returned;
    }

    /** The renamed base is visible; if it is valid it is what recovery finds, whatever log is beside it. */
    ghost predicate Freshly(b: BaseFile)
      reads disk
    {
      && disk.files.base == Some(b) && EntryShapes(b.mappings, b.provisional)
      && b.normalized && b.id.located && b.id.generation.Some?
      && (ValidBase(b) ==> RecoversTo(wire, disk.files, BaseDocument(b)) && Visible().id.None?)
    }

    method ResetLog(b: BaseFile) returns (ok: bool)
      requires DiskOk() && Freshly(b) && (ValidBase(b) ==> OnBase(wire, disk.survivors, b))
      modifies this`walIdentity, disk
      ensures DoneUnlessFaulty(ok)
      ensures DiskOk() && Freshly(b) && disk.clock == old(disk.clock)
      ensures ok ==> disk.files.wal.None? && walIdentity.None? && disk.survivors == iset{disk.files}
      ensures ValidBase(b) ==> AllLand(wire, old(disk.trail), disk.trail, {BaseDocument(b)})
    {
      if ValidBase(b) {
        UnlinkOnBase(wire, disk.survivors, b);
      }
      ok := DropLog();
      if ok {
        ok := disk.SyncDirectory();
        SyncWithoutLog(old(disk.survivors), disk.files);
        SyncWithoutLog(Unlinked(old(disk.survivors)), disk.files);
      }
    }

    method ReloadBase(b: BaseFile) returns (exit: Exit)
      requires DiskOk() && Freshly(b) && walIdentity.None?
      modifies this, journal, disk`faults
      ensures DoneUnlessFaulty(exit.DurabilityUncertain? || !ValidBase(b))
      ensures DiskOk()
      ensures exit == DurabilityUncertain || exit == OutOfStep
      ensures exit.OutOfStep? ==> baseIdentity == old(baseIdentity) && walIdentity.None?
      ensures exit.DurabilityUncertain? ==> Coherent() && journal.Contents() == BaseDocument(b)
    {
      var ok := Load();
      return if ok then DurabilityUncertain else OutOfStep;
    }

    /** The boot compaction of an oversized authority.  It takes each entry's shape for enough: what it
        writes of an invalid document replaces the files and cannot be loaded. */
    method CompactFromReferences() returns (exit: Exit)
      requires DiskOk() && WellKeyed(journal.Contents()) && Shapes(journal.Contents())
      modifies this, disk, journal
      ensures DoneUnlessFaulty(exit.Returned? || !Loadable(old(journal.Contents())))
      ensures DiskOk()
      ensures exit == Returned || exit == Failed || exit == DurabilityUncertain || exit == OutOfStep
      ensures exit.Failed? ==> UnchangedDisk()
      ensures !Loadable(old(journal.Contents())) ==> exit.Failed? || (exit.OutOfStep? && Visible() == Lost)
      ensures exit.Returned? ==> Rewritten(Normalized(old(journal.Contents())))
      ensures exit.DurabilityUncertain? ==> Coherent() && journal.Contents() == Normalized(old(journal.Contents()))
      ensures Loadable(old(journal.Contents())) ==>
                AllLand(wire, old(disk.trail), disk.trail, {Normalized(old(journal.Contents()))})
    {
      ghost var doc := journal.Contents();
      var rs := ListRecords(journal.records);
      var ps := ListProvisional(journal.provisional);
      CompactLists(doc, rs, ps);
      exit := ReplaceBase(NormalizeRecords(rs), NormalizeProvisionals(ps));
    }

    lemma CompactLists(doc: Document, rs: seq<Record>, ps: seq<Provisional>)
      requires Enumerates(doc, rs, ps) && Shapes(doc)
      ensures Overlay(EMPTY_DOCUMENT, NormalizeRecords(rs), NormalizeProvisionals(ps)) == Normalized(doc)
      ensures EntryShapes(NormalizeRecords(rs), NormalizeProvisionals(ps))
      ensures ListsValid(NormalizeRecords(rs), NormalizeProvisionals(ps)) <==> Loadable(doc)
    {
      EnumeratesNormalized(doc, rs, ps);
      NormalizedShapes(doc);
      NormalizedLoadable(doc);
      EnumerationOf(Normalized(doc), NormalizeRecords(rs), NormalizeProvisionals(ps));
      ListsValidIffRelational(Normalized(doc), NormalizeRecords(rs), NormalizeProvisionals(ps));
    }

    // --------------------------------------------------------- append in place

    /** The remembered log is the one beside the base, finished and chained. */
    ghost predicate AtEnd(now: Files)
      reads this
    {
      && Appendable(wire, now) && walIdentity == Recover(wire, now).id
      && baseIdentity == BaseIdOf(now) && walIdentity.value.digestBound
    }

    /** What an append has made visible once it is complete. */
    ghost predicate Appended(pre: Document, rs: seq<Record>, ps: seq<Provisional>)
      reads this, disk
    {
      Visible() == if Replayable(pre, rs, ps) then Recovered(Overlay(pre, rs, ps), walIdentity, false) else Lost
    }

    twostate predicate TrailTails(now: Files, bytes: string)
      requires now.wal.Some?
      reads disk
    {
      forall f :: f in disk.trail ==> f in old(disk.trail) || IsTail(f, now, bytes)
    }

    /** The log has grown by one synced write, and nothing else happened to the files. */
    twostate predicate Grew()
      reads disk
    {
      && old(disk.files.wal).Some? && disk.files.wal.Some?
      && old(disk.files.wal.value.text) < disk.files.wal.value.text
      && disk.files == old(disk.files).(wal := Some(old(disk.files.wal.value).(text := disk.files.wal.value.text)))
      && var log := old(disk.files.wal.value);
         disk.survivors == Flushed(Grown(old(disk.survivors), log.inode, log.text,
           disk.files.wal.value.text[|log.text|..]), disk.files.wal.value)
    }

    /** The remembered log is given up while one is there, so the next call reloads. */
    ghost predicate Forgotten()
      reads this, disk, journal
    {
      Standing() && walIdentity.None? && disk.files.wal.Some?
    }

    method AppendBehind(rs: seq<Record>, ps: seq<Provisional>) returns (exit: Exit)
      requires DiskOk() && AtEnd(disk.files) && Terminated(disk.files.wal.value.text)
      modifies this, disk, journal
      ensures DoneUnlessFaulty(exit.Returned?)
      ensures DiskOk()
      ensures exit == Returned || exit == Failed || exit == DurabilityUncertain || exit == OutOfStep
      ensures exit.Returned? || exit.Failed? ==> SameJournal() && baseIdentity == old(baseIdentity)
      ensures exit.Returned? ==> walIdentity.Some? && Appended(old(Visible()).doc, rs, ps)
      ensures exit.Returned? ==>
                disk.files.base == old(disk.files.base) && disk.files.wal.Some? && Terminated(disk.files.wal.value.text)
      ensures exit.Returned? ==> Grew()
      ensures exit.Failed? ==> disk.files == old(disk.files) && walIdentity == old(walIdentity)
      ensures exit.DurabilityUncertain? ==> Coherent()
      ensures exit.OutOfStep? ==> Forgotten()
      ensures old(disk.survivors) == iset{old(disk.files)} ==>
                && TrailTails(old(disk.files), BehindText(wire, rs, ps, old(walIdentity).value.digest))
                && (exit.Returned? || exit.Failed? ==> disk.survivors == iset{disk.files})
      ensures exit.Returned? ==> DeltaWritten(old(disk.files), old(walIdentity), rs, ps)
    {
      var previous := walIdentity.value;
      ghost var now := disk.files;
      var d := DeltaFor(wire, rs, ps, previous.digest);
      var line := wire.deltaText(d);
      BehindFacts(now, rs, ps);
      var ok := WriteBehind(line);
      if !ok {
        exit := UndoBehind(previous, now, line + "\n");
        return;
      }
      exit := RefreshLog(d.head);
    }

    /** The written line, and what recovery makes of it once it is complete. */
    lemma BehindFacts(now: Files, rs: seq<Record>, ps: seq<Provisional>)
      requires Faithful(wire) && AtEnd(now) && Terminated(now.wal.value.text)
      ensures var line := wire.deltaText(DeltaFor(wire, rs, ps, walIdentity.value.digest));
              && Plain(line) && line + "\n" == BehindText(wire, rs, ps, walIdentity.value.digest)
              && Terminated(now.wal.value.text + (line + "\n")) && NeverStale(now, line + "\n")
      ensures var head := DeltaFor(wire, rs, ps, walIdentity.value.digest).head;
              var text := now.wal.value.text + BehindText(wire, rs, ps, walIdentity.value.digest);
              var post := Overlay(Recover(wire, now).doc, rs, ps);
              Recover(wire, now.(wal := Some(now.wal.value.(text := text)))) ==
              if Replayable(Recover(wire, now).doc, rs, ps)
              then Recovered(post, Some(WalId(|text|, head, Chained, true)), false) else Lost
    {
      var head := walIdentity.value.digest;
      var line := wire.deltaText(DeltaFor(wire, rs, ps, head));
      OwnDeltaLinks(wire, rs, ps, head);
      LineWritten(now.wal.value.text, line);
      var f := now.(wal := Some(now.wal.value.(text := now.wal.value.text + BehindText(wire, rs, ps, head))));
      AppendedRecovers(wire, now, rs, ps, f);
      forall f | IsTail(f, now, line + "\n")
        ensures Recover(wire, f).Recovered? ==> Recover(wire, f).id.Some?
      {
        TailStays(wire, now, rs, ps, f);
      }
    }

    /** No first part of the bytes makes the log look stale. */
    ghost predicate NeverStale(now: Files, bytes: string)
      requires now.wal.Some?
    {
      forall f :: IsTail(f, now, bytes) && Recover(wire, f).Recovered? ==> Recover(wire, f).id.Some?
    }

    twostate predicate SameJournal()
      reads journal
    {
      && journal.Contents() == old(journal.Contents()) && journal.clean == old(journal.clean)
      && journal.dirtyRecords == old(journal.dirtyRecords) && journal.dirtyProvisional == old(journal.dirtyProvisional)
      && journal.forceCompaction == old(journal.forceCompaction)
    }

    method WriteBehind(line: string) returns (ok: bool)
      requires DiskOk() && Appendable(wire, disk.files) && Plain(line)
      modifies disk
      ensures DoneUnlessFaulty(ok)
      ensures DiskOk() && IsTail(disk.files, old(disk.files), line + "\n") && disk.clock == old(disk.clock)
      ensures ok ==>
                var log := old(disk.files.wal.value);
                disk.files == old(disk.files).(wal := Some(log.(text := log.text + (line + "\n"))))
      ensures ok ==> Grew()
      ensures old(disk.survivors) == iset{old(disk.files)} ==>
                && TrailTails(old(disk.files), line + "\n") && Tails(disk.survivors, old(disk.files), line + "\n")
                && (ok ==> disk.survivors == iset{disk.files})
    {
      ghost var now := disk.files;
      ok := disk.Attempt();
      if !ok {
        assert disk.files.wal.value.text == disk.files.wal.value.text + (line + "\n")[..0];
        return;
      }
      ok := AppendLine(line);
      if ok {
        if old(disk.survivors) == iset{now} {
          FlushTails(disk.survivors, now, line + "\n", disk.files.wal.value);
        }
        ok := disk.FlushLog();
        assert disk.files.wal.value.text[|now.wal.value.text|..] == line + "\n";
      }
    }

    method AppendLine(line: string) returns (ok: bool)
      requires DiskOk() && Appendable(wire, disk.files) && Plain(line)
      modifies disk
      ensures DoneUnlessFaulty(ok)
      ensures DiskOk() && IsTail(disk.files, old(disk.files), line + "\n") && disk.clock == old(disk.clock)
      ensures ok ==> disk.files.wal.value.text == old(disk.files.wal.value.text) + (line + "\n")
      ensures disk.survivors ==
          Grown(old(disk.survivors), old(disk.files.wal.value.inode), old(disk.files.wal.value.text), line + "\n")
      ensures old(disk.survivors) == iset{old(disk.files)} ==>
                TrailTails(old(disk.files), line + "\n") && Tails(disk.survivors, old(disk.files), line + "\n")
    {
      ghost var now := disk.files;
      var log := disk.files.wal.value;
      assert Known(wire, now, disk.clock) && WholeLines(log.text) != [];
      GrownKnown(wire, disk.survivors, log, line, disk.clock);
      GrownTails(now, line + "\n");
      ok := disk.AppendLog(line + "\n");
    }

    /** Truncates a failed append away; if that is not possible, memory follows the disk. */
    method UndoBehind(previous: WalId, ghost now: Files, ghost bytes: string) returns (exit: Exit)
      requires DiskOk() && now.base.Some? && now.wal.Some? && previous.size == |now.wal.value.text|
          && Known(wire, now, disk.clock)
      requires IsTail(disk.files, now, bytes) && NeverStale(now, bytes)
      modifies this, disk, journal
      ensures old(disk.faults) <= disk.faults
      ensures DiskOk()
      ensures exit == Failed || exit == DurabilityUncertain || exit == OutOfStep
      ensures exit.Failed? ==>
                disk.files == now && walIdentity == Some(previous) && SameJournal() && baseIdentity == old(baseIdentity)
      ensures exit.DurabilityUncertain? ==> Coherent()
      ensures exit.OutOfStep? && old(Remembering()) ==> Forgotten()
      ensures Tails(old(disk.survivors), now, bytes) ==>
                TrailTails(now, bytes) && (exit.Failed? ==> disk.survivors == iset{now})
    {
      var ok := CutBack(previous.size, now, bytes);
      if !ok {
        walIdentity := None;
        exit := Reload();
        return;
      }
      walIdentity := Some(previous);
      return Failed;
    }

    method CutBack(size: nat, ghost now: Files, ghost bytes: string) returns (ok: bool)
      requires DiskOk() && now.wal.Some? && IsTail(disk.files, now, bytes) && size == |now.wal.value.text|
      requires Known(wire, now, disk.clock)
      modifies disk
      ensures DoneUnlessFaulty(ok)
      ensures DiskOk() && IsTail(disk.files, now, bytes) && disk.clock == old(disk.clock)
      ensures ok ==> disk.files == now
      ensures Tails(old(disk.survivors), now, bytes) ==>
                TrailTails(now, bytes) && Tails(disk.survivors, now, bytes) && (ok ==> disk.survivors == iset{now})
    {
      StartIsTail(now, bytes);
      ok := CutLog(size, now, bytes);
      if ok {
        if Tails(disk.survivors, now, bytes) {
          assert now.(wal := Some(now.wal.value)) == now;
          FlushTails(disk.survivors, now, bytes, now.wal.value);
        }
        ok := disk.FlushLog();
      }
    }

    method CutLog(size: nat, ghost now: Files, ghost bytes: string) returns (ok: bool)
      requires DiskOk() && now.wal.Some? && IsTail(disk.files, now, bytes) && size == |now.wal.value.text|
      requires Known(wire, now, disk.clock)
      modifies disk
      ensures DoneUnlessFaulty(ok)
      ensures DiskOk() && disk.files == (if ok then now else old(disk.files)) && disk.clock == old(disk.clock)
      ensures Tails(old(disk.survivors), now, bytes) ==> TrailTails(now, bytes) && Tails(disk.survivors, now, bytes)
    {
      StartOfTail(disk.files, now, bytes);
      CutKnown(wire, disk.survivors, now, disk.clock);
      if Tails(disk.survivors, now, bytes) {
        CutTails(disk.survivors, now, bytes);
      }
      ok := disk.TruncateLog(size);
    }

    /** Takes over the written log's identity; when the file cannot be examined, memory follows the disk. */
    method RefreshLog(head: string) returns (exit: Exit)
      requires DiskOk() && disk.files.base.Some? && disk.files.wal.Some?
          && (Visible().Recovered? ==> Visible().id.Some?)
      modifies this, disk, journal
      ensures DoneUnlessFaulty(exit.Returned?)
      ensures DiskOk() && UnchangedDisk()
      ensures exit == Returned || exit == DurabilityUncertain || exit == OutOfStep
      ensures exit.Returned? ==>
                walIdentity == Some(WalId(|disk.files.wal.value.text|, head, Chained, true)) && SameJournal()
                  && baseIdentity == old(baseIdentity)
      ensures exit.DurabilityUncertain? ==> Coherent()
      ensures exit.OutOfStep? && old(Remembering()) ==> Forgotten()
    {
      var ok := disk.Attempt();
      if !ok {
        walIdentity := None;
        exit := Reload();
        return;
      }
      walIdentity := Some(WalId(|disk.files.wal.value.text|, head, Chained, true));
      return Returned;
    }

    // ---------------------------------------------------------------- new log

    twostate predicate TrailNews(base: Option<BaseFile>, inode: nat, bytes: string)
      reads disk
    {
      forall f :: f in disk.trail ==> f in old(disk.trail) || IsNew(wire, f, base, inode, bytes)
    }

    /** A base that can carry a bound log, and no log yet. */
    ghost predicate NoLogYet(now: Files)
      reads this
    {
      && now.base.Some? && ValidBase(now.base.value) && now.wal.None?
      && baseIdentity == BaseIdOf(now) && walIdentity.None?
    }

    /** Behind a failed reload of a new log: no log is remembered, and if none is there either the
        next call does not reload, while memory keeps what it held. */
    twostate predicate NewLogForgotten()
      reads this, disk, journal
    {
      && Standing() && walIdentity.None? && disk.files.base == old(disk.files.base)
      && (disk.files.wal.None? ==> SameJournal() && baseIdentity == old(baseIdentity))
    }

    method AppendNew(rs: seq<Record>, ps: seq<Provisional>) returns (exit: Exit)
      requires DiskOk() && NoLogYet(disk.files) && Clean()
      modifies this, disk, journal
      ensures DoneUnlessFaulty(exit.Returned?)
      ensures DiskOk()
      ensures exit == Returned || exit == Failed || exit == DurabilityUncertain || exit == OutOfStep
      ensures exit.Returned? || exit.Failed? ==> SameJournal() && baseIdentity == old(baseIdentity)
      ensures exit.Returned? ==> walIdentity.Some? && Appended(old(Visible()).doc, rs, ps)
      ensures exit.Returned? ==>
                disk.files.base == old(disk.files.base) && disk.files.wal.Some? && Terminated(disk.files.wal.value.text)
      ensures exit.Returned? ==> disk.survivors == iset{disk.files}
      ensures exit.Failed? ==> disk.files == old(disk.files) && walIdentity.None?
      ensures exit.DurabilityUncertain? && Replayable(old(Visible()).doc, rs, ps) ==>
                (old(journal.Contents()) == Overlay(old(Visible()).doc, rs, ps) ==> Coherent())
      ensures exit.OutOfStep? ==> NewLogForgotten()
      ensures old(Durable(wire, disk.files, disk.survivors)) ==>
                && TrailNews(old(disk.files.base), old(disk.clock),
                  CreatedText(wire, old(disk.files.base).value.id, rs, ps))
                && (exit.Returned? || exit.Failed? ==> disk.survivors == iset{disk.files})
      ensures exit.Returned? ==> DeltaWritten(old(disk.files), old(walIdentity), rs, ps)
    {
      ghost var inode := disk.clock;
      var b := disk.files.base.value;
      var d := FirstDelta(wire, b.id, rs, ps);
      var ok := WriteNew(b, rs, ps);
      if !ok {
        exit := UndoNew(b, inode, rs, ps);
        return;
      }
      exit := FinishNew(d.head, b, inode, rs, ps);
    }

    /** Wherever the log's name leads, its content has reached storage. */
    ghost predicate ContentReached()
      reads disk
    {
      && disk.files.wal.Some?
      && forall f :: f in disk.survivors && HasLog(f, disk.files.wal.value.inode) ==>
        f.wal.value.text == disk.files.wal.value.text
    }

    method OpenNew(ghost b: BaseFile) returns (ok: bool)
      requires DiskOk() && disk.files == Files(Some(b), None)
      modifies disk
      ensures DoneUnlessFaulty(ok)
      ensures DiskOk() && disk.clock == old(disk.clock) + 1
      ensures disk.files == Files(Some(b), if ok then Some(WalFile(old(disk.clock), "")) else None)
      ensures Durable(wire, old(disk.files), old(disk.survivors)) ==>
                && News(wire, disk.survivors, Some(b), old(disk.clock), "")
                && TrailNews(Some(b), old(disk.clock), "")
    {
      if Durable(wire, disk.files, disk.survivors) {
        CreatedNews(wire, disk.survivors, disk.files, disk.clock);
        DurableNews(wire, disk.survivors, disk.files, disk.clock, "");
      }
      assert WholeLines("") == [];
      ok := disk.CreateLog();
    }

    method GrowNew(bytes: string, ghost b: BaseFile, ghost inode: nat, ghost start: string) returns (ok: bool)
      requires DiskOk() && disk.files == Files(Some(b), Some(WalFile(inode, start)))
      requires AllKnown(wire, Grown(disk.survivors, inode, start, bytes), disk.clock)
      modifies disk
      ensures DoneUnlessFaulty(ok)
      ensures DiskOk() && disk.clock == old(disk.clock)
      ensures disk.files.base == Some(b) && HasLog(disk.files, inode) && TailOf(disk.files.wal.value.text, start, bytes)
      ensures ok ==> disk.files == Files(Some(b), Some(WalFile(inode, start + bytes)))
      ensures News(wire, old(disk.survivors), Some(b), inode, start) ==>
                News(wire, disk.survivors, Some(b), inode, start + bytes) && TrailNews(Some(b), inode, start + bytes)
    {
      if News(wire, disk.survivors, Some(b), inode, start) {
        GrownNews(wire, disk.survivors, Some(b), inode, start, bytes);
      }
      ok := disk.AppendLog(bytes);
    }

    lemma TailIsNew(b: BaseFile, inode: nat, f: Files, start: string, bytes: string)
      requires f.base == Some(b) && HasLog(f, inode) && TailOf(f.wal.value.text, start, bytes)
      ensures IsNew(wire, f, Some(b), inode, start + bytes)
    {
      var k :| 0 <= k <= |bytes| && f.wal.value.text == start + bytes[..k];
      assert f.wal.value.text == "" + (start + bytes)[..|start| + k];
    }

    lemma NewsMore(s: iset<Files>, base: Option<BaseFile>, inode: nat, start: string, bytes: string)
      ensures forall f :: f in s && IsNew(wire, f, base, inode, start) ==> IsNew(wire, f, base, inode, start + bytes)
    {
      forall f | f in s && IsNew(wire, f, base, inode, start)
        ensures IsNew(wire, f, base, inode, start + bytes)
      {
        IsNewMore(wire, f, base, inode, start, bytes);
      }
    }

    /** Header and first delta, in two writes, then a file sync. */
    method WriteNew(b: BaseFile, rs: seq<Record>, ps: seq<Provisional>) returns (ok: bool)
      requires DiskOk() && disk.files == Files(Some(b), None)
      modifies disk
      ensures DoneUnlessFaulty(ok)
      ensures DiskOk() && IsNew(wire, disk.files, Some(b), old(disk.clock), CreatedText(wire, b.id, rs, ps))
      ensures disk.clock == old(disk.clock) + 1
      ensures disk.files.wal.Some? ==> disk.files.wal.value.inode == old(disk.clock)
      ensures ok ==>
                disk.files.wal == Some(WalFile(old(disk.clock), CreatedText(wire, b.id, rs, ps))) && ContentReached()
      ensures old(Durable(wire, disk.files, disk.survivors)) ==>
                && TrailNews(Some(b), old(disk.clock), CreatedText(wire, b.id, rs, ps))
                && News(wire, disk.survivors, Some(b), old(disk.clock), CreatedText(wire, b.id, rs, ps))
                && (ok ==> Synced(disk.survivors, disk.files) == iset{disk.files})
    {
      ghost var inode := disk.clock;
      var top := wire.headerText(HeaderFor(b.id)) + "\n";
      var line := FirstDeltaText(wire, b.id, rs, ps);
      ok := OpenNew(b);
      NewsMore(disk.trail, Some(b), inode, "", top);
      NewsMore(disk.survivors, Some(b), inode, "", top);
      assert "" + top == top;
      if ok {
        HeaderGrownKnown(wire, disk.survivors, inode, b.id, disk.clock);
        ok := GrowNew(top, b, inode, "");
        TailIsNew(b, inode, disk.files, "", top);
      }
      NewsMore(disk.trail, Some(b), inode, top, line);
      NewsMore(disk.survivors, Some(b), inode, top, line);
      if ok {
        ok := WriteFirst(line, b, inode, rs, ps);
      }
    }

    method WriteFirst(line: string, ghost b: BaseFile, ghost inode: nat, ghost rs: seq<Record>,
                      ghost ps: seq<Provisional>) returns (ok: bool)
      requires DiskOk() && disk.files == Files(Some(b), Some(WalFile(inode, wire.headerText(HeaderFor(b.id)) + "\n")))
      requires line == FirstDeltaText(wire, b.id, rs, ps)
      modifies disk
      ensures DoneUnlessFaulty(ok)
      ensures DiskOk() && IsNew(wire, disk.files, Some(b), inode, CreatedText(wire, b.id, rs, ps))
          && HasLog(disk.files, inode)
      ensures disk.clock == old(disk.clock)
      ensures ok ==> disk.files.wal == Some(WalFile(inode, CreatedText(wire, b.id, rs, ps))) && ContentReached()
      ensures News(wire, old(disk.survivors), Some(b), inode, wire.headerText(HeaderFor(b.id)) + "\n") ==>
                && TrailNews(Some(b), inode, CreatedText(wire, b.id, rs, ps))
                && News(wire, disk.survivors, Some(b), inode, CreatedText(wire, b.id, rs, ps))
                && (ok ==> Synced(disk.survivors, disk.files) == iset{disk.files})
    {
      ghost var top := wire.headerText(HeaderFor(b.id)) + "\n";
      HeaderLineOpens(wire, b.id);
      OwnDeltaLinks(wire, rs, ps, LineHash(wire, SEED, wire.headerText(HeaderFor(b.id))));
      HeaderLines(b.id);
      GrownKnown(wire, disk.survivors, disk.files.wal.value, wire.deltaText(FirstDelta(wire, b.id, rs, ps)),
        disk.clock);
      ok := GrowNew(line, b, inode, top);
      TailIsNew(b, inode, disk.files, top, line);
      if ok {
        if News(wire, disk.survivors, Some(b), inode, CreatedText(wire, b.id, rs, ps)) {
          SettledNews(wire, disk.survivors, disk.files, CreatedText(wire, b.id, rs, ps));
        }
        ok := disk.FlushLog();
      }
    }

    lemma HeaderLines(id: BaseId)
      requires Faithful(wire)
      ensures WholeLines(wire.headerText(HeaderFor(id)) + "\n") == [wire.headerText(HeaderFor(id))]
    {
      var line := wire.headerText(HeaderFor(id));
      assert "" + (line + "\n") == line + "\n";
      LineWritten("", line);
    }

    /** Removes a failed new log; the removal must be durable before the failure is reported. */
    method UndoNew(ghost b: BaseFile, ghost inode: nat, ghost rs: seq<Record>, ghost ps: seq<Provisional>)
      returns (exit: Exit)
      requires DiskOk() && disk.files.base == Some(b)
      modifies this, disk, journal
      ensures old(disk.faults) <= disk.faults
      ensures DiskOk()
      ensures exit == Failed || exit == DurabilityUncertain || exit == OutOfStep
      ensures exit.Failed? ==>
                disk.files == Files(Some(b), None) && walIdentity.None? && SameJournal()
                  && baseIdentity == old(baseIdentity)
      ensures exit.DurabilityUncertain? ==> Coherent()
      ensures exit.OutOfStep? && old(Remembering()) ==> NewLogForgotten()
      ensures News(wire, old(disk.survivors), Some(b), inode, CreatedText(wire, b.id, rs, ps)) ==>
                && TrailNews(Some(b), inode, CreatedText(wire, b.id, rs, ps))
                && (exit.Failed? ==> disk.survivors == iset{disk.files})
    {
      ghost var bytes := CreatedText(wire, b.id, rs, ps);
      if News(wire, disk.survivors, Some(b), inode, bytes) {
        UnlinkedNews(wire, disk.survivors, Some(b), inode, bytes);
        UnlinkedNews(wire, Unlinked(disk.survivors), Some(b), inode, bytes);
      }
      var ok := DropLog();
      if ok {
        SyncWithoutLog(disk.survivors, disk.files);
        ok := disk.SyncDirectory();
      }
      if !ok {
        walIdentity := None;
        exit := Reload();
        return;
      }
      return Failed;
    }

    /** The new log's name must be durable too before the mutation is acknowledged. */
    method FinishNew(head: string, ghost b: BaseFile, ghost inode: nat, ghost rs: seq<Record>,
                     ghost ps: seq<Provisional>) returns (exit: Exit)
      requires DiskOk() && ValidBase(b) && baseIdentity == Some(b.id) && Clean()
      requires disk.files == Files(Some(b), Some(WalFile(inode, CreatedText(wire, b.id, rs, ps))))
      requires head == FirstDelta(wire, b.id, rs, ps).head && ContentReached()
      modifies this, disk, journal
      ensures DoneUnlessFaulty(exit.Returned?)
      ensures DiskOk() && disk.files == old(disk.files) && disk.trail == old(disk.trail)
      ensures exit == Returned || exit == DurabilityUncertain || exit == OutOfStep
      ensures exit.Returned? ==> SameJournal() && baseIdentity == old(baseIdentity)
      ensures exit.Returned? ==>
                walIdentity.Some? && Appended(BaseDocument(b), rs, ps) && Terminated(disk.files.wal.value.text)
      ensures exit.DurabilityUncertain? && Replayable(BaseDocument(b), rs, ps) ==>
                (old(journal.Contents()) == Overlay(BaseDocument(b), rs, ps) ==> Coherent())
      ensures exit.OutOfStep? && old(Remembering()) ==> Forgotten()
      ensures exit.Returned? ==> disk.survivors == iset{disk.files}
      ensures exit.Returned? ==> walIdentity.value.size == |disk.files.wal.value.text|
    {
      CreatedRecovers(wire, b, rs, ps, disk.files);
      CreatedFinished(b.id, rs, ps);
      assert Known(wire, disk.files, disk.clock);
      var ok := disk.SyncDirectory();
      assert ok ==> disk.survivors == iset{disk.files};
      exit := RefreshLog(head);
      if exit.Returned? && !ok {
        return DurabilityUncertain;
      }
    }

    lemma CreatedFinished(id: BaseId, rs: seq<Record>, ps: seq<Provisional>)
      requires Faithful(wire)
      ensures Terminated(CreatedText(wire, id, rs, ps))
    {
      HeaderLineOpens(wire, id);
      OwnDeltaLinks(wire, rs, ps, LineHash(wire, SEED, wire.headerText(HeaderFor(id))));
      LineWritten(wire.headerText(HeaderFor(id)) + "\n", wire.deltaText(FirstDelta(wire, id, rs, ps)));
    }

    // ----------------------------------------------------------------- append

    /** Identities are up to date, and the log ends in a finished line. */
    ghost predicate InStep()
      reads this, disk
    {
      && DiskOk() && baseIdentity == BaseIdOf(disk.files)
      && (walIdentity.None? <==> disk.files.wal.None?)
      && (walIdentity.Some? && walIdentity.value.version.Chained? ==> Terminated(disk.files.wal.value.text))
      && (disk.files.base.None? ==> disk.files.wal.None?)
    }

    ghost predicate Holds(d: Document)
      reads this, disk
    {
      InStep() && Visible().Recovered? && Visible().doc == d && Visible().id == walIdentity
    }

    /** Every crash during the call recovers to the state before, the state after, or the compact form of that. */
    twostate predicate CrashSafe(exit: Exit, pre: Document, post: Document)
      reads this, disk
    {
      && AllLand(wire, old(disk.trail), disk.trail, {pre, post, Normalized(post)})
      && (exit.Returned? || exit.Refused? || exit.Failed? ==> Durable(wire, disk.files, disk.survivors))
    }

    /** A log or base of an older layout is rewritten instead of appended to. */
    predicate NeedsRewrite()
      reads this
      requires baseIdentity.Some?
    {
      || (walIdentity.Some? && (walIdentity.value.version.Legacy? || !walIdentity.value.digestBound))
      || (baseIdentity.value.generation.Some? && !baseIdentity.value.located)
      || (walIdentity.None? && baseIdentity.value.generation.None?)
    }

    /** The acknowledged state: readable again exactly when it is valid. */
    ghost predicate Acknowledged(post: Document)
      reads this, disk, journal
    {
      && InStep() && Clean()
      && (journal.Contents() == post || journal.Contents() == Normalized(post))
      && if Loadable(post) then Holds(journal.Contents()) && !Visible().torn else Visible() == Lost
    }

    /** Memory holds `post` while the files hold `pre`, with no log to show for it: the next call does not
        reload them, and what it writes leaves the difference out. */
    ghost predicate Ahead(pre: Document, post: Document)
      reads this, disk, journal
    {
      && walIdentity.None? && disk.files.wal.None? && Visible() == Recovered(pre, None, false)
      && Clean() && journal.Contents() == post
    }

    /** The state behind a failed reload: it is Ahead wherever the next call does not reload. */
    ghost predicate Adrift(pre: Document, post: Document)
      reads this, disk, journal
    {
      Standing() && (Recognised() ==> Ahead(pre, post))
    }

    /** How durable a returned call is over what it started from.  What it wrote is durable, except that a
        write behind an existing log is so exactly when both names had reached storage before; without a
        write nothing changes. */
    ghost predicate DurableOver(files: Files, survivors: iset<Files>)
      reads this, disk
    {
      if disk.files == files then disk.survivors == survivors || Durable(wire, disk.files, disk.survivors)
      else if SameLog(files, disk.files)
        then Durable(wire, disk.files, disk.survivors) <==> NamesReached(files, survivors)
      else Durable(wire, disk.files, disk.survivors)
    }

    twostate predicate DurableAsReturned()
      reads this, disk
    {
      DurableOver(old(disk.files), old(disk.survivors))
    }

    predicate SameLog(a: Files, b: Files) {
      a.wal.Some? && b.wal.Some? && a.wal.value.inode == b.wal.value.inode && a.base == b.base
    }

    twostate lemma GrewDurable()
      requires disk.Sound() && old(disk.Sound()) && Grew()
      ensures DurableAsReturned()
    {
      var bytes := disk.files.wal.value.text[|old(disk.files.wal.value.text)|..];
      AppendDurableExact(wire, old(disk.files), old(disk.survivors), bytes);
      assert old(disk.files.wal.value.text) + bytes == disk.files.wal.value.text;
    }

    /** What a caller is told about making `post` durable over `pre`, and what then holds. */
    twostate predicate Told(exit: Exit, pre: Document, post: Document)
      reads this, disk, journal
    {
      && (exit == Returned || exit == Failed || exit == DurabilityUncertain || exit == OutOfStep)
      && (exit.Returned? ==> Acknowledged(post) && disk.files.base.Some? && DurableAsReturned())
      && (exit.Failed? ==> Holds(pre) && disk.files == old(disk.files))
      && (exit.DurabilityUncertain? && Loadable(post) ==> Coherent())
      && (exit.OutOfStep? ==> Adrift(pre, post))
    }

    method SaveWhole(ghost pre: Document) returns (exit: Exit)
      requires Holds(pre) && Listable(journal.Contents())
      modifies this, disk, journal
      ensures DoneUnlessFaulty(exit.Returned? || !Loadable(old(journal.Contents())))
      ensures Told(exit, pre, old(journal.Contents()))
      ensures Durable(wire, old(disk.files), old(disk.survivors)) ==> CrashSafe(exit, pre, old(journal.Contents()))
      ensures exit.Returned? ==> !LogOversized()
    {
      exit := Persist();
    }

    /** The delta leads from `pre` to what memory holds, and can be replayed exactly when that is valid. */
    ghost predicate Rebuilds(pre: Document, rs: seq<Record>, ps: seq<Provisional>)
      reads journal
    {
      && (Loadable(journal.Contents()) <==> Replayable(pre, rs, ps))
      && (WellKeyed(journal.Contents()) ==> journal.Contents() == Overlay(pre, rs, ps))
    }

    method AppendChained(rs: seq<Record>, ps: seq<Provisional>, ghost pre: Document) returns (exit: Exit)
      requires Holds(pre) && AtEnd(disk.files) && Terminated(disk.files.wal.value.text) && Clean()
      requires Rebuilds(pre, rs, ps)
      modifies this, disk, journal
      ensures DoneUnlessFaulty(exit.Returned?)
      ensures Told(exit, pre, old(journal.Contents()))
      ensures Durable(wire, old(disk.files), old(disk.survivors)) && Loadable(old(journal.Contents())) ==>
                CrashSafe(exit, pre, old(journal.Contents()))
      ensures exit.Returned? ==> DeltaWritten(old(disk.files), old(walIdentity), rs, ps)
    {
      ghost var now := disk.files;
      exit := AppendTold(rs, ps, pre);
      if old(disk.survivors) == iset{now} && Replayable(pre, rs, ps) {
        TailsLand(now, rs, ps, old(disk.trail), disk.trail);
      }
    }

    method AppendTold(rs: seq<Record>, ps: seq<Provisional>, ghost pre: Document) returns (exit: Exit)
      requires Holds(pre) && AtEnd(disk.files) && Terminated(disk.files.wal.value.text) && Clean()
      requires Rebuilds(pre, rs, ps)
      modifies this, disk, journal
      ensures DoneUnlessFaulty(exit.Returned?)
      ensures Told(exit, pre, old(journal.Contents()))
      ensures old(disk.survivors) == iset{old(disk.files)} ==>
                && TrailTails(old(disk.files), BehindText(wire, rs, ps, old(walIdentity).value.digest))
                && (exit.Returned? || exit.Failed? ==> disk.survivors == iset{disk.files})
      ensures exit.Returned? ==> DeltaWritten(old(disk.files), old(walIdentity), rs, ps)
    {
      exit := AppendBehind(rs, ps);
      if exit.Returned? {
        GrewDurable();
      }
    }

    method AppendFirst(rs: seq<Record>, ps: seq<Provisional>, ghost pre: Document) returns (exit: Exit)
      requires Holds(pre) && NoLogYet(disk.files) && Clean()
      requires Rebuilds(pre, rs, ps)
      modifies this, disk, journal
      ensures DoneUnlessFaulty(exit.Returned?)
      ensures Told(exit, pre, old(journal.Contents()))
      ensures Durable(wire, old(disk.files), old(disk.survivors)) && Loadable(old(journal.Contents())) ==>
                CrashSafe(exit, pre, old(journal.Contents()))
      ensures exit.Returned? ==> DeltaWritten(old(disk.files), old(walIdentity), rs, ps)
    {
      ghost var b, inode := disk.files.base.value, disk.clock;
      exit := AppendNew(rs, ps);
      if old(Durable(wire, disk.files, disk.survivors)) && Replayable(pre, rs, ps) {
        NewsLand(b, inode, rs, ps, old(disk.trail), disk.trail);
      }
    }

    /** The log a delta makes: behind the remembered one, or a new one for the base. */
    function DeltaText(f: Files, wal: Option<WalId>, rs: seq<Record>, ps: seq<Provisional>): string
      requires f.base.Some? && (wal.Some? ==> f.wal.Some?)
    {
      if wal.Some? then f.wal.value.text + BehindText(wire, rs, ps, wal.value.digest)
      else CreatedText(wire, f.base.value.id, rs, ps)
    }

    /** The delta alone was written: the base is the same, and the remembered log is the one it makes. */
    ghost predicate DeltaWritten(files: Files, wal: Option<WalId>, rs: seq<Record>, ps: seq<Provisional>)
      reads this, disk
    {
      && files.base.Some? && (wal.Some? ==> files.wal.Some?)
      && disk.files.base == files.base && disk.files.wal.Some? && walIdentity.Some?
      && disk.files.wal.value.text == DeltaText(files, wal, rs, ps)
      && walIdentity.value.size == |disk.files.wal.value.text|
    }

    /** The marked entries make a log beyond the limit. */
    ghost predicate DeltaOversized()
      reads this, disk, journal
      requires disk.files.base.Some? && (walIdentity.Some? ==> disk.files.wal.Some?)
    {
      exists rs, ps ::
        && ListsMarked(journal.Contents(), journal.dirtyRecords, journal.dirtyProvisional, rs, ps)
        && |DeltaText(disk.files, walIdentity, rs, ps)| > compactionThreshold
    }

    method AppendWal(rs: seq<Record>, ps: seq<Provisional>, ghost pre: Document) returns (exit: Exit)
      requires Holds(pre) && disk.files.base.Some? && Clean() && Listable(journal.Contents())
      requires Rebuilds(pre, rs, ps)
      modifies this, disk, journal
      ensures DoneUnlessFaulty(exit.Returned? || (old(NeedsRewrite()) && !Loadable(old(journal.Contents()))))
      ensures Told(exit, pre, old(journal.Contents()))
      ensures Durable(wire, old(disk.files), old(disk.survivors)) && Loadable(old(journal.Contents())) ==>
                CrashSafe(exit, pre, old(journal.Contents()))
      ensures exit.Returned? && !old(NeedsRewrite()) ==> DeltaWritten(old(disk.files), old(walIdentity), rs, ps)
    {
      if NeedsRewrite() {
        exit := SaveWhole(pre);
      } else if walIdentity.Some? {
        AtEndOf(pre);
        exit := AppendChained(rs, ps, pre);
      } else {
        exit := AppendFirst(rs, ps, pre);
      }
    }

    lemma AtEndOf(pre: Document)
      requires Holds(pre) && walIdentity.Some? && disk.files.base.Some? && !NeedsRewrite()
      ensures AtEnd(disk.files) && Terminated(disk.files.wal.value.text)
    {
    }

    lemma TailsLand(now: Files, rs: seq<Record>, ps: seq<Provisional>, before: iset<Files>, after: iset<Files>)
      requires Faithful(wire) && Appendable(wire, now) && Replayable(Recover(wire, now).doc, rs, ps)
      requires forall f :: f in after ==>
                f in before || IsTail(f, now, BehindText(wire, rs, ps, Recover(wire, now).id.value.digest))
      ensures var pre, post := Recover(wire, now).doc, Overlay(Recover(wire, now).doc, rs, ps);
              AllLand(wire, before, after, {pre, post, Normalized(post)})
    {
      var pre, post := Recover(wire, now).doc, Overlay(Recover(wire, now).doc, rs, ps);
      forall f | f in after && f !in before
        ensures Lands(wire, f, {pre, post, Normalized(post)})
      {
        TailRecovers(wire, now, rs, ps, f);
      }
    }

    lemma NewsLand(b: BaseFile, inode: nat, rs: seq<Record>, ps: seq<Provisional>, before: iset<Files>,
                   after: iset<Files>)
      requires Faithful(wire) && ValidBase(b) && Replayable(BaseDocument(b), rs, ps)
      requires forall f :: f in after ==> f in before || IsNew(wire, f, Some(b), inode, CreatedText(wire, b.id, rs, ps))
      ensures var pre, post := BaseDocument(b), Overlay(BaseDocument(b), rs, ps);
              AllLand(wire, before, after, {pre, post, Normalized(post)})
    {
      var pre, post := BaseDocument(b), Overlay(BaseDocument(b), rs, ps);
      forall f | f in after && f !in before
        ensures Lands(wire, f, {pre, post, Normalized(post)})
      {
        NewRecovers(wire, f, b, inode, rs, ps);
      }
    }

    // ----------------------------------------------------------- verification

    ghost predicate InSync()
      reads this, disk, journal
    {
      Coherent() && InStep()
    }

    /** In sync, and every crash outcome recovers to the same document. */
    ghost predicate Settled()
      reads this, disk, journal
    {
      InSync() && !Visible().torn && Durable(wire, disk.files, disk.survivors)
    }

    /** The live check of both files against what is remembered of them, whatever memory holds. */
    method MatchesDisk() returns (ok: bool)
      ensures ok <==> Recognised()
    {
      if baseIdentity != BaseIdOf(disk.files) || (walIdentity.Some? != disk.files.wal.Some?) {
        return false;
      }
      if baseIdentity.Some? && baseIdentity.value.generation.Some? && !baseIdentity.value.located {
        return false;
      }
      if walIdentity.None? {
        return true;
      }
      var text := disk.files.wal.value.text;
      if walIdentity.value.size != |text| {
        return false;
      }
      if walIdentity.value.version.Legacy? {
        return wire.sample(text) == walIdentity.value.digest;
      }
      var head := VerifyOnDisk(wire, baseIdentity, text);
      return head == Some(walIdentity.value.digest);
    }

    /** Of files that memory follows, the live check passes exactly those it is in step with, except that
        a base whose generation it cannot find never passes. */
    lemma RecognisedIffInStep()
      requires Coherent()
      ensures Recognised() <==>
              InStep() && !(baseIdentity.Some? && baseIdentity.value.generation.Some? && !baseIdentity.value.located)
    {
      if walIdentity.Some? && walIdentity.value.version.Chained? {
        VerifiedIffFinished(wire, BaseDocument(disk.files.base.value), baseIdentity, disk.files.wal.value.text);
      }
    }

    /** A restart's work sits in memory, marked to be written by the next save. */
    ghost predicate Unsaved()
      reads this, disk, journal
    {
      && Visible().Recovered? && journal.clean == Visible().doc && journal.Tracked()
      && journal.Contents() == ReconcileStep(Visible().doc)
    }

    /** What reloading leaves of the files: a torn log is rewritten away with its base, an ignored one
        deleted without a sync, and anything else stays. */
    ghost predicate Reloads(files: Files, survivors: iset<Files>, files': Files, survivors': iset<Files>) {
      if Torn(files) then files'.wal.None? && survivors' == iset{files'}
      else if Ignores(files) then files' == files.(wal := None) && survivors' == Unlinked(survivors)
      else files' == files && survivors' == survivors
    }

    ghost predicate Torn(f: Files) {
      Recover(wire, f).Recovered? && Recover(wire, f).torn
    }

    /** Recovery passes over the log. */
    ghost predicate Ignores(f: Files) {
      f.wal.Some? && Recover(wire, f).Recovered? && Recover(wire, f).id.None?
    }

    /** How durable a call is that reloaded first: over what reloading left. */
    ghost predicate DurableBehindReload(files: Files, survivors: iset<Files>)
      reads this, disk
    {
      if Torn(files) then Durable(wire, disk.files, disk.survivors)
      else if Ignores(files) then DurableOver(files.(wal := None), Unlinked(survivors))
      else DurableOver(files, survivors)
    }

    lemma DurableThrough(files: Files, survivors: iset<Files>, files': Files, survivors': iset<Files>)
      requires Reloads(files, survivors, files', survivors') && DurableOver(files', survivors')
      ensures DurableBehindReload(files, survivors)
    {
    }

    /** Whatever reloading asks of what the files recover to: behind a torn log, that its restart can be written. */
    ghost predicate Reloadable(r: Recovery) {
      r.Recovered? && (r.torn ==> Loadable(ReconcileStep(r.doc)))
    }

    /** Reloads exactly when the files are not the remembered ones; a torn log is rewritten away at once. */
    method VerifyAgainstDisk() returns (exit: Exit)
      requires Standing()
      modifies this, disk, journal
      ensures DoneUnlessFaulty(exit.Returned? || !Reloadable(old(Visible())))
      ensures exit == Returned || exit == DurabilityUncertain || exit == OutOfStep
      ensures old(Recognised()) ==> exit.Returned? && unchanged(disk) && SameMemory()
      ensures exit.Returned? && !old(Recognised()) ==> old(Visible()).Recovered? && InSync()
      ensures exit.Returned? && !old(Recognised()) ==>
                Reloads(old(disk.files), old(disk.survivors), disk.files, disk.survivors)
      ensures exit.Returned? && !old(Recognised()) ==>
                || journal.Contents() == old(Visible()).doc
                || (old(Visible()).torn && journal.Contents() == Normalized(ReconcileStep(old(Visible()).doc)))
      ensures exit.DurabilityUncertain? ==> Coherent()
      ensures exit.OutOfStep? ==> Standing() && (Recognised() ==> Unsaved())
      ensures old(Settled()) ==>
                && UnchangedDisk() && exit != DurabilityUncertain
                && (exit.Returned? ==> Settled() && journal.Contents() == old(journal.Contents()))
    {
      var ok := MatchesDisk();
      if ok {
        return Returned;
      }
      var torn;
      ok, torn := LoadVisible();
      if !ok {
        return OutOfStep;
      }
      exit := Returned;
      if torn {
        exit := RewriteReconciled();
      }
    }

    method RewriteReconciled() returns (exit: Exit)
      requires Coherent()
      modifies this, disk, journal
      ensures DoneUnlessFaulty(exit.Returned? || !Loadable(ReconcileStep(old(journal.Contents()))))
      ensures exit == Returned || exit == DurabilityUncertain || exit == OutOfStep
      ensures exit.Returned? ==> Rewritten(Normalized(ReconcileStep(old(journal.Contents()))))
      ensures exit.DurabilityUncertain? ==> Coherent()
      ensures exit.OutOfStep? ==> Standing() && (Recognised() ==> Unsaved())
      ensures AllLand(wire, old(disk.trail), disk.trail, {Normalized(ReconcileStep(old(journal.Contents())))})
    {
      ReconcileMemory();
      exit := SaveReconciled();
    }

    method ReconcileMemory()
      requires Coherent()
      modifies journal
      ensures Standing() && Unsaved() && WellKeyed(journal.Contents())
      ensures journal.Contents() == ReconcileStep(old(journal.Contents()))
    {
      ReconciledQuiet(journal.Contents());
      RecoverLoadable(wire, disk.files);
      CoherentIsTrustworthy();
      if HasPending(journal.Contents()) {
        journal.Reconcile();
      }
    }

    method SaveReconciled() returns (exit: Exit)
      requires Standing() && Unsaved() && WellKeyed(journal.Contents())
      modifies this, disk, journal
      ensures DoneUnlessFaulty(exit.Returned? || !Loadable(old(journal.Contents())))
      ensures exit == Returned || exit == DurabilityUncertain || exit == OutOfStep
      ensures exit.Returned? ==> Rewritten(Normalized(old(journal.Contents())))
      ensures exit.DurabilityUncertain? ==> Coherent()
      ensures exit.OutOfStep? ==> Standing() && (Recognised() ==> Unsaved())
      ensures AllLand(wire, old(disk.trail), disk.trail, {Normalized(old(journal.Contents()))})
    {
      exit := Persist();
      if exit.Failed? {
        return OutOfStep;
      }
    }

    // --------------------------------------------------------------- mutation

    method Restore(rollback: Document)
      requires Loadable(rollback)
      modifies journal
      ensures Clean() && journal.Contents() == rollback
    {
      var rs := ListRecords(rollback.records);
      var ps := ListProvisional(rollback.provisional);
      ListsValidIffRelational(rollback, rs, ps);
      var _ := journal.ReplaceReferences(rs, ps);
      journal.ClearDirty();
    }

    method Perform(m: Mutation) returns (outcome: Outcome)
      requires Clean() && journal.Tracked() && WellKeyed(journal.Contents())
      modifies journal
      ensures Step(journal.Contents(), outcome) == MutationStep(old(journal.Contents()), m)
      ensures Listable(journal.Contents())
      ensures journal.clean == old(journal.clean) && journal.Tracked()
    {
      match m {
        case Apply(cmd) =>
          StepListable(journal.Contents(), cmd);
          outcome := journal.Mutate(cmd);
        case ReplaceAll(ms, ps) =>
          var ok := journal.ReplaceReferences(ms, ps);
          if ok {
            ListsValidDistinct(ms, ps);
            EnumerationOf(journal.Contents(), ms, ps);
          }
          outcome := if ok then Accepted else Rejected(InvalidDocument);
      }
    }

    predicate LogOversized()
      reads this
    {
      walIdentity.Some? && walIdentity.value.size > compactionThreshold
    }

    /** Makes an accepted step durable. */
    method Save(ghost pre: Document) returns (exit: Exit)
      requires Holds(pre) && Loadable(pre) && journal.clean == pre && journal.Tracked()
      requires Listable(journal.Contents())
      modifies this, disk, journal
      ensures DoneUnlessFaulty(exit.Returned? || !Loadable(old(journal.Contents())))
      ensures Told(exit, pre, old(journal.Contents())) || Untouched(exit, pre, old(journal.Contents()))
      ensures Durable(wire, old(disk.files), old(disk.survivors)) && Loadable(old(journal.Contents())) ==>
                CrashSafe(exit, pre, old(journal.Contents()))
      ensures exit.Returned? && disk.files != old(disk.files) ==> !LogOversized()
      ensures exit.Returned? && disk.files.base != old(disk.files.base) && WellKeyed(old(journal.Contents())) ==>
                old(journal.forceCompaction) || old(disk.files.base).None? || old(NeedsRewrite())
                  || old(DeltaOversized())
    {
      if journal.forceCompaction || (journal.HasDirty() && disk.files.base.None?) {
        exit := SaveWhole(pre);
      } else if !journal.HasDirty() {
        NothingMarked(journal.clean, journal.Contents());
        exit := Returned;
      } else {
        exit := SaveDelta(pre);
      }
    }

    /** A step that changed nothing is acknowledged without a write. */
    twostate predicate Untouched(exit: Exit, pre: Document, post: Document)
      reads this, disk, journal
    {
      && exit.Returned? && post == pre && Holds(pre) && Clean()
      && journal.Contents() == pre && disk.files == old(disk.files) && disk.survivors == old(disk.survivors)
    }

    method SaveDelta(ghost pre: Document) returns (exit: Exit)
      requires Holds(pre) && Loadable(pre) && journal.clean == pre && journal.Tracked() && !journal.forceCompaction
      requires Listable(journal.Contents()) && disk.files.base.Some?
      modifies this, disk, journal
      ensures DoneUnlessFaulty(exit.Returned? || !Loadable(old(journal.Contents())))
      ensures Told(exit, pre, old(journal.Contents()))
      ensures Durable(wire, old(disk.files), old(disk.survivors)) && Loadable(old(journal.Contents())) ==>
                CrashSafe(exit, pre, old(journal.Contents()))
      ensures exit.Returned? ==> !LogOversized()
      ensures exit.Returned? && disk.files.base != old(disk.files.base) && WellKeyed(old(journal.Contents())) ==>
                old(NeedsRewrite()) || old(DeltaOversized())
    {
      var rs, ps := TakeDelta(pre);
      exit := AppendAndCompact(rs, ps, pre);
    }

    method AppendAndCompact(rs: seq<Record>, ps: seq<Provisional>, ghost pre: Document) returns (exit: Exit)
      requires Holds(pre) && disk.files.base.Some? && Clean() && Listable(journal.Contents())
      requires Rebuilds(pre, rs, ps)
      modifies this, disk, journal
      ensures DoneUnlessFaulty(exit.Returned? || !Loadable(old(journal.Contents())))
      ensures Told(exit, pre, old(journal.Contents()))
      ensures Durable(wire, old(disk.files), old(disk.survivors)) && Loadable(old(journal.Contents())) ==>
                CrashSafe(exit, pre, old(journal.Contents()))
      ensures exit.Returned? ==> !LogOversized()
      ensures exit.Returned? && !old(NeedsRewrite()) ==>
                || |DeltaText(old(disk.files), old(walIdentity), rs, ps)| > compactionThreshold
                || DeltaWritten(old(disk.files), old(walIdentity), rs, ps)
    {
      ghost var post := journal.Contents();
      exit := AppendWal(rs, ps, pre);
      if exit.Returned? {
        exit := CompactBehind(pre, post, old(disk.files), old(disk.survivors), old(disk.trail));
      }
    }

    method CompactBehind(ghost pre: Document, ghost post: Document, ghost files: Files, ghost survivors: iset<Files>,
                         ghost trail: iset<Files>)
      returns (exit: Exit)
      requires Acknowledged(post) && disk.files.base.Some?
      requires Listable(post) && DurableOver(files, survivors)
      modifies this, disk, journal
      ensures DoneUnlessFaulty(exit.Returned? || !Loadable(post))
      ensures exit == Returned || exit == DurabilityUncertain || exit == OutOfStep
      ensures exit.Returned? ==> Acknowledged(post) && disk.files.base.Some? && DurableOver(files, survivors)
      ensures exit.DurabilityUncertain? ==> Coherent()
      ensures exit.OutOfStep? ==> Standing() && !Recognised()
      ensures exit.Returned? && Durable(wire, old(disk.files), old(disk.survivors)) ==>
                Durable(wire, disk.files, disk.survivors)
      ensures Loadable(post) && AllLand(wire, trail, old(disk.trail), {pre, post, Normalized(post)}) ==>
                AllLand(wire, trail, disk.trail, {pre, post, Normalized(post)})
      ensures exit.Returned? ==> !LogOversized()
      ensures !old(LogOversized()) ==> UnchangedDisk() && walIdentity == old(walIdentity)
    {
      ListableNormalized(post);
      exit := CompactOversized(pre, post, trail);
    }

    /** The delta to write: it rebuilds the current state, and replays exactly when that is valid. */
    method TakeDelta(ghost pre: Document) returns (rs: seq<Record>, ps: seq<Provisional>)
      requires Loadable(pre) && journal.clean == pre && journal.Tracked() && !journal.forceCompaction
      requires Listable(journal.Contents())
      modifies journal`dirtyRecords, journal`dirtyProvisional, journal`clean
      ensures Clean() && Rebuilds(pre, rs, ps)
      ensures WellKeyed(journal.Contents()) ==>
                ListsMarked(journal.Contents(), old(journal.dirtyRecords), old(journal.dirtyProvisional), rs, ps)
    {
      ghost var dirtyRecords, dirtyProvisional := journal.dirtyRecords, journal.dirtyProvisional;
      rs, ps := journal.TakeDirty();
      if WellKeyed(journal.Contents()) {
        MarkedDeltaRebuilds(pre, journal.Contents(), dirtyRecords, dirtyProvisional, rs, ps);
        MarkedShapes(pre, journal.Contents(), dirtyRecords, dirtyProvisional, rs, ps);
      } else {
        IllShapedMarked(pre, journal.Contents(), dirtyRecords, dirtyProvisional, rs);
      }
    }

    /** The delta is durable already, so a failure here leaves durability uncertain. */
    method CompactOversized(ghost pre: Document, ghost post: Document, ghost trail: iset<Files>) returns (exit: Exit)
      requires Acknowledged(post) && disk.files.base.Some? && Listable(journal.Contents())
      modifies this, disk, journal
      ensures DoneUnlessFaulty(exit.Returned? || !Loadable(post))
      ensures exit == Returned || exit == DurabilityUncertain || exit == OutOfStep
      ensures exit.Returned? ==> Acknowledged(post) && disk.files.base.Some?
      ensures exit.Returned? ==>
                || (disk.files == old(disk.files) && disk.survivors == old(disk.survivors))
                || (disk.files.wal.None? && Durable(wire, disk.files, disk.survivors))
      ensures exit.DurabilityUncertain? ==> Coherent()
      ensures exit.OutOfStep? ==> Standing() && !Recognised()
      ensures Loadable(post) && AllLand(wire, trail, old(disk.trail), {pre, post, Normalized(post)}) ==>
                AllLand(wire, trail, disk.trail, {pre, post, Normalized(post)})
      ensures exit.Returned? ==> !LogOversized()
      ensures !old(LogOversized()) ==> UnchangedDisk() && walIdentity == old(walIdentity)
    {
      if !LogOversized() {
        return Returned;
      }
      exit := RewriteOversized(post);
      LandOnward(wire, trail, old(disk.trail), disk.trail, pre, post);
    }

    method RewriteOversized(ghost post: Document) returns (exit: Exit)
      requires disk.files.wal.Some? && Acknowledged(post) && disk.files.base.Some? && Listable(journal.Contents())
      modifies this, disk, journal
      ensures DoneUnlessFaulty(exit.Returned? || !Loadable(post))
      ensures exit == Returned || exit == DurabilityUncertain || exit == OutOfStep
      ensures exit.Returned? ==> Acknowledged(post) && disk.files.base.Some?
      ensures exit.Returned? ==> disk.files.wal.None? && Durable(wire, disk.files, disk.survivors)
      ensures exit.DurabilityUncertain? ==> Coherent()
      ensures exit.OutOfStep? ==> Standing() && !Recognised()
      ensures Loadable(post) ==> AllLand(wire, old(disk.trail), disk.trail, {Normalized(post)})
    {
      NormalizedIdempotent(post);
      NormalizedLoadable(post);
      exit := Persist();
      if exit.Failed? {
        exit := Reload();
      }
    }

    /** What the caller of an accepted step is told, and what is then true of memory and disk. */
    twostate predicate Reported(exit: Exit, pre: Document, post: Document)
      reads this, disk, journal
    {
      && (exit.Returned? ==>
            && InStep() && Clean()
            && (journal.Contents() == post || journal.Contents() == Normalized(post))
            && (if Loadable(post) then InSync() else Visible() == Lost)
            && (Loadable(post) && Visible().torn ==> old(Visible()).Recovered? && old(Visible()).torn)
            && DurableAsReturned())
      && (exit.Failed? ==> InSync() && journal.Contents() == pre && disk.files == old(disk.files))
      && (exit.DurabilityUncertain? && Loadable(post) ==> Coherent())
      && (exit.OutOfStep? ==> Adrift(pre, post))
    }

    method SaveOrRestore(pre: Document) returns (exit: Exit)
      requires Holds(pre) && Loadable(pre) && journal.clean == pre && journal.Tracked()
      requires Listable(journal.Contents())
      modifies this, disk, journal
      ensures DoneUnlessFaulty(exit.Returned? || !Loadable(old(journal.Contents())))
      ensures exit == Returned || exit == Failed || exit == DurabilityUncertain || exit == OutOfStep
      ensures Reported(exit, pre, old(journal.Contents()))
      ensures Durable(wire, old(disk.files), old(disk.survivors)) && Loadable(old(journal.Contents())) ==>
                CrashSafe(exit, pre, old(journal.Contents()))
      ensures exit.Returned? && disk.files != old(disk.files) ==> !LogOversized()
    {
      ghost var post := journal.Contents();
      exit := Save(pre);
      if exit.Failed? {
        Restore(pre);
        assert InSync();
      } else if exit.Returned? {
        ReturnedReport(pre, post);
      }
    }

    lemma ReturnedReport(pre: Document, post: Document)
      requires Acknowledged(post)
          || (post == pre && Holds(pre) && Loadable(pre) && Clean() && journal.Contents() == pre)
      ensures InStep() && Clean()
      ensures journal.Contents() == post || journal.Contents() == Normalized(post)
      ensures if Loadable(post) then InSync() else Visible() == Lost
      ensures Acknowledged(post) && Loadable(post) ==> !Visible().torn
    {
    }

    /** The part of a mutation behind verification.  A returned call has made the step durable;
        it can be read back if and only if the step was valid.  A refused or failed call leaves
        memory and disk as they were. */
    method Commit(m: Mutation) returns (exit: Exit)
      requires InSync()
      modifies this, disk, journal
      ensures DoneUnlessFaulty(exit.Returned? || exit.Refused? || !Loadable(After(old(journal.Contents()), m)))
      ensures exit.Refused? <==> MutationStep(old(journal.Contents()), m).outcome.Rejected?
      ensures exit.Refused? ==> MutationStep(old(journal.Contents()), m).outcome == Rejected(exit.error)
      ensures exit.Refused? ==> UnchangedDisk() && InSync() && journal.Contents() == old(journal.Contents())
      ensures Reported(exit, old(journal.Contents()), After(old(journal.Contents()), m))
      ensures Durable(wire, old(disk.files), old(disk.survivors)) && Loadable(After(old(journal.Contents()), m)) ==>
                CrashSafe(exit, old(journal.Contents()), After(old(journal.Contents()), m))
      ensures exit.Returned? && disk.files != old(disk.files) ==> !LogOversized()
    {
      RecoverLoadable(wire, disk.files);
      var rollback := journal.Contents();
      var outcome := Perform(m);
      if outcome.Rejected? {
        Restore(rollback);
        return Refused(outcome.error);
      }
      exit := SaveOrRestore(rollback);
    }

    /** One public mutation.  `entry` is the state it found: what the files recover to, or, where an
        uncertain exit had left a torn log, what rewriting that log away made of it.  Behind a failed
        reload the next call reloads unless it recognises the files; memory is then Ahead of them. */
    method Mutate(m: Mutation) returns (exit: Exit, ghost entry: Document)
      requires Trustworthy()
      modifies this, disk, journal
      ensures DoneUnlessFaulty(
                exit.Returned? || exit.Refused? || !Reloadable(old(Visible())) || !Loadable(After(entry, m)))
      ensures exit.Returned? || exit.Refused? || exit.Failed? ==> old(Visible()).Recovered?
      ensures old(Visible()).Recovered? ==>
                || entry == old(Visible()).doc
                || (old(Visible()).torn && entry == Normalized(ReconcileStep(old(Visible()).doc)))
      ensures exit.Returned? ==>
                && MutationStep(entry, m).outcome.Accepted?
                && (journal.Contents() == After(entry, m) || journal.Contents() == Normalized(After(entry, m)))
                && if Loadable(After(entry, m)) then InSync() else Visible() == Lost
      ensures exit.Returned? ==> if old(Recognised()) then DurableAsReturned()
                else DurableBehindReload(old(disk.files), old(disk.survivors))
      ensures exit.Refused? ==> MutationStep(entry, m).outcome == Rejected(exit.error)
      ensures exit.Refused? || exit.Failed? ==> InSync() && journal.Contents() == entry
      ensures exit.DurabilityUncertain? && Loadable(After(entry, m)) ==> Coherent()
      ensures exit.OutOfStep? ==>
                Standing() && (Recognised() ==> Unsaved() || Ahead(entry, After(entry, m)))
      ensures old(Settled()) ==> entry == old(journal.Contents())
      ensures old(Settled()) && Loadable(After(entry, m)) ==>
                && AllLand(wire, old(disk.trail), disk.trail, {entry, After(entry, m), Normalized(After(entry, m))})
                && (exit.Returned? || exit.Refused? || exit.Failed? ==> Settled())
      ensures exit.Returned? && disk.files != old(disk.files) ==> !LogOversized()
    {
      entry := if Visible().Recovered? then Visible().doc else journal.Contents();
      if Recognised() {
        RecognisedIffInStep();
      }
      exit := VerifyAgainstDisk();
      if exit.Returned? {
        entry := journal.Contents();
        ghost var files, survivors := disk.files, disk.survivors;
        exit := Commit(m);
        if exit.Returned? && !old(Recognised()) {
          DurableThrough(old(disk.files), old(disk.survivors), files, survivors);
        }
      }
    }

    /** Rewrites the base with everything acknowledged, so that copying the base file copies it all. */
    method CompactForRelocation() returns (exit: Exit)
      requires Trustworthy()
      modifies this, disk, journal
      ensures DoneUnlessFaulty(exit.Returned? || !Reloadable(old(Visible())))
      ensures exit.Returned? ==>
                old(Visible()).Recovered? &&
                exists entry :: journal.Contents() == Normalized(entry) && Rewritten(journal.Contents())
                  && (entry == old(Visible()).doc
                    || (old(Visible()).torn && entry == Normalized(ReconcileStep(old(Visible()).doc))))
      ensures exit.Returned? ==> Settled() && RecoversTo(wire, disk.files.(wal := None), journal.Contents())
      ensures old(Settled()) ==>
                AllLand(wire, old(disk.trail), disk.trail, {Normalized(old(journal.Contents()))})
    {
      if Recognised() {
        RecognisedIffInStep();
      }
      exit := VerifyAgainstDisk();
      if exit.Returned? {
        RecoverLoadable(wire, disk.files);
        exit := Persist();
      }
    }

    // ------------------------------------------------------------------- boot

    /** A boot that finds the files like this keeps them. */
    ghost predicate Steady(f: Files, bootLimit: nat)
      reads this
    {
      if f.base.None? then f.wal.None?
      else
        var r := Recover(wire, f);
        && r.Recovered? && !r.torn && !HasPending(r.doc)
        && (f.wal.Some? <==> r.id.Some?)
        && (r.id.Some? ==> r.id.value.size <= compactionThreshold)
        && (f.base.value.id.size > bootLimit ==> f.base.value.normalized)
    }

    /** The files a machine finds when it comes up: nothing unsynced, no name from the future. */
    ghost predicate Startable()
      reads disk
    {
      && Faithful(wire) && disk.survivors == iset{disk.files} && disk.trail == iset{disk.files}
      && Numbered(wire, disk.files, disk.clock)
      && (disk.files.base.None? && disk.files.wal.Some? ==> WellBegun(wire, disk.files.wal.value.text))
    }

    /** The base, or what is in memory now, is too large for the ordinary rewrite. */
    predicate TooLarge(f: Files, bootLimit: nat, measured: bool) {
      measured || (f.base.Some? && f.base.value.id.size > bootLimit)
    }

    /** What a boot leaves, when the files recover to `found`. */
    twostate predicate BootedFrom(found: Recovery, exit: Exit, bootLimit: nat, measured: bool)
      reads this, disk, journal
    {
      && DoneUnlessFaulty(exit.Returned? || !found.Recovered? || !Loadable(ReconcileStep(found.doc)))
      && (exit.Returned? ==>
            && Settled() && Steady(disk.files, bootLimit) && !HasPending(journal.Contents()) && found.Recovered?
            && ((journal.Contents() == found.doc && !HasPending(found.doc))
                || journal.Contents() == Normalized(ReconcileStep(found.doc))))
      && (old(Steady(disk.files, bootLimit)) ==>
            UnchangedDisk() && (exit.Returned? ==> found.Recovered? && journal.Contents() == found.doc))
      && (found.Recovered?
          && (Loadable(ReconcileStep(found.doc)) || !TooLarge(old(disk.files), bootLimit, measured)) ==>
            AllLand(wire, old(disk.trail), disk.trail, {found.doc, Normalized(ReconcileStep(found.doc))}))
      && (found.Recovered? && !Loadable(ReconcileStep(found.doc)) ==>
            exit.OutOfStep? &&
            (RecoversTo(wire, disk.files, found.doc)
              || (TooLarge(old(disk.files), bootLimit, measured) && Visible() == Lost)))
    }

    /** The constructor's work: load, replay, and one rewrite when something has to be recovered.  A large
        authority, by its base or as measured in memory, is rewritten without being validated. */
    method Boot(bootLimit: nat, measured: bool) returns (exit: Exit)
      requires Startable()
      requires Clean() && journal.Contents() == EMPTY_DOCUMENT && baseIdentity.None? && walIdentity.None? && !normalized
      modifies this, disk, journal
      ensures BootedFrom(old(Visible()), exit, bootLimit, measured)
    {
      if disk.files.base.None? {
        ReconciledQuiet(EMPTY_DOCUMENT);
        exit := BootEmpty(bootLimit);
      } else {
        exit := BootBase(bootLimit, measured);
      }
    }

    method BootBase(bootLimit: nat, measured: bool) returns (exit: Exit)
      requires Startable() && disk.files.base.Some?
      requires Clean() && journal.Contents() == EMPTY_DOCUMENT && baseIdentity.None? && walIdentity.None?
      modifies this, disk, journal
      ensures BootedFrom(old(Visible()), exit, bootLimit, measured)
    {
      var ok, torn := LoadAtBoot();
      if !ok {
        return OutOfStep;
      }
      ghost var trail := disk.trail;
      exit := Recovering(torn, bootLimit, measured);
      LandBoth(wire, old(disk.trail), trail, disk.trail, old(Visible()).doc,
        Normalized(ReconcileStep(old(Visible()).doc)));
    }

    lemma LandBoth(w: Wire, a: iset<Files>, b: iset<Files>, c: iset<Files>, x: Document, y: Document)
      requires AllLand(w, a, b, {x})
      ensures AllLand(w, b, c, {y}) ==> AllLand(w, a, c, {x, y})
    {
    }

    /** Loads what the files recover to; a log that cannot have been written here is an error. */
    method LoadAtBoot() returns (ok: bool, torn: bool)
      requires Startable() && disk.files.base.Some?
      requires Clean() && journal.Contents() == EMPTY_DOCUMENT && baseIdentity.None? && walIdentity.None?
      modifies this, disk, journal
      ensures DoneUnlessFaulty(ok || !old(Visible()).Recovered?)
      ensures !ok ==> UnchangedDisk()
      ensures ok && old(disk.files.wal.Some? ==> Visible().Recovered? && Visible().id.Some?) ==> UnchangedDisk()
      ensures ok ==> Coherent() && Durable(wire, disk.files, disk.survivors)
      ensures ok ==>
                && old(Visible()).Recovered? && journal.Contents() == old(Visible()).doc
                && torn == old(Visible()).torn && (Visible().torn ==> torn)
      ensures ok ==>
                && disk.files.base == old(disk.files.base) && normalized == disk.files.base.value.normalized
                && (walIdentity.None? <==> disk.files.wal.None?)
      ensures ok ==> AllLand(wire, old(disk.trail), disk.trail, {old(Visible()).doc})
    {
      torn := false;
      if disk.files.wal.Some? && !WellBegun(wire, disk.files.wal.value.text) {
        return false, torn;
      }
      ok, torn := LoadVisible();
      if ok {
        UnlinkedDurable(wire, old(disk.files));
      }
    }

    /** Without a base there is nothing to recover, and a leftover log is deleted. */
    method BootEmpty(bootLimit: nat) returns (exit: Exit)
      requires Startable() && disk.files.base.None?
      requires Clean() && journal.Contents() == EMPTY_DOCUMENT && baseIdentity.None? && walIdentity.None?
      modifies this`walIdentity, disk
      ensures DoneUnlessFaulty(exit.Returned?)
      ensures exit == Returned || exit == OutOfStep
      ensures exit.Returned? ==> Settled() && Steady(disk.files, bootLimit) && journal.Contents() == EMPTY_DOCUMENT
      ensures old(Steady(disk.files, bootLimit)) ==> UnchangedDisk()
      ensures AllLand(wire, old(disk.trail), disk.trail, {EMPTY_DOCUMENT})
    {
      var ok := DropLog();
      return if ok then Returned else OutOfStep;
    }

    predicate NeedsRecovery(torn: bool)
      reads this, journal
    {
      torn || LogOversized() || HasPending(journal.Contents())
    }

    method Recovering(torn: bool, bootLimit: nat, measured: bool) returns (exit: Exit)
      requires Coherent() && disk.files.base.Some? && (walIdentity.None? <==> disk.files.wal.None?)
      requires Visible().torn ==> torn
      requires normalized == disk.files.base.value.normalized
      requires Durable(wire, disk.files, disk.survivors)
      modifies this, disk, journal
      ensures DoneUnlessFaulty(exit.Returned? || !Loadable(ReconcileStep(old(journal.Contents()))))
      ensures exit.Returned? ==> Settled() && Steady(disk.files, bootLimit) && !HasPending(journal.Contents())
      ensures exit.Returned? ==>
                || (journal.Contents() == old(journal.Contents()) && !HasPending(journal.Contents()))
                || journal.Contents() == Normalized(ReconcileStep(old(journal.Contents())))
      ensures old(Steady(disk.files, bootLimit)) && !torn ==>
                UnchangedDisk() && (exit.Returned? ==> journal.Contents() == old(journal.Contents()))
      ensures Loadable(ReconcileStep(old(journal.Contents()))) || !TooLarge(old(disk.files), bootLimit, measured) ==>
                AllLand(wire, old(disk.trail), disk.trail, {Normalized(ReconcileStep(old(journal.Contents())))})
      ensures !Loadable(ReconcileStep(old(journal.Contents()))) ==>
                exit.OutOfStep? &&
                (UnchangedDisk() || (TooLarge(old(disk.files), bootLimit, measured) && Visible() == Lost))
    {
      ReconciledQuiet(journal.Contents());
      RecoverLoadable(wire, disk.files);
      if NeedsRecovery(torn) || (disk.files.base.value.id.size > bootLimit && !normalized) {
        exit := RewriteAtBoot(bootLimit, TooLarge(disk.files, bootLimit, measured));
      } else {
        AlreadySteady(torn, bootLimit);
        exit := Returned;
      }
    }

    method RewriteAtBoot(bootLimit: nat, large: bool) returns (exit: Exit)
      requires Coherent()
      modifies this, disk, journal
      ensures DoneUnlessFaulty(exit.Returned? || !Loadable(ReconcileStep(old(journal.Contents()))))
      ensures exit.Returned? ==> Settled() && Steady(disk.files, bootLimit) && !HasPending(journal.Contents())
      ensures exit.Returned? ==> journal.Contents() == Normalized(ReconcileStep(old(journal.Contents())))
      ensures Loadable(ReconcileStep(old(journal.Contents()))) || !large ==>
                AllLand(wire, old(disk.trail), disk.trail, {Normalized(ReconcileStep(old(journal.Contents())))})
      ensures !Loadable(ReconcileStep(old(journal.Contents()))) ==>
                exit.OutOfStep? && (UnchangedDisk() || (large && Visible() == Lost))
    {
      ghost var doc := ReconcileStep(journal.Contents());
      ReconciledQuiet(journal.Contents());
      RecoverLoadable(wire, disk.files);
      ReconciledShapes(journal.Contents());
      NormalizedQuiet(doc);
      if HasPending(journal.Contents()) {
        journal.Reconcile();
      }
      if large {
        exit := CompactFromReferences();
      } else {
        exit := Persist();
      }
      if exit.Failed? {
        return OutOfStep;
      }
      if exit.Returned? {
        RewrittenSteady(journal.Contents(), bootLimit);
      }
    }

    lemma ReconciledShapes(d: Document)
      requires Loadable(d)
      ensures WellKeyed(ReconcileStep(d)) && Shapes(ReconcileStep(d))
    {
      RestartedRelations(d);
    }

    lemma AlreadySteady(torn: bool, bootLimit: nat)
      requires Coherent() && disk.files.base.Some? && (walIdentity.None? <==> disk.files.wal.None?)
      requires Visible().torn ==> torn
      requires normalized == disk.files.base.value.normalized
      requires Durable(wire, disk.files, disk.survivors)
      requires !NeedsRecovery(torn) && (disk.files.base.value.id.size > bootLimit ==> normalized)
      ensures Settled() && Steady(disk.files, bootLimit)
    {
    }

    lemma RewrittenSteady(d: Document, bootLimit: nat)
      requires Rewritten(d) && !HasPending(d)
      ensures Settled() && Steady(disk.files, bootLimit)
    {
    }
  }
}
