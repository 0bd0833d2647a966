# Session authority: a verified model

The session authority records which chat owns which session and which
operations were done on it.  It lives in memory, in a base file and in an
append-only log beside it, and has to survive crashes, retries, project moves
and migrations.  This project models it in Dafny together with the protocols
around it, and proves what they keep.  `dafny verify dfyconfig.toml` checks
everything.

## Layout

| files | content |
|---|---|
| `AuthorityTypes`, `RelationalValidity`, `DocumentLists` | the stored values, what makes a document loadable, and the validator's own loops |
| `JournalSteps`, `Journal` | each journal operation as one step on a document, and the class that performs it with dirty marks |
| `JournalInvariant`, `JournalSafety`, `ReassignmentSafety`, `JournalRuns` | what every step keeps, over whole runs, and that no lineage is lost |
| `JournalAcceptance`, `JournalEffects` | exactly when each operation is accepted, what can be read back behind it, and what it leaves alone |
| `JournalExactness`, `JournalExamples` | exactly when a step, and a run, leaves a document that can be loaded again, with concrete documents where it does not |
| `LogText`, `Wal`, `Normalize`, `GenerationKey` | the log's lines, header, hash chain, replay and verdicts; the compact form of a base; finding its generation in the text |
| `AuthorityDisk`, `CrashSafety`, `RestartFacts`, `FileAuthority`, `DurabilityLimits`, `CrashAndBoot` | files whose writes reach storage late, the file-backed authority, what a crash can leave at any moment, and the boot of that |
| `Coordinator` | the keyed first-come-first-served mutex with owner re-entry |
| `CloseRouter`, `CloseEffects`, `CloseReports`, `CloseDurability`, `CloseLimits` | what each step of a close does; closing at most once, completing only what reported, both across crashes, and exactly when a session is closed a second time |
| `ScopeKey`, `ScopedStore`, `ScopedEffects`, `Migration` | other clients of the journal: scope isolation, what a scoped call performs, retirement; migration accounting |
| `Bootstrap`, `Orchestrator`, `DeploymentPair`, `SnapshotCoverage`, `Base64` | deployment checkpoints, the phase loop, the pending record with its recovery snapshot, and reading that snapshot back |
| `Terminal`, `TerminalEvents` | deciding from a frame stream how one accepted turn ended, and what its events mean |

## How crashes are modelled

`AuthorityDisk.Disk` holds the visible files and, in ghost fields, every
combination of files a crash could leave now (`survivors`) or could have left
at any earlier moment (`trail`).  A rename, an unlink or a new log name may be
lost until the directory is synced; an append may survive in any first part,
byte by byte, until the file is synced.  Every step may fail, and a ghost
counter, `faults`, counts the steps that did.  The authority's methods state what
they leave visible, where every crash outcome in between recovers to, and that
they succeed unless the counter has grown.  The deployment's files and its
checkpoint store keep such a counter, too.

## What is assumed

* SHA-256 (FIPS 180-4) is collision-free, its output is never empty, holds no
  newline and never equals the chain seed.  JSON text holds no raw newline
  (section 7 of RFC 8259), reads back as what was written, and re-serialising a
  parsed delta without its head gives the text that was hashed.  `Wal.Faithful`
  says so; nothing else about the encoding is used.
* A random generation is one that was not drawn before.
* One process writes the files; the locks around a mutation are taken to work.  A
  base it has rewritten is told from the one before it, also where that one
  carried no generation and only size and time can tell.
* `JournalRuns.Safe` lists what each journal command needs of its caller beyond
  its own checks.  None of it is more than needed: `JournalExactness.StepExact`
  and `RunExact` show it exact, for every command and every run.

## Where the code does less than its callers may expect

Each is stated as a lemma, with the exact condition under which the code keeps
what is expected.

* `rollbackProjectReassignment` replaces the detail of a pending target, which
  then no longer matches the reassignment: the authority cannot be loaded again
  (`RollbackExact`, `RollBackBreaks`).
* A plain transition of a reservation of another project can do the same: it may
  relabel a live target, or complete it under its own label (`MoveExact`,
  `TargetMoves`, `RelabelBreaks`, `MoveBreaks`).
* A target reserved without a detail gets one at restart, with the same effect
  (`ReserveExact`, `ReconcileExact`, `RestartBreaks`).
* Beginning over a pending reassignment drops the lineage retired before it.  Its
  operations can no longer be looked up (`ConservesExact`, `SecondBeginForgets`),
  and while a reservation of the dropped project is stored the authority cannot
  be loaded again; nor can it behind a restart when the new target names a spent
  reservation (`BeginReassignmentExact`, `SecondBeginBreaks`, `TargetReuseBreaks`).
  A close in the dropped lineage can be started a second time once the begin is
  rolled back: closing is at most once exactly as long as no such begin drops a
  started close (`RecordedExact`, `AtMostOneClose`, `DroppedClosesAgain`,
  `SecondBeginClosesTwice`).
* Moving an acknowledged create or branch to conflict keeps its successor, which
  the operation validator rejects (`ConflictAfterAcknowledgeFails`).
* The operations a store adds and a begun operation are not checked against
  retired names, the former not against reservations either (`StoreExact`,
  `BeginExact`).
* A publication checks its operation's chat and project but stores its mapping's;
  a commit does not look for other open reservations of the source project
  (`PublishExact`, `CommitBreaks`).  A commit whose mapping names another chat is
  acknowledged and leaves files that cannot be recovered (`PublishExact`,
  `FileSessionAuthority.Mutate`).
* The log append does not validate, replay does: an acknowledged step that is
  not valid makes the authority unreadable (`Wal.AppendExact`,
  `FileSessionAuthority.Commit`).  The boot compaction of a large authority does
  not validate what it reconciled and can overwrite the files with it
  (`FileSessionAuthority.CompactFromReferences`, `UncheckedCompactionExact`).
* After an exit with uncertain durability the next calls can acknowledge what a
  crash still loses: a stale log is deleted without a sync (`UnsyncedDropExact`),
  and an append to a log whose name was never synced does not sync it
  (`UnsyncedNameExact`, `AppendDurableExact`).  A close whose begin is lost that
  way is started a second time (`LostBeginClosesTwice`).
* When creating a log fails, its removal succeeds, and neither the directory sync
  nor the reload behind it does, memory keeps the mutation, no log is remembered,
  and the next call recognises the files and does not reload: later deltas leave
  the mutation out (`FileSessionAuthority.Mutate`, `AheadExact`,
  `ForgottenLogLoses`).  Behind every other failed reload the next call reloads
  or writes what a restart had marked.
* `resetBootstrapState` can move forward over phases that never ran
  (`ResetAccountedExact`); the reset of a configure run cannot (`RunReset`).
* The unscoped completion and publication calls of the mapping store check the
  operation's chat but store the mapping's.  A mapping of a retired chat changes
  its record (`LegacyFrozenExact`, `RetiredForGood`) and brings it back if it
  carries metadata of its own (`CompletionRevivalExact`,
  `PublicationRevivalExact`, `CompletionRevives`, `PublicationRevives`).  Its
  journal was emptied, so it can be closed again under an ingress it was closed
  under before (`RevivedClosesExact`).
* A recovery snapshot captured where two deployment paths coincide cannot be read
  back (`CoveredOnce`).
* Adopting a log counts an unfinished last line that happens to parse
  (`AdoptAgreesIffFinished`).  With one writer the adoption is never reached:
  verification has replayed or deleted any log that is there.

## Model

| member | source | states |
|---|---|---|
| `RelationalValidity.IsRelationallyValid` | src/gjc/session-authority-record-validation.ts:125-189 | The validator accepts exactly the lists whose identifiers are disjoint over journals and tombstone chains, whose results are bound to their operation, and whose provisional operations are placed |
| `RelationalValidity.AddIdentity` | src/gjc/session-authority-record-validation.ts:324-332 | Adding one operation succeeds exactly when none of its identifiers is taken, and the map then names each identifier with its owner |
| `RelationalValidity.AddIdentities` | src/gjc/session-authority-record-validation.ts:140-142 | Adding a journal succeeds exactly when no two operations share an identifier |
| `RelationalValidity.CheckChain` | src/gjc/session-authority-record-validation.ts:143-153 | A tombstone chain passes exactly when it belongs to the chat, its results are bound, and it repeats no identifier of the journal or of itself |
| `RelationalValidity.CheckRecord` | src/gjc/session-authority-record-validation.ts:134-154 | A record passes exactly when its journal and its chain satisfy the record relations together |
| `RelationalValidity.CheckProvisional` | src/gjc/session-authority-record-validation.ts:155-187 | A provisional operation passes exactly when it is placed, shares identifiers only with its own identity, and with no other provisional operation of its chat |
| `JournalSafety.StoreKeeps` | src/gjc/session-authority-journal.ts:41-65 | Storing any mapping keeps the invariant when every operation it adds is well formed, bound to the chat, and unused in retired and provisional names |
| `JournalSafety.BeginKeeps` | src/gjc/session-authority-journal.ts:402-427 | Beginning an operation keeps the invariant when its names are not used in a retired lineage |
| `JournalSafety.AcknowledgeKeeps` | src/gjc/session-authority-journal.ts:428-455 | Recording a successor always keeps the invariant |
| `JournalSafety.TransitionKeeps` | src/gjc/session-authority-journal.ts:456-489 | A transition keeps the invariant when its result names its own operation and a conflict leaves no successor behind |
| `JournalSafety.AttachKeeps` | src/gjc/session-authority-journal.ts:381-401 | Attaching proof to a pending provisional operation always keeps the invariant |
| `JournalSafety.TransitionProvisionalKeeps` | src/gjc/session-authority-journal.ts:361-380 | Moving a provisional operation keeps the invariant when an entry of another project stays a live target under its label, or becomes evidence under another one |
| `ReassignmentSafety.ReserveKeeps` | src/gjc/session-authority-journal.ts:273-308 | Reserving keeps the invariant, also where it pins the target of a pending reassignment |
| `ReassignmentSafety.BeginReassignmentKeeps` | src/gjc/session-authority-journal.ts:66-113 | Beginning a reassignment keeps the invariant when every entry of another project stays evidence of a retained lineage that the target does not name |
| `ReassignmentSafety.FirstBeginSafe` | src/gjc/session-authority-journal.ts:73-108 | A begin without a target that overwrites no pending reassignment needs nothing of its caller |
| `ReassignmentSafety.RollbackKeeps` | src/gjc/session-authority-journal.ts:134-161 | Rolling back keeps the invariant when it does not relabel a foreign target |
| `ReassignmentSafety.PublishKeeps` | src/gjc/session-authority-journal.ts:309-360 | Publishing, committing or not, keeps the invariant under the condition PublishExact shows to be exact |
| `ReassignmentSafety.NamedPublishSafe` | src/gjc/session-authority-journal.ts:309-360 | An accepted publication of a mapping that names the operation is safe unless it commits beside an open reservation of the source project |
| `ReassignmentSafety.CommittedLineage` | src/gjc/session-authority-journal.ts:334-356 | A commit puts the published operation, complete with the detail it was reserved with and the outcome of its mapping, in front of the complete old lineage |
| `ReassignmentSafety.ReconcileKeeps` | src/gjc/session-authority-reconciliation.ts:5-55 | Restart reconciliation keeps the invariant without any condition |
| `JournalRuns.StepKeeps` | src/gjc/session-authority-journal.ts:41-489 | Every accepted command that meets what Safe asks of its caller keeps the invariant; StepExact shows that Safe asks no more than needed |
| `JournalRuns.RunKeeps` | src/gjc/session-authority-journal.ts:41-498 | Every run whose accepted commands are safe keeps the invariant, restarts included; RunExact is the converse |
| `JournalExactness.BeginExact` | src/gjc/session-authority-journal.ts:406-426 | An accepted begin leaves a loadable document if and only if its names are unused in the retired lineages, which the code does not check |
| `JournalExactness.TransitionExact` | src/gjc/session-authority-journal.ts:468-487 | An accepted transition leaves a loadable document if and only if its result is its own and a conflict carries no successor |
| `JournalExactness.ConflictAfterAcknowledgeFails` | src/gjc/session-authority-operation-validation.ts:21-54 | An acknowledged operation that moves to conflict keeps its successor, and its record is no longer accepted |
| `JournalExactness.StoreExact` | src/gjc/session-authority-journal.ts:41-65 | An accepted store, with or without a journal in its input, leaves a loadable document if and only if every operation it adds may be taken on by its chat |
| `JournalExactness.BareStoreSafe` | src/gjc/session-operation-codec.ts:148-165 | For a mapping without a journal that comes down to the one operation it stands for, unless the chat has it already |
| `JournalExactness.RollbackExact` | src/gjc/session-authority-journal.ts:145-160 | A rollback leaves a loadable document if and only if it does not change the detail of a foreign pending target |
| `JournalExactness.PublishExact` | src/gjc/session-authority-journal.ts:309-360 | An accepted publication, committing or not and whatever its mapping names, survives a load and a restart if and only if a commit names its operation under a fresh name with no other open reservation of the source, and any other one is a store its chat may take on, for a reservation of its own project |
| `JournalExactness.ReconcileExact` | src/gjc/session-authority-reconciliation.ts:13-52 | Reconciling a loadable document leaves a loadable one if and only if every reserved target is unfinished and carries a detail while pending |
| `JournalExactness.MoveExact` | src/gjc/session-authority-journal.ts:361-380 | An accepted move of any provisional operation, with any state and detail, survives a load and a restart if and only if an entry of another project stays a live target under its own label or is retired evidence under a label that is not the target's |
| `JournalExactness.TargetMoves` | src/gjc/session-authority-journal.ts:361-380 | For an unfinished target: a new detail is survived only by completing it as evidence of a retired lineage, its own detail only by leaving it unfinished |
| `JournalExactness.BeginReassignmentExact` | src/gjc/session-authority-journal.ts:66-108 | An accepted begin survives a load and a restart if and only if every stored entry of another project belongs to a lineage the new marker retains and is not the new target |
| `JournalExactness.StepExact` | src/gjc/session-authority-journal.ts:41-489 | For every command: an accepted step leaves an authority that loads, now and behind a restart, if and only if the command meets Safe |
| `JournalExactness.RunExact` | src/gjc/session-authority-journal.ts:41-498 | A run never passes through an unloadable state, now or behind a restart, if and only if all its accepted commands are safe |
| `JournalExactness.ReserveExact` | src/gjc/session-authority-journal.ts:273-307 | A reservation survives a load and a restart if and only if a foreign target has a detail |
| `JournalExamples.RollBackBreaks` | src/gjc/session-authority-journal.ts:145-152 | A concrete rollback after which the authority cannot be loaded |
| `JournalExamples.RestartBreaks` | src/gjc/session-authority-reconciliation.ts:42-52 | A concrete reservation after which a restart leaves the authority unloadable |
| `JournalExamples.StoreBreaks` | src/gjc/session-authority-journal.ts:41-63 | A concrete store that clashes with a reservation |
| `JournalExamples.BeginBreaks` | src/gjc/session-authority-journal.ts:406-420 | A concrete begin that reuses a retired name |
| `JournalExamples.CommitBreaks` | src/gjc/session-authority-journal.ts:334-356 | A concrete commit beside an open reservation of the source project, after which the authority cannot be loaded |
| `JournalExamples.MoveBreaks` | src/gjc/session-authority-journal.ts:361-380 | A concrete completion of a reassignment target that a restart makes unloadable |
| `JournalExamples.RelabelBreaks` | src/gjc/session-authority-journal.ts:361-380 | A concrete target marked uncertain under another detail, after which the authority cannot be loaded |
| `JournalExamples.SecondBeginForgets` | src/gjc/session-authority-journal.ts:87-111 | A concrete second begin after which an old operation can no longer be looked up |
| `JournalExamples.SecondBeginBreaks` | src/gjc/session-authority-journal.ts:87-108 | A concrete second begin that drops the lineage of a stored entry, after which the authority cannot be loaded |
| `JournalExamples.TargetReuseBreaks` | src/gjc/session-authority-journal.ts:97-108 | A concrete begin whose target names a spent reservation, after which a restart leaves the authority unloadable |
| `JournalEffects.TransitionReadBack` | src/gjc/session-authority-journal.ts:456-489 | A transition is read back under every name of its operation, with a result once complete, and every other identifier finds what it found |
| `JournalEffects.AcknowledgeReadBack` | src/gjc/session-authority-journal.ts:428-455 | An acknowledged successor is read back, and every other identifier finds what it found |
| `JournalEffects.AcknowledgeAgain` | src/gjc/session-authority-journal.ts:446-450 | Acknowledging the same successor again is accepted and changes nothing |
| `JournalEffects.BeginReadBack` | src/gjc/session-authority-journal.ts:402-427 | A begun operation is found pending under both its names and hides no other operation |
| `JournalEffects.BeginAgain` | src/gjc/session-authority-journal.ts:413-418 | Beginning the same operation again is accepted and changes nothing |
| `JournalEffects.StoreReadBack` | src/gjc/session-authority-journal.ts:41-65 | A stored mapping is read back; its operation and every one it carries are found under their ids, and no lookup finds anything else than before |
| `JournalEffects.StoreAddsOnly` | src/gjc/session-authority-journal.ts:41-63 | A store adds exactly the carried operations that were not there, verbatim, and for a name not there a complete prompt without detail or outcome |
| `JournalEffects.ReserveThenPublish` | src/gjc/session-authority-journal.ts:273-360 | What was reserved can be published under its own mapping: always as the target of a pending reassignment, otherwise if and only if no other project holds an entry of the chat |
| `JournalAcceptance.BeginAccepted` | src/gjc/session-authority-journal.ts:402-426 | A begin is accepted exactly as a repeat with the same ids and kind, which changes nothing, or anew where no move is pending and no operation of the active journal and no reservation shares a name |
| `JournalAcceptance.TransitionAccepted` | src/gjc/session-authority-journal.ts:456-487 | A transition is accepted exactly for an operation that is not taken back from complete, with an outcome exactly where it completes, and an uncertain one on its successor's evidence |
| `JournalAcceptance.AcknowledgeAccepted` | src/gjc/session-authority-journal.ts:428-450 | A successor is accepted exactly for an open create or branch under its own hash, once |
| `JournalAcceptance.BeginReassignmentAccepted` | src/gjc/session-authority-journal.ts:66-111 | A begin of a move is accepted exactly between two projects while nothing is under way; the marker names both and the target, and keeps what was retired unless it overwrites a pending one |
| `JournalAcceptance.RollbackAccepted` | src/gjc/session-authority-journal.ts:134-161 | A roll back is accepted exactly for the pending move of the chat's own project; a pending reservation of its target is left uncertain with the evidence noted |
| `JournalAcceptance.ReserveAccepted` | src/gjc/session-authority-journal.ts:273-308 | A reservation is accepted exactly where its chat may take it and its names are free but for itself, and is found pending with every field it was handed over with |
| `JournalAcceptance.ReservePins` | src/gjc/session-authority-journal.ts:283-299 | A reservation, accepted or not, pins a move of its chat to its project that names no target yet, and changes no other record |
| `JournalAcceptance.AttachAccepted` | src/gjc/session-authority-journal.ts:381-401 | Proof is attached exactly to a pending reservation and only whole, and is read back; nothing else of it changes |
| `JournalAcceptance.MoveAccepted` | src/gjc/session-authority-journal.ts:361-380 | A reservation moves exactly unless it is taken back from complete, keeps its detail unless given one, and nothing else changes |
| `JournalAcceptance.PublishAccepted` | src/gjc/session-authority-journal.ts:309-333 | A publication is accepted exactly for a pending reservation handed over as it was reserved, into the chat's own project or as the very target of its move |
| `JournalAcceptance.StoreAccepted` | src/gjc/session-authority-journal.ts:41-65 | A mapping is stored exactly for a new chat or one of its project that no reservation ties elsewhere, where its operations can be appended and its own is neither in conflict nor uncertain |
| `JournalEffects.PublishReadBack` | src/gjc/session-authority-journal.ts:309-360 | A publication is read back under every name of its operation: as what was found there before, or else complete, of its kind, with the detail it was reserved with, and with an outcome that binds its mapping field by field; the mapping is the chat's, the reservation is complete, nothing else is found differently, and publishing again is refused |
| `JournalEffects.CompleteReadBack` | src/gjc/session-authority-persistence.ts:234-245 | Completing an operation with its mapping is read back under its names as complete with the hash and the outcome given, beside the stored mapping |
| `JournalAcceptance.AppendAccepted` | src/gjc/session-operation-codec.ts:115-131 | Operations can be appended exactly when whatever shares a name with one of them, before or among them, has its very ids |
| `JournalAcceptance.RestartReadBack` | src/gjc/session-authority-reconciliation.ts:13-52 | A restart leaves every pending operation uncertain, with a note where it has no detail, rolls every pending move back, and leaves everything else as it is |
| `JournalRuns.LineageConserved` | src/gjc/session-authority-journal.ts:66-161 | Over any run in which no begin overwrites a pending reassignment with a retired lineage, every operation of a lineage stays in it, retired ones unchanged, completed ones complete; ConservesRunExact shows the exclusion exact |
| `JournalRuns.ConservesRunExact` | src/gjc/session-authority-journal.ts:66-161 | Each event of a safe run conserves every lineage if and only if none is such a begin |
| `JournalRuns.LookupSurvives` | src/gjc/session-authority-journal.ts:167-186 | Over any safe run an old identifier is found all along if and only if no begin over a pending reassignment drops it, and then it finds at the end the very operation it found before |
| `JournalRuns.LookupStepExact` | src/gjc/session-authority-journal.ts:66-186 | An accepted safe command forgets an old identifier if and only if it is a begin over a pending reassignment under whose journal the identifier is not found |
| `JournalRuns.CommitKeepsLookup` | src/gjc/session-authority-journal.ts:334-356 | A commit changes no lookup of an existing identifier |
| `JournalRuns.RollbackKeepsLookup` | src/gjc/session-authority-journal.ts:134-161 | A rollback changes no lookup |
| `JournalRuns.BeginReassignmentLineageExact` | src/gjc/session-authority-journal.ts:87-108 | Beginning a reassignment keeps the lineage exactly unless it overwrites a pending one that holds a retired lineage |
| `JournalRuns.ConservesExact` | src/gjc/session-authority-journal.ts:66-161 | Of all accepted safe commands exactly a begin over a pending reassignment with a retired lineage loses an operation |
| `Journal.SessionAuthorityJournal.Store` | src/gjc/session-authority-journal.ts:41-65 | Performs the step that StoreAccepted, StoreExact, StoreReadBack and StoreAddsOnly are about, and leaves no changed entry unmarked |
| `Journal.SessionAuthorityJournal.BeginProjectReassignment` | src/gjc/session-authority-journal.ts:66-113 | Performs the step that BeginReassignmentAccepted, BeginReassignmentExact and ConservesExact are about, and leaves no changed entry unmarked |
| `Journal.SessionAuthorityJournal.RollbackProjectReassignment` | src/gjc/session-authority-journal.ts:134-161 | Performs the step that RollbackAccepted, RollbackExact and RollbackKeepsLookup are about, and leaves no changed entry unmarked |
| `Journal.SessionAuthorityJournal.FindOperation` | src/gjc/session-authority-journal.ts:167-186 | Finds the operation that answers to the name in the whole lineage, as LookupSurvives speaks of it |
| `Journal.SessionAuthorityJournal.Reserve` | src/gjc/session-authority-journal.ts:273-308 | Performs the step that ReserveAccepted, ReservePins, ReserveExact and ReserveThenPublish are about, including the target it pins before a refusal |
| `Journal.SessionAuthorityJournal.Publish` | src/gjc/session-authority-journal.ts:309-360 | Performs the step that PublishAccepted, PublishExact and PublishReadBack are about, and leaves no changed entry unmarked |
| `Journal.SessionAuthorityJournal.TransitionProvisional` | src/gjc/session-authority-journal.ts:361-380 | Performs the step that MoveAccepted and MoveExact are about, and leaves no changed entry unmarked |
| `Journal.SessionAuthorityJournal.AttachProvisional` | src/gjc/session-authority-journal.ts:381-401 | Performs the step that AttachAccepted and AttachKeeps are about: proof only for a pending operation, never half of it |
| `Journal.SessionAuthorityJournal.BeginOperation` | src/gjc/session-authority-journal.ts:402-427 | Performs the step that BeginAccepted, BeginExact, BeginReadBack and BeginAgain are about, and leaves no changed entry unmarked |
| `Journal.SessionAuthorityJournal.AcknowledgeSuccessor` | src/gjc/session-authority-journal.ts:428-455 | Performs the step that AcknowledgeAccepted and AcknowledgeReadBack are about, and leaves no changed entry unmarked |
| `Journal.SessionAuthorityJournal.TransitionOperation` | src/gjc/session-authority-journal.ts:456-489 | Performs the step that TransitionAccepted, TransitionExact and TransitionReadBack are about, and leaves no changed entry unmarked |
| `Journal.SessionAuthorityJournal.Reconcile` | src/gjc/session-authority-journal.ts:490-498 | Performs the restart that RestartReadBack, ReconcileKeeps and ReconcileExact are about, and marks what it changes |
| `Journal.SessionAuthorityJournal.ReplaceReferences` | src/gjc/session-authority-journal.ts:523-536 | Succeeds exactly on valid lists, then holds exactly their entries and asks for a rewrite; otherwise changes nothing |
| `Journal.SessionAuthorityJournal.TakeDirty` | src/gjc/session-authority-journal.ts:556-571 | What is handed out covers every marked entry with its present value, which is what MarkedDeltaRebuilds needs |
| `Journal.SessionAuthorityJournal.SetRecord` | src/gjc/session-authority-journal.ts:583-589 | A record that differs from the clean state afterwards is marked |
| `Journal.SessionAuthorityJournal.SetProvisional` | src/gjc/session-authority-journal.ts:590-596 | A provisional operation that differs from the clean state afterwards is marked |
| `Journal.JournalFor` | src/gjc/session-authority-journal.ts:598-609 | The collected journal is the active one followed by every retired one |
| `Journal.RestartRecords` | src/gjc/session-authority-reconciliation.ts:13-41 | Every record gets its restarted form, and an unmarked one is unchanged |
| `DocumentLists.ListsValidIffRelational` | src/gjc/session-authority-record-validation.ts:125-189 | Validity of the listed entries is validity of the document they make up |
| `DocumentLists.MarkedDeltaRebuilds` | src/gjc/session-authority-journal.ts:556-596 | Writing only the marked entries over the clean document rebuilds the current one |
| `LogText.LinePrefix` | src/gjc/session-authority-persistence.ts:824-839 | Any first part of a line write leaves the whole lines as they were, or adds exactly that line |
| `Wal.ReplayDeltas` | src/gjc/session-authority-persistence.ts:863-895 | The replay loop stops at the first unusable or unchained line and otherwise overlays every delta, as ReplayLinesExact spells out |
| `Wal.ReplayLinesExact` | src/gjc/session-authority-persistence.ts:863-891 | Replay uses the deltas exactly when each is well-shaped and, in a chained log, they are one unbroken hash chain behind the header; every entry is then as it was last written and the rest as the base has it |
| `Wal.BoundExact` | src/gjc/session-authority-persistence.ts:846-856 | A header binds its log to the very base it was written for: none of another size, time, generation or content |
| `Wal.OwnLogOnly` | src/gjc/session-authority-persistence.ts:846-856 | Beside any other base, or none, a log is ignored, not verified, not adopted and found stale, whatever was appended to it |
| `Wal.AppendAtomic` | src/gjc/session-authority-persistence.ts:970-996 | For every first part of an appended delta, replay gives the state before it, and the state after it only for the whole line |
| `Wal.AppendExact` | src/gjc/session-authority-persistence.ts:816-892 | A finished append replays if and only if the step it records is well-shaped and valid; otherwise the log is unusable |
| `Wal.CreateAtomic` | src/gjc/session-authority-persistence.ts:970-996 | The same for every first part of header and first delta together |
| `Wal.CreateExact` | src/gjc/session-authority-persistence.ts:970-996 | A finished new log replays if and only if its first step is valid, with the identity its writer remembers |
| `Wal.VerifyLines` | src/gjc/session-authority-persistence.ts:457-476 | Re-reading every link from disk gives the head of an unbroken chain, or nothing |
| `Wal.VerifyOnDisk` | src/gjc/session-authority-persistence.ts:437-477 | The live check answers the head exactly for a finished, bound, chained, unbroken log |
| `Wal.HeadDeterminesLog` | src/gjc/session-authority-persistence.ts:53-57 | Two logs that verify to the same head have the same header text and the same deltas |
| `Wal.NoPrefixSharesHead` | src/gjc/session-authority-persistence.ts:863-886 | No log shares its head with a log it starts with |
| `Wal.VerifiedIffFinished` | src/gjc/session-authority-persistence.ts:423-477 | Of a log that replays, the live check accepts exactly the finished ones, at the head replay reached |
| `Wal.RememberedHeadFixesDocument` | src/gjc/session-authority-persistence.ts:403-434 | If the live check still finds the remembered head, replay still gives the remembered document |
| `Wal.AdoptAgreesIffFinished` | src/gjc/session-authority-persistence.ts:1042-1102 | Adopting an existing log remembers what replay would find exactly when its last line is finished |
| `Wal.AdoptedExact` | src/gjc/session-authority-persistence.ts:1042-1102 | Of the finished chained logs that replay, exactly those with a delta are adopted, under the identity replay finds |
| `Wal.BindingForBase` | src/gjc/session-authority-persistence.ts:1291-1359 | The loop that stops at the first unusable line gives the verdict VerdictAgreesWithReplay is about |
| `Wal.VerdictAgreesWithReplay` | src/gjc/session-authority-persistence.ts:1291-1359 | Stale means replay changes nothing; current means replay applies a delta or refuses; malformed means it refuses or the file has no finished line; a log that replays a delta is current |
| `GenerationKey.FindGenerationOffset` | src/gjc/session-authority-persistence.ts:1373-1411 | The scan finds the first top-level generation key with the value and the span of its spelling, never one inside a string or a nested value, and misses none |
| `GenerationKey.FoundIsReadBack` | src/gjc/session-authority-persistence.ts:1428-1444 | Reading the remembered span at the remembered offset gives the generation back |
| `GenerationKey.WindowDecides` | src/gjc/session-authority-persistence.ts:1428-1444 | The in-place read depends on the window only, whatever else of the document differs |
| `Normalize.NormalizedResult` | src/gjc/session-authority-persistence.ts:1708-1743 | Looking at the first two gate events is enough to decide the compact form of a result |
| `Normalize.NormalizedExact` | src/gjc/session-authority-persistence.ts:1673-1743 | The compact document has every entry with every field as it was, but for the events of outcomes, of which at most the binding of an answered gate is left |
| `Normalize.GateEvidenceKept` | src/gjc/session-authority-persistence.ts:1708-1743 | Only events are dropped, and never the evidence of an answered gate: a bound gate stays, a single gate event leaves its binding, several stay |
| `Normalize.NormalizedIdempotent` | src/gjc/session-authority-persistence.ts:1673-1743 | Normalising a normalised document changes nothing |
| `Normalize.NormalizedLoadable` | src/gjc/session-authority-persistence.ts:1673-1743 | The normalised document is loadable exactly when the original is |
| `Normalize.NormalizedLookup` | src/gjc/session-authority-persistence.ts:1673-1743 | Every identifier finds its operation, in compact form, as before |
| `CrashSafety.RenameLands` | src/gjc/session-authority-persistence.ts:557-566 | A crash around a base rename finds the old files, or the new base whatever log is beside it |
| `CrashSafety.TailRecovers` | src/gjc/session-authority-persistence.ts:970-997 | Whatever part of an append survives a crash, recovery gives the state before or after it |
| `CrashSafety.NewRecovers` | src/gjc/session-authority-persistence.ts:926-1008 | The same while a log is being created, with stale logs around |
| `CrashSafety.UnlinkedDurable` | src/gjc/session-authority-persistence.ts:850-856 | Deleting an ignored log without a sync changes no recovery |
| `FileAuthority.FileSessionAuthority.Load` | src/gjc/session-authority-persistence.ts:478-518 | A load succeeds only on a valid base and leaves exactly its document in memory, clean |
| `FileAuthority.FileSessionAuthority.ReplayLog` | src/gjc/session-authority-persistence.ts:816-908 | Replay leaves memory and the remembered identity exactly as the log over the base gives them, deletes only an ignored log, and refuses an unusable one |
| `FileAuthority.FileSessionAuthority.Persist` | src/gjc/session-authority-persistence.ts:527-631 | A rewrite that returns leaves only the compact document to be found, refuses an invalid one untouched, and every crash during it finds old files or the new document |
| `FileAuthority.FileSessionAuthority.AppendBehind` | src/gjc/session-authority-persistence.ts:967-1023 | An append in place is complete, undone, or followed by memory; every crash outcome is the log with a first part of the line |
| `FileAuthority.FileSessionAuthority.AppendNew` | src/gjc/session-authority-persistence.ts:926-1023 | Creating a log is complete only with its name synced, and a failure is undone durably or followed by memory |
| `FileAuthority.FileSessionAuthority.UndoBehind` | src/gjc/session-authority-persistence.ts:1145-1168 | A failed append is truncated away durably, or memory reloads what is visible |
| `FileAuthority.FileSessionAuthority.UndoNew` | src/gjc/session-authority-persistence.ts:1117-1143 | A failed new log is removed durably, or memory reloads what is visible, or, where that fails too, no log is remembered and memory is kept unless one is there |
| `FileAuthority.FileSessionAuthority.AppendWal` | src/gjc/session-authority-persistence.ts:909-1023 | Logs and bases of an older layout are rewritten; otherwise exactly the delta is appended, and it can be recovered exactly when it is valid; unless a step of the disk fails or a rewrite finds the step invalid, the call returns |
| `FileAuthority.FileSessionAuthority.MatchesDisk` | src/gjc/session-authority-persistence.ts:369-434 | Passes exactly when the remembered identities are those of the files, whatever memory holds |
| `FileAuthority.FileSessionAuthority.RecognisedIffInStep` | src/gjc/session-authority-persistence.ts:369-434 | Of files that memory follows, the live check passes exactly those it is in step with, but never a base whose generation it cannot find |
| `FileAuthority.FileSessionAuthority.VerifyAgainstDisk` | src/gjc/session-authority-persistence.ts:369-394 | From any state a call can leave: reloads exactly when the files are not recognised, then memory is what they recover to; a torn log is rewritten away, an ignored one deleted without a sync, anything else stays; recognised files change nothing; a settled authority is not touched; it fails only with a step of the disk or where the files cannot be reloaded |
| `FileAuthority.FileSessionAuthority.TakeDelta` | src/gjc/session-authority-persistence.ts:278-325 | The delta taken rebuilds the current document over the durable one, wherever each entry is under its own key, and can be replayed exactly when that document is valid |
| `FileAuthority.FileSessionAuthority.Save` | src/gjc/session-authority-persistence.ts:290-337 | A save that returns is durable and lost by no crash, and it returns unless a step of the disk fails or the document is invalid; the base is rewritten only where compaction is forced, there is none yet, its layout is older or the log has grown too large |
| `FileAuthority.FileSessionAuthority.CompactOversized` | src/gjc/session-authority-persistence.ts:323-337 | Behind a save the log is no longer oversized; rewriting it loses nothing; when the rewrite fails durability is uncertain but memory follows the disk |
| `FileAuthority.FileSessionAuthority.Commit` | src/gjc/session-authority-persistence.ts:290-339 | For every command: returned means durable, and readable again if and only if the step was valid; refused means rejected; unless a step of the disk fails an accepted valid step returns; refused or failed means memory and disk as before; every crash in between recovers to before, after, or the compact form of after |
| `FileAuthority.FileSessionAuthority.Mutate` | src/gjc/session-authority-persistence.ts:278-342 | For every command and replacement, starting from memory that is trustworthy: a call returns only what the journal accepted, and unless a step of the disk fails every accepted step that leaves a loadable document returns; every exit but a failed reload leaves memory equal to recovery of the visible files, or files that cannot be recovered where the accepted step was invalid; a returned call on remembered files is durable exactly as far as both names were, and behind a reload as durable as what the reload left; behind a failed reload the next call reloads unless it recognises the files, and memory is then ahead by this very mutation or by a marked restart |
| `FileAuthority.FileSessionAuthority.Restore` | src/gjc/session-authority-persistence.ts:362-368 | The rollback snapshot is in memory again, clean |
| `FileAuthority.FileSessionAuthority.CompactForRelocation` | src/gjc/session-authority-persistence.ts:350-361 | Unless a step of the disk fails it returns, and the base file alone then recovers to the complete state |
| `FileAuthority.FileSessionAuthority.CompactFromReferences` | src/gjc/session-authority-persistence.ts:653-793 | The boot compaction of a large authority does what a rewrite does for a valid document, and leaves an invalid one untouched or overwrites the files with what cannot be loaded |
| `FileAuthority.FileSessionAuthority.Boot` | src/gjc/session-authority-persistence.ts:119-185 | After a boot nothing is pending, memory is the recovered document or its reconciled compact form, and a boot of such files changes nothing; it comes up wherever the files recover to a document whose reconciled form is loadable, unless a step of the disk fails; where reconciling makes the document invalid the boot fails, and a large authority can be overwritten by it |
| `DurabilityLimits.UnsyncedDropExact` | src/gjc/session-authority-persistence.ts:850-856 | After a rename whose sync failed, deleting the old log unsynced is safe if and only if the log had nothing to add to the old base or the new base holds no more |
| `DurabilityLimits.UnsyncedDropLoses` | src/gjc/session-authority-persistence.ts:564-590 | A concrete acknowledged record lost that way |
| `DurabilityLimits.UnsyncedNameExact` | src/gjc/session-authority-persistence.ts:998-1008 | An append behind a log whose name was never synced is durable if and only if the name is in every crash outcome |
| `DurabilityLimits.UnsyncedNameLoses` | src/gjc/session-authority-persistence.ts:998-1008 | Two concrete acknowledged appends lost that way |
| `AuthorityDisk.AppendDurableExact` | src/gjc/session-authority-persistence.ts:970-996 | A synced append is durable if and only if both names led to the visible files in every crash outcome before it |
| `DurabilityLimits.AheadExact` | src/gjc/session-authority-persistence.ts:290-322 | With memory ahead of a base without a log, the files behind the next append recover to what memory holds if and only if the delta can be replayed over the base and rewrites every entry memory was ahead in |
| `DurabilityLimits.ForgottenLogLoses` | src/gjc/session-authority-persistence.ts:1107-1143 | A concrete mutation left in memory by a failed new log, a failed directory sync and a failed reload: the live check passes, and the next acknowledged append recovers without it |
| `DurabilityLimits.UncheckedCompactionExact` | src/gjc/session-authority-persistence.ts:653-674 | The document the boot compaction writes is loadable if and only if every reserved target survives the restart, which it does not check |
| `DurabilityLimits.BootKeepsOperations` | src/gjc/session-authority-persistence.ts:1182-1195 | Boot recovery keeps every operation under its names, a settled one as it was in compact form, and invents none |
| `DurabilityLimits.CrashAndBootKeepOperations` | src/gjc/session-authority-persistence.ts:278-342 | Whatever a crash of a safe call lands on, the boot behind it keeps every operation that could be looked up before and that the call itself does not drop, complete if it was; CommandCrashBoot takes the landing from the authority |
| `CrashAndBoot.CallWatched` | src/gjc/session-authority-persistence.ts:278-342 | Whatever a crash could leave from the moment a settled authority is called recovers to the state before, the state after or its compact form, and behind a call that returned, was refused or undone, to what memory holds |
| `CrashAndBoot.ComeUp` | src/gjc/session-authority-persistence.ts:119-185 | A boot of any files holds what they recover to or its reconciled compact form, and comes up, unless a step of its disk fails, where both are loadable; a crash during it leaves files that recover to one of the two |
| `CrashAndBoot.ComeUpAgain` | src/gjc/session-authority-persistence.ts:119-185 | A boot that is cut short at any moment and the boot behind it make of the files what one boot can |
| `CrashAndBoot.CallCrashBoot` | src/gjc/session-authority-persistence.ts:119-342 | A call on a settled authority, a crash at any moment of it and the boot: unless a step of its disk fails the boot comes up settled again, made of the state before or after the call, and of what memory held if the call had returned |
| `CrashAndBoot.CommandCrashBoot` | src/gjc/session-authority-persistence.ts:119-342 | The same for a safe command: every operation is found again that the command itself does not drop, complete if it was; and the boot comes up unless a step of its disk fails |
| `Coordinator.OneAtATimeInOrder` | src/gjc/public-sdk-coordinator.ts:18-77 | In every interleaving at most one outermost turn of a key runs, in arrival order, and the map knows a key exactly while a turn is outstanding |
| `Coordinator.NestedNeverWaits` | src/gjc/public-sdk-coordinator.ts:28-39 | A call from inside a running turn of its own session and owner re-enters at once |
| `Coordinator.ReentersIffHolding` | src/gjc/public-sdk-coordinator.ts:28-39 | A call re-enters exactly when a turn of its session runs under the owner it carries |
| `Coordinator.CallsExact` | src/gjc/public-sdk-coordinator.ts:18-56 | A call is refused inside another owner's turn, re-enters for the holder, and otherwise queues one turn of its own and touches no other |
| `Coordinator.TurnsExact` | src/gjc/public-sdk-coordinator.ts:50-77 | A waiting turn can be granted exactly when every earlier one of its key is released; granting and releasing move that turn alone |
| `Coordinator.NeverStuck` | src/gjc/public-sdk-coordinator.ts:40-77 | While turns of a key are outstanding, one runs or can be granted |
| `Coordinator.RunKeeps` | src/gjc/public-sdk-coordinator.ts:18-77 | The queue invariant holds along every interleaving |
| `Coordinator.SessionMutationCoordinators.WithCoordinator` | src/gjc/public-sdk-coordinator.ts:19-56 | What a call does up to its await is the step that OneAtATimeInOrder and ReentersIffHolding are about |
| `Coordinator.SessionMutationCoordinators.TakeTurn` | src/gjc/public-sdk-coordinator.ts:50-54 | Waking behind the predecessor is the grant of OneAtATimeInOrder and NeverStuck |
| `Coordinator.SessionMutationCoordinators.ReleaseTurn` | src/gjc/public-sdk-coordinator.ts:66-77 | Releasing hands the key on as NeverStuck needs, and drops the entry exactly behind the last turn |
| `Bootstrap.FinishedAccepted` | src/configure/bootstrap-state.ts:207-221 | The checkpoint behind a phase is accepted exactly when the facts neither run ahead nor take back |
| `Bootstrap.FinishedReadBack` | src/configure/bootstrap-state.ts:207-221 | A finished phase leaves its own mark, unless the adapter denies it, everything the adapter reported, everything else as before, and no failure |
| `Bootstrap.ValidExact` | src/configure/bootstrap-state.ts:139-168 | A stored checkpoint is accepted exactly when its marks are those of the phases before its own, its texts say something, and a failure is of this very phase with evidence |
| `Bootstrap.FinishedReady` | src/configure/orchestrator.ts:82-86 | Facts that confirm the phase leave a checkpoint ready for the next one |
| `Bootstrap.StartedAccepted` | src/configure/bootstrap-state.ts:139-168 | A started phase is accepted exactly when all earlier phases and no later one are marked |
| `Bootstrap.RerunAccepted` | src/configure/orchestrator.ts:104-113 | The rerun checkpoint of a complete installation is always accepted, with the marks of the phases before its own and all of the texts |
| `Bootstrap.FailureAccepted` | src/configure/bootstrap-state.ts:156-158 | A failure record is accepted exactly when its evidence is not blank, and changes nothing else |
| `Bootstrap.ResetAccepted` | src/configure/bootstrap-state.ts:223-250 | A reset is granted exactly with evidence and to a phase that can fail; it is accepted again, unmarks that phase and all behind it, keeps the pending record, and keeps owner, token and connections only as far as their phases stay done |
| `Bootstrap.CompleteAccepted` | src/configure/bootstrap-state.ts:139-168 | The final checkpoint is accepted exactly when the first three phases are marked |
| `Orchestrator.ResetAccountedExact` | src/configure/bootstrap-state.ts:223-250 | A reset keeps every phase accounted for exactly when it does not move forward, which the function itself does not check |
| `Orchestrator.RunPhase` | src/configure/orchestrator.ts:80-95 | A phase calls its very adapter, and ends with its success recorded and that adapter succeeded, or with a failure recorded; it completes unless a step fails, stops or reports failure, and one failure alone is always recorded |
| `Orchestrator.RunPhaseAwareDeployment` | src/configure/orchestrator.ts:32-100 | Stopped anywhere, the stored checkpoint is acceptable and accounts for the adapter of every phase; a run calls, in order, exactly the adapters written out, with the controller once more where a reset or recovery asks for it; complete means all six pairs of phase and adapter have succeeded; and it completes unless a step fails, stops or reports failure |
| `Orchestrator.RunReset` | src/configure/deployment-phases.ts:146-185 | The reset a configure run asks for is of the phase its proof names, or else of the one that failed, and never moves forward; it is refused only for blank evidence or a proof that does not fit |
| `CloseRouter.AtMostOneClose` | src/gjc/session-close-router.ts:26-109 | Over any run of retries, restarts and other safe commands, each started close stays on record all along if and only if no begin over a pending reassignment and no restart drops one; and then no chat and ingress is physically closed twice. Where one is dropped it can be: DroppedClosesAgain, SecondBeginClosesTwice, LostBeginClosesTwice |
| `CloseRouter.RecordedExact` | src/gjc/session-authority-journal.ts:87-108 | An accepted safe command leaves the started closes on record if and only if it is not a begin over a pending reassignment that drops one of them |
| `CloseLimits.DroppedClosesAgain` | src/gjc/session-authority-journal.ts:87-161 | Whenever an accepted begin drops a started close, rolling it back and asking again under the same ingress starts the close a second time, exactly unless a reservation uses its name |
| `CloseLimits.SecondBeginClosesTwice` | src/gjc/session-authority-journal.ts:87-161 | A concrete chat, closed before it moved, that is closed again behind a second begin and its roll back |
| `CloseLimits.RetiredStartsNoClose` | src/gjc/session-mapping-memory-store.ts:191-224 | A retired chat starts no close: as long as its key is spared, the begin of one is refused, scoped or not |
| `CloseLimits.RevivedClosesExact` | src/gjc/session-mapping-memory-store.ts:364-390 | A retired chat that a stored mapping has brought back can be closed under an ingress exactly when none of the operations stored then, no lineage retired before and no reservation answers to it, whatever its emptied journal once held |
| `CloseDurability.AtMostOneCloseDurably` | src/gjc/session-close-router.ts:26-109 | Over any run whose crashes, at any moment of any call, hit a settled authority, and in which no begin over a pending reassignment drops a started close, no close is started twice and none is complete that did not report |
| `CloseDurability.CrashStaysOnRecord` | src/gjc/session-authority-persistence.ts:278-342 | The boot of any crash outcome of a settled authority keeps every started close on record and completes none that did not report, where the call under way drops none |
| `CrashAndBoot.CloseCrashBoot` | src/gjc/session-authority-persistence.ts:119-342 | Any files a crash can leave during such a call on a settled authority, once booted, are one of the crash outcomes CrashStaysOnRecord speaks of |
| `CloseDurability.LostBeginClosesTwice` | src/gjc/session-close-router.ts:31-77 | A concrete close that is started twice when a crash loses its acknowledged begin |
| `CloseReports.CompleteMeansReported` | src/gjc/session-close-router.ts:77-109 | Over any run, whatever it drops, a close operation is complete only if its physical close reported closed |
| `CloseReports.FromTheStart` | src/gjc/session-close-router.ts:26-127 | For everything reachable from an empty authority: a close found complete was reported, and unless a started close was dropped none was started twice |
| `CloseRouter.BeginIsFresh` | src/gjc/session-close-router.ts:31-50 | A close with no prior operation on record can be begun, and is on record then |
| `CloseEffects.RouteExact` | src/gjc/session-close-router.ts:26-77 | A request starts a physical close if and only if nothing is found under either identifier, its close can be begun, the session owns its pane and the preflight passes; where only one of the last two is missing the operation is found in conflict with the hash and nothing is started; otherwise nothing changes |
| `CloseEffects.ReportExact` | src/gjc/session-close-router.ts:77-95 | A reported close is kept for publication; one that says otherwise is found in conflict, one that threw uncertain, unless it is complete or gone |
| `CloseEffects.PublishExact` | src/gjc/session-close-router.ts:96-127 | A committed publication leaves the close found complete under its hash, with an outcome that says closed and binds the stored mapping; any other leaves it uncertain if it is open |
| `CloseEffects.CloseResultReadBack` | src/gjc/session-mapping-memory-store.ts:372-380 | A close's outcome binds its mapping under the close's own name, says closed, and names the operation the mapping stood for |
| `CloseRouter.OthersCompleteNone` | src/gjc/session-authority-journal.ts:41-489 | Commands that do not address a close complete none |
| `CloseRouter.SessionCloses.RouteClose` | src/gjc/session-close-router.ts:26-77 | Performs the request that RouteExact and AtMostOneClose are about |
| `CloseRouter.SessionCloses.CloseReturned` | src/gjc/session-close-router.ts:77-109 | Records a reported close, and settles any other outcome as ReportExact says and CompleteMeansReported needs |
| `CloseRouter.SessionCloses.ClosePublished` | src/gjc/session-close-router.ts:96-126 | Completes a reported close and stores its mapping as one mutation, or leaves the close uncertain where the publication throws, as PublishExact says |
| `DeploymentPair.PairedIffAccepted` | src/configure/deployment-transaction.ts:103-164 | The pairing every step keeps is exactly what the next run validates |
| `DeploymentPair.DeploymentFiles.ValidatePair` | src/configure/deployment-transaction.ts:103-164 | Validation never meets an unpaired or mismatched record, leaves both files or none, keeps what can be resumed, and succeeds unless a step fails |
| `DeploymentPair.DeploymentFiles.Prepare` | src/configure/configure-command.ts:74-76 | The snapshot of what is live is captured before the pending record is written, and only when there is none; it succeeds unless a step fails |
| `DeploymentPair.DeploymentFiles.Complete` | src/configure/deployment-transaction.ts:171-178 | Completing removes both files, the pending record first, and only for the snapshot's own transaction; it succeeds unless a step fails |
| `DeploymentPair.DeploymentFiles.RollBack` | src/configure/deployment-transaction.ts:179-186 | Rolling back keeps the files paired at every step; once it is done the captured configuration is live and neither file is left, and it is done unless a step fails |
| `DeploymentPair.DeploymentFiles.RunConfigure` | src/configure/configure-command.ts:54-108 | Crashed or failed anywhere, a run leaves the files paired; a successful one leaves neither and the target configured; it succeeds unless a step fails, and where one did alone the configuration is the one before or the target |
| `SnapshotCoverage.ReadSnapshot` | src/configure/durable-deployment-snapshot.ts:93-247 | Reading a recovery snapshot back gives exactly the recovery it carries: what was written of acceptable files covering the deployment is read as it was, content, mode and status included, and nothing else is read |
| `SnapshotCoverage.ReadEntries` | src/configure/durable-deployment-snapshot.ts:178-235 | The entry loop reads exactly what is written of files that cover the deployment, each once and nothing else |
| `SnapshotCoverage.ReadEntry` | src/configure/durable-deployment-snapshot.ts:184-233 | An entry passes the checks of its own fields exactly when it is what is written of a missing or acceptable regular file, and is read as that file |
| `SnapshotCoverage.CoveredOnce` | src/configure/durable-deployment-snapshot.ts:37-47 | Where two of the deployment paths coincide no snapshot covers them, so what is captured cannot be read back |
| `SnapshotCoverage.MarkComplete` | src/configure/durable-deployment-snapshot.ts:99-108 | Marking complete keeps the recovery and sets its status, for the transaction that wrote it only |
| `Base64.CanonicalExact` | src/configure/durable-deployment-snapshot.ts:224-231 | The two checks of base64 text accept exactly the texts that some bytes are encoded as |
| `Base64.EncodedBack` | src/configure/durable-deployment-snapshot.ts:128-231 | Encoded content passes the shape check and decodes to itself |
| `ScopeKey.CanonicalKeyInjective` | src/gjc/session-authority.ts:7-12 | Two scopes share a storage key only if they are the same |
| `ScopedStore.CommandOnlyAt` | src/gjc/session-authority-journal.ts:41-489 | A command changes entries of the chat it addresses only, when its mapping names that chat |
| `ScopedStore.ScopeIsolation` | src/gjc/session-mapping-memory-store.ts:96-105 | A scoped call, retirement included, changes only entries under its own key |
| `ScopedEffects.ForScopeUndone` | src/gjc/session-mapping-memory-store.ts:605-668 | The command a scoped call performs is the caller's own with the scope's key in the place of its chat: written back it is that very command, every part of it names the key alone, and its mapping carries that scope's metadata and nothing else |
| `ScopedEffects.ScopedPerforms` | src/gjc/session-mapping-memory-store.ts:96-105 | A scoped call is refused exactly for an unscoped, foreign or retired key or another's mapping, and otherwise performs the caller's own command under the key |
| `ScopedEffects.ScopedTransitionReadBack` | src/gjc/session-mapping-memory-store.ts:347-363 | A scope that moves an operation reads it back in the state, with the detail and the very outcome it gave, under its own chat |
| `ScopedEffects.OwnResultSeen` | src/gjc/session-mapping-memory-store.ts:642-668 | An outcome that speaks of its chat by the caller's name is read back exactly as it was written |
| `ScopedEffects.ScopedStoreReadBack` | src/gjc/session-mapping-memory-store.ts:96-105 | A scope that stores a mapping reads a live record scoped for it that holds what it gave |
| `ScopedStore.ReadIsolation` | src/gjc/session-mapping-memory-store.ts:79-93 | What a scope reads is not changed by any call of another scope; the administrator's reads of unscoped chats are not either, unless the chat bears the other scope's key |
| `ScopedStore.ReadFinds` | src/gjc/session-mapping-memory-store.ts:79-93 | A scope's own live record is read whoever is the administrator; without one the administrator reads the live chat of that name; an unscoped read finds every live chat |
| `ScopedStore.WhoReads` | src/gjc/session-mapping-memory-store.ts:79-93 | A scoped read, as SessionMappingStore.ReadScoped performs it, hands out the live record scoped for it, or to the administrator alone the live chat of that name; two scopes read the same record only if one is the administrator asking by name, and a record without a scope is read by the administrator only |
| `ScopedStore.SessionMappingStore.SetLegacyAdmin` | src/gjc/session-mapping-memory-store.ts:57-65 | A blank administrator is none; whoever is not the administrator reads only records scoped for him, and nobody's reads change but the former and the new administrator's |
| `ScopedStore.SessionMappingStore.ReadOperation` | src/gjc/session-mapping-memory-store.ts:250-257 | A scoped lookup hands out the operation found under the scope's key, with the key written back to the chat, and nothing of a foreign or retired record |
| `ScopedStore.RetiredForGood` | src/gjc/session-mapping-memory-store.ts:191-224 | Through any calls and restarts a retired key stays exactly so if and only if no accepted unscoped completion or publication of another chat stores a mapping that names it |
| `ScopedStore.RetiredStaysRefused` | src/gjc/session-mapping-memory-store.ts:191-224 | From its retirement on, as long as its key is spared, every call of the scope is refused unchanged, and its record is handed to nobody: to no scope, no administrator and no unscoped caller |
| `ScopedStore.LegacyFrozenExact` | src/gjc/session-mapping-memory-store.ts:364-390 | An accepted unscoped call leaves a retired record as it is if and only if it writes another chat's record |
| `ScopedStore.CompletionRevivalExact` | src/gjc/session-mapping-memory-store.ts:364-390 | An unscoped completion ends another chat's retirement exactly when its mapping names that chat and brings metadata of its own |
| `ScopedStore.PublicationRevivalExact` | src/gjc/session-mapping-memory-store.ts:452-463 | So does an unscoped publication, exactly unless it commits a reassignment of its own chat |
| `ScopedStore.CompletionRevives` | src/gjc/session-mapping-memory-store.ts:364-390 | A concrete completion that does so |
| `ScopedStore.PublicationRevives` | src/gjc/session-mapping-memory-store.ts:452-463 | A concrete publication that does so |
| `ScopedStore.RetireKeepsLoadable` | src/gjc/session-mapping-memory-store.ts:191-224 | Retiring keeps the authority loadable, so its replacement is never refused |
| `ScopedStore.RetireReadBack` | src/gjc/session-mapping-memory-store.ts:191-224 | Retiring empties the journal and notes its ids, ends a pending move, drops the reservations of the key, and keeps everything else of the record and of the authority |
| `ScopedStore.RetireAccepted` | src/gjc/session-mapping-memory-store.ts:191-197 | It is accepted exactly for a live record scoped for the caller |
| `ScopedStore.SessionMappingStore.Scoped` | src/gjc/session-mapping-memory-store.ts:96-105 | Refuses a foreign, unscoped or retired key and otherwise mutates as ScopedPerforms says, under the scope's key only |
| `ScopedStore.SessionMappingStore.RetireScoped` | src/gjc/session-mapping-memory-store.ts:191-224 | Replaces the whole state by the retired one of RetireReadBack, which is never refused |
| `Migration.ReconcileHistory` | src/gjc/session-authority-migration.ts:1453-1474 | A merge keeps every operation of both, the preferred ones first and as they are, as the very same or under its new id, gives no two different ones one new id, holds nothing else, and keeps ids distinct; it is refused only for differing moves, an operation that is not the migration's own, or a new id already taken |
| `Migration.MigrationOwnedExact` | src/gjc/session-authority-migration.ts:1475-1484 | An operation may be merged exactly when it is a complete prompt without outcome or successor under the plain historical id or one with sixteen hexadecimal digits |
| `Migration.RenameReadBack` | src/gjc/session-authority-migration.ts:1485-1488 | A new id changes the two names of an operation and nothing else, and the operation may be merged again |
| `Migration.NormalizeMappings` | src/gjc/session-authority-migration.ts:1304-1443 | Every source mapping has exactly one item, outputs and live items correspond one to one, every name resolves to one destination, every operation is in its output as itself or repeatedly renamed, and nothing else is; of the entries of one destination the newest is put out; it fails only for an entry of another principal, a name that leads to two destinations, or two entries of one destination that diverge |
| `Migration.OutputsMatchItems` | src/gjc/session-authority-migration.ts:2478-2485 | Outputs are as many as migrated and skipped items, the three counts add up, and output chats are distinct |
| `Migration.CountsAddUp` | src/gjc/session-authority-migration.ts:2478-2485 | Migrated, skipped and quarantined items make up all items |
| `Migration.RegisteredResolves` | src/gjc/session-authority-migration.ts:1576-1581 | Where no alias is taken by another destination, registering an entry makes all three of its names lead to its destination and leaves every earlier entry's names leading to theirs |
| `Migration.NormalizeProvisional` | src/gjc/session-authority-migration.ts:1490-1557 | Each provisional operation has one item; it is put out rewritten, bound to its mapping in chat, project, session and result, if and only if it can be, and is quarantined otherwise |
| `Migration.RewritableExact` | src/gjc/session-authority-migration.ts:1490-1557 | Which provisional operations can be bound to their mapping, field by field |
| `Terminal.InterferesIffNotInert` | src/gjc/sdk-v3-terminal.ts:136-152 | An event can be inserted anywhere without changing any judgement exactly when it reports neither start, end nor failure of this turn and fails no message of it |
| `Terminal.SettledStays` | src/gjc/sdk-v3-terminal.ts:136-152 | Later frames never take a judgement back to running, nor a failure back at all |
| `Terminal.NonInterference` | src/gjc/sdk-v3-terminal.ts:112-152 | Frames before acceptance, and frames of other turns anywhere, change neither the judgement nor the pending action |
| `Terminal.OtherTurnInert` | src/gjc/sdk-v3-terminal.ts:296-312 | An event that names another turn, in its own fields and in its nested correlation, says nothing about this one |
| `TerminalEvents.UnwrapsTo` | src/gjc/sdk-v3-terminal.ts:253-292 | In whatever way the stream carries an event, bare, in an envelope, inside one that names its type, as a session event of either form or under a frame of its own type, it is read as that event |
| `TerminalEvents.MetadataMerged` | src/gjc/sdk-v3-terminal.ts:286-292 | Of an event inside an envelope the type is the envelope's name for it, fields both have are its own, and the envelope's other fields come with it |
| `TerminalEvents.NoEvent` | src/gjc/sdk-v3-terminal.ts:253-277 | Responses, envelopes without a payload and frames of one type around a payload of another carry no event |
| `TerminalEvents.ReportsExact` | src/gjc/sdk-v3-terminal.ts:296-313 | An event reports for a turn by its nested correlation alone if it has one, else by its own three fields; a failed message counts also where it names nothing |
| `TerminalEvents.JudgedExact` | src/gjc/sdk-v3-terminal.ts:136-152 | The first reported failure decides with its reason, then the first failed message behind the first start, then a reported end; otherwise the turn is running |
| `TerminalEvents.FailureReasons` | src/gjc/sdk-v3-terminal.ts:353-357 | The reason of a reported failure is the message of its error, and a general one where there is no error object |
| `TerminalEvents.AssistantReasons` | src/gjc/sdk-v3-terminal.ts:358-368 | A message failed exactly when it is an assistant's that stopped by error; its reason is its own text, or else the provider's code |
| `TerminalEvents.FirstActionExact` | src/gjc/sdk-v3-terminal.ts:121-135 | The action handed out is the first that asks for the turn, with the gate it names; none is handed out exactly when none asks |
| `TerminalEvents.AsksExact` | src/gjc/sdk-v3-terminal.ts:325-333 | An event asks for the turn exactly when it is an action of its session that names this very turn or none, under an id that was not checked |
| `Terminal.SdkTerminalWindow.Accept` | src/gjc/sdk-v3-terminal.ts:63-70 | One turn is accepted, of the window's own session, and earlier frames do not count for it |
| `Terminal.SdkTerminalWindow.NextAction` | src/gjc/sdk-v3-terminal.ts:121-135 | The action handed out is the first one of this turn that was not checked yet |
| `Terminal.SdkTerminalWindow.Wait` | src/gjc/sdk-v3-terminal.ts:85-110 | A wait ends or fails exactly as the frames judge, reports a gate or a timeout only while the turn runs, looks up exactly the actions asked for and none twice, and sleeps only when nothing is to be done |

## Left out

- Timestamps, and every mapping field no rule looks at: they are opaque parts of the values. `Migration` keeps operation times, since histories are compared with them, as opaque text and a creation order.
- Identity keys join chat and identifier with a NUL character in the source; here they are pairs. Insertion order of the two maps is not kept, nor are the copies handed to callers.
- JSON strings are taken as sequences of Unicode scalar values; lone surrogates are not covered.
- A delta entry carries its key beside its operation; the model takes the key to be the operation's own.
- Size, modification time and content digest of a base are arbitrary values bound into the header; in `FileAuthority` the generation's place in the text is a flag saying whether it was found. `GenerationKey` counts positions in characters, not bytes.
- Changes to the files by another process while an authority runs, and the lock files.
- FileAuthority.FileSessionAuthority.Mutate: says nothing of a call that starts while memory is ahead of recognised files, because what such a call writes is stated by `AheadExact`.
- JournalRuns.LineageConserved: excludes a begin that drops a retired lineage, because the code forgets it then; `ConservesRunExact` shows that nothing more is excluded.
- DurabilityLimits.CrashAndBootKeepOperations: speaks of the operations the interrupted call does not drop, because a begin over a pending reassignment drops some; `LookupStepExact` says which.
- CrashAndBoot.CallWatched: speaks of settled authorities and of steps that leave a loadable document, because a crash behind an unsettled state or an invalid step can lose more, as `UnsyncedDropExact`, `UnsyncedNameExact` and `Wal.AppendExact` state.
- CloseRouter.AtMostOneClose: promises no second start only where no begin over a pending reassignment and no restart drops a started close, because the code starts it again then (`DroppedClosesAgain`, `LostBeginClosesTwice`); the retirement of a chat is no event of its runs, and `RetiredStartsNoClose` and `RevivedClosesExact` say what it does to closes.
- CloseDurability.AtMostOneCloseDurably: excludes the same begin, also as the call a crash interrupts, and speaks of crashes of settled authorities; `CloseCrashBoot` derives their outcomes, and `LostBeginClosesTwice` shows an unsettled one failing.
- The streaming writer of a large authority and how its size is measured: the measured size is an argument of the boot. What the compaction leaves in memory when its write fails is not modelled, since the constructor throws. The boot report of a compaction is not modelled.
- Terminal.SdkTerminalWindow.Wait: what a gate lookup finds and when frames arrive are its arguments; a lookup that finds several gates, which is an error, is left out.
- Version 0 mapping documents, which a load moves aside.
- The branch of a failed append that finds no log file: with one writer the file is there.
- FileAuthority.FileSessionAuthority.Boot: starts from files as a crashed machine leaves them, because a process restart on unsynced files falls under the limits stated by `UnsyncedDropExact`.
- Completed operations may rebind detail and result by a second completion, so only that they stay complete is claimed.
- Coordinator.NeverStuck: speaks of one key only, because nested calls over several keys can wait for each other.
- Rejections of the coordinator for an owner that is not an object.
- Replaying a completed close to its caller (compatibility of older close results): it starts no physical close.
- CloseReports.CompleteMeansReported: relies on other clients not completing close operations through the journal, because nothing in the journal stops them.
- Which error a journal call throws is kept, its message text is not. The lookups `lookupOperationAuthority` and `assertOperationProject` only read.
- Orchestrator.RunPhaseAwareDeployment: adapters report facts that fit their phase and write checkpoints that do, and error texts say something, because a blank one is refused by `FailureAccepted`. Trimming knows the four common white space characters.
- SnapshotCoverage.ReadSnapshot: the caller's check of a captured configuration is its argument. Numbers that are no safe integers are one other JSON value, and a snapshot's version is the number one.
- What each deployment adapter does, the captured files other than the configuration, and the order in which a snapshot puts files back, which removes before it writes.
- DeploymentPair.DeploymentFiles.RunConfigure: a retry of a pending transaction asks for the same target, because input validation refuses another one.
- Field conversion of one migration entry, which is a parameter with its outcome; the migration's own checkpoint, manifest and quarantine files; legacy documents before version 2; and the final validation of the outputs, which is the validator modelled above. Fields of a provisional entry that its shape alone decides are not listed.
- The finalised assistant text, observers and deadlines of the terminal window; white space and error codes of failures.
- HTTP, tmux, SDK transport, OpenWebUI setup, rendering of service files, command line parsing and credentials.
