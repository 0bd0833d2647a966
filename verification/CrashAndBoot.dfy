/** A call, a crash at any moment of it, and the boot of whatever the crash left. */
module CrashAndBoot {
  import opened AuthorityTypes
  import opened RelationalValidity
  import opened JournalSteps
  import opened JournalInvariant
  import opened JournalRuns
  import opened Wal
  import opened Normalize
  import opened AuthorityDisk
  import opened CrashSafety
  import opened RestartFacts
  import opened FileAuthority
  import opened DurabilityLimits
  import opened CloseRouter
  import opened CloseDurability

  // ------------------------------------------------------ what a crash leaves

  /** A durable state is what recovery finds in every crash outcome. */
  lemma DurableRecovers(w: Wire, now: Files, s: iset<Files>, f: Files)
    requires Durable(w, now, s) && f in s && Recover(w, now).Recovered?
    ensures RecoversTo(w, f, Recover(w, now).doc)
  {
  }

  /** A settled authority runs one mutation.  Whatever a crash could leave from the moment of the call on
      recovers to the state before, the state after or its compact form; once the call has returned, or
      was refused or undone, to what memory holds. */
  method CallWatched(a: FileSessionAuthority, m: Mutation) returns (exit: Exit)
    requires a.Settled()
    requires Loadable(After(a.journal.Contents(), m))
    modifies a, a.disk, a.journal
    ensures a.DiskOk() && a.disk.survivors <= a.disk.trail
    ensures var pre, post := old(a.journal.Contents()), After(old(a.journal.Contents()), m);
            forall f :: f in a.disk.trail ==> Lands(a.wire, f, {pre, post, Normalized(post)})
    ensures exit.Returned? || exit.Refused? || exit.Failed? ==>
              forall f :: f in a.disk.survivors ==> RecoversTo(a.wire, f, a.journal.Contents())
  {
    WatchSettled(a);
    exit := CallSettled(a, m);
    if exit.Returned? || exit.Refused? || exit.Failed? {
      SettledRecovers(a);
    }
  }

  method CallSettled(a: FileSessionAuthority, m: Mutation) returns (exit: Exit)
    requires a.Settled() && a.Trustworthy()
    requires Loadable(After(a.journal.Contents(), m))
    modifies a, a.disk, a.journal
    ensures a.DiskOk()
    ensures var pre, post := old(a.journal.Contents()), After(old(a.journal.Contents()), m);
            AllLand(a.wire, old(a.disk.trail), a.disk.trail, {pre, post, Normalized(post)})
    ensures exit.Returned? || exit.Refused? || exit.Failed? ==> a.Settled()
  {
    ghost var entry;
    exit, entry := a.Mutate(m);
  }

  lemma SettledRecovers(a: FileSessionAuthority)
    requires a.Settled()
    ensures forall f :: f in a.disk.survivors ==> RecoversTo(a.wire, f, a.journal.Contents())
  {
    forall f | f in a.disk.survivors
      ensures RecoversTo(a.wire, f, a.journal.Contents())
    {
      DurableRecovers(a.wire, a.disk.files, a.disk.survivors, f);
    }
  }

  ghost method WatchSettled(a: FileSessionAuthority)
    requires a.Settled()
    modifies a.disk`trail
    ensures a.Settled() && a.Trustworthy() && a.disk.trail == a.disk.survivors
    ensures forall f :: f in a.disk.trail ==> RecoversTo(a.wire, f, a.journal.Contents())
  {
    a.disk.Watch();
    a.CoherentIsTrustworthy();
    SettledRecovers(a);
  }

  // ------------------------------------------------------------------- the boot

  /** Booting again behind a boot changes nothing more, however far the first one came. */
  lemma BootsCompose(d: Document, first: Document, second: Document)
    requires BootOf(d, first) && BootOf(first, second)
    ensures BootOf(d, second)
  {
    var quiet := ReconcileStep(d);
    ReconciledQuiet(d);
    NormalizedQuiet(quiet);
    ReconciledQuiet(Normalized(quiet));
    NormalizedIdempotent(quiet);
  }

  /** A machine comes up with these files.  A boot that returns holds what they recover to, or the
      reconciled and compact form of it; where that can be loaded, only a failing disk keeps it from returning. */
  method ComeUp(w: Wire, f: Files, clock: nat, compactionThreshold: nat, bootLimit: nat, measured: bool)
    returns (exit: Exit, a: FileSessionAuthority)
    requires Faithful(w) && Known(w, f, clock)
    ensures fresh(a) && fresh(a.disk) && fresh(a.journal) && a.wire == w
    ensures exit.Returned? ==>
              a.Settled() && Recover(w, f).Recovered? && BootOf(Recover(w, f).doc, a.journal.Contents())
    ensures Recover(w, f).Recovered? && Loadable(ReconcileStep(Recover(w, f).doc)) ==>
              && (exit.Returned? || a.disk.faults > 0)
              && forall g :: g in a.disk.trail ==>
                Recover(w, g).Recovered? && BootOf(Recover(w, f).doc, Recover(w, g).doc)
  {
    var disk := new Disk(f, clock);
    a := new FileSessionAuthority(w, disk, compactionThreshold);
    exit := a.Boot(bootLimit, measured);
  }

  /** A boot that is itself cut short, leaving any files it can, and the boot of those: the two make of the
      first files what one boot can make of them. */
  method ComeUpAgain(w: Wire, f: Files, g: Files, clock: nat, compactionThreshold: nat, bootLimit: nat, measured: bool)
    returns (first: FileSessionAuthority, up: Exit, booted: FileSessionAuthority?)
    requires Faithful(w) && Known(w, f, clock)
    requires Recover(w, f).Recovered? && Loadable(ReconcileStep(Recover(w, f).doc))
    ensures fresh(first.disk)
    ensures g in first.disk.trail && up.Returned? ==>
              booted != null && booted.Settled() && BootOf(Recover(w, f).doc, booted.journal.Contents())
  {
    up, first := ComeUp(w, f, clock, compactionThreshold, bootLimit, measured);
    if !Known(w, g, first.disk.clock) {
      return first, OutOfStep, null;
    }
    up, booted := ComeUp(w, g, first.disk.clock, compactionThreshold, bootLimit, measured);
    if g in first.disk.trail && up.Returned? {
      BootsCompose(Recover(w, f).doc, Recover(w, g).doc, booted.journal.Contents());
    }
  }

  /** A call, a crash that leaves any files it can at any moment of the call or behind it, and the boot:
      the state before the call comes up or the state it made, and the latter if it had returned. */
  method CallCrashBoot(a: FileSessionAuthority, m: Mutation, crashed: Files, bootLimit: nat, measured: bool)
    returns (exit: Exit, up: Exit, booted: FileSessionAuthority?)
    requires a.Settled()
    requires Loadable(After(a.journal.Contents(), m))
    modifies a, a.disk, a.journal
    ensures crashed in a.disk.trail ==>
              && Lands(a.wire, crashed, {old(a.journal.Contents()), After(old(a.journal.Contents()), m),
                                         Normalized(After(old(a.journal.Contents()), m))})
              && (Loadable(ReconcileStep(Recover(a.wire, crashed).doc)) ==>
                    booted != null && (up.Returned? || booted.disk.faults > 0))
    ensures crashed in a.disk.trail && up.Returned? ==>
              && booted != null && booted.Settled() && booted.wire == a.wire
              && BootOf(Recover(a.wire, crashed).doc, booted.journal.Contents())
    ensures crashed in a.disk.survivors && up.Returned? && (exit.Returned? || exit.Refused? || exit.Failed?) ==>
              booted != null && BootOf(a.journal.Contents(), booted.journal.Contents())
    ensures a.disk.survivors <= a.disk.trail
  {
    exit := CallWatched(a, m);
    if !Known(a.wire, crashed, a.disk.clock) {
      return exit, OutOfStep, null;
    }
    up, booted := ComeUp(a.wire, crashed, a.disk.clock, a.compactionThreshold, bootLimit, measured);
  }

  // ------------------------------------------------- operations and closes

  lemma SafeIsLoadable(d: Document, cmd: Command)
    requires Inv(d) && SafeEvent(d, Do(cmd))
    ensures After(d, Apply(cmd)) == Perform(d, Do(cmd)) && Loadable(After(d, Apply(cmd)))
  {
    if StepOf(d, cmd).outcome.Accepted? {
      StepKeeps(d, cmd);
    }
    InvIsLoadable(After(d, Apply(cmd)));
  }

  /** What a crash of a safe command lands on can be booted. */
  lemma LandedComesUp(w: Wire, d: Document, cmd: Command, f: Files)
    requires Inv(d) && SafeEvent(d, Do(cmd))
    requires Lands(w, f, {d, Perform(d, Do(cmd)), Normalized(Perform(d, Do(cmd)))})
    ensures Loadable(ReconcileStep(Recover(w, f).doc))
  {
    PerformKeeps(d, Do(cmd));
    NormalizedInv(Perform(d, Do(cmd)));
    PerformKeeps(Recover(w, f).doc, Restart);
    InvIsLoadable(ReconcileStep(Recover(w, f).doc));
  }

  /** Every operation the command does not drop can be looked up still, and is complete if it was. */
  ghost predicate KeepsOperations(d: Document, cmd: Command, booted: Document) {
    forall chatId, name :: LookupOperation(d, chatId, name).Some? && SparesName(d, Do(cmd), chatId, name) ==>
      && LookupOperation(booted, chatId, name).Some?
      && Continues(LookupOperation(d, chatId, name).value, LookupOperation(booted, chatId, name).value)
  }

  lemma LandedKeepsOperations(w: Wire, d: Document, cmd: Command, f: Files, booted: Document)
    requires Inv(d) && SafeEvent(d, Do(cmd))
    requires Lands(w, f, {d, Perform(d, Do(cmd)), Normalized(Perform(d, Do(cmd)))}) && BootOf(Recover(w, f).doc, booted)
    ensures KeepsOperations(d, cmd, booted)
  {
    forall chatId, name | LookupOperation(d, chatId, name).Some? && SparesName(d, Do(cmd), chatId, name)
      ensures LookupOperation(booted, chatId, name).Some?
      ensures Continues(LookupOperation(d, chatId, name).value, LookupOperation(booted, chatId, name).value)
    {
      CrashAndBootKeepOperations(w, d, cmd, f, booted, chatId, name);
    }
  }

  /** One safe command on a settled authority, a crash at any moment of it, and the boot: no operation is
      lost that the command itself does not drop. */
  method CommandCrashBoot(a: FileSessionAuthority, cmd: Command, crashed: Files, bootLimit: nat, measured: bool)
    returns (exit: Exit, up: Exit, booted: FileSessionAuthority?)
    requires a.Settled() && Inv(a.journal.Contents()) && SafeEvent(a.journal.Contents(), Do(cmd))
    modifies a, a.disk, a.journal
    ensures crashed in a.disk.trail ==> booted != null && (up.Returned? || booted.disk.faults > 0)
    ensures crashed in a.disk.trail && up.Returned? ==>
              booted.Settled() && KeepsOperations(old(a.journal.Contents()), cmd, booted.journal.Contents())
  {
    ghost var d := a.journal.Contents();
    SafeIsLoadable(d, cmd);
    exit, up, booted := CallCrashBoot(a, Apply(cmd), crashed, bootLimit, measured);
    if crashed in a.disk.trail {
      LandedComesUp(a.wire, d, cmd, crashed);
    }
    if crashed in a.disk.trail && up.Returned? {
      LandedKeepsOperations(a.wire, d, cmd, crashed, booted.journal.Contents());
    }
  }

  /** The same with closes started before: whatever the crash leaves, the boot of it is one of the crash
      outcomes that runs of closes reckon with, so every started close is on record still and none is
      complete that did not report. */
  method CloseCrashBoot(a: FileSessionAuthority, ghost s: State, cmd: Command, crashed: Files, bootLimit: nat,
                        measured: bool)
    returns (exit: Exit, up: Exit, booted: FileSessionAuthority?)
    requires a.Settled() && s.doc == a.journal.Contents() && Once(s) && Reported(s) && Underway(s, cmd)
    modifies a, a.disk, a.journal
    ensures crashed in a.disk.trail ==> booted != null && (up.Returned? || booted.disk.faults > 0)
    ensures crashed in a.disk.trail && up.Returned? ==>
              && booted.Settled()
              && CrashOutcome(a.wire, s, booted.journal.Contents())
              && StillOnRecord(s, booted.journal.Contents())
  {
    SafeIsLoadable(s.doc, cmd);
    exit, up, booted := CallCrashBoot(a, Apply(cmd), crashed, bootLimit, measured);
    if crashed in a.disk.trail {
      LandedComesUp(a.wire, s.doc, cmd, crashed);
    }
    if crashed in a.disk.trail && up.Returned? {
      LandsInCrashOutcome(a.wire, s, cmd, crashed, booted.journal.Contents());
      CrashStaysOnRecord(a.wire, s, booted.journal.Contents());
    }
  }

  lemma LandsInCrashOutcome(w: Wire, s: State, cmd: Command, f: Files, booted: Document)
    requires Underway(s, cmd) && Lands(w, f, {s.doc, Perform(s.doc, Do(cmd)), Normalized(Perform(s.doc, Do(cmd)))})
    requires BootOf(Recover(w, f).doc, booted)
    ensures CrashOutcome(w, s, booted)
  {
    assert Lands(w, f, Landings(s.doc, Some(cmd)));
  }
}
