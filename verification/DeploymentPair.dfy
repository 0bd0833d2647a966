/** The pair protocol of a configure run: a pending record in the checkpoint and a
    recovery snapshot beside it, written and removed so that a pending record is
    never found without the snapshot of its own transaction. */
module DeploymentPair {
  import opened AuthorityTypes

  /** What identifies an installed configuration when it is compared. */
  type Config = string

  type Transaction = nat

  datatype PendingRecord = PendingRecord(transaction: Transaction, target: Config, prior: Option<Config>)

  datatype Status = Prepared | Finished

  /** `nested` says whether the captured checkpoint held a pending record itself. */
  datatype Snapshot = Snapshot(transaction: Transaction, status: Status, captured: Option<Config>, nested: bool)

  datatype Verdict =
    | NothingPending | Orphaned | Unpaired | Mismatched | Nested
    | AlreadyFinished | WrongPrior | WrongLive | Resumable

  /** What the next run concludes from the files it finds. */
  function PairVerdict(pending: Option<PendingRecord>, snapshot: Option<Snapshot>, live: Option<Config>): Verdict {
    if snapshot.Some? && snapshot.value.nested then Nested
    else if pending.None? then if snapshot.None? then NothingPending else Orphaned
    else if snapshot.None? then Unpaired
    else if snapshot.value.transaction != pending.value.transaction then Mismatched
    else if snapshot.value.status.Finished? then AlreadyFinished
    else if snapshot.value.captured.Some? && pending.value.prior != snapshot.value.captured then WrongPrior
    else if live.None? || live.value == pending.value.target || live == snapshot.value.captured then Resumable
    else WrongLive
  }

  predicate Refused(v: Verdict) {
    v.Unpaired? || v.Mismatched? || v.Nested? || v.WrongPrior? || v.WrongLive?
  }

  predicate Fits(live: Option<Config>, pending: PendingRecord, snapshot: Snapshot) {
    live.None? || live.value == pending.target || live == snapshot.captured
  }

  /** What every durable step keeps. */
  predicate Paired(pending: Option<PendingRecord>, snapshot: Option<Snapshot>, live: Option<Config>) {
    && (snapshot.Some? ==> !snapshot.value.nested)
    && (pending.Some? ==>
          && snapshot.Some? && snapshot.value.transaction == pending.value.transaction
          && (snapshot.value.status.Prepared? ==>
                && (snapshot.value.captured.Some? ==> pending.value.prior == snapshot.value.captured)
                && Fits(live, pending.value, snapshot.value)))
  }

  /** The pairing is exactly what the next run's validation accepts. */
  lemma PairedIffAccepted(pending: Option<PendingRecord>, snapshot: Option<Snapshot>, live: Option<Config>)
    ensures Paired(pending, snapshot, live) <==> !Refused(PairVerdict(pending, snapshot, live))
  {
  }

  datatype Exit = Succeeded | Threw | Crashed

  /** The three files.  Every method is one durable step, or stops before its next one; `faults` counts the
      steps that failed and the stops. */
  class DeploymentFiles {
    var pending: Option<PendingRecord>
    var snapshot: Option<Snapshot>
    var live: Option<Config>
    var clock: Transaction
    ghost var faults: nat

    ghost predicate Valid()
      reads this
    {
      Paired(pending, snapshot, live)
    }

    constructor (live: Option<Config>)
      ensures Valid() && pending.None? && snapshot.None? && this.live == live && faults == 0
    {
      pending, snapshot, clock, faults := None, None, 0, 0;
      this.live := live;
    }

    // ------------------------------------------------------------- steps

    twostate predicate Counted(ok: bool)
      reads this
    {
      faults == old(faults) + if ok then 0 else 1
    }

    ghost method Count(ok: bool)
      modifies `faults
      ensures Counted(ok)
    {
      if !ok {
        faults := faults + 1;
      }
    }

    /** Unless it is done, something has failed or the run was stopped. */
    twostate predicate DoneUnlessFaulty(done: bool)
      reads this
    {
      old(faults) <= faults && (done || old(faults) < faults)
    }

    method Attempt() returns (ok: bool)
      modifies `faults
      ensures Counted(ok)
    {
      ok := *;
      Count(ok);
    }

    method WriteSnapshot(s: Snapshot) returns (ok: bool)
      requires Valid() && Paired(pending, Some(s), live)
      modifies `snapshot, `faults
      ensures Counted(ok) && Valid() && snapshot == if ok then Some(s) else old(snapshot)
    {
      ok := *;
      if ok {
        snapshot := Some(s);
      }
      Count(ok);
    }

    method RemoveSnapshot() returns (ok: bool)
      requires Valid() && pending.None?
      modifies `snapshot, `faults
      ensures Counted(ok) && Valid() && snapshot == if ok then None else old(snapshot)
    {
      ok := *;
      if ok {
        snapshot := None;
      }
      Count(ok);
    }

    method WritePending(p: PendingRecord) returns (ok: bool)
      requires Valid() && Paired(Some(p), snapshot, live)
      modifies `pending, `faults
      ensures Counted(ok) && Valid() && pending == if ok then Some(p) else old(pending)
    {
      ok := *;
      if ok {
        pending := Some(p);
      }
      Count(ok);
    }

    method RemovePending() returns (ok: bool)
      requires Valid()
      modifies `pending, `faults
      ensures Counted(ok) && Valid() && pending == if ok then None else old(pending)
    {
      ok := *;
      if ok {
        pending := None;
      }
      Count(ok);
    }

    method WriteConfig(config: Option<Config>) returns (ok: bool)
      requires Valid() && Paired(pending, snapshot, config)
      modifies `live, `faults
      ensures Counted(ok) && Valid() && live == if ok then config else old(live)
    {
      ok := *;
      if ok {
        live := config;
      }
      Count(ok);
    }

    // --------------------------------------------------------- the protocol

    /** Removes what a finished or never started transaction left, and keeps what can be resumed. */
    method ValidatePair() returns (ok: bool)
      requires Valid()
      modifies `pending, `snapshot, `faults
      ensures Valid() && DoneUnlessFaulty(ok)
      ensures ok ==> (pending.Some? <==> snapshot.Some?) && (snapshot.Some? ==> snapshot.value.status.Prepared?)
      ensures ok && old(pending).Some? && old(snapshot).value.status.Prepared? ==>
                pending == old(pending) && snapshot == old(snapshot)
      ensures ok && !(old(pending).Some? && old(snapshot).value.status.Prepared?) ==> pending.None? && snapshot.None?
    {
      PairedIffAccepted(pending, snapshot, live);
      match PairVerdict(pending, snapshot, live) {
        case NothingPending => return true;
        case Orphaned =>
          ok := RemoveSnapshot();
        case AlreadyFinished =>
          ok := RemovePending();
          if ok {
            ok := RemoveSnapshot();
          }
        case Resumable => return true;
        case _ => return false;
      }
    }

    /** Marks the snapshot finished, then removes the pending record, then the snapshot. */
    method Conclude() returns (ok: bool)
      requires Valid()
      modifies `pending, `snapshot, `faults
      ensures Valid() && (ok ==> pending.None? && snapshot.None?)
      ensures pending == old(pending) || pending.None?
      ensures DoneUnlessFaulty(ok || old(snapshot).None?)
    {
      if snapshot.None? {
        return false;
      }
      ok := true;
      if snapshot.value.status.Prepared? {
        ok := WriteSnapshot(snapshot.value.(status := Finished));
      }
      if ok {
        ok := RemovePending();
      }
      if ok {
        ok := RemoveSnapshot();
      }
    }

    /** Completing a transaction checks that the snapshot is its own. */
    method Complete(transaction: Transaction) returns (ok: bool)
      requires Valid()
      modifies `pending, `snapshot, `faults
      ensures Valid() && (ok ==> pending.None? && snapshot.None?)
      ensures pending == old(pending) || pending.None?
      ensures DoneUnlessFaulty(ok || old(snapshot).None? || old(snapshot).value.transaction != transaction)
      ensures old(snapshot).None? || old(snapshot).value.transaction != transaction ==>
                !ok && pending == old(pending) && snapshot == old(snapshot)
    {
      if snapshot.None? || snapshot.value.transaction != transaction {
        return false;
      }
      ok := Conclude();
    }

    /** A failed deployment puts the captured files back, which takes the pending record out of the
        checkpoint, and then concludes; without a prior configuration it only restores the checkpoint. */
    method RollBack() returns (ok: bool)
      requires Valid() && pending.Some? && snapshot.value.status.Prepared?
      modifies `pending, `snapshot, `live, `faults
      ensures Valid() && DoneUnlessFaulty(ok)
      ensures pending == old(pending) || pending.None?
      ensures pending.Some? ==> snapshot.Some? && (snapshot == old(snapshot) || snapshot.value.status.Finished?)
      ensures ok && old(snapshot).value.captured.Some? ==>
                live == old(snapshot).value.captured && pending.None? && snapshot.None?
      ensures old(snapshot).value.captured.None? ==>
                live == old(live) && pending == old(pending) && snapshot == old(snapshot)
    {
      if snapshot.value.captured.None? {
        return true;
      }
      var captured := snapshot.value.captured;
      ok := WriteConfig(captured);
      var restored := RemovePending();
      ok := ok && restored;
      if ok {
        ok := Conclude();
      }
    }

    /** The snapshot is captured first and only when there is none, then the pending record is written. */
    method Prepare(target: Config) returns (ok: bool)
      requires Valid() && (pending.Some? <==> snapshot.Some?) && (snapshot.Some? ==> snapshot.value.status.Prepared?)
      modifies `pending, `snapshot, `clock, `faults
      ensures Valid() && (ok ==> pending.Some? && snapshot.value.status.Prepared?) && DoneUnlessFaulty(ok)
      ensures ok ==> pending == old(pending) || pending.value.target == target
      ensures ok && old(pending).None? ==>
                && snapshot.value.captured == live && pending.value.prior == live
                && pending.value.transaction == snapshot.value.transaction == old(clock)
      ensures ok && old(pending).Some? ==> pending == old(pending) && snapshot == old(snapshot)
    {
      var record := if pending.Some? then pending.value else PendingRecord(clock, target, live);
      clock := clock + 1;
      ok := true;
      if snapshot.None? {
        ok := WriteSnapshot(Snapshot(record.transaction, Prepared, live, pending.Some?));
      }
      if ok {
        ok := WritePending(record);
      }
    }

    /** Installs the target and deploys it.  Where the deployment fails and nothing else does, everything is
        put back that was captured. */
    method Deploy(target: Config) returns (ok: bool)
      requires Valid() && pending.Some? && pending.value.target == target && snapshot.value.status.Prepared?
      modifies `pending, `snapshot, `live, `faults
      ensures Valid() && DoneUnlessFaulty(ok)
      ensures ok ==> pending == old(pending) && snapshot == old(snapshot) && live == Some(target)
      ensures pending == old(pending) || pending.None?
      ensures pending.Some? ==> snapshot.Some? && (snapshot == old(snapshot) || snapshot.value.status.Finished?)
      ensures !ok && faults == old(faults) + 1 && old(snapshot).value.captured.Some? ==>
                || (pending == old(pending) && snapshot == old(snapshot) && live == old(live))
                || (pending.None? && snapshot.None? && live == old(snapshot).value.captured)
    {
      ok := WriteConfig(Some(target));
      if ok {
        ok := Attempt();
        if !ok {
          var rolledBack := RollBack();
        }
      }
    }

    /** One configure run.  A retry of a pending transaction asks for the same target.  It succeeds unless
        something fails or stops it; where one thing failed and it was not stopped, the configuration is as
        before the run or the target. */
    method RunConfigure(target: Config) returns (exit: Exit)
      requires Valid() && (pending.Some? ==> pending.value.target == target)
      modifies this
      ensures Valid() && DoneUnlessFaulty(exit.Succeeded?)
      ensures exit.Succeeded? ==> pending.None? && snapshot.None? && live == Some(target)
      ensures exit.Threw? && faults == old(faults) + 1 ==> live == old(live) || live == Some(target)
    {
      var ok := ValidatePair();
      if !ok {
        return Threw;
      }
      var previous := live;
      ok := Prepare(target);
      var goes := Attempt();
      if !ok || !goes {
        return if goes then Threw else Crashed;
      }
      ok := Deploy(target);
      goes := Attempt();
      if !goes {
        return Crashed;
      }
      if !ok {
        var _ := WriteConfig(previous);
        return Threw;
      }
      ok := WriteConfig(Some(target));
      if ok {
        ok := Complete(pending.value.transaction);
      }
      return if ok then Succeeded else Threw;
    }
  }
}
