/** The phase-aware deployment: every phase runs behind a durable checkpoint, so
    that a run which stopped anywhere is resumed without skipping anything. */
module Orchestrator {
  import opened AuthorityTypes
  import opened Bootstrap

  datatype Adapter = PreflightCheck | ControllerStart | ApiKeySetup | ProviderSetup | ReadinessProbe

  const FULL: seq<(Phase, Adapter)> := [
    (Preflight, PreflightCheck), (Phase.Bootstrap, ControllerStart), (ApiKey, ApiKeySetup),
    (OpenAI, ProviderSetup), (Route, ReadinessProbe), (Ownership, ProviderSetup)]

  /** An installation that was complete is checked again without configuring the provider first. */
  const AGAIN: seq<(Phase, Adapter)> := [
    (Preflight, PreflightCheck), (Phase.Bootstrap, ControllerStart), (ApiKey, ApiKeySetup),
    (Route, ReadinessProbe), (Ownership, ProviderSetup)]

  datatype AdapterResult = Reported(facts: Facts) | Failure(evidence: string)

  datatype ResetRequest = ResetRequest(failedPhase: Phase, evidence: string, quiesced: bool, recovery: bool)

  /** How a deployment run ends; a crash can stop it between any two steps. */
  datatype Exit = Completed | Threw | Crashed

  /** Every earlier phase has succeeded, by its own adapter, and what was interrupted is not behind the
      checkpoint. */
  ghost predicate Accounted(c: Checkpoint, succeeded: set<(Phase, Adapter)>, unfinished: set<Phase>) {
    && SucceededBefore(c.phase, succeeded)
    && InterruptedFrom(c.phase, unfinished)
  }

  ghost predicate SucceededBefore(phase: Phase, succeeded: set<(Phase, Adapter)>) {
    forall i :: 0 <= i < Order(phase) ==> FULL[i] in succeeded
  }

  ghost predicate InterruptedFrom(phase: Phase, unfinished: set<Phase>) {
    forall p: Phase :: p in unfinished ==> Order(phase) <= Order(p) && !p.Complete?
  }

  /** A reset forgets nothing it has to account for exactly when it does not move forward. */
  lemma ResetAccountedExact(c: Checkpoint, failed: Phase, evidence: string)
    requires Reset(c, failed, evidence).Some?
    ensures (forall succeeded, unfinished :: Accounted(c, succeeded, unfinished) ==>
               Accounted(Reset(c, failed, evidence).value, succeeded, unfinished))
            <==> Order(failed) <= Order(c.phase)
  {
    var d := Reset(c, failed, evidence).value;
    if Order(failed) > Order(c.phase) {
      var succeeded := set i | 0 <= i < Order(c.phase) :: FULL[i];
      assert Accounted(c, succeeded, {});
      assert !Accounted(d, succeeded, {}) by {
        assert FULL[Order(c.phase)] !in succeeded;
      }
    }
  }

  /** The checkpoint file, with ghost records of every adapter call in order, of which phases ever succeeded
      by which adapter, of those started without their success being recorded, and of how often a write or
      an adapter failed or the run was stopped. */
  class CheckpointStore {
    var stored: Option<Checkpoint>
    ghost var calls: seq<(Phase, Adapter)>
    ghost var succeeded: set<(Phase, Adapter)>
    ghost var unfinished: set<Phase>
    ghost var faults: nat

    constructor ()
      ensures Sound() && stored.None? && calls == [] && succeeded == {} && unfinished == {} && faults == 0
    {
      stored, calls, succeeded, unfinished, faults := None, [], {}, {}, 0;
    }

    function Current(): Checkpoint
      reads this
    {
      stored.GetOr(INITIAL)
    }

    ghost predicate Sound()
      reads this
    {
      Valid(Current()) && Accounted(Current(), succeeded, unfinished)
    }

    /** Nothing but an acceptable checkpoint is ever written. */
    method Write(c: Checkpoint) returns (ok: bool)
      requires Valid(c)
      modifies `stored, `faults
      ensures stored == if ok then Some(c) else old(stored)
      ensures faults == old(faults) + if ok then 0 else 1
    {
      ok := *;
      if ok {
        stored := Some(c);
      } else {
        faults := faults + 1;
      }
    }

    method Stops() returns (crash: bool)
      modifies `faults
      ensures faults == old(faults) + if crash then 1 else 0
    {
      crash := *;
      if crash {
        faults := faults + 1;
      }
    }

    /** One adapter call.  It may write the checkpoint itself, at this phase or an earlier one. */
    method Call(phase: Phase, adapter: Adapter, writes: bool) returns (r: AdapterResult)
      requires Sound() && !phase.Complete? && ReadyFor(Current(), phase) && Order(Current().phase) <= Order(phase)
      requires SucceededBefore(phase, succeeded) && InterruptedFrom(phase, unfinished)
      modifies `stored, `calls, `succeeded, `faults
      ensures Sound() && ReadyFor(Current(), phase) && Order(Current().phase) <= Order(phase)
      ensures !writes ==> stored == old(stored)
      ensures calls == old(calls) + [(phase, adapter)]
      ensures succeeded == old(succeeded) + if r.Reported? then {(phase, adapter)} else {}
      ensures faults == old(faults) + if r.Reported? then 0 else 1
      ensures r.Reported? ==> Confirming(phase, r.facts)
      ensures r.Failure? ==> !Blank(r.evidence)
    {
      var nested: Checkpoint := *;
      if writes && Valid(nested) && ReadyFor(nested, phase) && Order(nested.phase) <= Order(phase) {
        stored := Some(nested);
      }
      calls := calls + [(phase, adapter)];
      var facts: Facts := *;
      var evidence: string := *;
      var works: bool := *;
      if works {
        succeeded := succeeded + {(phase, adapter)};
        r := Reported(if Confirming(phase, facts) then facts else NO_FACTS);
      } else {
        faults := faults + 1;
        r := Failure(Told(evidence));
      }
    }

    /** The controller is started once more, for a phase the checkpoint has behind it. */
    method CallAgain() returns (r: AdapterResult)
      requires Sound()
      modifies `calls, `succeeded, `faults
      ensures Sound() && calls == old(calls) + [(Phase.Bootstrap, ControllerStart)]
      ensures old(succeeded) <= succeeded && faults == old(faults) + if r.Reported? then 0 else 1
      ensures r.Failure? ==> !Blank(r.evidence)
    {
      calls := calls + [(Phase.Bootstrap, ControllerStart)];
      var evidence: string := *;
      var works: bool := *;
      if works {
        succeeded := succeeded + {(Phase.Bootstrap, ControllerStart)};
        r := Reported(NO_FACTS);
      } else {
        faults := faults + 1;
        r := Failure(Told(evidence));
      }
    }
  }

  /** The text of an error, taken to say something. */
  function Told(evidence: string): (told: string)
    ensures !Blank(told)
  {
    if Blank(evidence) then
      var told := "failed";
      assert !Whitespace(told[0]);
      told
    else evidence
  }

  /** The checkpoint says which phase failed and why, and nothing else in it has changed. */
  predicate RecordsFailure(c: Checkpoint, d: Checkpoint, phase: Phase, evidence: string) {
    && d.phase == phase && d.failedPhase == Some(phase) && d.failureEvidence == Some(evidence)
    && d.bootstrapComplete == c.bootstrapComplete && d.apiKeyCreated == c.apiKeyCreated
    && d.openAIConfigured == c.openAIConfigured && d.routeVerified == c.routeVerified
    && d.ownershipVerified == c.ownershipVerified && d.ownerUserId == c.ownerUserId && d.apiToken == c.apiToken
    && d.connectionIds == c.connectionIds && d.pending == c.pending
  }

  method RecordFailure(store: CheckpointStore, phase: Phase, evidence: string) returns (ok: bool)
    requires store.Sound() && !phase.Complete? && !Blank(evidence)
    requires ReadyFor(store.Current(), phase) && Order(store.Current().phase) <= Order(phase)
    requires SucceededBefore(phase, store.succeeded) && InterruptedFrom(phase, store.unfinished)
    modifies store`stored, store`faults
    ensures store.Sound() && store.faults == old(store.faults) + if ok then 0 else 1
    ensures if ok then RecordsFailure(old(store.Current()), store.Current(), phase, evidence)
            else store.stored == old(store.stored)
  {
    var state := Failed(store.Current(), phase, evidence);
    FailureAccepted(store.Current(), phase, evidence);
    ok := store.Write(state);
  }

  /** The started phase: call the adapter, read the checkpoint back, record success or failure.  One failure
      alone is always recorded. */
  method RunPhase(store: CheckpointStore, phase: Phase, adapter: Adapter) returns (exit: Exit)
    requires store.Sound() && !phase.Complete? && store.Current().phase == phase && ReadyFor(store.Current(), phase)
    requires phase in store.unfinished && (phase, adapter) in FULL
    modifies store
    ensures store.Sound() && old(store.succeeded) <= store.succeeded && store.unfinished <= old(store.unfinished)
    ensures store.calls == old(store.calls) + [(phase, adapter)]
    ensures exit.Completed? ==>
              (phase, adapter) in store.succeeded && store.unfinished == old(store.unfinished) - {phase}
    ensures exit.Completed? ==> store.Current().phase == phase && ReadyFor(store.Current(), PhaseAfter(phase))
    ensures exit.Completed? ==> store.Current().failedPhase.None? && store.Current().failureEvidence.None?
    ensures if exit.Completed? then store.faults == old(store.faults) else old(store.faults) < store.faults
    ensures exit.Threw? && store.faults == old(store.faults) + 1 ==>
              && store.Current().phase == phase && store.Current().failedPhase == Some(phase)
              && store.Current().failureEvidence.Some? && !Blank(store.Current().failureEvidence.value)
  {
    assert FULL[Order(phase)].0 == phase;
    var result := store.Call(phase, adapter, adapter == ApiKeySetup || adapter == ProviderSetup);
    var stops := store.Stops();
    if stops {
      return Crashed;
    }
    var evidence := "the checkpoint cannot be written";
    if result.Reported? {
      var state := store.Current();
      FinishedReady(state, phase, result.facts);
      var ok := store.Write(Advance(state, phase, Patched(phase, result.facts)));
      if ok {
        store.unfinished := store.unfinished - {phase};
        return Completed;
      }
      assert !Whitespace(evidence[0]);
    } else {
      evidence := result.evidence;
    }
    var _ := RecordFailure(store, phase, evidence);
    return Threw;
  }

  /** Writes the checkpoint that starts a phase. */
  method StartPhase(store: CheckpointStore, phase: Phase, again: bool) returns (ok: bool)
    requires store.Sound() && !phase.Complete?
    requires !again ==> ReadyFor(store.Current(), phase)
    requires SucceededBefore(phase, store.succeeded) && InterruptedFrom(phase, store.unfinished)
    modifies store
    ensures store.Sound() && store.succeeded == old(store.succeeded) && store.calls == old(store.calls)
    ensures ok ==> store.Current().phase == phase && ReadyFor(store.Current(), phase)
    ensures ok ==> store.unfinished == old(store.unfinished) + {phase}
    ensures store.faults == old(store.faults) + if ok then 0 else 1
  {
    var state := store.Current();
    if again {
      RerunAccepted(state, phase);
      state := Rerun(state, phase);
    } else {
      StartedAccepted(state, phase);
      state := Advance(state, phase, NO_FACTS);
    }
    ok := store.Write(state);
    if ok {
      store.unfinished := store.unfinished + {phase};
    }
  }

  /** The controller is started again behind a checkpoint that is already past it. */
  method RestartController(store: CheckpointStore) returns (exit: Exit)
    requires store.Sound() && Order(store.Current().phase) > 1 && !store.Current().phase.Complete?
    modifies store`stored, store`calls, store`succeeded, store`faults
    ensures store.Sound() && store.Current().phase == old(store.Current().phase)
    ensures old(store.succeeded) <= store.succeeded
    ensures store.calls == old(store.calls) + [(Phase.Bootstrap, ControllerStart)]
    ensures exit.Completed? ==> store.stored == old(store.stored)
    ensures if exit.Completed? then store.faults == old(store.faults) else old(store.faults) < store.faults
    ensures exit.Threw? && store.faults == old(store.faults) + 1 ==>
              exists evidence :: !Blank(evidence) &&
                RecordsFailure(old(store.Current()), store.Current(), old(store.Current()).phase, evidence)
  {
    var result := store.CallAgain();
    if result.Reported? {
      return Completed;
    }
    var _ := RecordFailure(store, store.Current().phase, result.evidence);
    return Threw;
  }

  predicate Restarts(start: Phase, reset: Option<ResetRequest>, recovery: Option<(bool, bool)>) {
    && !start.Complete?
    && ((recovery.Some? && (recovery.value.0 || recovery.value.1)) ||
        (reset.Some? && (reset.value.quiesced || reset.value.recovery || Order(start) > 1)))
  }

  /** At the head of the loop: before the resumed phase nothing has moved, behind it the
      previous phase is recorded. */
  ghost predicate AtPhase(store: CheckpointStore, start: Phase, i: nat)
    reads store
  {
    if i <= Order(start) then store.Current().phase == start
    else
      && i <= 6 && Order(store.Current().phase) == i - 1
      && FULL[i - 1] in store.succeeded && store.Current().phase !in store.unfinished
      && ReadyFor(store.Current(), PhaseAfter(store.Current().phase))
  }

  /** A run of the deployment from whatever checkpoint is stored.  It calls the adapters of the resumed
      phase and of every later one, each phase by its own and in this order, behind one more start of the
      controller where recovery asks for it; a complete installation is run through again without
      configuring the provider first.  Interrupted anywhere it has called a first part of these and leaves
      an acceptable checkpoint that accounts for every phase; unless a write or an adapter fails or the
      run is stopped, it completes.  Then every phase has succeeded by its own adapter. */
  method RunPhaseAwareDeployment(store: CheckpointStore, reset: Option<ResetRequest>, recovery: Option<(bool, bool)>)
    returns (exit: Exit)
    requires store.Sound()
    requires reset.Some? ==> Order(reset.value.failedPhase) <= Order(store.Current().phase)
    modifies store
    ensures store.Sound() && old(store.succeeded) <= store.succeeded && old(store.calls) <= store.calls
    ensures var start := if reset.Some? then reset.value.failedPhase else old(store.Current()).phase;
            var asked := reset.Some? || (recovery.Some? && (recovery.value.0 || recovery.value.1));
            var due :=
              if start.Complete? then [
                (Preflight, PreflightCheck), (Phase.Bootstrap, ControllerStart), (ApiKey, ApiKeySetup),
                (Route, ReadinessProbe), (Ownership, ProviderSetup)]
              else
                (if asked && Order(start) > 1 then [(Phase.Bootstrap, ControllerStart)] else []) +
                [(Preflight, PreflightCheck), (Phase.Bootstrap, ControllerStart), (ApiKey, ApiKeySetup),
                 (OpenAI, ProviderSetup), (Route, ReadinessProbe), (Ownership, ProviderSetup)][Order(start)..];
            && store.calls <= old(store.calls) + due
            && (exit.Completed? ==> store.calls == old(store.calls) + due)
    ensures exit.Completed? || old(store.faults) < store.faults ||
            (reset.Some? && (reset.value.failedPhase.Complete? || Blank(reset.value.evidence)))
    ensures exit.Completed? ==>
              && store.Current().phase.Complete? && store.unfinished == {}
              && store.succeeded >= {
                   (Preflight, PreflightCheck), (Phase.Bootstrap, ControllerStart), (ApiKey, ApiKeySetup),
                   (OpenAI, ProviderSetup), (Route, ReadinessProbe), (Ownership, ProviderSetup)}
  {
    if reset.Some? {
      var ok := ApplyReset(store, reset.value);
      if !ok {
        return Threw;
      }
    }
    if store.Current().phase.Complete? {
      exit := RunAgain(store);
    } else {
      ResumedSpelled(store.Current().phase, reset, recovery);
      exit := Resume(store, Restarts(store.Current().phase, reset, recovery));
    }
    if exit.Completed? {
      exit := Finish(store);
      AllSucceeded(store.succeeded);
    }
  }

  lemma ResumedSpelled(start: Phase, reset: Option<ResetRequest>, recovery: Option<(bool, bool)>)
    requires !start.Complete?
    ensures var asked := reset.Some? || (recovery.Some? && (recovery.value.0 || recovery.value.1));
            ResumedCalls(FULL, Order(start), Restarts(start, reset, recovery), 6) ==
            (if asked && Order(start) > 1 then [(Phase.Bootstrap, ControllerStart)] else []) +
            [(Preflight, PreflightCheck), (Phase.Bootstrap, ControllerStart), (ApiKey, ApiKeySetup),
             (OpenAI, ProviderSetup), (Route, ReadinessProbe), (Ownership, ProviderSetup)][Order(start)..]
  {
  }

  method ApplyReset(store: CheckpointStore, reset: ResetRequest) returns (ok: bool)
    requires store.Sound() && Order(reset.failedPhase) <= Order(store.Current().phase)
    modifies store`stored, store`faults
    ensures store.Sound() && old(store.faults) <= store.faults
    ensures ok ==> store.Current().phase == reset.failedPhase && !reset.failedPhase.Complete?
    ensures ok || old(store.faults) < store.faults || reset.failedPhase.Complete? || Blank(reset.evidence)
  {
    var state := Reset(store.Current(), reset.failedPhase, reset.evidence);
    ResetAccepted(store.Current(), reset.failedPhase, reset.evidence);
    if state.None? {
      return false;
    }
    ok := store.Write(state.value);
  }

  /** The calls of a run resumed at place `start`, before place `i`. */
  function ResumedCalls(all: seq<(Phase, Adapter)>, start: nat, restart: bool, i: nat): seq<(Phase, Adapter)>
    requires i <= |all| && start <= |all|
  {
    if i <= start then if restart && i > 1 then [(Phase.Bootstrap, ControllerStart)] else []
    else (if restart && start > 1 then [(Phase.Bootstrap, ControllerStart)] else []) + all[start..i]
  }

  /** The calls made for the phase at place `i`: its own adapter, or for a phase behind the checkpoint none
      but the controller's once more. */
  function PhaseCalls(all: seq<(Phase, Adapter)>, start: nat, restart: bool, i: nat): seq<(Phase, Adapter)>
    requires i < |all|
  {
    if start <= i then [all[i]]
    else if i == 1 && restart then [(Phase.Bootstrap, ControllerStart)] else []
  }

  lemma ResumedMore(all: seq<(Phase, Adapter)>, start: nat, restart: bool, i: nat)
    requires i < |all| && start <= |all|
    ensures ResumedCalls(all, start, restart, i) <= ResumedCalls(all, start, restart, |all|)
    ensures ResumedCalls(all, start, restart, i + 1) ==
            ResumedCalls(all, start, restart, i) + PhaseCalls(all, start, restart, i)
    ensures ResumedCalls(all, start, restart, i + 1) <= ResumedCalls(all, start, restart, |all|)
  {
    ResumedPart(all, start, restart, i);
    ResumedPart(all, start, restart, i + 1);
    if start <= i {
      ResumedStep(all, start, restart, i);
    }
  }

  lemma ResumedPart(all: seq<(Phase, Adapter)>, start: nat, restart: bool, i: nat)
    requires i <= |all| && start <= |all|
    ensures ResumedCalls(all, start, restart, i) <= ResumedCalls(all, start, restart, |all|)
  {
    if start < i {
      Front(if restart && start > 1 then [(Phase.Bootstrap, ControllerStart)] else [], all[start..i], all[start..]);
      assert all[start..] == all[start..|all|];
    }
  }

  lemma Front(before: seq<(Phase, Adapter)>, a: seq<(Phase, Adapter)>, b: seq<(Phase, Adapter)>)
    requires a <= b
    ensures before + a <= before + b
  {
    assert b == a + b[|a|..];
    assert before + b == before + a + b[|a|..];
  }

  lemma ResumedStep(all: seq<(Phase, Adapter)>, start: nat, restart: bool, i: nat)
    requires start <= i < |all|
    ensures ResumedCalls(all, start, restart, i + 1) == ResumedCalls(all, start, restart, i) + [all[i]]
  {
    assert all[start..i] + [all[i]] == all[start..i + 1];
    assert start == i ==> all[start..i + 1] == [all[i]];
  }

  /** What `SucceededBefore` says of a complete run, spelled out. */
  lemma AllSucceeded(succeeded: set<(Phase, Adapter)>)
    requires SucceededBefore(Phase.Complete, succeeded)
    ensures succeeded >= {
              (Preflight, PreflightCheck), (Phase.Bootstrap, ControllerStart), (ApiKey, ApiKeySetup),
              (OpenAI, ProviderSetup), (Route, ReadinessProbe), (Ownership, ProviderSetup)}
  {
    assert FULL[0] in succeeded && FULL[1] in succeeded && FULL[2] in succeeded;
    assert FULL[3] in succeeded && FULL[4] in succeeded && FULL[5] in succeeded;
  }

  method Resume(store: CheckpointStore, restart: bool) returns (exit: Exit)
    requires store.Sound() && !store.Current().phase.Complete?
    modifies store
    ensures store.Sound() && old(store.succeeded) <= store.succeeded && old(store.calls) <= store.calls
    ensures var due := ResumedCalls(FULL, Order(old(store.Current()).phase), restart, 6);
            && store.calls <= old(store.calls) + due
            && (exit.Completed? ==> store.calls == old(store.calls) + due)
    ensures exit.Completed? ==> AtPhase(store, Preflight, 6)
    ensures old(store.faults) <= store.faults && (exit.Completed? || old(store.faults) < store.faults)
  {
    var start := store.Current().phase;
    var i := 0;
    while i < |FULL|
      invariant i <= |FULL| == 6
      invariant store.Sound() && old(store.succeeded) <= store.succeeded && AtPhase(store, start, i)
      invariant CalledUpTo(store, old(store.calls), start, restart, i)
      invariant old(store.faults) <= store.faults
    {
      exit := ResumeRound(store, start, restart, i, old(store.calls));
      if !exit.Completed? {
        return;
      }
      i := i + 1;
    }
    return Completed;
  }

  ghost predicate CalledUpTo(store: CheckpointStore, before: seq<(Phase, Adapter)>, start: Phase, restart: bool, i: nat)
    requires i <= 6
    reads store
  {
    store.calls == before + ResumedCalls(FULL, Order(start), restart, i)
  }

  method ResumeRound(store: CheckpointStore, start: Phase, restart: bool, i: nat, ghost before: seq<(Phase, Adapter)>)
    returns (exit: Exit)
    requires store.Sound() && i < 6 && !start.Complete? && AtPhase(store, start, i)
    requires CalledUpTo(store, before, start, restart, i)
    modifies store
    ensures store.Sound() && old(store.succeeded) <= store.succeeded
    ensures exit.Completed? ==> AtPhase(store, start, i + 1) && CalledUpTo(store, before, start, restart, i + 1)
    ensures before <= store.calls <= before + ResumedCalls(FULL, Order(start), restart, 6)
    ensures old(store.faults) <= store.faults && (exit.Completed? || old(store.faults) < store.faults)
  {
    ResumedMore(FULL, Order(start), restart, i);
    exit := ResumePhase(store, start, restart, i);
    if exit.Completed? {
      var halted := store.Stops();
      exit := if halted then Crashed else Completed;
    }
  }

  /** One round of the loop. */
  method ResumePhase(store: CheckpointStore, start: Phase, restart: bool, i: nat) returns (exit: Exit)
    requires store.Sound() && i < 6 && !start.Complete? && AtPhase(store, start, i)
    modifies store
    ensures store.Sound() && old(store.succeeded) <= store.succeeded
    ensures exit.Completed? ==> AtPhase(store, start, i + 1)
    ensures exit.Completed? ==> store.calls == old(store.calls) + PhaseCalls(FULL, Order(start), restart, i)
    ensures store.calls == old(store.calls)
        || store.calls == old(store.calls) + PhaseCalls(FULL, Order(start), restart, i)
    ensures old(store.faults) <= store.faults && (exit.Completed? || old(store.faults) < store.faults)
  {
    var (phase, adapter) := FULL[i];
    assert Order(phase) == i;
    if i < Order(start) {
      if phase.Bootstrap? && restart {
        exit := RestartController(store);
      } else {
        exit := Completed;
      }
    } else {
      var ok := StartPhase(store, phase, false);
      var stops := store.Stops();
      if !ok || stops {
        return if stops then Crashed else Threw;
      }
      exit := RunPhase(store, phase, adapter);
    }
  }

  method RunAgain(store: CheckpointStore) returns (exit: Exit)
    requires store.Sound() && store.Current().phase.Complete?
    modifies store
    ensures store.Sound() && old(store.succeeded) <= store.succeeded && old(store.calls) <= store.calls
    ensures store.calls <= old(store.calls) + AGAIN
    ensures exit.Completed? ==> store.calls == old(store.calls) + AGAIN
    ensures exit.Completed? ==> AtPhase(store, Preflight, 6)
    ensures old(store.faults) <= store.faults && (exit.Completed? || old(store.faults) < store.faults)
  {
    var i := 0;
    assert store.unfinished == {};
    while i < |AGAIN|
      invariant i <= |AGAIN| == 5
      invariant store.Sound() && store.unfinished == {} && old(store.succeeded) <= store.succeeded
      invariant SucceededBefore(Phase.Complete, store.succeeded)
      invariant store.calls == old(store.calls) + AGAIN[..i] && old(store.faults) <= store.faults
      invariant i == 5 ==> AtPhase(store, Preflight, 6)
    {
      var (phase, adapter) := AGAIN[i];
      var ok := StartPhase(store, phase, true);
      var stops := store.Stops();
      if !ok || stops {
        return if stops then Crashed else Threw;
      }
      exit := RunPhase(store, phase, adapter);
      assert AGAIN[..i] + [AGAIN[i]] == AGAIN[..i + 1];
      if !exit.Completed? {
        return;
      }
      i := i + 1;
      var halted := store.Stops();
      if halted {
        return Crashed;
      }
    }
    return Completed;
  }

  method Finish(store: CheckpointStore) returns (exit: Exit)
    requires store.Sound() && AtPhase(store, Preflight, 6)
    modifies store`stored, store`faults
    ensures store.Sound()
    ensures exit.Completed? ==> store.Current().phase.Complete? && store.unfinished == {}
    ensures SucceededBefore(Phase.Complete, store.succeeded)
    ensures store.faults == old(store.faults) + if exit.Completed? then 0 else 1
  {
    var state := store.Current();
    CompleteAccepted(state);
    AllSet(state);
    var ok := store.Write(Advance(state, Phase.Complete,
      NO_FACTS.(routeVerified := Some(true), ownershipVerified := Some(true))));
    return if ok then Completed else Threw;
  }

  lemma AllSet(c: Checkpoint)
    requires Valid(c) && c.phase.Ownership?
    ensures c.bootstrapComplete && c.apiKeyCreated && c.openAIConfigured
  {
    assert Mark(c, 0) && Mark(c, 1) && Mark(c, 2);
  }

  /** The reset a configure run asks for only goes back: to the recorded failed phase, or, from a
      complete installation, to any earlier one. */
  method RunReset(store: CheckpointStore, proofPhase: Option<Phase>, evidence: string) returns (ok: bool)
    requires store.Sound()
    modifies store`stored, store`faults
    ensures store.Sound()
    ensures ok ==> !Blank(evidence) && store.Current().failureEvidence == Some(evidence)
    ensures ok ==> Order(store.Current().phase) <= Order(old(store.Current()).phase) && !store.Current().phase.Complete?
    ensures !ok ==> store.stored == old(store.stored)
    ensures ok ==>
              var c := old(store.Current());
              store.Current().phase ==
                if proofPhase.Some? then proofPhase.value else if c.failedPhase.Some? then c.failedPhase.value
                else if c.phase.Complete? then Route else c.phase
    ensures ok || old(store.faults) < store.faults || Blank(evidence) || old(store.stored).None? ||
            var c := old(store.Current());
            if c.phase.Complete? then
              if proofPhase.Some? then proofPhase.value.Complete?
              else !c.apiKeyCreated || c.ownerUserId.None? || c.apiToken.None?
            else proofPhase.Some? && proofPhase.value != c.phase
  {
    if Blank(evidence) || store.stored.None? {
      return false;
    }
    var current := store.stored.value;
    var failed :=
      if proofPhase.Some? then proofPhase.value
      else if current.failedPhase.Some? then current.failedPhase.value
      else if current.phase.Complete? && current.apiKeyCreated && current.ownerUserId.Some? && current.apiToken.Some?
      then Route
      else current.phase;
    if failed.Complete? || (!current.phase.Complete? && failed != current.phase) {
      return false;
    }
    ResetAccepted(current, failed, evidence);
    ok := store.Write(Reset(current, failed, evidence).value);
  }
}
