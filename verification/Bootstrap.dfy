/** The durable checkpoint of a deployment: which phase it is in, what is done,
    and what a stored checkpoint must satisfy to be accepted again. */
module Bootstrap {
  import opened AuthorityTypes

  datatype Phase = Preflight | Bootstrap | ApiKey | OpenAI | Route | Ownership | Complete

  function Order(p: Phase): nat {
    match p
    case Preflight => 0
    case Bootstrap => 1
    case ApiKey => 2
    case OpenAI => 3
    case Route => 4
    case Ownership => 5
    case Complete => 6
  }

  /** The recovery record nested in the checkpoint; `rest` is everything its linkage covers. */
  datatype Pending = Pending(transactionId: string, recoveryRequired: bool, quiesced: bool, rest: string)

  datatype Checkpoint = Checkpoint(
    phase: Phase,
    bootstrapComplete: bool, apiKeyCreated: bool, openAIConfigured: bool, routeVerified: bool, ownershipVerified: bool,
    ownerUserId: Option<string>, apiToken: Option<string>, connectionIds: seq<string>,
    failedPhase: Option<Phase>, failureEvidence: Option<string>, pending: Option<Pending>)

  const INITIAL := Checkpoint(Preflight, false, false, false, false, false, None, None, [], None, None, None)

  predicate Whitespace(c: char) {
    c in " \t\n\r"
  }

  predicate Blank(s: string) {
    forall i :: 0 <= i < |s| ==> Whitespace(s[i])
  }

  /** The five completion marks; the mark at index `i` belongs to the phase of order `i + 1`. */
  function Mark(c: Checkpoint, i: nat): bool {
    if i == 0 then c.bootstrapComplete
    else if i == 1 then c.apiKeyCreated
    else if i == 2 then c.openAIConfigured
    else if i == 3 then c.routeVerified
    else c.ownershipVerified
  }

  /** Marks before the phase are set, marks behind it are not. */
  predicate MarksFit(c: Checkpoint, p: Phase) {
    forall i :: 0 <= i < 5 ==> MarkFits(Mark(c, i), i, p)
  }

  predicate MarkFits(mark: bool, i: nat, p: Phase) {
    if mark then i + 1 <= Order(p) else p.Complete? || Order(p) <= i + 1
  }

  predicate TextsFit(c: Checkpoint) {
    && (c.ownerUserId.Some? ==> !Blank(c.ownerUserId.value))
    && (c.apiToken.Some? ==> !Blank(c.apiToken.value))
    && (forall id :: id in c.connectionIds ==> !Blank(id))
  }

  /** What reading a stored checkpoint demands. */
  predicate Valid(c: Checkpoint) {
    && TextsFit(c)
    && MarksFit(c, c.phase)
    && (c.failedPhase.None? <==> c.failureEvidence.None?)
    && (c.failureEvidence.Some? ==> !Blank(c.failureEvidence.value))
    && (c.failedPhase.Some? ==> !c.failedPhase.value.Complete? && c.failedPhase.value == c.phase)
    && (c.phase.Complete? ==> forall i :: 0 <= i < 5 ==> Mark(c, i))
  }

  /** Facts an adapter reports; an absent one keeps what the checkpoint has. */
  datatype Facts = Facts(
    bootstrapComplete: Option<bool>, apiKeyCreated: Option<bool>, openAIConfigured: Option<bool>,
    routeVerified: Option<bool>, ownershipVerified: Option<bool>,
    ownerUserId: Option<string>, apiToken: Option<string>, connectionIds: Option<seq<string>>)

  const NO_FACTS := Facts(None, None, None, None, None, None, None, None)

  function Fact(f: Facts, i: nat): Option<bool> {
    if i == 0 then f.bootstrapComplete
    else if i == 1 then f.apiKeyCreated
    else if i == 2 then f.openAIConfigured
    else if i == 3 then f.routeVerified
    else f.ownershipVerified
  }

  function Advance(c: Checkpoint, p: Phase, f: Facts): Checkpoint {
    Checkpoint(
      p,
      f.bootstrapComplete.GetOr(c.bootstrapComplete), f.apiKeyCreated.GetOr(c.apiKeyCreated),
      f.openAIConfigured.GetOr(c.openAIConfigured), f.routeVerified.GetOr(c.routeVerified),
      f.ownershipVerified.GetOr(c.ownershipVerified),
      if f.ownerUserId.Some? then f.ownerUserId else c.ownerUserId,
      if f.apiToken.Some? then f.apiToken else c.apiToken,
      f.connectionIds.GetOr(c.connectionIds), None, None, c.pending)
  }

  /** A finished phase sets its own mark unless the adapter says otherwise. */
  function Patched(p: Phase, f: Facts): Facts {
    match p
    case Bootstrap => f.(bootstrapComplete := Some(f.bootstrapComplete.GetOr(true)))
    case ApiKey => f.(apiKeyCreated := Some(f.apiKeyCreated.GetOr(true)))
    case OpenAI => f.(openAIConfigured := Some(f.openAIConfigured.GetOr(true)))
    case Route => f.(routeVerified := Some(f.routeVerified.GetOr(true)))
    case Ownership => f.(ownershipVerified := Some(f.ownershipVerified.GetOr(true)))
    case _ => f
  }

  function Rerun(c: Checkpoint, p: Phase): Checkpoint {
    Advance(c, p, NO_FACTS.(
      bootstrapComplete := Some(Order(p) > 1), apiKeyCreated := Some(Order(p) > 2),
      openAIConfigured := Some(Order(p) > 3),
      routeVerified := Some(Order(p) > 4), ownershipVerified := Some(Order(p) > 5)))
  }

  function Failed(c: Checkpoint, p: Phase, evidence: string): Checkpoint {
    c.(phase := p, failedPhase := Some(p), failureEvidence := Some(evidence))
  }

  function Reset(c: Checkpoint, failed: Phase, evidence: string): Option<Checkpoint> {
    if failed.Complete? || Blank(evidence) then None
    else
      var o := Order(failed);
      Some(Checkpoint(
        failed, o > 1, o > 2, o > 3, o > 4, o > 5,
        if o > 2 then c.ownerUserId else None, if o > 2 then c.apiToken else None,
        if o > 3 then c.connectionIds else [], Some(failed), Some(evidence), c.pending))
  }

  // --------------------------------------------------- accepted checkpoints

  predicate FactTextsFit(f: Facts) {
    && (f.ownerUserId.Some? ==> !Blank(f.ownerUserId.value))
    && (f.apiToken.Some? ==> !Blank(f.apiToken.value))
    && (f.connectionIds.Some? ==> forall id :: id in f.connectionIds.value ==> !Blank(id))
  }

  /** Facts that neither run ahead of their phase nor take back an earlier one. */
  predicate InStep(p: Phase, f: Facts) {
    && FactTextsFit(f)
    && forall i :: 0 <= i < 5 && Fact(f, i).Some? ==>
         if Fact(f, i).value then i + 1 <= Order(p) else Order(p) <= i + 1
  }

  /** In step, and not denying the phase that just succeeded. */
  predicate Confirming(p: Phase, f: Facts) {
    InStep(p, f) && forall i :: 0 <= i < 5 && Fact(f, i) == Some(false) ==> Order(p) < i + 1
  }

  predicate MarkInStep(p: Phase, i: nat, fact: Option<bool>) {
    fact.Some? ==> if fact.value then i + 1 <= Order(p) else Order(p) <= i + 1
  }

  lemma PatchedMark(c: Checkpoint, p: Phase, f: Facts, i: nat)
    requires i < 5
    ensures Mark(Advance(c, p, Patched(p, f)), i) ==
            if Fact(f, i).Some? then Fact(f, i).value else (Mark(c, i) || i + 1 == Order(p))
  {
  }

  /** The checkpoint behind a phase is accepted exactly when the adapter's facts are in step.
      The phase was started, so the checkpoint was ready for it. */
  lemma FinishedAccepted(c: Checkpoint, p: Phase, f: Facts)
    requires ReadyFor(c, p) && !p.Complete?
    ensures Valid(Advance(c, p, Patched(p, f))) <==> InStep(p, f)
  {
    var d := Advance(c, p, Patched(p, f));
    forall i | 0 <= i < 5
      ensures MarkFits(Mark(d, i), i, p) <==> MarkInStep(p, i, Fact(f, i))
    {
      PatchedMark(c, p, f, i);
      assert MarkFits(Mark(c, i), i, p);
    }
    assert MarksFit(d, p) <==> forall i :: 0 <= i < 5 ==> MarkFits(Mark(d, i), i, p);
    assert TextsFit(d) <==> FactTextsFit(f);
  }

  /** Marks that are ready for `p`: all earlier phases done, no later one. */
  predicate ReadyFor(c: Checkpoint, p: Phase) {
    TextsFit(c) && MarksFit(c, p)
  }

  function PhaseAfter(p: Phase): Phase {
    match p
    case Preflight => Bootstrap
    case Bootstrap => ApiKey
    case ApiKey => OpenAI
    case OpenAI => Route
    case Route => Ownership
    case _ => Phase.Complete
  }

  /** A confirmed phase leaves the checkpoint ready for the next one. */
  lemma FinishedReady(c: Checkpoint, p: Phase, f: Facts)
    requires ReadyFor(c, p) && !p.Complete? && Confirming(p, f)
    ensures Valid(Advance(c, p, Patched(p, f)))
    ensures ReadyFor(Advance(c, p, Patched(p, f)), PhaseAfter(p))
  {
    var d := Advance(c, p, Patched(p, f));
    FinishedAccepted(c, p, f);
    forall i | 0 <= i < 5
      ensures MarkFits(Mark(d, i), i, PhaseAfter(p))
    {
      PatchedMark(c, p, f, i);
      assert MarkFits(Mark(c, i), i, p);
    }
  }

  /** The checkpoint has everything the adapter reported, its own phase's mark unless the adapter denies it,
      and whatever was not reported as before; a recorded failure is cleared. */
  predicate FinishedAs(d: Checkpoint, c: Checkpoint, p: Phase, f: Facts) {
    && d.phase == p && d.failedPhase.None? && d.failureEvidence.None? && d.pending == c.pending
    && d.ownerUserId == (if f.ownerUserId.Some? then f.ownerUserId else c.ownerUserId)
    && d.apiToken == (if f.apiToken.Some? then f.apiToken else c.apiToken)
    && d.connectionIds == (if f.connectionIds.Some? then f.connectionIds.value else c.connectionIds)
    && d.bootstrapComplete == MarkedAs(f.bootstrapComplete, p.Bootstrap?, c.bootstrapComplete)
    && d.apiKeyCreated == MarkedAs(f.apiKeyCreated, p.ApiKey?, c.apiKeyCreated)
    && d.openAIConfigured == MarkedAs(f.openAIConfigured, p.OpenAI?, c.openAIConfigured)
    && d.routeVerified == MarkedAs(f.routeVerified, p.Route?, c.routeVerified)
    && d.ownershipVerified == MarkedAs(f.ownershipVerified, p.Ownership?, c.ownershipVerified)
  }

  predicate AdvancedAs(d: Checkpoint, c: Checkpoint, p: Phase, g: Facts) {
    && d.phase == p && d.failedPhase.None? && d.failureEvidence.None? && d.pending == c.pending
    && d.ownerUserId == (if g.ownerUserId.Some? then g.ownerUserId else c.ownerUserId)
    && d.apiToken == (if g.apiToken.Some? then g.apiToken else c.apiToken)
    && d.connectionIds == (if g.connectionIds.Some? then g.connectionIds.value else c.connectionIds)
    && d.bootstrapComplete == MarkedAs(g.bootstrapComplete, false, c.bootstrapComplete)
    && d.apiKeyCreated == MarkedAs(g.apiKeyCreated, false, c.apiKeyCreated)
    && d.openAIConfigured == MarkedAs(g.openAIConfigured, false, c.openAIConfigured)
    && d.routeVerified == MarkedAs(g.routeVerified, false, c.routeVerified)
    && d.ownershipVerified == MarkedAs(g.ownershipVerified, false, c.ownershipVerified)
  }

  predicate PatchedAs(g: Facts, p: Phase, f: Facts) {
    && g.ownerUserId == f.ownerUserId && g.apiToken == f.apiToken && g.connectionIds == f.connectionIds
    && g.bootstrapComplete == Patch(f.bootstrapComplete, p.Bootstrap?)
    && g.apiKeyCreated == Patch(f.apiKeyCreated, p.ApiKey?)
    && g.openAIConfigured == Patch(f.openAIConfigured, p.OpenAI?)
    && g.routeVerified == Patch(f.routeVerified, p.Route?)
    && g.ownershipVerified == Patch(f.ownershipVerified, p.Ownership?)
  }

  function Patch(reported: Option<bool>, own: bool): Option<bool> {
    if reported.None? && own then Some(true) else reported
  }

  /** What a finished phase leaves is what FinishedAs spells out. */
  lemma FinishedReadBack(c: Checkpoint, p: Phase, f: Facts)
    ensures FinishedAs(Advance(c, p, Patched(p, f)), c, p, f)
  {
    PatchedMarks(p, f);
    AdvancedMarks(c, p, Patched(p, f));
    MarksThrough(Advance(c, p, Patched(p, f)), c, p, Patched(p, f), f);
  }

  lemma PatchedMarks(p: Phase, f: Facts)
    ensures PatchedAs(Patched(p, f), p, f)
  {
  }

  lemma AdvancedMarks(c: Checkpoint, p: Phase, g: Facts)
    ensures AdvancedAs(Advance(c, p, g), c, p, g)
  {
    var d := Advance(c, p, g);
    assert d.bootstrapComplete == MarkedAs(g.bootstrapComplete, false, c.bootstrapComplete);
    assert d.apiKeyCreated == MarkedAs(g.apiKeyCreated, false, c.apiKeyCreated);
    assert d.openAIConfigured == MarkedAs(g.openAIConfigured, false, c.openAIConfigured);
    assert d.routeVerified == MarkedAs(g.routeVerified, false, c.routeVerified);
    assert d.ownershipVerified == MarkedAs(g.ownershipVerified, false, c.ownershipVerified);
    assert d.connectionIds == (if g.connectionIds.Some? then g.connectionIds.value else c.connectionIds);
  }

  lemma MarksThrough(d: Checkpoint, c: Checkpoint, p: Phase, g: Facts, f: Facts)
    requires PatchedAs(g, p, f) && AdvancedAs(d, c, p, g)
    ensures FinishedAs(d, c, p, f)
  {
  }

  /** A mark behind a phase: as reported, or else set by its own phase, or else as before. */
  predicate MarkedAs(reported: Option<bool>, own: bool, before: bool) {
    if reported.Some? then reported.value else own || before
  }

  /** A stored checkpoint is accepted exactly when its marks are those of the phases before its own, with its
      own and later ones as far as the phase allows; its texts say something; and a failure is of this very
      phase, which is not the last, and comes with its evidence. */
  lemma ValidExact(c: Checkpoint)
    ensures Valid(c) <==>
            && (c.bootstrapComplete ==> Order(c.phase) >= 1) && (!c.bootstrapComplete ==> Order(c.phase) <= 1)
            && (c.apiKeyCreated ==> Order(c.phase) >= 2) && (!c.apiKeyCreated ==> Order(c.phase) <= 2)
            && (c.openAIConfigured ==> Order(c.phase) >= 3) && (!c.openAIConfigured ==> Order(c.phase) <= 3)
            && (c.routeVerified ==> Order(c.phase) >= 4) && (!c.routeVerified ==> Order(c.phase) <= 4)
            && (c.ownershipVerified ==> Order(c.phase) >= 5) && (!c.ownershipVerified ==> Order(c.phase) <= 5)
            && (forall t :: t in c.connectionIds || Some(t) in {c.ownerUserId, c.apiToken, c.failureEvidence} ==>
              !Blank(t))
            && (c.failedPhase.Some? <==> c.failureEvidence.Some?)
            && (c.failedPhase.Some? ==> c.failedPhase == Some(c.phase) && !c.phase.Complete?)
  {
    assert Mark(c, 0) == c.bootstrapComplete && Mark(c, 1) == c.apiKeyCreated && Mark(c, 2) == c.openAIConfigured;
    assert Mark(c, 3) == c.routeVerified && Mark(c, 4) == c.ownershipVerified;
  }

  /** A started phase is accepted exactly when the checkpoint is ready for it. */
  lemma StartedAccepted(c: Checkpoint, p: Phase)
    requires !p.Complete?
    ensures Valid(Advance(c, p, NO_FACTS)) <==> ReadyFor(c, p)
  {
    var d := Advance(c, p, NO_FACTS);
    assert d == c.(phase := p, failedPhase := None, failureEvidence := None);
    assert MarksFit(d, p) <==> MarksFit(c, p) by {
      assert forall i :: 0 <= i < 5 ==> Mark(d, i) == Mark(c, i);
    }
  }

  /** The checkpoint a phase is run again from has the marks of the phases before it and all of the texts. */
  lemma RerunAccepted(c: Checkpoint, p: Phase)
    requires !p.Complete?
    ensures Valid(Rerun(c, p)) <==> TextsFit(c)
    ensures forall i :: 0 <= i < 5 ==> Mark(Rerun(c, p), i) == (i + 1 < Order(p))
    ensures var d := Rerun(c, p);
            && d.phase == p && d.failedPhase.None? && d.failureEvidence.None? && d.pending == c.pending
            && d.ownerUserId == c.ownerUserId && d.apiToken == c.apiToken && d.connectionIds == c.connectionIds
  {
    var d := Rerun(c, p);
    forall i | 0 <= i < 5
      ensures MarkFits(Mark(d, i), i, p)
    {
      assert Mark(d, i) == (Order(p) > i + 1);
    }
  }

  /** A failure record is accepted exactly when its evidence says something. */
  lemma FailureAccepted(c: Checkpoint, p: Phase, evidence: string)
    requires ReadyFor(c, p) && !p.Complete?
    ensures Valid(Failed(c, p, evidence)) <==> !Blank(evidence)
    ensures var d := Failed(c, p, evidence);
            && d.phase == p && d.failedPhase == Some(p) && d.failureEvidence == Some(evidence)
            && d.pending == c.pending && d.ownerUserId == c.ownerUserId && d.apiToken == c.apiToken
            && d.connectionIds == c.connectionIds && forall i :: 0 <= i < 5 ==> Mark(d, i) == Mark(c, i)
  {
    var d := Failed(c, p, evidence);
    assert TextsFit(d) && !d.phase.Complete?;
    assert MarksFit(d, p) by {
      assert forall i :: 0 <= i < 5 ==> Mark(d, i) == Mark(c, i);
    }
  }

  lemma ResetAccepted(c: Checkpoint, failed: Phase, evidence: string)
    requires TextsFit(c)
    ensures Reset(c, failed, evidence).Some? ==> Valid(Reset(c, failed, evidence).value)
    ensures Reset(c, failed, evidence).Some? <==> !failed.Complete? && !Blank(evidence)
    ensures Reset(c, failed, evidence).Some? ==>
              var d := Reset(c, failed, evidence).value;
              && d.phase == failed && d.failedPhase == Some(failed) && d.failureEvidence == Some(evidence)
              && d.pending == c.pending
              && (forall i :: 0 <= i < 5 ==> Mark(d, i) == (i + 1 < Order(failed)))
              && d.ownerUserId == (if d.apiKeyCreated then c.ownerUserId else None)
              && d.apiToken == (if d.apiKeyCreated then c.apiToken else None)
              && d.connectionIds == (if d.openAIConfigured then c.connectionIds else [])
  {
    if Reset(c, failed, evidence).Some? {
      var d := Reset(c, failed, evidence).value;
      forall i | 0 <= i < 5
        ensures MarkFits(Mark(d, i), i, failed)
      {
        assert Mark(d, i) == (Order(failed) > i + 1);
      }
    }
  }

  lemma CompleteAccepted(c: Checkpoint)
    requires ReadyFor(c, Phase.Complete)
    ensures Valid(Advance(c, Phase.Complete,
        NO_FACTS.(routeVerified := Some(true), ownershipVerified := Some(true)))) <==>
            c.bootstrapComplete && c.apiKeyCreated && c.openAIConfigured
  {
    var d := Advance(c, Phase.Complete, NO_FACTS.(routeVerified := Some(true), ownershipVerified := Some(true)));
    assert Mark(d, 0) == c.bootstrapComplete && Mark(d, 1) == c.apiKeyCreated && Mark(d, 2) == c.openAIConfigured;
  }
}
