/** What a scoped call does, in its caller's own terms: the command is the caller's but for its address,
    and what a scope has written it reads back as it wrote it. */
module ScopedEffects {
  import opened AuthorityTypes
  import opened JournalSteps
  import opened JournalInvariant
  import opened JournalRuns
  import opened JournalEffects
  import opened ScopedStore

  // --------------------------------------------------- the caller's command

  /** A mapping without the metadata that only the store itself writes. */
  function Plainly(input: Input, key: string, chatId: string): Input {
    input.(chatId := ChatBack(input.chatId, key, chatId), observations := None)
  }

  /** A command with the key written back to the chat wherever it stands. */
  function WrittenBack(cmd: Command, key: string, chatId: string): Command {
    match cmd
    case Store(input) => Store(Plainly(input, key, chatId))
    case BeginReassignment(c, current, next, target) =>
      BeginReassignment(ChatBack(c, key, chatId), current, next, target)
    case RollBack(c, current) => RollBack(ChatBack(c, key, chatId), current)
    case ReserveOperation(op) => ReserveOperation(op.(chatId := ChatBack(op.chatId, key, chatId)))
    case Attach(c, ingress, sessionId, sessionFile, attachment) =>
      Attach(ChatBack(c, key, chatId), ingress, sessionId, sessionFile, attachment)
    case MoveProvisional(c, ingress, state, detail) => MoveProvisional(ChatBack(c, key, chatId), ingress, state, detail)
    case Publish(op, mapping) =>
      Publish(op.(chatId := ChatBack(op.chatId, key, chatId)), Plainly(mapping, key, chatId))
    case Begin(c, oid, kind, detail) => Begin(ChatBack(c, key, chatId), oid, kind, detail)
    case Acknowledge(c, name, hash, successor) => Acknowledge(ChatBack(c, key, chatId), name, hash, successor)
    case Transition(c, name, state, detail, result) =>
      Transition(ChatBack(c, key, chatId), name, state, detail,
        if result.Some? then Some(ResultSeen(result.value, key, chatId)) else None)
    case CompleteWithMapping(c, name, hash, mapping, outcome) =>
      CompleteWithMapping(ChatBack(c, key, chatId), name, hash, Plainly(mapping, key, chatId),
        ResultSeen(outcome, key, chatId))
  }

  /** The chat every part of the command names. */
  predicate NamesChatOnly(cmd: Command, chatId: string) {
    CheckedChat(cmd) == chatId &&
    match cmd
    case Publish(op, mapping) => mapping.chatId == chatId
    case CompleteWithMapping(_, _, _, mapping, outcome) => mapping.chatId == chatId && outcome.mapping.chatId == chatId
    case Transition(_, _, _, _, result) => result.Some? ==> result.value.mapping.chatId == chatId
    case _ => true
  }

  /** A mapping that goes through a scope carries exactly that scope's metadata. */
  predicate Stamped(input: Input, scope: Scope) {
    input.observations == Some(Observations(Some(StoredScope(scope.principalId, Some(scope.chatId))), None, ""))
  }

  predicate AllStamped(cmd: Command, scope: Scope) {
    match cmd
    case Store(input) => Stamped(input, scope)
    case Publish(_, mapping) => Stamped(mapping, scope)
    case CompleteWithMapping(_, _, _, mapping, _) => Stamped(mapping, scope)
    case _ => true
  }

  /** The command a scoped call performs is the caller's with the scope's key in the place of its chat:
      written back it is the caller's own, every part of it names the key alone, and its mapping carries
      that scope's metadata and nothing else. */
  lemma ForScopeUndone(cmd: Command, scope: Scope, key: string)
    requires KeyOfScope(scope) == Some(key) && ForScope(cmd, scope, key).Some?
    requires CheckedChat(cmd) == scope.chatId
    ensures var own := ForScope(cmd, scope, key).value;
            && WrittenBack(own, key, scope.chatId) == WrittenBack(cmd, key, scope.chatId)
            && NamesChatOnly(own, key) && AllStamped(own, scope)
  {
    match cmd
    case Transition(_, _, _, _, result) =>
      if result.Some? {
        ResultUndone(result.value, scope, key);
      }
    case CompleteWithMapping(_, _, _, _, outcome) => ResultUndone(outcome, scope, key);
    case _ =>
  }

  lemma ResultUndone(result: OperationResult, scope: Scope, key: string)
    requires ResultForScope(result, scope, key).Some?
    ensures var own := ResultForScope(result, scope, key).value;
            && ResultSeen(own, key, scope.chatId) == ResultSeen(result, key, scope.chatId)
            && own.mapping.chatId == key
  {
    var own := ResultForScope(result, scope, key).value;
    if result.correlation.Some? && "chatId" in result.correlation.value {
      assert own.correlation.value["chatId" := scope.chatId] == result.correlation.value["chatId" := scope.chatId];
    }
  }

  /** A scoped call is refused for its address or for the key, or performs a command that is the caller's
      own once written back. */
  lemma ScopedPerforms(d: Document, scope: Scope, cmd: Command, ids: seq<string>)
    requires CheckedChat(cmd) == scope.chatId
    ensures var called, key := CallStep(d, Scoped(scope, cmd), ids), KeyOfScope(scope);
            && (key.None? ==> called == Called(d, Mismatched))
            && (key.Some? && !ScopedAvailable(d, key.value, scope) ==> called == Called(d, Unavailable))
            && (key.Some? && ScopedAvailable(d, key.value, scope) && !Addressed(cmd, scope, key.value) ==>
                  called == Called(d, Mismatched))
            && (key.Some? && ScopedAvailable(d, key.value, scope) && Addressed(cmd, scope, key.value) ==>
                  exists own ::
                    && WrittenBack(own, key.value, scope.chatId) == WrittenBack(cmd, key.value, scope.chatId)
                    && NamesChatOnly(own, key.value) && AllStamped(own, scope)
                    && called == Called(Perform(d, Do(own)), Done(StepOf(d, own).outcome)))
  {
    var key := KeyOfScope(scope);
    if key.Some? && ForScope(cmd, scope, key.value).Some? {
      ForScopeUndone(cmd, scope, key.value);
    }
  }

  predicate OwnMapping(input: Input, scope: Scope) {
    input.chatId == scope.chatId &&
    (input.observations.Some? && input.observations.value.scope.Some? ==>
       input.observations.value.scope.value.principalId == scope.principalId)
  }

  /** What the call carries is of its own chat and principal; a result may name the chat by its key. */
  predicate Addressed(cmd: Command, scope: Scope, key: string) {
    match cmd
    case Store(input) => OwnMapping(input, scope)
    case ReserveOperation(op) => op.chatId == scope.chatId
    case Publish(op, mapping) => op.chatId == scope.chatId && OwnMapping(mapping, scope)
    case Transition(_, _, _, _, result) => result.Some? ==> result.value.mapping.chatId in {scope.chatId, key}
    case CompleteWithMapping(_, _, _, mapping, outcome) =>
      OwnMapping(mapping, scope) && outcome.mapping.chatId in {scope.chatId, key}
    case _ => true
  }

  // ------------------------------------------------------------ round trips

  /** The record under a scope's key after a command of that key: still the scope's, and live. */
  lemma ScopeStays(d: Document, scope: Scope, name: string, state: OperationState, detail: Option<string>,
                   result: Option<OperationResult>)
    requires KeyOfScope(scope).Some? && ScopedAvailable(d, KeyOfScope(scope).value, scope)
    requires TransitionStep(d, KeyOfScope(scope).value, name, state, detail, result).outcome.Accepted?
    ensures var d' := TransitionStep(d, KeyOfScope(scope).value, name, state, detail, result).doc;
            && ScopedAvailable(d', KeyOfScope(scope).value, scope) && KeyOfScope(scope).value in d'.records
            && KeyOfScope(scope).value in d.records
  {
  }

  /** A result that speaks of its own chat by the caller's name is read back as it was written. */
  lemma OwnResultSeen(result: OperationResult, scope: Scope, key: string)
    requires ResultForScope(result, scope, key).Some?
    requires result.mapping.chatId == scope.chatId
    requires result.correlation.Some? && "chatId" in result.correlation.value ==>
              result.correlation.value["chatId"] != key
    ensures ResultSeen(ResultForScope(result, scope, key).value, key, scope.chatId) == result
  {
    ResultUndone(result, scope, key);
    if result.correlation.Some? && "chatId" in result.correlation.value {
      assert result.correlation.value["chatId" := result.correlation.value["chatId"]] == result.correlation.value;
    }
    assert ResultSeen(result, key, scope.chatId) == result;
  }

  /** A scope that moves an operation reads it back in the state, with the detail and the very result it
      gave, under its own chat. */
  lemma ScopedTransitionReadBack(d: Document, scope: Scope, name: string, state: OperationState,
                                 detail: Option<string>, result: Option<OperationResult>, ids: seq<string>)
    requires Inv(d)
    requires CallStep(d, Scoped(scope, Transition(scope.chatId, name, state, detail, result)), ids).reply ==
        Done(Accepted)
    ensures var d' := CallStep(d, Scoped(scope, Transition(scope.chatId, name, state, detail, result)), ids).doc;
            var before, after := ScopedOperation(d, scope, name), ScopedOperation(d', scope, name);
            && before.Some? && after.Some?
            && after.value.oid == before.value.oid && after.value.kind == before.value.kind
            && after.value.state == state
            && after.value.detail == (if detail.Some? then detail else before.value.detail)
            && after.value.result ==
                 (if result.Some? then Some(ResultSeen(result.value, KeyOfScope(scope).value, scope.chatId))
                  else before.value.result)
            && (!state.Complete? ==> after.value.successor == before.value.successor)
            && (state.Complete? ==> after.value.successor.None? && after.value.result.Some?)
  {
    var own := TransitionUnder(d, scope, name, state, detail, result, ids);
    TransitionReadBack(d, KeyOfScope(scope).value, name, state, detail, own);
    ScopeStays(d, scope, name, state, detail, own);
  }

  lemma TransitionUnder(d: Document, scope: Scope, name: string, state: OperationState,
                        detail: Option<string>, result: Option<OperationResult>, ids: seq<string>)
    returns (own: Option<OperationResult>)
    requires CallStep(d, Scoped(scope, Transition(scope.chatId, name, state, detail, result)), ids).reply ==
        Done(Accepted)
    ensures KeyOfScope(scope).Some? && ScopedAvailable(d, KeyOfScope(scope).value, scope)
    ensures TransitionStep(d, KeyOfScope(scope).value, name, state, detail, own) ==
            Step(CallStep(d, Scoped(scope, Transition(scope.chatId, name, state, detail, result)), ids).doc, Accepted)
    ensures result.None? <==> own.None?
    ensures result.Some? ==>
              ResultSeen(own.value, KeyOfScope(scope).value, scope.chatId) ==
              ResultSeen(result.value, KeyOfScope(scope).value, scope.chatId)
  {
    var key := KeyOfScope(scope).value;
    own := if result.Some? then ResultForScope(result.value, scope, key) else None;
    if result.Some? {
      ResultUndone(result.value, scope, key);
    }
  }

  /** A scope that stores a mapping reads that mapping: a record scoped for it alone that holds what it
      gave, under its own chat. */
  lemma ScopedStoreReadBack(d: Document, scope: Scope, input: Input, admin: Option<string>, ids: seq<string>)
    requires CallStep(d, Scoped(scope, Store(input)), ids).reply == Done(Accepted)
    ensures var read := GetScoped(CallStep(d, Scoped(scope, Store(input)), ids).doc, scope, admin);
            && read.Some? && IsScopedFor(read.value, scope) && StandingOf(read.value).Active?
            && Some(read.value.chatId) == KeyOfScope(scope) && input.chatId == scope.chatId
            && read.value.projectId == input.projectId && read.value.sessionId == input.sessionId
            && read.value.operationId == input.operationId && read.value.payload == input.payload
  {
    var key := KeyOfScope(scope).value;
    var own := InputForScope(input, scope, key).value;
    StoredIsHeld(d, own);
    assert CallStep(d, Scoped(scope, Store(input)), ids).doc == StoreStep(d, own).doc;
  }

  lemma StoredIsHeld(d: Document, own: Input)
    requires StoreStep(d, own).outcome.Accepted? && own.observations.Some?
    ensures var d' := StoreStep(d, own).doc;
            own.chatId in d'.records && HoldsMapping(d'.records[own.chatId], own)
  {
  }
}
