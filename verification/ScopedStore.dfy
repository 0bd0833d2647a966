/** The mapping store: each principal's chats under their own keys, and keys that
    are retired for good. */
module ScopedStore {
  import opened AuthorityTypes
  import opened RelationalValidity
  import opened JournalSteps
  import opened JournalInvariant
  import opened ReassignmentSafety
  import opened JournalRuns
  import opened DocumentLists
  import opened Journal
  import opened ScopeKey
  import Bootstrap

  datatype Scope = Scope(principalId: string, chatId: string)

  function KeyOfScope(scope: Scope): Option<string> {
    CanonicalKey(scope.principalId, scope.chatId)
  }

  /** Reading a record's retirement or scope may find metadata that contradicts its key. */
  datatype Standing = Active | Retired | Corrupt

  function StandingOf(r: Record): Standing {
    match r.observations.retirement
    case None => Active
    case Some(t) => if CanonicalKey(t.principalId, t.chatId) == Some(r.chatId) then Retired else Corrupt
  }

  predicate IsScopedFor(r: Record, scope: Scope) {
    && r.observations.scope.Some? && r.observations.scope.value.chatId.Some?
    && CanonicalKey(r.observations.scope.value.principalId, r.observations.scope.value.chatId.value) == Some(r.chatId)
    && r.observations.scope.value == StoredScope(scope.principalId, Some(scope.chatId))
  }

  // ------------------------------------------------------------------ calls

  /** A store call names its chat as its caller knows it; a scoped one is rewritten to its key. */
  datatype Call = Scoped(scope: Scope, cmd: Command) | Legacy(cmd: Command) | Retire(scope: Scope)

  datatype Reply = Done(outcome: Outcome) | Unavailable | Mismatched

  datatype Called = Called(doc: Document, reply: Reply)

  predicate ScopedAvailable(d: Document, key: string, scope: Scope) {
    key in d.records ==> IsScopedFor(d.records[key], scope) && StandingOf(d.records[key]).Active?
  }

  predicate LegacyAvailable(d: Document, chatId: string) {
    chatId in d.records ==> StandingOf(d.records[chatId]).Active?
  }

  function InputForScope(input: Input, scope: Scope, key: string): Option<Input> {
    if input.chatId != scope.chatId then None
    else if input.observations.Some? && input.observations.value.scope.Some?
            && input.observations.value.scope.value.principalId != scope.principalId then None
    else Some(input.(chatId := key,
      observations := Some(Observations(Some(StoredScope(scope.principalId, Some(scope.chatId))), None, ""))))
  }

  function DraftForScope(op: Draft, scope: Scope, key: string): Option<Draft> {
    if op.chatId != scope.chatId then None else Some(op.(chatId := key))
  }

  function ResultForScope(result: OperationResult, scope: Scope, key: string): Option<OperationResult> {
    if result.mapping.chatId != scope.chatId && result.mapping.chatId != key then None
    else
      var correlation :=
        if result.correlation.Some? && "chatId" in result.correlation.value
          && result.correlation.value["chatId"] == scope.chatId
        then Some(result.correlation.value["chatId" := key])
        else result.correlation;
      Some(result.(mapping := result.mapping.(chatId := key), correlation := correlation))
  }

  function ForScope(cmd: Command, scope: Scope, key: string): Option<Command> {
    match cmd
    case Store(input) =>
      var i := InputForScope(input, scope, key);
      if i.Some? then Some(Store(i.value)) else None
    case BeginReassignment(_, current, next, target) => Some(BeginReassignment(key, current, next, target))
    case RollBack(_, current) => Some(RollBack(key, current))
    case ReserveOperation(op) =>
      var o := DraftForScope(op, scope, key);
      if o.Some? then Some(ReserveOperation(o.value)) else None
    case Attach(_, ingress, sessionId, sessionFile, attachment) =>
      Some(Attach(key, ingress, sessionId, sessionFile, attachment))
    case MoveProvisional(_, ingress, state, detail) => Some(MoveProvisional(key, ingress, state, detail))
    case Publish(op, mapping) =>
      var o, i := DraftForScope(op, scope, key), InputForScope(mapping, scope, key);
      if o.Some? && i.Some? then Some(Publish(o.value, i.value)) else None
    case Begin(_, oid, kind, detail) => Some(Begin(key, oid, kind, detail))
    case Acknowledge(_, name, hash, successor) => Some(Acknowledge(key, name, hash, successor))
    case Transition(_, name, state, detail, result) =>
      if result.None? then Some(Transition(key, name, state, detail, None))
      else
        var r := ResultForScope(result.value, scope, key);
        if r.Some? then Some(Transition(key, name, state, detail, r)) else None
    case CompleteWithMapping(_, name, hash, mapping, outcome) =>
      var i, r := InputForScope(mapping, scope, key), ResultForScope(outcome, scope, key);
      if i.Some? && r.Some? then Some(CompleteWithMapping(key, name, hash, i.value, r.value)) else None
  }

  /** The chat whose availability an unscoped call checks. */
  function CheckedChat(cmd: Command): string {
    match cmd
    case Store(input) => input.chatId
    case BeginReassignment(chatId, _, _, _) => chatId
    case RollBack(chatId, _) => chatId
    case ReserveOperation(op) => op.chatId
    case Attach(chatId, _, _, _, _) => chatId
    case MoveProvisional(chatId, _, _, _) => chatId
    case Publish(op, _) => op.chatId
    case Begin(chatId, _, _, _) => chatId
    case Acknowledge(chatId, _, _, _) => chatId
    case Transition(chatId, _, _, _, _) => chatId
    case CompleteWithMapping(chatId, _, _, _, _) => chatId
  }

  /** Some calls carry a mapping besides the chat they check. */
  predicate OneChat(cmd: Command) {
    match cmd
    case Publish(op, mapping) => mapping.chatId == op.chatId
    case CompleteWithMapping(chatId, _, _, mapping, _) => mapping.chatId == chatId
    case _ => true
  }

  function RetiredRecord(r: Record, scope: Scope, provisionalIds: seq<string>): Record {
    r.(journal := [],
       reassignment := if InProgress?(Some(r)) then None else r.reassignment,
       observations := r.observations.(retirement := Some(
         Retirement(scope.principalId, scope.chatId, OperationIds(r.journal), provisionalIds))))
  }

  function OperationIds(ops: seq<Operation>): seq<string> {
    seq(|ops|, i requires 0 <= i < |ops| => ops[i].oid.id)
  }

  function RetiredDocument(d: Document, key: string, scope: Scope, provisionalIds: seq<string>): Document
    requires key in d.records
  {
    Document(d.records[key := RetiredRecord(d.records[key], scope, provisionalIds)],
             map k | k in d.provisional && d.provisional[k].chatId != key :: d.provisional[k])
  }

  /** `provisionalIds` lists the ids of the key's provisional operations in the store's own order. */
  function CallStep(d: Document, call: Call, provisionalIds: seq<string>): Called {
    match call
    case Scoped(scope, cmd) =>
      var key := KeyOfScope(scope);
      if key.None? then Called(d, Mismatched)
      else if !ScopedAvailable(d, key.value, scope) then Called(d, Unavailable)
      else
        var c := ForScope(cmd, scope, key.value);
        if c.None? then Called(d, Mismatched)
        else Called(Perform(d, Do(c.value)), Done(StepOf(d, c.value).outcome))
    case Legacy(cmd) =>
      if !LegacyAvailable(d, CheckedChat(cmd)) then Called(d, Unavailable)
      else Called(Perform(d, Do(cmd)), Done(StepOf(d, cmd).outcome))
    case Retire(scope) =>
      var key := KeyOfScope(scope);
      if key.None? then Called(d, Mismatched)
      else if key.value !in d.records || !IsScopedFor(d.records[key.value], scope)
        || !StandingOf(d.records[key.value]).Active?
        then Called(d, Unavailable)
      else Called(RetiredDocument(d, key.value, scope, provisionalIds), Done(Accepted))
  }

  function GetScoped(d: Document, scope: Scope, admin: Option<string>): Option<Record> {
    var key := KeyOfScope(scope);
    if key.Some? && key.value in d.records && IsScopedFor(d.records[key.value], scope)
      && StandingOf(d.records[key.value]).Active?
    then Some(d.records[key.value])
    else if key.Some? && admin == Some(scope.principalId) && scope.chatId in d.records
            && !IsScopedFor(d.records[scope.chatId], scope) && StandingOf(d.records[scope.chatId]).Active?
    then Some(d.records[scope.chatId])
    else None
  }

  function GetLegacy(d: Document, chatId: string): Option<Record> {
    if chatId in d.records && StandingOf(d.records[chatId]).Active? then Some(d.records[chatId]) else None
  }

  /** Without the white space around it. */
  function Trimmed(s: string): string {
    if s == "" then ""
    else if Bootstrap.Whitespace(s[0]) then Trimmed(s[1..])
    else if Bootstrap.Whitespace(s[|s| - 1]) then Trimmed(s[..|s| - 1])
    else s
  }

  lemma {:induction false} TrimmedBlank(s: string)
    ensures Trimmed(s) == "" <==> Bootstrap.Blank(s)
    decreases |s|
  {
    if s != "" && Bootstrap.Whitespace(s[0]) {
      TrimmedBlank(s[1..]);
      assert forall i :: 0 < i < |s| ==> s[i] == s[1..][i - 1];
    } else if s != "" {
      assert !Bootstrap.Blank(s);
      TrimmedStays(s);
    }
  }

  lemma {:induction false} TrimmedStays(s: string)
    requires s != "" && !Bootstrap.Whitespace(s[0])
    ensures Trimmed(s) != ""
    decreases |s|
  {
    if Bootstrap.Whitespace(s[|s| - 1]) {
      assert s[..|s| - 1][0] == s[0];
      TrimmedStays(s[..|s| - 1]);
    }
  }

  /** A record is read by the one scope it is scoped for, or else by the administrator asking for it by its
      own name: two scopes read the same record only if one of them is the administrator doing that. */
  lemma WhoReads(d: Document, scope: Scope, other: Scope, admin: Option<string>)
    requires WellKeyed(d) && GetScoped(d, scope, admin).Some?
    ensures var r := GetScoped(d, scope, admin).value;
            && d.RecordOf(r.chatId) == Some(r) && StandingOf(r).Active?
            && ((Some(r.chatId) == KeyOfScope(scope) && IsScopedFor(r, scope)) || ReadsByName(r, scope, admin))
            && (other != scope && GetScoped(d, other, admin) == Some(r) ==>
                  ReadsByName(r, scope, admin) || ReadsByName(r, other, admin))
            && (r.observations.scope.None? ==> ReadsByName(r, scope, admin))
  {
    var r := GetScoped(d, scope, admin).value;
    if other != scope && GetScoped(d, other, admin) == Some(r)
       && Some(r.chatId) == KeyOfScope(scope) && Some(r.chatId) == KeyOfScope(other) {
      CanonicalKeyInjective(scope.principalId, scope.chatId, other.principalId, other.chatId);
    }
  }

  /** A scope's own live record is read whoever is the administrator; without one the administrator reads the
      live chat of that name, unless it is scoped for the very scope. */
  lemma ReadFinds(d: Document, scope: Scope, admin: Option<string>, r: Record)
    requires KeyOfScope(scope).Some? && StandingOf(r).Active?
    ensures d.RecordOf(KeyOfScope(scope).value) == Some(r) && IsScopedFor(r, scope) ==>
              GetScoped(d, scope, admin) == Some(r)
    ensures GetScoped(d, scope, None).None? && admin == Some(scope.principalId)
              && d.RecordOf(scope.chatId) == Some(r) && !IsScopedFor(r, scope) ==>
            GetScoped(d, scope, admin) == Some(r)
    ensures d.RecordOf(r.chatId) == Some(r) ==> GetLegacy(d, r.chatId) == Some(r)
  {
  }

  predicate ReadsByName(r: Record, scope: Scope, admin: Option<string>) {
    admin == Some(scope.principalId) && scope.chatId == r.chatId && !IsScopedFor(r, scope)
  }

  // ------------------------------------------------- reading under a scope

  function ChatBack(c: string, key: string, chatId: string): string {
    if c == key then chatId else c
  }

  /** A result as a scope reads it: its key is the caller's chat again. */
  function ResultSeen(result: OperationResult, key: string, chatId: string): OperationResult {
    result.(mapping := result.mapping.(chatId := ChatBack(result.mapping.chatId, key, chatId)),
            correlation := if result.correlation.Some? && "chatId" in result.correlation.value
                           then Some(result.correlation.value["chatId" :=
                                  ChatBack(result.correlation.value["chatId"], key, chatId)])
                           else result.correlation)
  }

  function OperationSeen(o: Operation, key: string, chatId: string): Operation {
    o.(result := if o.result.Some? then Some(ResultSeen(o.result.value, key, chatId)) else None)
  }

  /** An operation of a scope's own live record, as the scope reads it. */
  function ScopedOperation(d: Document, scope: Scope, name: string): Option<Operation> {
    var key := KeyOfScope(scope);
    if key.None? || key.value !in d.records || !ScopedAvailable(d, key.value, scope) then None
    else
      var found := LookupOperation(d, key.value, name);
      if found.None? then None else Some(OperationSeen(found.value, key.value, scope.chatId))
  }

  // -------------------------------------------------------------- isolation

  /** Only entries of one chat differ. */
  ghost predicate OnlyAt(d: Document, d': Document, key: string) {
    && (forall c :: c != key ==> d'.RecordOf(c) == d.RecordOf(c))
    && (forall k: Key :: k.chatId != key ==> d'.ProvisionalAt(k) == d.ProvisionalAt(k))
  }

  lemma StoreOnlyAt(d: Document, input: Input)
    ensures OnlyAt(d, StoreStep(d, input).doc, input.chatId)
  {
  }

  lemma PublishOnlyAt(d: Document, op: Draft, mapping: Input)
    requires mapping.chatId == op.chatId
    ensures OnlyAt(d, PublishStep(d, op, mapping).doc, op.chatId)
  {
    StoreOnlyAt(d, mapping.(journal := [PublishedOperation(op, mapping)]));
  }

  lemma ReserveOnlyAt(d: Document, op: Draft)
    ensures OnlyAt(d, ReserveStep(d, op).doc, op.chatId)
  {
  }

  lemma TransitionOnlyAt(d: Document, chatId: string, name: string, state: OperationState,
                         detail: Option<string>, result: Option<OperationResult>)
    ensures OnlyAt(d, TransitionStep(d, chatId, name, state, detail, result).doc, chatId)
  {
  }

  lemma ReassignOnlyAt(d: Document, chatId: string, current: string, next: string, target: Option<Target>)
    ensures OnlyAt(d, BeginReassignmentStep(d, chatId, current, next, target).doc, chatId)
    ensures OnlyAt(d, RollbackStep(d, chatId, current).doc, chatId)
  {
  }

  /** A command changes entries of the chat it checks only, as long as its mapping is of that chat. */
  lemma CommandOnlyAt(d: Document, cmd: Command)
    requires OneChat(cmd)
    ensures OnlyAt(d, Perform(d, Do(cmd)), CheckedChat(cmd))
  {
    if StepOf(d, cmd).outcome.Rejected? {
      return;
    }
    match cmd
    case Store(input) => StoreOnlyAt(d, input);
    case BeginReassignment(chatId, current, next, target) => ReassignOnlyAt(d, chatId, current, next, target);
    case RollBack(chatId, current) => ReassignOnlyAt(d, chatId, current, current, None);
    case ReserveOperation(op) => ReserveOnlyAt(d, op);
    case Publish(op, mapping) => PublishOnlyAt(d, op, mapping);
    case Transition(chatId, name, state, detail, result) => TransitionOnlyAt(d, chatId, name, state, detail, result);
    case CompleteWithMapping(chatId, name, hash, mapping, outcome) =>
      CompletionOnlyAt(d, chatId, name, hash, mapping, outcome);
    case _ =>
  }

  lemma CompletionOnlyAt(d: Document, chatId: string, name: string, hash: string, mapping: Input,
                         outcome: OperationResult)
    requires mapping.chatId == chatId
    requires CompleteWithMappingStep(d, chatId, name, hash, mapping, outcome).outcome.Accepted?
    ensures OnlyAt(d, CompleteWithMappingStep(d, chatId, name, hash, mapping, outcome).doc, chatId)
  {
    var mid := TransitionStep(d, chatId, name, Complete, Some(hash), Some(outcome)).doc;
    TransitionOnlyAt(d, chatId, name, Complete, Some(hash), Some(outcome));
    StoreOnlyAt(mid, mapping);
  }

  lemma ForScopeIsOwn(cmd: Command, scope: Scope, key: string)
    ensures ForScope(cmd, scope, key).Some? ==>
              OneChat(ForScope(cmd, scope, key).value) && CheckedChat(ForScope(cmd, scope, key).value) == key
  {
  }

  /** A scoped call, retirement included, changes only entries under its own key; and another
      scope has another key. */
  lemma ScopeIsolation(d: Document, call: Call, ids: seq<string>, other: Scope)
    requires WellKeyed(d) && !call.Legacy? && KeyOfScope(call.scope).Some?
    ensures OnlyAt(d, CallStep(d, call, ids).doc, KeyOfScope(call.scope).value)
    ensures other != call.scope ==> KeyOfScope(other) != KeyOfScope(call.scope)
  {
    var key := KeyOfScope(call.scope).value;
    if other != call.scope && KeyOfScope(other) == KeyOfScope(call.scope) {
      CanonicalKeyInjective(call.scope.principalId, call.scope.chatId, other.principalId, other.chatId);
    }
    if call.Scoped? {
      ForScopeIsOwn(call.cmd, call.scope, key);
      if ForScope(call.cmd, call.scope, key).Some? {
        CommandOnlyAt(d, ForScope(call.cmd, call.scope, key).value);
      }
    }
  }

  /** What a scope reads is not changed by another scope's call, retirement included; the administrator's
      reads of unscoped chats are not either, unless the chat's name is the other scope's key. */
  lemma ReadIsolation(d: Document, call: Call, ids: seq<string>, other: Scope, admin: Option<string>)
    requires WellKeyed(d) && !call.Legacy? && KeyOfScope(call.scope).Some? && other != call.scope
    ensures admin != Some(other.principalId) || Some(other.chatId) != KeyOfScope(call.scope) ==>
              GetScoped(CallStep(d, call, ids).doc, other, admin) == GetScoped(d, other, admin)
  {
    var d' := CallStep(d, call, ids).doc;
    ScopeIsolation(d, call, ids, other);
    assert KeyOfScope(other).Some? ==> d'.RecordOf(KeyOfScope(other).value) == d.RecordOf(KeyOfScope(other).value);
    assert Some(other.chatId) != KeyOfScope(call.scope) ==> d'.RecordOf(other.chatId) == d.RecordOf(other.chatId);
  }

  // ------------------------------------------------------------- retirement

  /** The key holds this retired record, at rest, and nothing provisional. */
  ghost predicate Frozen(d: Document, key: string, r: Record) {
    && d.RecordOf(key) == Some(r) && r.chatId == key && StandingOf(r).Retired?
    && r.journal == [] && !InProgress?(Some(r))
    && forall k :: k in d.provisional ==> k.chatId != key
  }

  /** A retirement empties the chat's journal, notes what was in it and what was reserved, ends a pending move,
      and keeps everything else; the chat's reservations are gone, and nothing else changes. */
  lemma RetireReadBack(d: Document, scope: Scope, ids: seq<string>)
    requires CallStep(d, Retire(scope), ids).reply == Done(Accepted)
    ensures var d', key := CallStep(d, Retire(scope), ids).doc, KeyOfScope(scope).value;
            && key in d.records && d'.records.Keys == d.records.Keys
            && (forall c :: c in d.records && c != key ==> d'.records[c] == d.records[c])
            && (forall k :: k in d'.provisional <==> k in d.provisional && d.provisional[k].chatId != key)
            && (forall k :: k in d'.provisional ==> d'.provisional[k] == d.provisional[k])
            && var r, r' := d.records[key], d'.records[key];
            && r'.chatId == r.chatId && r'.projectId == r.projectId && r'.sessionId == r.sessionId
            && r'.operationId == r.operationId && r'.payload == r.payload && r'.journal == []
            && r'.reassignment == (if InProgress?(Some(r)) then None else r.reassignment)
            && r'.observations.scope == r.observations.scope && r'.observations.rest == r.observations.rest
            && r'.observations.retirement.Some?
            && var t := r'.observations.retirement.value;
            && t.principalId == scope.principalId && t.chatId == scope.chatId && t.provisionalIds == ids
            && |t.operationIds| == |r.journal|
            && forall i :: 0 <= i < |r.journal| ==> t.operationIds[i] == r.journal[i].oid.id
  {
  }

  /** A retirement is granted for the scope's own live record only. */
  lemma RetireAccepted(d: Document, scope: Scope, ids: seq<string>)
    ensures CallStep(d, Retire(scope), ids).reply == Done(Accepted) <==>
            && KeyOfScope(scope).Some? && KeyOfScope(scope).value in d.records
            && IsScopedFor(d.records[KeyOfScope(scope).value], scope)
            && d.records[KeyOfScope(scope).value].observations.retirement.None?
    ensures CallStep(d, Retire(scope), ids).reply != Done(Accepted) ==> CallStep(d, Retire(scope), ids).doc == d
  {
  }

  lemma RetireFreezes(d: Document, scope: Scope, ids: seq<string>)
    requires WellKeyed(d) && CallStep(d, Retire(scope), ids).reply == Done(Accepted)
    ensures Frozen(CallStep(d, Retire(scope), ids).doc, KeyOfScope(scope).value,
                   RetiredRecord(d.records[KeyOfScope(scope).value], scope, ids))
  {
  }

  /** What is frozen is out of reach: no call touches it, and nobody reads it. */
  lemma FrozenUnreachable(d: Document, key: string, r: Record, scope: Scope, cmd: Command, ids: seq<string>)
    requires Frozen(d, key, r) && KeyOfScope(scope) == Some(key)
    ensures CallStep(d, Scoped(scope, cmd), ids) == Called(d, Unavailable)
    ensures CallStep(d, Retire(scope), ids) == Called(d, Unavailable)
    ensures CheckedChat(cmd) == key ==> CallStep(d, Legacy(cmd), ids) == Called(d, Unavailable)
    ensures GetLegacy(d, key).None?
    ensures forall admin :: scope.chatId != key ==>
              (GetScoped(d, scope, admin).Some? ==> GetScoped(d, scope, admin) == d.RecordOf(scope.chatId))
    ensures GetScoped(d, scope, None).None?
  {
  }

  /** The chat whose record an accepted call writes; a completion and a publication into the current
      project write the one their mapping names. */
  function StoredChat(d: Document, cmd: Command): string {
    match cmd
    case Publish(op, mapping) =>
      if CommitsReassignment(d.RecordOf(op.chatId), mapping) then op.chatId else mapping.chatId
    case CompleteWithMapping(_, _, _, mapping, _) => mapping.chatId
    case _ => CheckedChat(cmd)
  }

  lemma FrozenElsewhere(d: Document, d': Document, changed: string, key: string, r: Record)
    requires Frozen(d, key, r) && OnlyAt(d, d', changed) && changed != key
    ensures Frozen(d', key, r)
  {
    forall k | k in d'.provisional
      ensures k.chatId != key
    {
      assert k.chatId == key ==> d'.ProvisionalAt(k) == d.ProvisionalAt(k);
    }
    assert d'.RecordOf(key) == d.RecordOf(key);
  }

  /** A store leaves a retired record alone exactly when it stores another chat's mapping. */
  lemma StoreFrozenExact(d: Document, mapping: Input, key: string, r: Record)
    requires Frozen(d, key, r) && StoreStep(d, mapping).outcome.Accepted?
    ensures Frozen(StoreStep(d, mapping).doc, key, r) <==> mapping.chatId != key
  {
    StoreOnlyAt(d, mapping);
    if mapping.chatId != key {
      FrozenElsewhere(d, StoreStep(d, mapping).doc, mapping.chatId, key, r);
    } else {
      assert |StoreStep(d, mapping).doc.records[key].journal| > 0 by {
        ImplicitThere(AppendJournal(r.journal, mapping.journal).value, mapping.operationId);
      }
    }
  }

  lemma ImplicitThere(journal: seq<Operation>, operationId: string)
    ensures |WithImplicit(journal, operationId)| > 0
  {
  }

  /** A publication checks the chat of its operation.  It leaves another, retired chat alone exactly when
      it commits a reassignment or its mapping does not name that chat. */
  lemma PublishFrozenExact(d: Document, op: Draft, mapping: Input, key: string, r: Record)
    requires Frozen(d, key, r) && op.chatId != key && PublishStep(d, op, mapping).outcome.Accepted?
    ensures Frozen(PublishStep(d, op, mapping).doc, key, r) <==>
            CommitsReassignment(d.RecordOf(op.chatId), mapping) || mapping.chatId != key
  {
    var d' := PublishStep(d, op, mapping).doc;
    if CommitsReassignment(d.RecordOf(op.chatId), mapping) {
      assert OnlyAt(d, d', op.chatId);
      FrozenElsewhere(d, d', op.chatId, key, r);
    } else {
      var stored := StoreStep(d, Publication(op, mapping)).doc;
      StoreFrozenExact(d, Publication(op, mapping), key, r);
      SameBut(stored, d', key, r, op.chatId);
    }
  }

  lemma SameBut(d: Document, d': Document, key: string, r: Record, other: string)
    requires d'.records == d.records && other != key
    requires forall k: Key :: k.chatId != other ==> d'.ProvisionalAt(k) == d.ProvisionalAt(k)
    ensures Frozen(d', key, r) <==> Frozen(d, key, r)
  {
    assert forall k: Key :: k.chatId == key ==> d'.ProvisionalAt(k) == d.ProvisionalAt(k);
  }

  lemma CompletionFrozenExact(d: Document, chatId: string, name: string, hash: string, mapping: Input,
                              outcome: OperationResult, key: string, r: Record)
    requires Frozen(d, key, r) && chatId != key
    requires CompleteWithMappingStep(d, chatId, name, hash, mapping, outcome).outcome.Accepted?
    ensures Frozen(CompleteWithMappingStep(d, chatId, name, hash, mapping, outcome).doc, key, r) <==>
              mapping.chatId != key
  {
    var mid := TransitionStep(d, chatId, name, Complete, Some(hash), Some(outcome)).doc;
    TransitionOnlyAt(d, chatId, name, Complete, Some(hash), Some(outcome));
    FrozenElsewhere(d, mid, chatId, key, r);
    StoreFrozenExact(mid, mapping, key, r);
  }

  /** An accepted unscoped call leaves a retired key as it is exactly when it writes another chat's record. */
  lemma LegacyFrozenExact(d: Document, cmd: Command, ids: seq<string>, key: string, r: Record)
    requires Frozen(d, key, r) && CallStep(d, Legacy(cmd), ids).reply == Done(Accepted)
    ensures Frozen(CallStep(d, Legacy(cmd), ids).doc, key, r) <==> StoredChat(d, cmd) != key
  {
    match cmd
    case Publish(op, mapping) => PublishFrozenExact(d, op, mapping, key, r);
    case CompleteWithMapping(chatId, name, hash, mapping, outcome) =>
      CompletionFrozenExact(d, chatId, name, hash, mapping, outcome, key, r);
    case _ =>
      CommandOnlyAt(d, cmd);
      FrozenElsewhere(d, CallStep(d, Legacy(cmd), ids).doc, CheckedChat(cmd), key, r);
  }

  lemma RefusedChangesNothing(d: Document, cmd: Command, ids: seq<string>)
    requires CallStep(d, Legacy(cmd), ids).reply != Done(Accepted)
    ensures CallStep(d, Legacy(cmd), ids).doc == d
  {
  }

  /** A scoped call never touches a retired key, its own or another's. */
  lemma ScopedKeeps(d: Document, call: Call, ids: seq<string>, key: string, r: Record)
    requires Frozen(d, key, r) && !call.Legacy?
    ensures Frozen(CallStep(d, call, ids).doc, key, r)
  {
    var own := KeyOfScope(call.scope);
    if call.Scoped? && own.Some? && own.value != key {
      ForScopeIsOwn(call.cmd, call.scope, own.value);
      if ForScope(call.cmd, call.scope, own.value).Some? {
        CommandOnlyAt(d, ForScope(call.cmd, call.scope, own.value).value);
        FrozenElsewhere(d, Perform(d, Do(ForScope(call.cmd, call.scope, own.value).value)), own.value, key, r);
      }
    }
  }

  lemma RestartKeepsFrozen(d: Document, key: string, r: Record)
    requires Frozen(d, key, r)
    ensures Frozen(ReconcileStep(d), key, r)
  {
    assert RestartedRecord(r) == r;
  }

  datatype StoreEvent = Invoke(call: Call, ids: seq<string>) | Reopen

  function After(d: Document, e: StoreEvent): Document {
    match e
    case Invoke(call, ids) => CallStep(d, call, ids).doc
    case Reopen => ReconcileStep(d)
  }

  function AfterAll(d: Document, events: seq<StoreEvent>): Document
    decreases |events|
  {
    if events == [] then d else AfterAll(After(d, events[0]), events[1..])
  }

  /** The event does not write the key's record through another chat's call. */
  predicate Spares(d: Document, e: StoreEvent, key: string) {
    e.Invoke? && e.call.Legacy? && CallStep(d, e.call, e.ids).reply == Done(Accepted) ==>
      StoredChat(d, e.call.cmd) != key
  }

  predicate AllSpare(d: Document, events: seq<StoreEvent>, key: string)
    decreases |events|
  {
    events == [] || (Spares(d, events[0], key) && AllSpare(After(d, events[0]), events[1..], key))
  }

  ghost predicate FrozenThroughout(d: Document, events: seq<StoreEvent>, key: string, r: Record)
    decreases |events|
  {
    Frozen(d, key, r) && (events != [] ==> FrozenThroughout(After(d, events[0]), events[1..], key, r))
  }

  lemma SparedExact(d: Document, e: StoreEvent, key: string, r: Record)
    requires Frozen(d, key, r)
    ensures Frozen(After(d, e), key, r) <==> Spares(d, e, key)
  {
    match e
    case Reopen => RestartKeepsFrozen(d, key, r);
    case Invoke(call, ids) =>
      if call.Legacy? {
        if CallStep(d, call, ids).reply == Done(Accepted) {
          LegacyFrozenExact(d, call.cmd, ids, key, r);
        } else {
          RefusedChangesNothing(d, call.cmd, ids);
        }
      } else {
        ScopedKeeps(d, call, ids, key, r);
      }
  }

  /** Once retired, always retired: through any calls on any key and any restarts, exactly as long as no
      unscoped completion or publication of another chat stores a mapping that names the retired key. */
  lemma {:induction false} RetiredForGood(d: Document, events: seq<StoreEvent>, key: string, r: Record)
    requires Frozen(d, key, r)
    ensures FrozenThroughout(d, events, key, r) <==> AllSpare(d, events, key)
    decreases |events|
  {
    if events != [] {
      SparedExact(d, events[0], key, r);
      if Frozen(After(d, events[0]), key, r) {
        RetiredForGood(After(d, events[0]), events[1..], key, r);
      }
    }
  }

  lemma {:induction false} ThroughoutToTheEnd(d: Document, events: seq<StoreEvent>, key: string, r: Record)
    requires FrozenThroughout(d, events, key, r)
    ensures Frozen(AfterAll(d, events), key, r)
    decreases |events|
  {
    if events != [] {
      ThroughoutToTheEnd(After(d, events[0]), events[1..], key, r);
    }
  }

  /** A retired record is handed to nobody, whichever scope asks and whoever is the administrator. */
  lemma FrozenUnread(d: Document, key: string, r: Record, other: Scope, admin: Option<string>)
    requires Frozen(d, key, r)
    ensures GetScoped(d, other, admin) != Some(r)
    ensures WellKeyed(d) && GetScoped(d, other, admin).Some? ==> GetScoped(d, other, admin).value.chatId != key
  {
  }

  /** From its retirement on a scope is out of reach: whatever spares its key in between, every later
      call of it is refused unchanged, and its record is read by nobody: not by an unscoped caller, not
      by the scope itself, not by an administrator. */
  lemma RetiredStaysRefused(d: Document, scope: Scope, ids: seq<string>, events: seq<StoreEvent>, cmd: Command,
                            later: seq<string>)
    requires WellKeyed(d) && CallStep(d, Retire(scope), ids).reply == Done(Accepted)
    requires AllSpare(CallStep(d, Retire(scope), ids).doc, events, KeyOfScope(scope).value)
    ensures var d', key := AfterAll(CallStep(d, Retire(scope), ids).doc, events), KeyOfScope(scope).value;
            && CallStep(d', Scoped(scope, cmd), later) == Called(d', Unavailable)
            && CallStep(d', Retire(scope), later) == Called(d', Unavailable)
            && (CheckedChat(cmd) == key ==> CallStep(d', Legacy(cmd), later) == Called(d', Unavailable))
            && GetLegacy(d', key).None? && GetScoped(d', scope, None).None?
            && (forall other: Scope, admin ::
                  && GetScoped(d', other, admin) != d'.RecordOf(key)
                  && (WellKeyed(d') && GetScoped(d', other, admin).Some? ==>
                        GetScoped(d', other, admin).value.chatId != key))
  {
    var retired, key := CallStep(d, Retire(scope), ids).doc, KeyOfScope(scope).value;
    var r := RetiredRecord(d.records[key], scope, ids);
    RetireFreezes(d, scope, ids);
    RetiredForGood(retired, events, key, r);
    ThroughoutToTheEnd(retired, events, key, r);
    var d' := AfterAll(retired, events);
    FrozenUnreachable(d', key, r, scope, cmd, later);
    forall other: Scope, admin
      ensures GetScoped(d', other, admin) != d'.RecordOf(key)
      ensures WellKeyed(d') && GetScoped(d', other, admin).Some? ==> GetScoped(d', other, admin).value.chatId != key
    {
      FrozenUnread(d', key, r, other, admin);
    }
  }

  // ---------------------------------------------------------------- revival

  /** The mapping hands over metadata of its own, without a valid retirement for the record. */
  predicate Overwrites(mapping: Input, r: Record) {
    mapping.observations.Some? && !StandingOf(r.(observations := mapping.observations.value)).Retired?
  }

  ghost predicate StillRetired(d: Document, key: string) {
    key in d.records && StandingOf(d.records[key]).Retired?
  }

  lemma StoreRevivalExact(d: Document, mapping: Input, key: string, r: Record)
    requires Frozen(d, key, r) && StoreStep(d, mapping).outcome.Accepted?
    ensures StillRetired(StoreStep(d, mapping).doc, key) <==> mapping.chatId != key || !Overwrites(mapping, r)
  {
    StoreOnlyAt(d, mapping);
    assert mapping.chatId != key ==> StoreStep(d, mapping).doc.RecordOf(key) == d.RecordOf(key);
  }

  /** An unscoped completion checks one chat and stores a mapping.  It ends the retirement of another
      chat exactly when the mapping names that chat and brings metadata of its own. */
  lemma CompletionRevivalExact(d: Document, chatId: string, name: string, hash: string, mapping: Input,
                               outcome: OperationResult, key: string, r: Record, ids: seq<string>)
    requires Frozen(d, key, r)
    requires CallStep(d, Legacy(CompleteWithMapping(chatId, name, hash, mapping, outcome)), ids).reply == Done(Accepted)
    ensures StillRetired(CallStep(d, Legacy(CompleteWithMapping(chatId, name, hash, mapping, outcome)), ids).doc,
        key) <==>
            mapping.chatId != key || !Overwrites(mapping, r)
  {
    var mid := TransitionStep(d, chatId, name, Complete, Some(hash), Some(outcome)).doc;
    TransitionOnlyAt(d, chatId, name, Complete, Some(hash), Some(outcome));
    FrozenElsewhere(d, mid, chatId, key, r);
    StoreRevivalExact(mid, mapping, key, r);
  }

  /** So does an unscoped publication, unless it commits a reassignment of its own chat. */
  lemma PublicationRevivalExact(d: Document, op: Draft, mapping: Input, key: string, r: Record, ids: seq<string>)
    requires Frozen(d, key, r) && CallStep(d, Legacy(Publish(op, mapping)), ids).reply == Done(Accepted)
    ensures StillRetired(CallStep(d, Legacy(Publish(op, mapping)), ids).doc, key) <==>
            CommitsReassignment(d.RecordOf(op.chatId), mapping) || mapping.chatId != key || !Overwrites(mapping, r)
  {
    if !CommitsReassignment(d.RecordOf(op.chatId), mapping) {
      StoreRevivalExact(d, Publication(op, mapping), key, r);
      assert CallStep(d, Legacy(Publish(op, mapping)), ids).doc.records ==
        StoreStep(d, Publication(op, mapping)).doc.records;
    }
  }

  const RETIRED_KEY := CanonicalKey("u", "x").value
  const NOT_SCOPED := Observations(None, None, "")
  const RETIRED_CHAT :=
    Record(RETIRED_KEY, "p", "s", "o", NOT_SCOPED.(retirement := Some(Retirement("u", "x", [], []))), "", [], None)
  const OPEN_CHAT := Record("a", "p", "s", "o", NOT_SCOPED, "",
    [Operation(OperationId("o", Some("o")), Prompt, Pending, None, None, None)], None)

  /** One unscoped completion in chat `a` whose mapping names a retired chat brings that chat back. */
  lemma CompletionRevives(outcome: OperationResult)
    ensures var d := Document(map["a" := OPEN_CHAT, RETIRED_KEY := RETIRED_CHAT], map[]);
            var mapping := Input(RETIRED_KEY, "p", "s", "n", Some(NOT_SCOPED), "", "", None, None, []);
            var called := CallStep(d, Legacy(CompleteWithMapping("a", "o", "h", mapping, outcome)), []);
            && Frozen(d, RETIRED_KEY, RETIRED_CHAT) && called.reply == Done(Accepted)
            && GetLegacy(d, RETIRED_KEY).None? && GetLegacy(called.doc, RETIRED_KEY).Some?
  {
    assert |RETIRED_KEY| > 1;
    var d := Document(map["a" := OPEN_CHAT, RETIRED_KEY := RETIRED_CHAT], map[]);
    assert d.records["a"] == OPEN_CHAT && d.records[RETIRED_KEY] == RETIRED_CHAT;
    assert "o" in Names(OPEN_CHAT.journal[0]);
    var mid := TransitionStep(d, "a", "o", Complete, Some("h"), Some(outcome));
    assert mid.outcome.Accepted? && mid.doc.records[RETIRED_KEY] == RETIRED_CHAT;
    var mapping := Input(RETIRED_KEY, "p", "s", "n", Some(NOT_SCOPED), "", "", None, None, []);
    assert Lineage(RETIRED_CHAT) == [];
    assert StoreStep(mid.doc, mapping).outcome.Accepted?;
  }

  const NEW_PROMPT := Draft(OperationId("n", None), Prompt, None, "a", "p", None, None, None)
  const TO_RETIRED := Input(RETIRED_KEY, "p", "s", "n", Some(NOT_SCOPED), "", "", None, None, [])
  const ONE_RESERVED := Document(map[RETIRED_KEY := RETIRED_CHAT], map[Key("a", "n") := Reserved(NEW_PROMPT)])

  lemma ReservedStores()
    ensures RETIRED_KEY != "a" && StoreStep(ONE_RESERVED, Publication(NEW_PROMPT, TO_RETIRED)).outcome.Accepted?
  {
    assert |RETIRED_KEY| > 1;
    var o := PublishedOperation(NEW_PROMPT, TO_RETIRED);
    assert Lineage(RETIRED_CHAT) == [] && ONE_RESERVED.RecordOf(RETIRED_KEY) == Some(RETIRED_CHAT);
    AppendOne([], o);
    assert [] + [o] == [o] && AppendJournal([], [o]) == Some([o]) && "n" in Names([o][0]);
  }

  lemma ReservedPublishes()
    ensures PublishStep(ONE_RESERVED, NEW_PROMPT, TO_RETIRED).outcome.Accepted?
    ensures PublishStep(ONE_RESERVED, NEW_PROMPT, TO_RETIRED).doc.records ==
            StoreStep(ONE_RESERVED, Publication(NEW_PROMPT, TO_RETIRED)).doc.records
  {
    ReservedStores();
    assert ONE_RESERVED.provisional[Key("a", "n")] == Reserved(NEW_PROMPT);
    assert ONE_RESERVED.provisional - {Key("a", "n")} == map[];
    assert ONE_RESERVED.RecordOf("a").None? && LineageOf(None) == [];
  }

  lemma ReservedCalled()
    ensures var called := CallStep(ONE_RESERVED, Legacy(Publish(NEW_PROMPT, TO_RETIRED)), []);
            && called.reply == Done(Accepted)
            && called.doc.records == StoreStep(ONE_RESERVED, Publication(NEW_PROMPT, TO_RETIRED)).doc.records
  {
    ReservedStores();
    ReservedPublishes();
    assert "a" !in ONE_RESERVED.records;
  }

  /** One unscoped publication in chat `a` whose mapping names a retired chat brings that chat back. */
  lemma PublicationRevives()
    ensures var called := CallStep(ONE_RESERVED, Legacy(Publish(NEW_PROMPT, TO_RETIRED)), []);
            && Frozen(ONE_RESERVED, RETIRED_KEY, RETIRED_CHAT) && called.reply == Done(Accepted)
            && GetLegacy(ONE_RESERVED, RETIRED_KEY).None? && GetLegacy(called.doc, RETIRED_KEY).Some?
  {
    ReservedStores();
    ReservedCalled();
    assert ONE_RESERVED.records[RETIRED_KEY] == RETIRED_CHAT;
    StoreOverwrites(ONE_RESERVED, Publication(NEW_PROMPT, TO_RETIRED));
  }

  lemma StoreOverwrites(d: Document, mapping: Input)
    requires StoreStep(d, mapping).outcome.Accepted? && mapping.observations.Some?
    ensures mapping.chatId in StoreStep(d, mapping).doc.records
    ensures StoreStep(d, mapping).doc.records[mapping.chatId].observations == mapping.observations.value
  {
  }

  // -------------------------------------------------------------- validity

  lemma RetiredRecordValid(r: Record, scope: Scope, ids: seq<string>)
    requires RecordShape(r) && RecordRelations(r)
    ensures RecordShape(RetiredRecord(r, scope, ids)) && RecordRelations(RetiredRecord(r, scope, ids))
  {
    var r' := RetiredRecord(r, scope, ids);
    var chain := ChainOps(Root(r.reassignment));
    UniqueConcat(r.journal, chain);
    if InProgress?(Some(r)) {
      assert Lineage(r') == [];
    } else {
      assert Lineage(r') == chain;
    }
  }

  /** Retiring keeps the authority loadable, so the replacement it asks for is never refused. */
  lemma RetireKeepsLoadable(d: Document, scope: Scope, ids: seq<string>)
    requires Loadable(d) && CallStep(d, Retire(scope), ids).reply == Done(Accepted)
    ensures Loadable(CallStep(d, Retire(scope), ids).doc)
  {
    var key := KeyOfScope(scope).value;
    RetiredRecordValid(d.records[key], scope, ids);
    var d' := CallStep(d, Retire(scope), ids).doc;
    forall k | k in d'.provisional
      ensures ProvisionalRelations(d'.RecordOf(d'.provisional[k].chatId), d'.provisional[k])
    {
      assert d'.RecordOf(d.provisional[k].chatId) == d.RecordOf(d.provisional[k].chatId);
    }
  }

  // ------------------------------------------------------------ the program

  class SessionMappingStore {
    const journal: SessionAuthorityJournal
    var adminPrincipalId: Option<string>

    constructor (journal: SessionAuthorityJournal)
      ensures this.journal == journal && adminPrincipalId.None?
    {
      this.journal := journal;
      adminPrincipalId := None;
    }

    /** Names the administrator, if anyone.  Nobody else's reads change; the former administrator is left
        with the records scoped for him. */
    method SetLegacyAdmin(principalId: Option<string>)
      modifies `adminPrincipalId
      ensures adminPrincipalId == if principalId.None?
          || Bootstrap.Blank(principalId.value) then None else Some(Trimmed(principalId.value))
      ensures forall scope: Scope :: Some(scope.principalId) != adminPrincipalId ==>
                (forall r :: GetScoped(journal.Contents(), scope, adminPrincipalId) == Some(r) ==>
                  IsScopedFor(r, scope))
      ensures forall scope: Scope ::
                Some(scope.principalId) != old(adminPrincipalId) && Some(scope.principalId) != adminPrincipalId ==>
                GetScoped(journal.Contents(), scope, adminPrincipalId) ==
                GetScoped(old(journal.Contents()), scope, old(adminPrincipalId))
    {
      adminPrincipalId := None;
      if principalId.Some? {
        TrimmedBlank(principalId.value);
        if Trimmed(principalId.value) != "" {
          adminPrincipalId := Some(Trimmed(principalId.value));
        }
      }
    }

    /** A scope's own live record before all; without one an administrator gets the live chat of that name
        that is not scoped for this scope. */
    method ReadScoped(scope: Scope) returns (r: Option<Record>)
      ensures r == GetScoped(journal.Contents(), scope, adminPrincipalId)
    {
      var key := KeyOfScope(scope);
      if key.None? {
        return None;
      }
      if key.value in journal.records {
        var own := journal.records[key.value];
        if IsScopedFor(own, scope) && StandingOf(own).Active? {
          return Some(own);
        }
      }
      if adminPrincipalId == Some(scope.principalId) && scope.chatId in journal.records {
        var legacy := journal.records[scope.chatId];
        if !IsScopedFor(legacy, scope) && StandingOf(legacy).Active? {
          return Some(legacy);
        }
      }
      return None;
    }

    method ReadOperation(scope: Scope, name: string) returns (o: Option<Operation>)
      ensures o == ScopedOperation(journal.Contents(), scope, name)
    {
      var key := KeyOfScope(scope);
      if key.None? || key.value !in journal.records
         || !IsScopedFor(journal.records[key.value], scope) || !StandingOf(journal.records[key.value]).Active? {
        return None;
      }
      var found := journal.FindOperation(key.value, name);
      return if found.None? then None else Some(OperationSeen(found.value, key.value, scope.chatId));
    }

    method Mutate(cmd: Command) returns (reply: Reply)
      requires journal.Tracked()
      modifies journal
      ensures journal.Contents() == Perform(old(journal.Contents()), Do(cmd))
      ensures reply == Done(StepOf(old(journal.Contents()), cmd).outcome)
    {
      var records, provisional := journal.records, journal.provisional;
      var outcome := journal.Mutate(cmd);
      if outcome.Rejected? {
        journal.records, journal.provisional := records, provisional;
      }
      return Done(outcome);
    }

    method Scoped(scope: Scope, cmd: Command) returns (reply: Reply)
      requires journal.Tracked()
      modifies journal
      ensures Called(journal.Contents(), reply) == CallStep(old(journal.Contents()), Call.Scoped(scope, cmd), [])
    {
      var key := KeyOfScope(scope);
      if key.None? {
        return Mismatched;
      }
      if key.value in journal.records &&
         (!IsScopedFor(journal.records[key.value], scope) || !StandingOf(journal.records[key.value]).Active?) {
        return Unavailable;
      }
      var own := ForScope(cmd, scope, key.value);
      if own.None? {
        return Mismatched;
      }
      reply := Mutate(own.value);
    }

    method Legacy(cmd: Command) returns (reply: Reply)
      requires journal.Tracked()
      modifies journal
      ensures Called(journal.Contents(), reply) == CallStep(old(journal.Contents()), Call.Legacy(cmd), [])
    {
      var chatId := CheckedChat(cmd);
      if chatId in journal.records && !StandingOf(journal.records[chatId]).Active? {
        return Unavailable;
      }
      reply := Mutate(cmd);
    }

    /** Empties the key's journal, drops its provisional operations and marks it, as one replacement. */
    method RetireScoped(scope: Scope) returns (reply: Reply, ghost ids: seq<string>)
      requires Loadable(journal.Contents())
      modifies journal
      ensures Called(journal.Contents(), reply) == CallStep(old(journal.Contents()), Call.Retire(scope), ids)
    {
      ids := [];
      var key := KeyOfScope(scope);
      if key.None? {
        return Mismatched, ids;
      }
      if key.value !in journal.records || !IsScopedFor(journal.records[key.value], scope)
         || !StandingOf(journal.records[key.value]).Active? {
        return Unavailable, ids;
      }
      var provisional := ListProvisional(journal.provisional);
      var own := [];
      for i := 0 to |provisional| {
        if provisional[i].chatId == key.value {
          own := own + [provisional[i].oid.id];
        }
      }
      ids := own;
      RetireKeepsLoadable(journal.Contents(), scope, own);
      var next := RetiredDocument(journal.Contents(), key.value, scope, own);
      var ms := ListRecords(next.records);
      var ps := ListProvisional(next.provisional);
      ListsValidIffRelational(next, ms, ps);
      var ok := journal.ReplaceReferences(ms, ps);
      return Done(Accepted), ids;
    }
  }
}