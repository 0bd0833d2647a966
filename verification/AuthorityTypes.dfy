/** The values the session authority stores: operations, results, retired
    lineages, reassignment markers, mapping records and provisional
    operations.  Timestamps are left out. */
module AuthorityTypes {

  datatype Option<+T> = None | Some(value: T) {
    function GetOr(default: T): T {
      match this
      case Some(v) => v
      case None => default
    }
  }

  datatype OperationState = Pending | Complete | Uncertain | Conflict

  datatype OperationKind =
    | Create | Resume | Close | Prompt | Reply | Gate | Branch | Model | Thinking

  /** The pair of names an operation answers to. */
  datatype OperationId = OperationId(id: string, ingressId: Option<string>) {

    function Ingress(): string {
      ingressId.GetOr(id)
    }

    /** Every identifier the operation can be looked up by. */
    function Identifiers(): set<string> {
      {id, Ingress()}
    }

    function Identity(): (string, string) {
      (id, Ingress())
    }

    predicate WellFormed() {
      id != "" && ingressId != Some("")
    }
  }

  predicate Overlap(a: OperationId, b: OperationId) {
    a.Identifiers() * b.Identifiers() != {}
  }

  datatype GateBinding = GateBinding(gateId: string, correlation: Option<(string, string, string)>)

  /** `binding` is the compact gate identity that can be read off the event, if any. */
  datatype Event = Event(eventType: string, binding: Option<GateBinding>, body: string)

  datatype ResultKind = TurnResult | ControlResult | CloseResult

  datatype ResultMapping = ResultMapping(
    chatId: string, projectId: string, sessionId: string, operationId: string,
    sessionFile: Option<string>, attachment: Option<string>, rest: string)

  datatype OperationResult = OperationResult(
    kind: ResultKind, mapping: ResultMapping, assistantText: string,
    events: Option<seq<Event>>, correlation: Option<map<string, string>>,
    gate: Option<GateBinding>)

  datatype Successor = Successor(sessionId: string, attachment: string)

  datatype Operation = Operation(
    oid: OperationId, kind: OperationKind, state: OperationState,
    detail: Option<string>, result: Option<OperationResult>, successor: Option<Successor>)

  /** A provisional operation has no acknowledged successor. */
  datatype Provisional = Provisional(
    oid: OperationId, kind: OperationKind, state: OperationState,
    detail: Option<string>, result: Option<OperationResult>,
    chatId: string, projectId: string,
    sessionId: Option<string>, sessionFile: Option<string>, attachment: Option<string>)

  datatype Target = Target(oid: OperationId, kind: OperationKind, detail: Option<string>)

  datatype StoredScope = StoredScope(principalId: string, chatId: Option<string>)

  datatype Retirement = Retirement(
    principalId: string, chatId: string, operationIds: seq<string>, provisionalIds: seq<string>)

  datatype Observations = Observations(scope: Option<StoredScope>, retirement: Option<Retirement>, rest: string)

  datatype Tombstone = Tombstone(
    chatId: string, projectId: string, sessionId: string, operationId: string,
    observations: Observations, payload: string,
    journal: seq<Operation>, prior: Option<Tombstone>)

  datatype ReassignmentState = InProgress | RolledBack | Committed

  datatype Reassignment = Reassignment(
    state: ReassignmentState, sourceProjectId: string, targetProjectId: string,
    target: Option<Target>, sourceTombstone: Option<Tombstone>, priorTombstone: Option<Tombstone>)

  /** `payload` stands for the replaceable mapping fields that no rule looks at. */
  datatype Record = Record(
    chatId: string, projectId: string, sessionId: string, operationId: string,
    observations: Observations, payload: string,
    journal: seq<Operation>, reassignment: Option<Reassignment>)

  datatype Key = Key(chatId: string, ingress: string)

  function KeyOf(p: Provisional): Key {
    Key(p.chatId, p.oid.Ingress())
  }

  /** The authority document: records by chat, provisional operations by chat and ingress. */
  datatype Document = Document(records: map<string, Record>, provisional: map<Key, Provisional>) {

    function RecordOf(chatId: string): Option<Record> {
      if chatId in records then Some(records[chatId]) else None
    }

    function ProvisionalAt(k: Key): Option<Provisional> {
      if k in provisional then Some(provisional[k]) else None
    }

    function WithRecord(r: Record): Document {
      this.(records := records[r.chatId := r])
    }

    function WithProvisional(p: Provisional): Document {
      this.(provisional := provisional[KeyOf(p) := p])
    }
  }

  const EMPTY_DOCUMENT := Document(map[], map[])

  /** All operations of a tombstone and of the tombstones it retired before it. */
  function ChainOps(t: Option<Tombstone>): seq<Operation> {
    match t
    case None => []
    case Some(x) => x.journal + ChainOps(x.prior)
  }

  predicate ChainHasProject(t: Option<Tombstone>, projectId: string) {
    match t
    case None => false
    case Some(x) => x.projectId == projectId || ChainHasProject(x.prior, projectId)
  }

  /** The tombstone chain a reassignment marker keeps reachable. */
  function Root(rea: Option<Reassignment>): Option<Tombstone> {
    match rea
    case None => None
    case Some(x) => if x.sourceTombstone.Some? then x.sourceTombstone else x.priorTombstone
  }

  /** Everything ever done on the chat: active journal, then retired lineages. */
  function Lineage(r: Record): seq<Operation> {
    r.journal + ChainOps(Root(r.reassignment))
  }

  function LineageOf(r: Option<Record>): seq<Operation> {
    match r
    case None => []
    case Some(x) => Lineage(x)
  }

  function ReassignmentOf(r: Option<Record>): Option<Reassignment> {
    match r
    case None => None
    case Some(x) => x.reassignment
  }
}
