/** What makes an authority document loadable: the shape of each entry and the
    relations between entries.  `IsRelationallyValid` is the validator's own
    algorithm, which fills maps and sets while it walks the two collections. */
module RelationalValidity {
  import opened AuthorityTypes

  // ---------------------------------------------------------------- shape

  predicate ResultShape(r: OperationResult) {
    match r.kind
    case CloseResult =>
      && r.correlation.Some?
      && "closeStatus" in r.correlation.value && r.correlation.value["closeStatus"] == "closed"
      && (forall k :: k in r.correlation.value ==> k == "closeStatus" || k == "mappingOperationId")
      && ("mappingOperationId" in r.correlation.value ==> r.correlation.value["mappingOperationId"] != "")
    case _ =>
      r.correlation.Some? ==> forall k :: k in r.correlation.value ==> r.correlation.value[k] != ""
  }

  predicate OperationShape(o: Operation) {
    && o.oid.WellFormed()
    && (o.successor.Some? ==> (o.kind.Create? || o.kind.Branch?) && (o.state.Pending? || o.state.Uncertain?))
    && (o.result.Some? ==> o.state.Complete? && ResultShape(o.result.value))
  }

  predicate ProvisionalShape(p: Provisional) {
    && p.oid.WellFormed()
    && (p.result.Some? ==> p.state.Complete? && ResultShape(p.result.value))
  }

  predicate ChainShape(t: Option<Tombstone>) {
    match t
    case None => true
    case Some(x) => (forall o :: o in x.journal ==> OperationShape(o)) && ChainShape(x.prior)
  }

  predicate ReassignmentShape(x: Reassignment, chatId: string, projectId: string) {
    && (if x.state.Committed? then x.targetProjectId == projectId else x.sourceProjectId == projectId)
    && x.sourceProjectId != x.targetProjectId
    && (x.target.Some? ==> x.target.value.oid.WellFormed())
    && ChainShape(x.priorTombstone)
    && ChainShape(x.sourceTombstone)
    && (x.state.InProgress? ==> x.sourceTombstone.None?)
    && (x.state.Committed? ==> x.sourceTombstone.Some?)
    && (x.sourceTombstone.Some? ==>
          && x.sourceTombstone.value.chatId == chatId
          && x.sourceTombstone.value.projectId == x.sourceProjectId)
  }

  predicate RecordShape(r: Record) {
    && (forall o :: o in r.journal ==> OperationShape(o))
    && (r.reassignment.Some? ==> ReassignmentShape(r.reassignment.value, r.chatId, r.projectId))
  }

  // ------------------------------------------------------------- relations

  /** No two operations answer to a common identifier. */
  predicate Unique(ops: seq<Operation>) {
    forall i, j :: 0 <= i < j < |ops| ==> !Overlap(ops[i].oid, ops[j].oid)
  }

  predicate MappingBound(o: Operation, chatId: string, projectId: string) {
    o.result.Some? ==>
      && o.result.value.mapping.chatId == chatId
      && o.result.value.mapping.projectId == projectId
      && o.result.value.mapping.operationId == o.oid.id
  }

  predicate Agrees(c: map<string, string>, k: string, v: string) {
    k in c ==> c[k] == v
  }

  predicate CorrelationBound(o: Operation, chatId: string, projectId: string) {
    o.result.Some? && o.result.value.correlation.Some? ==>
      && Agrees(o.result.value.correlation.value, "chatId", chatId)
      && Agrees(o.result.value.correlation.value, "projectId", projectId)
      && Agrees(o.result.value.correlation.value, "operationId", o.oid.id)
  }

  predicate ResultBound(o: Operation, chatId: string, projectId: string) {
    MappingBound(o, chatId, projectId) && CorrelationBound(o, chatId, projectId)
  }

  predicate ChainBound(t: Option<Tombstone>, chatId: string) {
    match t
    case None => true
    case Some(x) =>
      && x.chatId == chatId
      && (forall o :: o in x.journal ==> MappingBound(o, chatId, x.projectId))
      && ChainBound(x.prior, chatId)
  }

  predicate RecordRelations(r: Record) {
    && Unique(Lineage(r))
    && (forall o :: o in r.journal ==> ResultBound(o, r.chatId, r.projectId))
    && ChainBound(Root(r.reassignment), r.chatId)
  }

  predicate SameTarget(oid: OperationId, kind: OperationKind, detail: Option<string>, t: Target) {
    oid.Identity() == t.oid.Identity() && kind == t.kind && detail == t.detail
  }

  /** The provisional operation belongs to another project than its chat's record. */
  predicate Foreign(r: Option<Record>, p: Provisional) {
    r.Some? && r.value.projectId != p.projectId
  }

  predicate MatchesReassignment(r: Record, p: Provisional) {
    && r.reassignment.Some?
    && (r.reassignment.value.state.InProgress? || r.reassignment.value.state.RolledBack?)
    && r.reassignment.value.targetProjectId == p.projectId
    && r.reassignment.value.target.Some?
    && SameTarget(p.oid, p.kind, p.detail, r.reassignment.value.target.value)
  }

  predicate IsRetiredEvidence(r: Record, p: Provisional) {
    && p.state.Complete?
    && r.reassignment.Some?
    && (ChainHasProject(r.reassignment.value.sourceTombstone, p.projectId) ||
        ChainHasProject(r.reassignment.value.priorTombstone, p.projectId))
  }

  /** A foreign provisional operation is a live reassignment target or retired evidence. */
  predicate Placed(r: Option<Record>, p: Provisional) {
    Foreign(r, p) ==>
      && (MatchesReassignment(r.value, p) || IsRetiredEvidence(r.value, p))
      && (MatchesReassignment(r.value, p) && r.value.reassignment.value.state.RolledBack? ==>
            p.state.Uncertain? || p.state.Conflict?)
  }

  /** It may share an identifier with a lineage operation only under the very same identity. */
  predicate SharesIdentityOnly(oid: OperationId, ops: seq<Operation>) {
    forall i :: 0 <= i < |ops| && Overlap(oid, ops[i].oid) ==> oid.Identity() == ops[i].oid.Identity()
  }

  predicate ProvisionalRelations(r: Option<Record>, p: Provisional) {
    Placed(r, p) && SharesIdentityOnly(p.oid, LineageOf(r))
  }

  ghost predicate WellKeyed(d: Document) {
    && (forall c :: c in d.records ==> d.records[c].chatId == c)
    && (forall k :: k in d.provisional ==> KeyOf(d.provisional[k]) == k)
  }

  ghost predicate ProvisionalDisjoint(d: Document) {
    forall j, k :: j in d.provisional && k in d.provisional && j != k && j.chatId == k.chatId ==>
      !Overlap(d.provisional[j].oid, d.provisional[k].oid)
  }

  ghost predicate Relational(d: Document) {
    && WellKeyed(d)
    && (forall c :: c in d.records ==> RecordRelations(d.records[c]))
    && (forall k :: k in d.provisional ==>
          ProvisionalRelations(d.RecordOf(d.provisional[k].chatId), d.provisional[k]))
    && ProvisionalDisjoint(d)
  }

  ghost predicate Shapes(d: Document) {
    && (forall c :: c in d.records ==> RecordShape(d.records[c]))
    && (forall k :: k in d.provisional ==> ProvisionalShape(d.provisional[k]))
  }

  /** What loading a base document demands, and what persisting one refuses to go without. */
  ghost predicate Loadable(d: Document) {
    Shapes(d) && Relational(d)
  }

  // ------------------------------------------------ the validator's own loop

  function FindRecord(ms: seq<Record>, chatId: string): (r: Option<Record>)
    ensures r.Some? ==> r.value in ms && r.value.chatId == chatId
    ensures r.None? ==> forall m :: m in ms ==> m.chatId != chatId
  {
    if ms == [] then None
    else if ms[0].chatId == chatId then Some(ms[0])
    else FindRecord(ms[1..], chatId)
  }

  predicate DistinctChats(ms: seq<Record>) {
    forall i, j :: 0 <= i < j < |ms| ==> ms[i].chatId != ms[j].chatId
  }

  /** Validity of the two collections as a file holds them. */
  ghost predicate ListsValid(ms: seq<Record>, ps: seq<Provisional>) {
    && DistinctChats(ms)
    && (forall m :: m in ms ==> RecordRelations(m))
    && (forall p :: p in ps ==> ProvisionalRelations(FindRecord(ms, p.chatId), p))
    && (forall i, j :: 0 <= i < j < |ps| && ps[i].chatId == ps[j].chatId ==> !Overlap(ps[i].oid, ps[j].oid))
  }

  /** `ids` names exactly the identifiers of `ops` under chat `c`, each with its owner's identity. */
  ghost predicate IndexedFor(ids: map<Key, (string, string)>, c: string, ops: seq<Operation>) {
    && (forall x :: Key(c, x) in ids ==> exists i :: 0 <= i < |ops| && x in ops[i].oid.Identifiers())
    && (forall i, x :: 0 <= i < |ops| && x in ops[i].oid.Identifiers() ==>
          Key(c, x) in ids && ids[Key(c, x)] == ops[i].oid.Identity())
  }

  ghost predicate SameElsewhere(before: map<Key, (string, string)>, after: map<Key, (string, string)>, c: string) {
    forall k: Key :: k.chatId != c ==> (k in before <==> k in after) && (k in before ==> before[k] == after[k])
  }

  lemma UniquePrefix(a: seq<Operation>, o: Operation, ids: map<Key, (string, string)>, c: string)
    requires IndexedFor(ids, c, a) && Unique(a)
    ensures Unique(a + [o]) <==> forall x :: x in o.oid.Identifiers() ==> Key(c, x) !in ids
  {
    var b := a + [o];
    if exists x :: x in o.oid.Identifiers() && Key(c, x) in ids {
      var x :| x in o.oid.Identifiers() && Key(c, x) in ids;
      var i :| 0 <= i < |a| && x in a[i].oid.Identifiers();
      assert x in b[i].oid.Identifiers() * b[|a|].oid.Identifiers();
    } else {
      forall i, j | 0 <= i < j < |b|
        ensures !Overlap(b[i].oid, b[j].oid)
      {
        if j == |a| {
          assert forall x :: x in a[i].oid.Identifiers() ==> Key(c, x) in ids;
        }
      }
    }
  }

  /** Adds the identifiers of one operation; refuses them when one is already taken. */
  method AddIdentity(ids: map<Key, (string, string)>, c: string, ghost done: seq<Operation>, o: Operation)
    returns (ok: bool, out: map<Key, (string, string)>)
    requires IndexedFor(ids, c, done) && Unique(done)
    ensures ok <==> Unique(done + [o])
    ensures ok ==> IndexedFor(out, c, done + [o])
    ensures SameElsewhere(ids, out, c)
  {
    UniquePrefix(done, o, ids, c);
    if Key(c, o.oid.id) in ids || Key(c, o.oid.Ingress()) in ids {
      return false, ids;
    }
    out := ids[Key(c, o.oid.id) := o.oid.Identity()][Key(c, o.oid.Ingress()) := o.oid.Identity()];
    IndexGrows(ids, out, c, done, o);
    return true, out;
  }

  /** Adds the identifiers of an operation list, up to the first one that is taken. */
  method AddIdentities(ids: map<Key, (string, string)>, c: string, ghost done: seq<Operation>, ops: seq<Operation>)
    returns (ok: bool, out: map<Key, (string, string)>)
    requires IndexedFor(ids, c, done) && Unique(done)
    ensures ok <==> Unique(done + ops)
    ensures ok ==> IndexedFor(out, c, done + ops)
    ensures SameElsewhere(ids, out, c)
  {
    out := ids;
    ok := true;
    ghost var added := done;
    assert done + ops[..0] == done;
    for n := 0 to |ops|
      invariant ok && added == done + ops[..n]
      invariant IndexedFor(out, c, added) && Unique(added)
      invariant SameElsewhere(ids, out, c)
    {
      assert added + [ops[n]] == done + ops[..n + 1];
      ok, out := AddIdentity(out, c, added, ops[n]);
      added := added + [ops[n]];
      if !ok {
        assert (done + ops)[..|added|] == added;
        NotUniqueFrom(added, done + ops);
        return;
      }
    }
    assert ops[..|ops|] == ops;
  }

  lemma NotUniqueFrom(a: seq<Operation>, b: seq<Operation>)
    requires |a| <= |b| && b[..|a|] == a && !Unique(a)
    ensures !Unique(b)
  {
    var i, j :| 0 <= i < j < |a| && Overlap(a[i].oid, a[j].oid);
    assert b[i] == a[i] && b[j] == a[j];
  }

  lemma IndexGrows(before: map<Key, (string, string)>, after: map<Key, (string, string)>, c: string, a: seq<Operation>,
                   o: Operation)
    requires IndexedFor(before, c, a)
    requires forall x :: x in o.oid.Identifiers() ==> Key(c, x) !in before
    requires after == before[Key(c, o.oid.id) := o.oid.Identity()][Key(c, o.oid.Ingress()) := o.oid.Identity()]
    ensures IndexedFor(after, c, a + [o])
  {
    var b := a + [o];
    forall x | Key(c, x) in after
      ensures exists i :: 0 <= i < |b| && x in b[i].oid.Identifiers()
    {
      if Key(c, x) in before {
        var i :| 0 <= i < |a| && x in a[i].oid.Identifiers();
        assert x in b[i].oid.Identifiers();
      } else {
        assert x in b[|a|].oid.Identifiers();
      }
    }
    forall i, x | 0 <= i < |b| && x in b[i].oid.Identifiers()
      ensures Key(c, x) in after && after[Key(c, x)] == b[i].oid.Identity()
    {
      if i < |a| {
        assert Key(c, x) in before;
      }
    }
  }

  lemma UniquePrefixOf(a: seq<Operation>, b: seq<Operation>)
    requires Unique(a + b)
    ensures Unique(a)
  {
    forall i, j | 0 <= i < j < |a|
      ensures !Overlap(a[i].oid, a[j].oid)
    {
      assert (a + b)[i] == a[i] && (a + b)[j] == a[j];
    }
  }

  /** Walks one tombstone chain, oldest lineage last. */
  method CheckChain(ids: map<Key, (string, string)>, c: string, ghost journal: seq<Operation>, root: Option<Tombstone>)
    returns (ok: bool, out: map<Key, (string, string)>)
    requires IndexedFor(ids, c, journal) && Unique(journal)
    ensures ok <==> Unique(journal + ChainOps(root)) && ChainBound(root, c)
    ensures ok ==> IndexedFor(out, c, journal + ChainOps(root))
    ensures SameElsewhere(ids, out, c)
  {
    out := ids;
    var tombstone := root;
    ghost var done := journal;
    ghost var total := journal + ChainOps(root);
    while tombstone.Some?
      invariant total == done + ChainOps(tombstone)
      invariant IndexedFor(out, c, done) && Unique(done)
      invariant SameElsewhere(ids, out, c)
      invariant ChainBound(root, c) <==> ChainBound(tombstone, c)
      decreases tombstone
    {
      var t := tombstone.value;
      if t.chatId != c || exists o :: o in t.journal && !MappingBound(o, t.chatId, t.projectId) {
        return false, out;
      }
      ghost var next := done + t.journal;
      assert total == next + ChainOps(t.prior);
      ok, out := AddIdentities(out, c, done, t.journal);
      if !ok {
        if Unique(total) {
          UniquePrefixOf(next, ChainOps(t.prior));
          assert false;
        }
        return;
      }
      done := next;
      tombstone := t.prior;
    }
    assert total == done;
    return true, out;
  }

  /** Walks a record's journal and then its tombstone chain. */
  method CheckRecord(ids: map<Key, (string, string)>, m: Record) returns (ok: bool, out: map<Key, (string, string)>)
    requires forall x :: Key(m.chatId, x) !in ids
    ensures ok <==> RecordRelations(m)
    ensures ok ==> IndexedFor(out, m.chatId, Lineage(m))
    ensures SameElsewhere(ids, out, m.chatId)
  {
    ok, out := AddIdentities(ids, m.chatId, [], m.journal);
    assert [] + m.journal == m.journal;
    if !ok {
      if Unique(Lineage(m)) {
        UniquePrefixOf(m.journal, ChainOps(Root(m.reassignment)));
        assert false;
      }
      return;
    }
    if exists o :: o in m.journal && !ResultBound(o, m.chatId, m.projectId) {
      return false, out;
    }
    ok, out := CheckChain(out, m.chatId, m.journal, Root(m.reassignment));
  }

  ghost predicate IndexCovers(ids: map<Key, (string, string)>, ms: seq<Record>) {
    && (forall k :: k in ids ==> exists i :: 0 <= i < |ms| && ms[i].chatId == k.chatId)
    && (forall m :: m in ms ==> IndexedFor(ids, m.chatId, Lineage(m)))
  }

  method IndexRecords(ms: seq<Record>) returns (ok: bool, ids: map<Key, (string, string)>)
    ensures ok <==> DistinctChats(ms) && forall m :: m in ms ==> RecordRelations(m)
    ensures ok ==> IndexCovers(ids, ms)
  {
    var chatIds: set<string> := {};
    ids := map[];
    ghost var done: seq<Record> := [];
    for n := 0 to |ms|
      invariant |done| == n && done <= ms && Indexed(chatIds, ids, done)
    {
      ok, chatIds, ids := IndexRecord(chatIds, ids, ms[n], done);
      FirstRecords(done, ms);
      done := done + [ms[n]];
      if !ok {
        assert ms[n] in ms;
        return;
      }
    }
    assert done == ms;
    return true, ids;
  }

  ghost predicate Indexed(chatIds: set<string>, ids: map<Key, (string, string)>, ms: seq<Record>) {
    && DistinctChats(ms) && (forall m :: m in ms ==> RecordRelations(m)) && IndexCovers(ids, ms)
    && forall c :: c in chatIds <==> exists i :: 0 <= i < |ms| && ms[i].chatId == c
  }

  lemma FirstRecords(part: seq<Record>, ms: seq<Record>)
    requires part <= ms && |part| < |ms|
    ensures part + [ms[|part|]] <= ms
    ensures !DistinctChats(part + [ms[|part|]]) ==> !DistinctChats(ms)
  {
  }

  method IndexRecord(chatIds: set<string>, before: map<Key, (string, string)>, m: Record, ghost ms: seq<Record>)
    returns (ok: bool, chatIds': set<string>, ids: map<Key, (string, string)>)
    requires Indexed(chatIds, before, ms)
    ensures ok <==> DistinctChats(ms + [m]) && RecordRelations(m)
    ensures ok ==> Indexed(chatIds', ids, ms + [m])
  {
    ghost var all := ms + [m];
    assert all[|ms|] == m;
    chatIds', ids := chatIds + {m.chatId}, before;
    if m.chatId in chatIds {
      ghost var i :| 0 <= i < |ms| && ms[i].chatId == m.chatId;
      assert all[i] == ms[i];
      return false, chatIds', ids;
    }
    DistinctMore(ms, m);
    ok, ids := CheckRecord(before, m);
    if ok {
      IndexExtends(before, ids, ms, m);
      ChatsOneMore(chatIds, ms, m);
    }
  }

  lemma DistinctMore(ms: seq<Record>, m: Record)
    requires DistinctChats(ms) && forall i :: 0 <= i < |ms| ==> ms[i].chatId != m.chatId
    ensures DistinctChats(ms + [m])
  {
  }

  lemma ChatsOneMore(chatIds: set<string>, ms: seq<Record>, m: Record)
    requires forall c :: c in chatIds <==> exists i :: 0 <= i < |ms| && ms[i].chatId == c
    ensures forall c :: c in chatIds + {m.chatId} <==> exists i :: 0 <= i < |ms + [m]| && (ms + [m])[i].chatId == c
  {
    var all := ms + [m];
    assert all[|ms|] == m && forall i :: 0 <= i < |ms| ==> all[i] == ms[i];
  }

  lemma IndexExtends(before: map<Key, (string, string)>, after: map<Key, (string, string)>, ms: seq<Record>, m: Record)
    requires IndexCovers(before, ms) && forall i :: 0 <= i < |ms| ==> ms[i].chatId != m.chatId
    requires SameElsewhere(before, after, m.chatId) && IndexedFor(after, m.chatId, Lineage(m))
    ensures IndexCovers(after, ms + [m])
  {
    var all := ms + [m];
    forall k | k in after
      ensures exists i :: 0 <= i < |all| && all[i].chatId == k.chatId
    {
      if k.chatId == m.chatId {
        assert all[|ms|].chatId == k.chatId;
      } else {
        var i :| 0 <= i < |ms| && ms[i].chatId == k.chatId;
        assert all[i].chatId == k.chatId;
      }
    }
    forall r | r in all
      ensures IndexedFor(after, r.chatId, Lineage(r))
    {
      if r != m {
        var i :| 0 <= i < |ms| && ms[i] == r;
        IndexFrame(before, after, m.chatId, r.chatId, Lineage(r));
      }
    }
  }

  lemma IndexFrame(before: map<Key, (string, string)>, after: map<Key, (string, string)>, changed: string, c: string,
                   ops: seq<Operation>)
    requires SameElsewhere(before, after, changed) && c != changed
    requires IndexedFor(before, c, ops)
    ensures IndexedFor(after, c, ops)
  {
    forall x | Key(c, x) in after
      ensures exists i :: 0 <= i < |ops| && x in ops[i].oid.Identifiers()
    {
      assert Key(c, x).chatId != changed;
      assert Key(c, x) in before;
    }
    forall i, x | 0 <= i < |ops| && x in ops[i].oid.Identifiers()
      ensures Key(c, x) in after && after[Key(c, x)] == ops[i].oid.Identity()
    {
      assert Key(c, x).chatId != changed;
      assert Key(c, x) in before;
    }
  }

  /** `ids` agrees with the lineages, except that identities of checked provisional
      operations may have been added for identifiers no lineage uses. */
  ghost predicate Extends(base: map<Key, (string, string)>, ids: map<Key, (string, string)>, taken: set<Key>) {
    && (forall k :: k in base ==> k in ids && ids[k] == base[k])
    && (forall k :: k in ids && k !in taken ==> k in base)
  }

  ghost predicate Takes(taken: set<Key>, ps: seq<Provisional>) {
    forall k: Key :: k in taken <==>
      exists i :: 0 <= i < |ps| && ps[i].chatId == k.chatId && k.ingress in ps[i].oid.Identifiers()
  }

  lemma LookupShares(ids: map<Key, (string, string)>, ms: seq<Record>, p: Provisional)
    requires DistinctChats(ms) && IndexCovers(ids, ms)
    ensures SharesIdentityOnly(p.oid, LineageOf(FindRecord(ms, p.chatId))) <==>
            forall x :: x in p.oid.Identifiers() && Key(p.chatId, x) in ids ==>
              ids[Key(p.chatId, x)] == p.oid.Identity()
  {
    var found := FindRecord(ms, p.chatId);
    var ops := LineageOf(found);
    if found.Some? {
      assert IndexedFor(ids, p.chatId, ops);
    } else {
      assert forall i :: 0 <= i < |ms| ==> ms[i] in ms;
    }
    if SharesIdentityOnly(p.oid, ops) {
      forall x | x in p.oid.Identifiers() && Key(p.chatId, x) in ids
        ensures ids[Key(p.chatId, x)] == p.oid.Identity()
      {
        var i :| 0 <= i < |ops| && x in ops[i].oid.Identifiers();
        assert x in p.oid.Identifiers() * ops[i].oid.Identifiers();
      }
    }
    if forall x :: x in p.oid.Identifiers() && Key(p.chatId, x) in ids ==> ids[Key(p.chatId, x)] == p.oid.Identity() {
      forall i | 0 <= i < |ops| && Overlap(p.oid, ops[i].oid)
        ensures p.oid.Identity() == ops[i].oid.Identity()
      {
        var x :| x in p.oid.Identifiers() * ops[i].oid.Identifiers();
        assert Key(p.chatId, x) in ids && ids[Key(p.chatId, x)] == ops[i].oid.Identity();
      }
    }
  }

  lemma TakesGrows(taken: set<Key>, ps: seq<Provisional>, p: Provisional, after: set<Key>)
    requires Takes(taken, ps)
    requires after == taken + {Key(p.chatId, p.oid.id), Key(p.chatId, p.oid.Ingress())}
    ensures Takes(after, ps + [p])
    ensures (exists x :: x in p.oid.Identifiers() && Key(p.chatId, x) in taken) <==>
            exists i :: 0 <= i < |ps| && ps[i].chatId == p.chatId && Overlap(ps[i].oid, p.oid)
  {
    var all := ps + [p];
    forall k: Key
      ensures k in after <==>
                exists i :: 0 <= i < |all| && all[i].chatId == k.chatId && k.ingress in all[i].oid.Identifiers()
    {
      if k in taken {
        var i :| 0 <= i < |ps| && ps[i].chatId == k.chatId && k.ingress in ps[i].oid.Identifiers();
        assert all[i] == ps[i];
      } else if k in after {
        assert all[|ps|] == p;
      } else {
        assert forall i :: 0 <= i < |ps| ==> all[i] == ps[i];
      }
    }
    if x :| x in p.oid.Identifiers() && Key(p.chatId, x) in taken {
      var i :| 0 <= i < |ps| && ps[i].chatId == p.chatId && x in ps[i].oid.Identifiers();
      assert x in ps[i].oid.Identifiers() * p.oid.Identifiers();
    }
    if i :| 0 <= i < |ps| && ps[i].chatId == p.chatId && Overlap(ps[i].oid, p.oid) {
      var x :| x in ps[i].oid.Identifiers() * p.oid.Identifiers();
      assert Key(p.chatId, x) in taken;
    }
  }

  ghost predicate CheckedSoFar(ms: seq<Record>, ps: seq<Provisional>) {
    && (forall i :: 0 <= i < |ps| ==> ProvisionalRelations(FindRecord(ms, ps[i].chatId), ps[i]))
    && (forall i, j :: 0 <= i < j < |ps| && ps[i].chatId == ps[j].chatId ==> !Overlap(ps[i].oid, ps[j].oid))
  }

  ghost predicate Apart(ps: seq<Provisional>, p: Provisional) {
    forall i :: 0 <= i < |ps| && ps[i].chatId == p.chatId ==> !Overlap(ps[i].oid, p.oid)
  }

  lemma CheckedGrows(ms: seq<Record>, ps: seq<Provisional>, p: Provisional)
    requires CheckedSoFar(ms, ps)
    ensures CheckedSoFar(ms, ps + [p]) <==> ProvisionalRelations(FindRecord(ms, p.chatId), p) && Apart(ps, p)
  {
    var all := ps + [p];
    assert forall i :: 0 <= i < |ps| ==> all[i] == ps[i];
    assert all[|ps|] == p;
  }

  predicate Clashes(ids: map<Key, (string, string)>, taken: set<Key>, k: Key, identity: (string, string)) {
    k in taken || (k in ids && ids[k] != identity)
  }

  lemma ClashMeaning(
      ids: map<Key, (string, string)>, taken: set<Key>, base: map<Key, (string, string)>,
      ms: seq<Record>, ps: seq<Provisional>, p: Provisional)
    requires DistinctChats(ms) && IndexCovers(base, ms)
    requires Extends(base, ids, taken) && Takes(taken, ps)
    ensures (Clashes(ids, taken, Key(p.chatId, p.oid.id), p.oid.Identity()) ||
             Clashes(ids, taken, Key(p.chatId, p.oid.Ingress()), p.oid.Identity())) <==>
            !(SharesIdentityOnly(p.oid, LineageOf(FindRecord(ms, p.chatId))) && Apart(ps, p))
  {
    var j, k := Key(p.chatId, p.oid.id), Key(p.chatId, p.oid.Ingress());
    SharesByNames(base, ms, p);
    ApartByNames(taken, ps, p);
    OneClash(base, ids, taken, j, p.oid.Identity());
    OneClash(base, ids, taken, k, p.oid.Identity());
  }

  predicate Agreed(base: map<Key, (string, string)>, k: Key, identity: (string, string)) {
    k in base ==> base[k] == identity
  }

  lemma OneClash(base: map<Key, (string, string)>, ids: map<Key, (string, string)>, taken: set<Key>,
                 k: Key, identity: (string, string))
    requires Extends(base, ids, taken)
    ensures Clashes(ids, taken, k, identity) <==> k in taken || !Agreed(base, k, identity)
  {
  }

  lemma SharesByNames(base: map<Key, (string, string)>, ms: seq<Record>, p: Provisional)
    requires DistinctChats(ms) && IndexCovers(base, ms)
    ensures SharesIdentityOnly(p.oid, LineageOf(FindRecord(ms, p.chatId))) <==>
            && Agreed(base, Key(p.chatId, p.oid.id), p.oid.Identity())
            && Agreed(base, Key(p.chatId, p.oid.Ingress()), p.oid.Identity())
  {
    LookupShares(base, ms, p);
    assert p.oid.id in p.oid.Identifiers() && p.oid.Ingress() in p.oid.Identifiers();
  }

  lemma ApartByNames(taken: set<Key>, ps: seq<Provisional>, p: Provisional)
    requires Takes(taken, ps)
    ensures Apart(ps, p) <==> Key(p.chatId, p.oid.id) !in taken && Key(p.chatId, p.oid.Ingress()) !in taken
  {
    TakesGrows(taken, ps, p, taken + {Key(p.chatId, p.oid.id), Key(p.chatId, p.oid.Ingress())});
    assert p.oid.id in p.oid.Identifiers() && p.oid.Ingress() in p.oid.Identifiers();
  }

  lemma ExtendsGrows(
      base: map<Key, (string, string)>, ids: map<Key, (string, string)>, taken: set<Key>,
      k: Key, identity: (string, string))
    requires Extends(base, ids, taken)
    requires k in ids ==> ids[k] == identity
    ensures Extends(base, ids[k := identity], taken + {k})
  {
  }

  method CheckProvisional(
      ids: map<Key, (string, string)>, taken: set<Key>, ghost base: map<Key, (string, string)>,
      ms: seq<Record>, ghost ps: seq<Provisional>, p: Provisional)
    returns (ok: bool, ids': map<Key, (string, string)>, taken': set<Key>)
    requires DistinctChats(ms) && IndexCovers(base, ms)
    requires Extends(base, ids, taken) && Takes(taken, ps)
    ensures ok <==> ProvisionalRelations(FindRecord(ms, p.chatId), p) && Apart(ps, p)
    ensures ok ==> Extends(base, ids', taken') && Takes(taken', ps + [p])
  {
    ids', taken' := ids, taken;
    var r := FindRecord(ms, p.chatId);
    if !Placed(r, p) {
      return false, ids', taken';
    }
    ClashMeaning(ids, taken, base, ms, ps, p);
    var k0, k1 := Key(p.chatId, p.oid.id), Key(p.chatId, p.oid.Ingress());
    if Clashes(ids, taken, k0, p.oid.Identity()) || Clashes(ids, taken, k1, p.oid.Identity()) {
      return false, ids', taken';
    }
    ExtendsGrows(base, ids, taken, k0, p.oid.Identity());
    ExtendsGrows(base, ids[k0 := p.oid.Identity()], taken + {k0}, k1, p.oid.Identity());
    assert taken + {k0} + {k1} == taken + {k0, k1};
    TakesGrows(taken, ps, p, taken + {k0, k1});
    return true, ids[k0 := p.oid.Identity()][k1 := p.oid.Identity()], taken + {k0, k1};
  }

  /** The document validator.  One map collects the identities of the records and is
      overwritten while the provisional operations are walked. */
  method IsRelationallyValid(ms: seq<Record>, ps: seq<Provisional>) returns (ok: bool)
    ensures ok <==> ListsValid(ms, ps)
  {
    var ids;
    ok, ids := IndexRecords(ms);
    if !ok {
      return;
    }
    ghost var base := ids;
    var taken: set<Key> := {};
    for n := 0 to |ps|
      invariant Extends(base, ids, taken) && Takes(taken, ps[..n])
      invariant CheckedSoFar(ms, ps[..n])
    {
      assert ps[..n + 1] == ps[..n] + [ps[n]];
      CheckedGrows(ms, ps[..n], ps[n]);
      ok, ids, taken := CheckProvisional(ids, taken, base, ms, ps[..n], ps[n]);
      if !ok {
        CheckedPrefix(ms, ps, n + 1);
        return;
      }
    }
    assert ps[..|ps|] == ps;
    CheckedIsListsValid(ms, ps);
    return true;
  }

  lemma CheckedPrefix(ms: seq<Record>, ps: seq<Provisional>, n: nat)
    requires n <= |ps| && !CheckedSoFar(ms, ps[..n])
    ensures !ListsValid(ms, ps)
  {
    var head := ps[..n];
    assert forall i :: 0 <= i < n ==> head[i] == ps[i] && head[i] in ps;
  }

  lemma CheckedIsListsValid(ms: seq<Record>, ps: seq<Provisional>)
    requires DistinctChats(ms) && (forall m :: m in ms ==> RecordRelations(m)) && CheckedSoFar(ms, ps)
    ensures ListsValid(ms, ps)
  {
  }
}
