/** The compact form a rewritten base holds: event arrays are dropped from results,
    keeping the identity of an answered gate when it is unambiguous. */
module Normalize {
  import opened AuthorityTypes
  import opened RelationalValidity
  import opened JournalSteps
  import opened DocumentLists

  const GATE_EVENT := "workflow_gate"

  function GateEvents(events: seq<Event>): (gates: seq<Event>)
    ensures |gates| <= |events|
    decreases |events|
  {
    if events == [] then []
    else GateEvents(events[..|events| - 1]) + if events[|events| - 1].eventType ==
      GATE_EVENT then [events[|events| - 1]] else []
  }

  function NormalizeResult(r: OperationResult): OperationResult {
    if r.events.None? then r
    else
      var gates := GateEvents(r.events.value);
      if r.gate.None? && gates != [] then
        if |gates| == 1 && gates[0].binding.Some? then r.(events := None, gate := gates[0].binding) else r
      else r.(events := None)
  }

  lemma {:induction false} GateEventsSplit(a: seq<Event>, b: seq<Event>)
    ensures GateEvents(a + b) == GateEvents(a) + GateEvents(b)
    decreases |b|
  {
    if b == [] {
      assert a + b == a;
    } else {
      var front, last := b[..|b| - 1], b[|b| - 1];
      GateEventsSplit(a, front);
      assert (a + b)[..|a + b| - 1] == a + front && (a + b)[|a + b| - 1] == last;
      var tail := if last.eventType == GATE_EVENT then [last] else [];
      assert GateEvents(b) == GateEvents(front) + tail;
      assert GateEvents(a + b) == (GateEvents(a) + GateEvents(front)) + tail;
    }
  }

  /** Only the first two gates are looked at: one is unambiguous, two are not. */
  method NormalizedResult(r: OperationResult) returns (n: OperationResult)
    ensures n == NormalizeResult(r)
  {
    if r.events.None? {
      return r;
    }
    var events := r.events.value;
    var gates: seq<Event> := [];
    var i := 0;
    while i < |events| && |gates| < 2
      invariant i <= |events| && gates == GateEvents(events[..i])
    {
      assert events[..i + 1][..i] == events[..i];
      if events[i].eventType == GATE_EVENT {
        gates := gates + [events[i]];
      }
      i := i + 1;
    }
    GateEventsSplit(events[..i], events[i..]);
    assert events[..i] + events[i..] == events;
    assert i == |events| ==> events[i..] == [];
    if r.gate.None? && |gates| > 0 {
      if |gates| == 1 && gates[0].binding.Some? {
        return r.(events := None, gate := gates[0].binding);
      }
      return r;
    }
    return r.(events := None);
  }

  function NormalizeOperation(o: Operation): Operation {
    if o.result.None? then o else o.(result := Some(NormalizeResult(o.result.value)))
  }

  function NormalizeOps(ops: seq<Operation>): (n: seq<Operation>)
    ensures |n| == |ops|
  {
    seq(|ops|, i requires 0 <= i < |ops| => NormalizeOperation(ops[i]))
  }

  function NormalizeChain(t: Option<Tombstone>): Option<Tombstone> {
    match t
    case None => None
    case Some(x) => Some(x.(journal := NormalizeOps(x.journal), prior := NormalizeChain(x.prior)))
  }

  function NormalizeMarker(rea: Option<Reassignment>): Option<Reassignment> {
    match rea
    case None => None
    case Some(x) => Some(x.(sourceTombstone := NormalizeChain(x.sourceTombstone),
                            priorTombstone := NormalizeChain(x.priorTombstone)))
  }

  function NormalizeRecord(r: Record): Record {
    r.(journal := NormalizeOps(r.journal), reassignment := NormalizeMarker(r.reassignment))
  }

  function NormalizeProvisional(p: Provisional): Provisional {
    if p.result.None? then p else p.(result := Some(NormalizeResult(p.result.value)))
  }

  function Normalized(d: Document): Document {
    Document(map c | c in d.records :: NormalizeRecord(d.records[c]),
             map k | k in d.provisional :: NormalizeProvisional(d.provisional[k]))
  }

  // ------------------------------------------------------------ idempotent

  /** Only events may go, and no answered gate goes with them: a gate that was bound stays bound, and
      where gate events were the only evidence they stay, or a single one of them leaves its binding. */
  lemma GateEvidenceKept(r: OperationResult)
    ensures var n := NormalizeResult(r);
            && n == r.(events := n.events, gate := n.gate)
            && (n.events.None? || n.events == r.events)
            && (r.gate.Some? ==> n.gate == r.gate)
            && (r.gate.None? && r.events.Some? && GateEvents(r.events.value) != [] ==>
                  n == r || (|GateEvents(r.events.value)| == 1 && n.gate.Some?
                    && n.gate == GateEvents(r.events.value)[0].binding))
  {
  }

  /** The compact form of a result: without its events, unless they are the only evidence of an answered gate
      and do not name it for sure; what a single one of them names is kept in their place. */
  ghost predicate CompactResult(r: OperationResult, n: OperationResult) {
    && n.kind == r.kind && n.mapping == r.mapping && n.assistantText == r.assistantText
      && n.correlation == r.correlation
    && var events := if r.events.Some? then r.events.value else [];
    && (r.gate.Some? || NoGate(events) ==> n.events.None? && n.gate == r.gate)
    && (r.gate.None? ==> forall i: nat :: OnlyGate(events, i) && events[i].binding.Some? ==>
          n.events.None? && n.gate == events[i].binding)
    && (r.gate.None? && !NoGate(events) && (forall i: nat :: OnlyGate(events, i) ==> events[i].binding.None?) ==>
          n == r)
  }

  predicate NoGate(events: seq<Event>) {
    forall i :: 0 <= i < |events| ==> events[i].eventType != "workflow_gate"
  }

  predicate OnlyGate(events: seq<Event>, i: nat) {
    && i < |events| && events[i].eventType == "workflow_gate"
    && forall j :: 0 <= j < |events| && j != i ==> events[j].eventType != "workflow_gate"
  }

  lemma {:induction false} GateEventsAre(events: seq<Event>)
    ensures GateEvents(events) == [] <==> NoGate(events)
    ensures forall i: nat :: OnlyGate(events, i) ==> GateEvents(events) == [events[i]]
    ensures |GateEvents(events)| == 1 ==> exists i: nat :: OnlyGate(events, i)
    decreases |events|
  {
    if events != [] {
      var front, last := events[..|events| - 1], events[|events| - 1];
      GateEventsAre(front);
      assert forall i :: 0 <= i < |front| ==> front[i] == events[i];
      if last.eventType == "workflow_gate" && NoGate(front) {
        assert OnlyGate(events, |events| - 1);
      }
      if last.eventType != "workflow_gate" && |GateEvents(front)| == 1 {
        var i: nat :| OnlyGate(front, i);
        assert OnlyGate(events, i);
      }
      forall i: nat | OnlyGate(events, i)
        ensures GateEvents(events) == [events[i]]
      {
        assert i < |front| ==> OnlyGate(front, i);
        assert i == |front| ==> NoGate(front);
      }
    }
  }

  lemma ResultCompact(r: OperationResult)
    ensures CompactResult(r, NormalizeResult(r))
  {
    var events := if r.events.Some? then r.events.value else [];
    GateEventsAre(events);
    if r.gate.None? && |GateEvents(events)| == 1 {
      var i: nat :| OnlyGate(events, i);
      OneOnly(events, i);
    }
  }

  lemma OneOnly(events: seq<Event>, i: nat)
    requires OnlyGate(events, i)
    ensures forall j: nat :: OnlyGate(events, j) ==> j == i
  {
  }

  ghost predicate CompactOperation(o: Operation, n: Operation) {
    && n.oid == o.oid && n.kind == o.kind && n.state == o.state && n.detail == o.detail && n.successor == o.successor
    && (n.result.Some? <==> o.result.Some?) && (o.result.Some? ==> CompactResult(o.result.value, n.result.value))
  }

  ghost predicate CompactJournal(ops: seq<Operation>, n: seq<Operation>) {
    |n| == |ops| && forall i :: 0 <= i < |ops| ==> CompactOperation(ops[i], n[i])
  }

  ghost predicate CompactChain(t: Option<Tombstone>, n: Option<Tombstone>) {
    match t
    case None => n.None?
    case Some(x) =>
      && n.Some? && n.value == x.(journal := n.value.journal, prior := n.value.prior)
      && CompactJournal(x.journal, n.value.journal) && CompactChain(x.prior, n.value.prior)
  }

  ghost predicate CompactRecord(r: Record, n: Record) {
    && n == r.(journal := n.journal, reassignment := n.reassignment) && CompactJournal(r.journal, n.journal)
    && (n.reassignment.Some? <==> r.reassignment.Some?)
    && (r.reassignment.Some? ==>
          var x, y := r.reassignment.value, n.reassignment.value;
          && y == x.(sourceTombstone := y.sourceTombstone, priorTombstone := y.priorTombstone)
          && CompactChain(x.sourceTombstone, y.sourceTombstone) && CompactChain(x.priorTombstone, y.priorTombstone))
  }

  lemma JournalCompact(ops: seq<Operation>)
    ensures CompactJournal(ops, NormalizeOps(ops))
  {
    forall i | 0 <= i < |ops|
      ensures CompactOperation(ops[i], NormalizeOps(ops)[i])
    {
      if ops[i].result.Some? {
        ResultCompact(ops[i].result.value);
      }
    }
  }

  lemma {:induction false} ChainCompact(t: Option<Tombstone>)
    ensures CompactChain(t, NormalizeChain(t))
  {
    if t.Some? {
      JournalCompact(t.value.journal);
      ChainCompact(t.value.prior);
    }
  }

  /** A rewrite changes the results of operations, active, retired and reserved, to their compact form, and
      nothing else. */
  lemma NormalizedExact(d: Document)
    ensures var n := Normalized(d);
            && n.records.Keys == d.records.Keys && n.provisional.Keys == d.provisional.Keys
            && (forall c :: c in d.records ==> CompactRecord(d.records[c], n.records[c]))
            && (forall k :: k in d.provisional ==>
                  var p, q := d.provisional[k], n.provisional[k];
                  && q == p.(result := q.result) && (q.result.Some? <==> p.result.Some?)
                  && (p.result.Some? ==> CompactResult(p.result.value, q.result.value)))
  {
    forall c | c in d.records
      ensures CompactRecord(d.records[c], Normalized(d).records[c])
    {
      JournalCompact(d.records[c].journal);
      if d.records[c].reassignment.Some? {
        ChainCompact(d.records[c].reassignment.value.sourceTombstone);
        ChainCompact(d.records[c].reassignment.value.priorTombstone);
      }
    }
    forall k | k in d.provisional && d.provisional[k].result.Some?
      ensures CompactResult(d.provisional[k].result.value, Normalized(d).provisional[k].result.value)
    {
      ResultCompact(d.provisional[k].result.value);
    }
  }

  lemma OpsIdempotent(ops: seq<Operation>)
    ensures NormalizeOps(NormalizeOps(ops)) == NormalizeOps(ops)
  {
  }

  lemma {:induction false} ChainIdempotent(t: Option<Tombstone>)
    ensures NormalizeChain(NormalizeChain(t)) == NormalizeChain(t)
  {
    if t.Some? {
      ChainIdempotent(t.value.prior);
      OpsIdempotent(t.value.journal);
    }
  }

  lemma RecordIdempotent(r: Record)
    ensures NormalizeRecord(NormalizeRecord(r)) == NormalizeRecord(r)
  {
    if r.reassignment.Some? {
      ChainIdempotent(r.reassignment.value.sourceTombstone);
      ChainIdempotent(r.reassignment.value.priorTombstone);
    }
    OpsIdempotent(r.journal);
  }

  /** Rewriting a rewritten document changes nothing. */
  lemma NormalizedIdempotent(d: Document)
    ensures Normalized(Normalized(d)) == Normalized(d)
  {
    forall c | c in d.records
      ensures Normalized(Normalized(d)).records[c] == Normalized(d).records[c]
    {
      RecordIdempotent(d.records[c]);
    }
  }

  // -------------------------------------------------------- validity is kept

  lemma {:induction false} ChainFacts(t: Option<Tombstone>, chatId: string, projectId: string)
    ensures ChainOps(NormalizeChain(t)) == NormalizeOps(ChainOps(t))
    ensures ChainShape(NormalizeChain(t)) <==> ChainShape(t)
    ensures ChainBound(NormalizeChain(t), chatId) <==> ChainBound(t, chatId)
    ensures ChainHasProject(NormalizeChain(t), projectId) <==> ChainHasProject(t, projectId)
  {
    if t.Some? {
      ChainFacts(t.value.prior, chatId, projectId);
      OpsFacts(t.value.journal, chatId, t.value.projectId);
      assert ChainOps(NormalizeChain(t)) == NormalizeOps(t.value.journal) + NormalizeOps(ChainOps(t.value.prior));
    }
  }

  lemma OpsFacts(ops: seq<Operation>, chatId: string, projectId: string)
    ensures (forall o :: o in NormalizeOps(ops) ==> OperationShape(o)) <==> (forall o :: o in ops ==> OperationShape(o))
    ensures (forall o :: o in NormalizeOps(ops) ==> MappingBound(o, chatId, projectId)) <==>
            (forall o :: o in ops ==> MappingBound(o, chatId, projectId))
    ensures (forall o :: o in NormalizeOps(ops) ==> ResultBound(o, chatId, projectId)) <==>
            (forall o :: o in ops ==> ResultBound(o, chatId, projectId))
  {
    var n := NormalizeOps(ops);
    forall i | 0 <= i < |ops|
      ensures n[i] == NormalizeOperation(ops[i]) && n[i] in n && ops[i] in ops && n[i].oid == ops[i].oid
      ensures OperationShape(n[i]) <==> OperationShape(ops[i])
      ensures MappingBound(n[i], chatId, projectId) <==> MappingBound(ops[i], chatId, projectId)
      ensures ResultBound(n[i], chatId, projectId) <==> ResultBound(ops[i], chatId, projectId)
    {
    }
  }

  lemma UniqueNormalized(ops: seq<Operation>)
    ensures Unique(NormalizeOps(ops)) <==> Unique(ops)
  {
    var n := NormalizeOps(ops);
    assert forall i :: 0 <= i < |ops| ==> n[i].oid == ops[i].oid;
  }

  lemma RootNormalized(rea: Option<Reassignment>)
    ensures Root(NormalizeMarker(rea)) == NormalizeChain(Root(rea))
  {
  }

  lemma LineageNormalized(r: Record)
    ensures Lineage(NormalizeRecord(r)) == NormalizeOps(Lineage(r))
  {
    ChainFacts(Root(r.reassignment), "", "");
    assert Root(NormalizeMarker(r.reassignment)) == NormalizeChain(Root(r.reassignment));
  }

  lemma RecordShapeFacts(r: Record)
    ensures RecordShape(NormalizeRecord(r)) <==> RecordShape(r)
  {
    OpsFacts(r.journal, r.chatId, r.projectId);
    if r.reassignment.Some? {
      ChainFacts(r.reassignment.value.sourceTombstone, "", "");
      ChainFacts(r.reassignment.value.priorTombstone, "", "");
    }
  }

  lemma RecordRelationFacts(r: Record)
    ensures RecordRelations(NormalizeRecord(r)) <==> RecordRelations(r)
  {
    LineageNormalized(r);
    UniqueNormalized(Lineage(r));
    OpsFacts(r.journal, r.chatId, r.projectId);
    RootNormalized(r.reassignment);
    ChainFacts(Root(r.reassignment), r.chatId, "");
    var n := NormalizeRecord(r);
    assert n.journal == NormalizeOps(r.journal) && Root(n.reassignment) == NormalizeChain(Root(r.reassignment));
    assert Unique(Lineage(n)) <==> Unique(Lineage(r));
  }

  function NormalizeFound(r: Option<Record>): Option<Record> {
    if r.Some? then Some(NormalizeRecord(r.value)) else None
  }

  lemma PlacedFacts(r: Option<Record>, p: Provisional)
    ensures Placed(NormalizeFound(r), NormalizeProvisional(p)) <==> Placed(r, p)
  {
    if r.Some? && r.value.reassignment.Some? {
      ChainFacts(r.value.reassignment.value.sourceTombstone, "", p.projectId);
      ChainFacts(r.value.reassignment.value.priorTombstone, "", p.projectId);
    }
  }

  lemma SharesFacts(oid: OperationId, ops: seq<Operation>)
    ensures SharesIdentityOnly(oid, NormalizeOps(ops)) <==> SharesIdentityOnly(oid, ops)
  {
    var n := NormalizeOps(ops);
    assert forall i :: 0 <= i < |ops| ==> n[i].oid == ops[i].oid;
  }

  lemma ProvisionalFacts(r: Option<Record>, p: Provisional)
    ensures ProvisionalShape(NormalizeProvisional(p)) <==> ProvisionalShape(p)
    ensures ProvisionalRelations(NormalizeFound(r), NormalizeProvisional(p)) <==> ProvisionalRelations(r, p)
  {
    PlacedFacts(r, p);
    if r.Some? {
      LineageNormalized(r.value);
      SharesFacts(p.oid, Lineage(r.value));
    }
  }

  lemma NormalizedShapes(d: Document)
    ensures Shapes(Normalized(d)) <==> Shapes(d)
  {
    var n := Normalized(d);
    forall c | c in d.records
      ensures RecordShape(n.records[c]) <==> RecordShape(d.records[c])
    {
      RecordShapeFacts(d.records[c]);
    }
    forall k | k in d.provisional
      ensures ProvisionalShape(n.provisional[k]) <==> ProvisionalShape(d.provisional[k])
    {
      ProvisionalFacts(None, d.provisional[k]);
    }
  }

  lemma NormalizedRelations(d: Document)
    ensures Relational(Normalized(d)) <==> Relational(d)
  {
    var n := Normalized(d);
    forall c | c in d.records
      ensures RecordRelations(n.records[c]) <==> RecordRelations(d.records[c])
    {
      RecordRelationFacts(d.records[c]);
    }
    forall k | k in d.provisional
      ensures ProvisionalRelations(n.RecordOf(n.provisional[k].chatId), n.provisional[k]) <==>
              ProvisionalRelations(d.RecordOf(d.provisional[k].chatId), d.provisional[k])
    {
      ProvisionalFacts(d.RecordOf(d.provisional[k].chatId), d.provisional[k]);
      assert n.RecordOf(n.provisional[k].chatId) == NormalizeFound(d.RecordOf(d.provisional[k].chatId));
    }
    WellKeyedNormalized(d);
    NormalizedDisjoint(d);
  }

  lemma NormalizedDisjoint(d: Document)
    ensures ProvisionalDisjoint(Normalized(d)) <==> ProvisionalDisjoint(d)
  {
    assert forall k :: k in d.provisional ==> Normalized(d).provisional[k].oid == d.provisional[k].oid;
  }

  /** The rewritten document is loadable exactly when the original is. */
  lemma NormalizedLoadable(d: Document)
    ensures Loadable(Normalized(d)) <==> Loadable(d)
  {
    NormalizedShapes(d);
    NormalizedRelations(d);
  }

  lemma WellKeyedNormalized(d: Document)
    ensures WellKeyed(Normalized(d)) <==> WellKeyed(d)
  {
    forall c | c in d.records
      ensures Normalized(d).records[c].chatId == d.records[c].chatId
    {
    }
    forall k | k in d.provisional
      ensures KeyOf(Normalized(d).provisional[k]) == KeyOf(d.provisional[k])
    {
    }
  }

  lemma ListableNormalized(d: Document)
    ensures Listable(Normalized(d)) <==> Listable(d)
  {
    var n := Normalized(d);
    WellKeyedNormalized(d);
    forall c | c in d.records
      ensures RecordShape(n.records[c]) <==> RecordShape(d.records[c])
      ensures n.records[c].chatId == d.records[c].chatId
    {
      RecordShapeFacts(d.records[c]);
    }
    forall k | k in d.provisional
      ensures KeyOf(n.provisional[k]) == KeyOf(d.provisional[k])
    {
    }
  }

  // ----------------------------------------------------------- nothing lost

  /** A rewrite keeps every operation under its names and in its state, and its outcome. */
  lemma NormalizedLookup(d: Document, chatId: string, name: string)
    ensures LookupOperation(Normalized(d), chatId, name) ==
            match LookupOperation(d, chatId, name)
            case None => None
            case Some(o) => Some(NormalizeOperation(o))
  {
    if chatId in d.records {
      LineageNormalized(d.records[chatId]);
      FirstNamedNormalized(Lineage(d.records[chatId]), name);
    }
  }

  lemma FirstNamedNormalized(ops: seq<Operation>, name: string)
    ensures IndexOf(NormalizeOps(ops), name) == IndexOf(ops, name)
  {
    var i, j := IndexOf(NormalizeOps(ops), name), IndexOf(ops, name);
    assert forall x :: 0 <= x < |ops| ==> Names(NormalizeOps(ops)[x]) == Names(ops[x]);
  }

  // ---------------------------------------------------------- list by list

  function NormalizeRecords(ms: seq<Record>): (n: seq<Record>)
    ensures |n| == |ms| && forall i :: 0 <= i < |ms| ==> n[i] == NormalizeRecord(ms[i])
  {
    seq(|ms|, i requires 0 <= i < |ms| => NormalizeRecord(ms[i]))
  }

  function NormalizeProvisionals(ps: seq<Provisional>): (n: seq<Provisional>)
    ensures |n| == |ps| && forall i :: 0 <= i < |ps| ==> n[i] == NormalizeProvisional(ps[i])
  {
    seq(|ps|, i requires 0 <= i < |ps| => NormalizeProvisional(ps[i]))
  }

  lemma {:induction false} RecordsNormalized(ms: seq<Record>)
    ensures RecordsInto(map[], NormalizeRecords(ms)) ==
            map c | c in RecordsInto(map[], ms) :: NormalizeRecord(RecordsInto(map[], ms)[c])
    decreases |ms|
  {
    if ms != [] {
      RecordsNormalized(ms[..|ms| - 1]);
      assert NormalizeRecords(ms)[..|ms| - 1] == NormalizeRecords(ms[..|ms| - 1]);
    }
  }

  lemma {:induction false} ProvisionalsNormalized(ps: seq<Provisional>)
    ensures ProvisionalInto(map[], NormalizeProvisionals(ps)) ==
            map k | k in ProvisionalInto(map[], ps) :: NormalizeProvisional(ProvisionalInto(map[], ps)[k])
    decreases |ps|
  {
    if ps != [] {
      ProvisionalsNormalized(ps[..|ps| - 1]);
      assert NormalizeProvisionals(ps)[..|ps| - 1] == NormalizeProvisionals(ps[..|ps| - 1]);
    }
  }

  /** Rewriting the listed entries one by one is rewriting the document. */
  lemma EnumeratesNormalized(d: Document, ms: seq<Record>, ps: seq<Provisional>)
    requires Enumerates(d, ms, ps)
    ensures Enumerates(Normalized(d), NormalizeRecords(ms), NormalizeProvisionals(ps))
  {
    RecordsNormalized(ms);
    ProvisionalsNormalized(ps);
  }
}
