/** Normalising a version 2 authority for one administrator: every source mapping
    is accounted for, duplicates are merged without losing history, and every
    name a chat had leads to one destination. */
module Migration {
  import opened AuthorityTypes
  import opened RelationalValidity

  /** An operation together with its recorded times, which count when histories are compared. */
  datatype Dated = Dated(op: Operation, times: string)

  /** `createdAt` orders like the timestamps it stands for; `reassignment` and `rest` are opaque. */
  datatype Mapping = Mapping(
    chatId: string, projectId: string, sessionId: string, createdAt: nat,
    reassignment: Option<string>, rest: string, journal: seq<Dated>)

  /** What converting one source entry yields.  A preserved entry already had its scope. */
  datatype Entry =
    | Malformed(rawChatId: Option<string>)
    | Refused
    | Converted(originalChatId: string, legacyChatId: string, mapping: Mapping, preserved: bool)

  datatype ItemStatus = Migrated | Skipped | Quarantined

  datatype Item = Item(sourceIndex: nat, legacyChatId: Option<string>, destinationChatId: Option<string>,
    status: ItemStatus)

  datatype Candidate = Candidate(mapping: Mapping, legacyChatId: string, sourceIndex: nat, itemIndex: nat)

  datatype State = State(candidates: map<string, Candidate>, aliases: map<string, string>, items: seq<Item>)

  // ------------------------------------------------------ merging histories

  const HISTORICAL := "historical-import"

  predicate LowerHex(s: string) {
    forall i :: 0 <= i < |s| ==> '0' <= s[i] <= '9' || 'a' <= s[i] <= 'f'
  }

  predicate HistoricalId(id: string) {
    var prefix := HISTORICAL + ":migration-";
    id == HISTORICAL ||
    (|id| == |prefix| + 16 && id[..|prefix|] == prefix && LowerHex(id[|prefix|..]))
  }

  predicate MigrationOwned(o: Dated) {
    && o.op.kind.Prompt? && o.op.state.Complete? && o.op.result.None? && o.op.successor.None?
    && o.op.oid.ingressId == Some(o.op.oid.id) && HistoricalId(o.op.oid.id)
  }

  function Named(o: Dated, id: string): Dated {
    o.(op := o.op.(oid := OperationId(id, Some(id))))
  }

  function Rename(digest: Dated -> string, o: Dated): Dated {
    Named(o, HISTORICAL + ":migration-" + digest(o))
  }

  /** A history may be merged of complete prompts without an outcome only, which the migration itself put
      under a historical id: the plain one, or one with sixteen lower-case hexadecimal digits. */
  lemma MigrationOwnedExact(o: Dated)
    ensures MigrationOwned(o) <==>
            && o.op.kind == Prompt && o.op.state == Complete && o.op.result == None && o.op.successor == None
            && o.op.oid.ingressId == Some(o.op.oid.id)
            && (o.op.oid.id == "historical-import" ||
                exists digits: string ::
                  && o.op.oid.id == "historical-import:migration-" + digits && |digits| == 16
                  && forall i :: 0 <= i < 16 ==> digits[i] in "0123456789abcdef")
  {
    var prefix := HISTORICAL + ":migration-";
    assert prefix == "historical-import:migration-";
    var id := o.op.oid.id;
    HexDigits(id[if |prefix| <= |id| then |prefix| else 0..]);
    if |id| == |prefix| + 16 && id[..|prefix|] == prefix {
      assert id == prefix + id[|prefix|..];
    }
    forall digits: string | id == prefix + digits
      ensures id[..|prefix|] == prefix && id[|prefix|..] == digits
    {
    }
  }

  lemma HexDigits(s: string)
    ensures LowerHex(s) <==> forall i :: 0 <= i < |s| ==> s[i] in "0123456789abcdef"
  {
    forall c: char
      ensures c in "0123456789abcdef" <==> '0' <= c <= '9' || 'a' <= c <= 'f'
    {
      HexDigit(c);
    }
  }

  lemma HexDigit(c: char)
    ensures c in "0123456789abcdef" <==> '0' <= c <= '9' || 'a' <= c <= 'f'
  {
    var all := "0123456789abcdef";
    assert '0' <= c <= '9' ==> all[c as int - '0' as int] == c;
    assert 'a' <= c <= 'f' ==> all[10 + (c as int - 'a' as int)] == c;
  }

  /** A new id changes the two names and nothing else, and an operation of the migration stays one. */
  lemma RenameReadBack(digest: Dated -> string, o: Dated)
    ensures var r := Rename(digest, o);
            && r.op.oid.id == "historical-import:migration-" + digest(o) && r.op.oid.ingressId == Some(r.op.oid.id)
            && r.op.kind == o.op.kind && r.op.state == o.op.state && r.op.detail == o.op.detail
            && r.op.result == o.op.result && r.op.successor == o.op.successor && r.times == o.times
            && (MigrationOwned(o) && |digest(o)| == 16 && LowerHex(digest(o)) ==> MigrationOwned(r))
  {
    var prefix := HISTORICAL + ":migration-";
    assert prefix == "historical-import:migration-";
    assert (prefix + digest(o))[..|prefix|] == prefix && (prefix + digest(o))[|prefix|..] == digest(o);
  }

  /** The operation after `n` merges have each given it a new id. */
  function Renamed(digest: Dated -> string, o: Dated, n: nat): Dated {
    if n == 0 then o else Rename(digest, Renamed(digest, o, n - 1))
  }

  /** The very operation is there, or what repeated renaming makes of it. */
  ghost predicate Survives(digest: Dated -> string, o: Dated, journal: seq<Dated>) {
    exists n: nat :: Renamed(digest, o, n) in journal
  }

  ghost predicate AllSurvive(digest: Dated -> string, ops: seq<Dated>, journal: seq<Dated>) {
    forall o :: o in ops ==> Survives(digest, o, journal)
  }

  /** What one merge keeps: each operation as itself or renamed once. */
  predicate MergedInto(digest: Dated -> string, ops: seq<Dated>, journal: seq<Dated>) {
    forall o :: o in ops ==> o in journal || Rename(digest, o) in journal
  }

  predicate Stems(digest: Dated -> string, x: Dated, ops: seq<Dated>) {
    x in ops || exists o :: o in ops && x == Rename(digest, o)
  }

  predicate AllStem(digest: Dated -> string, journal: seq<Dated>, ops: seq<Dated>) {
    forall x :: x in journal ==> Stems(digest, x, ops)
  }

  /** Two different operations never end up under one new name. */
  predicate NamesApart(digest: Dated -> string, ops: seq<Dated>, journal: seq<Dated>) {
    forall a, b :: a in ops && b in ops && a != b && a !in journal && b !in journal ==>
      Rename(digest, a) != Rename(digest, b)
  }

  lemma {:induction false} RenamedTwice(digest: Dated -> string, o: Dated, m: nat, n: nat)
    ensures Renamed(digest, Renamed(digest, o, m), n) == Renamed(digest, o, m + n)
    decreases n
  {
    if n > 0 {
      RenamedTwice(digest, o, m, n - 1);
    }
  }

  lemma SurvivesOn(digest: Dated -> string, ops: seq<Dated>, a: seq<Dated>, b: seq<Dated>)
    requires AllSurvive(digest, ops, a) && AllSurvive(digest, a, b)
    ensures AllSurvive(digest, ops, b)
  {
    forall o | o in ops
      ensures Survives(digest, o, b)
    {
      var m: nat :| Renamed(digest, o, m) in a;
      assert Survives(digest, Renamed(digest, o, m), b);
      var n: nat :| Renamed(digest, Renamed(digest, o, m), n) in b;
      RenamedTwice(digest, o, m, n);
    }
  }

  lemma SurvivesItself(digest: Dated -> string, ops: seq<Dated>)
    ensures AllSurvive(digest, ops, ops)
  {
    forall o | o in ops
      ensures Survives(digest, o, ops)
    {
      assert Renamed(digest, o, 0) == o;
    }
  }

  lemma MergedSurvives(digest: Dated -> string, ops: seq<Dated>, journal: seq<Dated>)
    requires MergedInto(digest, ops, journal)
    ensures AllSurvive(digest, ops, journal)
  {
    forall o | o in ops
      ensures Survives(digest, o, journal)
    {
      assert Renamed(digest, o, 0) == o && Renamed(digest, o, 1) == Rename(digest, Renamed(digest, o, 0));
    }
  }

  /** No two entries under one id. */
  predicate DistinctIds(journal: seq<Dated>) {
    forall i, j :: 0 <= i < j < |journal| ==> journal[i].op.oid.id != journal[j].op.oid.id
  }

  function FindId(journal: seq<Dated>, id: string): (found: Option<Dated>)
    ensures found.Some? ==> found.value in journal && found.value.op.oid.id == id
    ensures found.None? ==> forall o :: o in journal ==> o.op.oid.id != id
    decreases |journal|
  {
    if journal == [] then None
    else if journal[0].op.oid.id == id then Some(journal[0])
    else FindId(journal[1..], id)
  }

  /** Merges two migration-owned histories; `None` when they cannot be told apart safely. */
  method ReconcileHistory(digest: Dated -> string, preferred: Mapping, secondary: Mapping)
    returns (merged: Option<Mapping>)
    ensures merged.Some? ==>
              var all := preferred.journal + secondary.journal;
              && merged.value == preferred.(journal := merged.value.journal)
              && MergedInto(digest, all, merged.value.journal) && AllStem(digest, merged.value.journal, all)
              && NamesApart(digest, all, merged.value.journal) && DistinctIds(merged.value.journal)
              && (DistinctIds(preferred.journal) ==> preferred.journal <= merged.value.journal)
    ensures merged.Some? ==>
              preferred.reassignment == secondary.reassignment &&
              forall o :: o in preferred.journal + secondary.journal ==> MigrationOwned(o)
    ensures merged.None? ==>
              || preferred.reassignment != secondary.reassignment
              || (exists o :: o in preferred.journal + secondary.journal && !MigrationOwned(o))
              || RenamingClashes(digest, preferred.journal + secondary.journal)
  {
    var all := preferred.journal + secondary.journal;
    if preferred.reassignment != secondary.reassignment || exists o :: o in all && !MigrationOwned(o) {
      return None;
    }
    var operations := MergeOperations(digest, all, |preferred.journal|);
    assert all[..|preferred.journal|] == preferred.journal;
    if operations.None? {
      return None;
    }
    return Some(preferred.(journal := operations.value));
  }

  /** The new id of an operation is taken already, by an earlier one's own or new id. */
  ghost predicate RenamingClashes(digest: Dated -> string, all: seq<Dated>) {
    exists i, j :: 0 <= i < j < |all| &&
      Rename(digest, all[j]).op.oid.id in {all[i].op.oid.id, Rename(digest, all[i]).op.oid.id}
  }

  /** Collects the operations under their ids, renaming one whose id stands for another already; the first
      `k`, if their ids are their own, keep them and come first. */
  method MergeOperations(digest: Dated -> string, all: seq<Dated>, ghost k: nat) returns (merged: Option<seq<Dated>>)
    requires k <= |all|
    ensures merged.Some? ==>
              && MergedInto(digest, all, merged.value) && AllStem(digest, merged.value, all)
              && NamesApart(digest, all, merged.value) && DistinctIds(merged.value)
              && (DistinctIds(all[..k]) ==> all[..k] <= merged.value)
    ensures merged.None? ==> RenamingClashes(digest, all)
  {
    var operations: seq<Dated> := [];
    ghost var first, done: seq<Dated> := all[..k], [];
    for n := 0 to |all|
      invariant |done| == n && done <= all && first <= all
      invariant Collected(digest, done, operations) && Leads(first, done, operations)
    {
      var ok;
      ok, operations := MergeOne(digest, operations, all[n], done, first);
      PartsNest(first, done, all);
      done := done + [all[n]];
      if !ok {
        ClashBefore(digest, done, all);
        return None;
      }
    }
    assert done == all;
    return Some(operations);
  }

  /** The first operations come first, as far as they are collected. */
  predicate Leads(first: seq<Dated>, done: seq<Dated>, operations: seq<Dated>) {
    DistinctIds(first) ==> if |done| <= |first| then operations == done else first <= operations
  }

  lemma PartsNest(first: seq<Dated>, done: seq<Dated>, all: seq<Dated>)
    requires first <= all && done <= all && |done| < |all|
    ensures done + [all[|done|]] <= all
  {
  }

  method MergeOne(digest: Dated -> string, operations: seq<Dated>, o: Dated, ghost done: seq<Dated>,
                  ghost first: seq<Dated>)
    returns (ok: bool, merged: seq<Dated>)
    requires Collected(digest, done, operations) && Leads(first, done, operations)
    requires done + [o] <= first || first <= done
    ensures ok ==> Collected(digest, done + [o], merged) && Leads(first, done + [o], merged)
    ensures !ok ==> RenamingClashes(digest, done + [o])
  {
    var prior := FindId(operations, o.op.oid.id);
    FreshInFirst(first, done, o);
    if prior.None? {
      CollectOwn(digest, done, operations, o);
      return true, operations + [o];
    }
    if prior.value == o {
      CollectAgain(digest, done, operations, o);
      return true, operations;
    }
    var renamed := Rename(digest, o);
    var taken := FindId(operations, renamed.op.oid.id);
    if taken.Some? {
      TakenClashes(digest, done, operations, o, taken.value);
      return false, operations;
    }
    CollectRenamed(digest, done, operations, o);
    return true, operations + [renamed];
  }

  lemma FreshInFirst(first: seq<Dated>, done: seq<Dated>, o: Dated)
    ensures DistinctIds(first) && done + [o] <= first ==> FindId(done, o.op.oid.id).None?
  {
    if DistinctIds(first) && done + [o] <= first {
      forall x | x in done
        ensures x.op.oid.id != o.op.oid.id
      {
        var i :| 0 <= i < |done| && done[i] == x;
        assert first[i] == (done + [o])[i] && first[|done|] == (done + [o])[|done|];
      }
    }
  }

  lemma TakenClashes(digest: Dated -> string, done: seq<Dated>, operations: seq<Dated>, o: Dated, x: Dated)
    requires AllStem(digest, operations, done) && x in operations && x.op.oid.id == Rename(digest, o).op.oid.id
    ensures RenamingClashes(digest, done + [o])
  {
    var all := done + [o];
    assert Stems(digest, x, done);
    var y :| y in done && (x == y || x == Rename(digest, y));
    var i :| 0 <= i < |done| && done[i] == y;
    assert all[i] == y && all[|done|] == o;
  }

  lemma ClashBefore(digest: Dated -> string, part: seq<Dated>, all: seq<Dated>)
    requires part <= all && RenamingClashes(digest, part)
    ensures RenamingClashes(digest, all)
  {
    var i, j :| 0 <= i < j < |part|
      && Rename(digest, part[j]).op.oid.id in {part[i].op.oid.id, Rename(digest, part[i]).op.oid.id};
    assert all[i] == part[i] && all[j] == part[j];
  }

  predicate Collected(digest: Dated -> string, ops: seq<Dated>, journal: seq<Dated>) {
    && DistinctIds(journal) && AllStem(digest, journal, ops) && MergedInto(digest, ops, journal)
    && NamesApart(digest, ops, journal)
  }

  lemma CollectOwn(digest: Dated -> string, ops: seq<Dated>, journal: seq<Dated>, o: Dated)
    requires Collected(digest, ops, journal) && FindId(journal, o.op.oid.id).None?
    ensures Collected(digest, ops + [o], journal + [o])
  {
    assert o in journal + [o] && forall x :: x in journal ==> x in journal + [o];
  }

  lemma CollectAgain(digest: Dated -> string, ops: seq<Dated>, journal: seq<Dated>, o: Dated)
    requires Collected(digest, ops, journal) && o in journal
    ensures Collected(digest, ops + [o], journal)
  {
  }

  lemma CollectRenamed(digest: Dated -> string, ops: seq<Dated>, journal: seq<Dated>, o: Dated)
    requires Collected(digest, ops, journal) && FindId(journal, Rename(digest, o).op.oid.id).None?
    ensures Collected(digest, ops + [o], journal + [Rename(digest, o)])
  {
    var more := journal + [Rename(digest, o)];
    assert Rename(digest, o) in more && forall x :: x in journal ==> x in more;
    forall a | a in ops && a !in journal
      ensures Rename(digest, a) != Rename(digest, o)
    {
      assert Rename(digest, a) in journal;
    }
  }

  predicate Equivalent(a: Mapping, b: Mapping) {
    a.journal == b.journal && a.reassignment == b.reassignment
  }

  predicate Merges(digest: Dated -> string, merged: Mapping, preferred: Mapping, secondary: Mapping) {
    && merged == preferred.(journal := merged.journal)
    && MergedInto(digest, preferred.journal, merged.journal) && MergedInto(digest, secondary.journal, merged.journal)
    && AllStem(digest, merged.journal, preferred.journal + secondary.journal)
    && (DistinctIds(preferred.journal) ==> preferred.journal <= merged.journal && DistinctIds(merged.journal))
  }

  method MergeDuplicates(digest: Dated -> string, preferred: Mapping, secondary: Mapping)
    returns (merged: Option<Mapping>)
    ensures merged.Some? ==> Merges(digest, merged.value, preferred, secondary)
    ensures Equivalent(preferred, secondary) ==> merged == Some(preferred)
  {
    if Equivalent(preferred, secondary) {
      return Some(preferred);
    }
    merged := ReconcileHistory(digest, preferred, secondary);
  }

  // ------------------------------------------------------------- accounting

  function Live(items: seq<Item>): nat
    decreases |items|
  {
    if items == [] then 0
    else Live(items[..|items| - 1]) + if items[|items| - 1].status.Quarantined? then 0 else 1
  }

  lemma LiveAppend(items: seq<Item>, item: Item)
    ensures Live(items + [item]) == Live(items) + if item.status.Quarantined? then 0 else 1
  {
    assert (items + [item])[..|items|] == items;
  }

  lemma {:induction false} LiveQuarantine(items: seq<Item>, k: nat, item: Item)
    requires k < |items| && !items[k].status.Quarantined? && item.status.Quarantined?
    ensures Live(items[k := item]) == Live(items) - 1
    decreases |items|
  {
    if k == |items| - 1 {
      assert items[k := item][..|items| - 1] == items[..|items| - 1];
    } else {
      LiveQuarantine(items[..|items| - 1], k, item);
      assert items[k := item][..|items| - 1] == items[..|items| - 1][k := item];
    }
  }

  function CountOf(items: seq<Item>, status: ItemStatus): nat
    decreases |items|
  {
    if items == [] then 0
    else CountOf(items[..|items| - 1], status) + if items[|items| - 1].status == status then 1 else 0
  }

  /** The reported counts add up: what is not quarantined is migrated or skipped. */
  lemma {:induction false} CountsAddUp(items: seq<Item>)
    ensures CountOf(items, Migrated) + CountOf(items, Skipped) == Live(items)
    ensures Live(items) + CountOf(items, Quarantined) == |items|
    decreases |items|
  {
    if items != [] {
      CountsAddUp(items[..|items| - 1]);
    }
  }

  /** One alias names one destination. */
  method Register(aliases: map<string, string>, source: string, destination: string)
    returns (ok: bool, out: map<string, string>)
    ensures ok <==> (source in aliases ==> aliases[source] == destination)
    ensures out == if ok then aliases[source := destination] else aliases
  {
    ok := !(source in aliases && aliases[source] != destination);
    out := if ok then aliases[source := destination] else aliases;
  }

  predicate ItemFor(item: Item, i: nat, e: Entry) {
    && item.sourceIndex == i
    && match e
       case Malformed(raw) => item.status.Quarantined? && item.legacyChatId == raw && item.destinationChatId.None?
       case Refused => false
       case Converted(_, legacy, mapping, preserved) =>
         && item.legacyChatId == Some(legacy) && item.destinationChatId == Some(mapping.chatId)
         && (item.status.Quarantined? || item.status == if preserved then Skipped else Migrated)
  }

  /** Every source entry has its one item, saying where it went. */
  predicate Itemised(items: seq<Item>, entries: seq<Entry>) {
    |items| == |entries| && forall i :: 0 <= i < |items| ==> ItemFor(items[i], i, entries[i])
  }

  predicate CandidateListed(s: State, k: string)
    requires k in s.candidates
  {
    var c := s.candidates[k];
    && c.mapping.chatId == k && c.itemIndex < |s.items|
    && !s.items[c.itemIndex].status.Quarantined? && s.items[c.itemIndex].destinationChatId == Some(k)
  }

  predicate ItemHeld(s: State, i: nat)
    requires i < |s.items|
  {
    s.items[i].status.Quarantined? ||
    (&& s.items[i].destinationChatId.Some? && s.items[i].destinationChatId.value in s.candidates
     && s.candidates[s.items[i].destinationChatId.value].itemIndex == i)
  }

  /** Outputs and items that are not quarantined belong to each other one to one. */
  ghost predicate OneToOne(s: State) {
    && (forall k :: k in s.candidates ==> CandidateListed(s, k))
    && (forall i: nat :: i < |s.items| ==> ItemHeld(s, i))
    && Live(s.items) == |s.candidates|
  }

  predicate Resolves(aliases: map<string, string>, e: Entry) {
    e.Converted? ==>
      forall a :: a in [e.originalChatId, e.legacyChatId, e.mapping.chatId] ==>
        a in aliases && aliases[a] == e.mapping.chatId
  }

  ghost predicate Kept(digest: Dated -> string, candidates: map<string, Candidate>, e: Entry) {
    e.Converted? ==>
      && e.mapping.chatId in candidates
      && candidates[e.mapping.chatId].mapping.projectId == e.mapping.projectId
      && candidates[e.mapping.chatId].mapping.sessionId == e.mapping.sessionId
      && AllSurvive(digest, e.mapping.journal, candidates[e.mapping.chatId].mapping.journal)
  }

  /** The operation is one of the entry's, as itself or renamed, and the entry went to `k`. */
  ghost predicate FromEntry(digest: Dated -> string, x: Dated, e: Entry, k: string) {
    e.Converted? && e.mapping.chatId == k && exists o, n: nat :: o in e.mapping.journal && x == Renamed(digest, o, n)
  }

  ghost predicate FromSome(digest: Dated -> string, x: Dated, entries: seq<Entry>, k: string) {
    exists i :: 0 <= i < |entries| && FromEntry(digest, x, entries[i], k)
  }

  /** Nothing in an output was invented. */
  ghost predicate Sourced(digest: Dated -> string, candidates: map<string, Candidate>, entries: seq<Entry>) {
    forall k :: k in candidates ==> AllFrom(digest, candidates[k].mapping.journal, entries, k)
  }

  ghost predicate AllFrom(digest: Dated -> string, journal: seq<Dated>, entries: seq<Entry>, k: string) {
    forall x :: x in journal ==> FromSome(digest, x, entries, k)
  }

  ghost predicate Accounted(digest: Dated -> string, s: State, entries: seq<Entry>) {
    && Itemised(s.items, entries)
    && OneToOne(s)
    && Each(digest, s.aliases, s.candidates, entries)
    && AliasesHeld(s)
    && Sourced(digest, s.candidates, entries)
  }

  /** Every alias leads to an output. */
  ghost predicate AliasesHeld(s: State) {
    forall a :: a in s.aliases ==> s.aliases[a] in s.candidates
  }

  // ---------------------------------------------------------------- the loop

  lemma SkipAccounted(digest: Dated -> string, s: State, entries: seq<Entry>, e: Entry, item: Item)
    requires Accounted(digest, s, entries) && e.Malformed? && ItemFor(item, |entries|, e)
    ensures Accounted(digest, s.(items := s.items + [item]), entries + [e])
  {
    var s' := s.(items := s.items + [item]);
    LiveAppend(s.items, item);
    forall k | k in s'.candidates
      ensures CandidateListed(s', k)
    {
      assert CandidateListed(s, k);
    }
    forall i: nat | i < |s'.items|
      ensures ItemHeld(s', i)
    {
      assert i < |s.items| ==> ItemHeld(s, i);
    }
    ItemisedMore(s.items, entries, item, e);
    EachMore(digest, s'.aliases, s'.candidates, entries, e);
    SourcedMore(digest, s.candidates, entries, e);
  }

  lemma FromMore(digest: Dated -> string, x: Dated, entries: seq<Entry>, e: Entry, k: string)
    requires FromSome(digest, x, entries, k)
    ensures FromSome(digest, x, entries + [e], k)
  {
    var i :| 0 <= i < |entries| && FromEntry(digest, x, entries[i], k);
    assert (entries + [e])[i] == entries[i];
  }

  lemma RenamedFrom(digest: Dated -> string, x: Dated, entries: seq<Entry>, k: string)
    requires FromSome(digest, x, entries, k)
    ensures FromSome(digest, Rename(digest, x), entries, k)
  {
    var i :| 0 <= i < |entries| && FromEntry(digest, x, entries[i], k);
    var o, n: nat :| o in entries[i].mapping.journal && x == Renamed(digest, o, n);
    assert Rename(digest, x) == Renamed(digest, o, n + 1);
    assert FromEntry(digest, Rename(digest, x), entries[i], k);
  }

  lemma OwnFrom(digest: Dated -> string, entries: seq<Entry>, e: Entry)
    requires e.Converted?
    ensures AllFrom(digest, e.mapping.journal, entries + [e], e.mapping.chatId)
  {
    forall x | x in e.mapping.journal
      ensures FromSome(digest, x, entries + [e], e.mapping.chatId)
    {
      assert x == Renamed(digest, x, 0);
      assert FromEntry(digest, x, (entries + [e])[|entries|], e.mapping.chatId);
    }
  }

  lemma SourcedMore(digest: Dated -> string, candidates: map<string, Candidate>, entries: seq<Entry>, e: Entry)
    requires Sourced(digest, candidates, entries)
    ensures Sourced(digest, candidates, entries + [e])
  {
    forall k, x | k in candidates && x in candidates[k].mapping.journal
      ensures FromSome(digest, x, entries + [e], k)
    {
      assert AllFrom(digest, candidates[k].mapping.journal, entries, k);
      FromMore(digest, x, entries, e, k);
    }
  }

  /** What a merge of two sourced histories holds is sourced. */
  lemma MergedFrom(digest: Dated -> string, journal: seq<Dated>, a: seq<Dated>, b: seq<Dated>, entries: seq<Entry>,
                   k: string)
    requires AllStem(digest, journal, a + b) && AllFrom(digest, a, entries, k) && AllFrom(digest, b, entries, k)
    ensures AllFrom(digest, journal, entries, k)
  {
    forall x | x in journal
      ensures FromSome(digest, x, entries, k)
    {
      assert Stems(digest, x, a + b);
      if x !in a + b {
        var o :| o in a + b && x == Rename(digest, o);
        RenamedFrom(digest, o, entries, k);
      }
    }
  }

  lemma ItemisedMore(items: seq<Item>, entries: seq<Entry>, item: Item, e: Entry)
    requires Itemised(items, entries) && ItemFor(item, |entries|, e)
    ensures Itemised(items + [item], entries + [e])
  {
  }

  ghost predicate Each(digest: Dated -> string, aliases: map<string, string>, candidates: map<string, Candidate>,
                       entries: seq<Entry>) {
    forall i :: 0 <= i < |entries| ==> Resolves(aliases, entries[i]) && Kept(digest, candidates, entries[i])
  }

  lemma EachMore(digest: Dated -> string, aliases: map<string, string>, candidates: map<string, Candidate>,
                 entries: seq<Entry>, e: Entry)
    requires Each(digest, aliases, candidates, entries) && Resolves(aliases, e) && Kept(digest, candidates, e)
    ensures Each(digest, aliases, candidates, entries + [e])
  {
  }

  /** The aliases after all three names of an entry are registered. */
  function Registered(aliases: map<string, string>, e: Entry): map<string, string>
    requires e.Converted?
  {
    var chatId := e.mapping.chatId;
    aliases[e.originalChatId := chatId][e.legacyChatId := chatId][chatId := chatId]
  }

  predicate Registrable(aliases: map<string, string>, e: Entry)
    requires e.Converted?
  {
    forall a :: a in [e.originalChatId, e.legacyChatId, e.mapping.chatId] && a in aliases ==>
      aliases[a] == e.mapping.chatId
  }

  lemma RegisteredResolves(aliases: map<string, string>, e: Entry, before: seq<Entry>)
    requires e.Converted? && Registrable(aliases, e)
    requires forall i :: 0 <= i < |before| ==> Resolves(aliases, before[i])
    ensures forall i :: 0 <= i < |before| ==> Resolves(Registered(aliases, e), before[i])
    ensures Resolves(Registered(aliases, e), e)
  {
    var out := Registered(aliases, e);
    assert e.originalChatId in [e.originalChatId, e.legacyChatId, e.mapping.chatId];
    assert e.legacyChatId in [e.originalChatId, e.legacyChatId, e.mapping.chatId];
    assert e.mapping.chatId in [e.originalChatId, e.legacyChatId, e.mapping.chatId];
    assert forall a :: a in aliases ==> a in out && out[a] == aliases[a];
  }

  method RegisterAll(aliases: map<string, string>, e: Entry) returns (ok: bool, out: map<string, string>)
    requires e.Converted?
    ensures ok <==> Registrable(aliases, e)
    ensures ok ==> out == Registered(aliases, e)
  {
    var destination := e.mapping.chatId;
    assert e.originalChatId in [e.originalChatId, e.legacyChatId, destination];
    assert e.legacyChatId in [e.originalChatId, e.legacyChatId, destination];
    assert destination in [e.originalChatId, e.legacyChatId, destination];
    ok, out := Register(aliases, e.originalChatId, destination);
    if ok {
      ok, out := Register(out, e.legacyChatId, destination);
    }
    if ok {
      ok, out := Register(out, destination, destination);
    }
  }

  function NewItem(index: nat, e: Entry): Item
    requires e.Converted?
  {
    Item(index, Some(e.legacyChatId), Some(e.mapping.chatId), if e.preserved then Skipped else Migrated)
  }

  function Fresh(s: State, n: nat, e: Entry): State
    requires e.Converted?
  {
    State(s.candidates[e.mapping.chatId := Candidate(e.mapping, e.legacyChatId, n, n)],
          Registered(s.aliases, e), s.items + [NewItem(n, e)])
  }

  lemma FreshOneToOne(s: State, e: Entry)
    requires OneToOne(s) && e.Converted? && e.mapping.chatId !in s.candidates
    ensures OneToOne(Fresh(s, |s.items|, e))
  {
    var s' := Fresh(s, |s.items|, e);
    LiveAppend(s.items, NewItem(|s.items|, e));
    forall k | k in s'.candidates
      ensures CandidateListed(s', k)
    {
      assert k in s.candidates ==> CandidateListed(s, k);
    }
    forall i: nat | i < |s'.items|
      ensures ItemHeld(s', i)
    {
      assert i < |s.items| ==> ItemHeld(s, i);
    }
  }

  lemma FreshAccounted(digest: Dated -> string, s: State, entries: seq<Entry>, e: Entry)
    requires Accounted(digest, s, entries) && e.Converted? && Registrable(s.aliases, e)
        && e.mapping.chatId !in s.candidates
    ensures Accounted(digest, Fresh(s, |entries|, e), entries + [e])
  {
    var s' := Fresh(s, |entries|, e);
    FreshOneToOne(s, e);
    RegisteredResolves(s.aliases, e, entries);
    SurvivesItself(digest, e.mapping.journal);
    ItemisedMore(s.items, entries, NewItem(|entries|, e), e);
    FreshKept(digest, s, entries, e);
    EachMore(digest, s'.aliases, s'.candidates, entries, e);
    OwnFrom(digest, entries, e);
    SourcedMore(digest, s.candidates, entries, e);
  }

  lemma FreshKept(digest: Dated -> string, s: State, entries: seq<Entry>, e: Entry)
    requires Each(digest, s.aliases, s.candidates, entries) && e.Converted? && Registrable(s.aliases, e)
    requires e.mapping.chatId !in s.candidates
    ensures Each(digest, Fresh(s, |entries|, e).aliases, Fresh(s, |entries|, e).candidates, entries)
  {
    RegisteredResolves(s.aliases, e, entries);
    var s' := Fresh(s, |entries|, e);
    forall i | 0 <= i < |entries|
      ensures Resolves(s'.aliases, entries[i]) && Kept(digest, s'.candidates, entries[i])
    {
      assert Kept(digest, s.candidates, entries[i]);
    }
  }

  /** A duplicate replaces the candidate or is merged into it; the one that gave way is quarantined. */
  function Replaced(s: State, n: nat, e: Entry, merged: Mapping, keepIncoming: bool): State
    requires e.Converted? && e.mapping.chatId in s.candidates
        && s.candidates[e.mapping.chatId].itemIndex < |s.items| == n
  {
    var prior := s.candidates[e.mapping.chatId];
    var items := s.items + [NewItem(n, e)];
    var discarded := if keepIncoming then prior.itemIndex else n;
    State(s.candidates[e.mapping.chatId :=
            if keepIncoming then Candidate(merged, e.legacyChatId, n, n) else prior.(mapping := merged)],
          Registered(s.aliases, e),
          items[discarded := items[discarded].(status := Quarantined)])
  }

  lemma ReplacedOneToOne(s: State, e: Entry, merged: Mapping, keepIncoming: bool)
    requires OneToOne(s) && e.Converted? && e.mapping.chatId in s.candidates && merged.chatId == e.mapping.chatId
    requires s.candidates[e.mapping.chatId].itemIndex < |s.items|
    ensures OneToOne(Replaced(s, |s.items|, e, merged, keepIncoming))
  {
    var n := |s.items|;
    var s' := Replaced(s, n, e, merged, keepIncoming);
    var prior := s.candidates[e.mapping.chatId];
    var items := s.items + [NewItem(n, e)];
    assert CandidateListed(s, e.mapping.chatId);
    LiveAppend(s.items, NewItem(n, e));
    var discarded := if keepIncoming then prior.itemIndex else n;
    LiveQuarantine(items, discarded, items[discarded].(status := Quarantined));
    forall k | k in s'.candidates
      ensures CandidateListed(s', k)
    {
      assert CandidateListed(s, k);
    }
    forall i: nat | i < |s'.items|
      ensures ItemHeld(s', i)
    {
      assert i < n ==> ItemHeld(s, i);
    }
  }

  lemma ReplacedItemised(s: State, entries: seq<Entry>, e: Entry, merged: Mapping, keepIncoming: bool)
    requires Itemised(s.items, entries) && e.Converted? && e.mapping.chatId in s.candidates
    requires s.candidates[e.mapping.chatId].itemIndex < |s.items|
    ensures Itemised(Replaced(s, |entries|, e, merged, keepIncoming).items, entries + [e])
  {
  }

  lemma ReplacedKept(digest: Dated -> string, s: State, entries: seq<Entry>, e: Entry, merged: Mapping,
                     keepIncoming: bool)
    requires Accounted(digest, s, entries) && e.Converted? && e.mapping.chatId in s.candidates
    requires var prior := s.candidates[e.mapping.chatId].mapping;
             && prior.projectId == e.mapping.projectId && prior.sessionId == e.mapping.sessionId
             && if keepIncoming then Merges(digest, merged, e.mapping, prior)
               else Merges(digest, merged, prior, e.mapping)
    ensures var s' := Replaced(s, |entries|, e, merged, keepIncoming);
            forall i :: 0 <= i < |entries + [e]| ==> Kept(digest, s'.candidates, (entries + [e])[i])
  {
    var s' := Replaced(s, |entries|, e, merged, keepIncoming);
    var all := entries + [e];
    forall i | 0 <= i < |all|
      ensures Kept(digest, s'.candidates, all[i])
    {
      if i < |entries| {
        assert all[i] == entries[i] && Kept(digest, s.candidates, entries[i]);
        KeptThrough(digest, s, entries[i], e, merged);
      } else {
        MergedSurvives(digest, e.mapping.journal, merged.journal);
      }
    }
  }

  lemma KeptThrough(digest: Dated -> string, s: State, earlier: Entry, e: Entry, merged: Mapping)
    requires Kept(digest, s.candidates, earlier) && e.Converted? && e.mapping.chatId in s.candidates
    requires MergedInto(digest, s.candidates[e.mapping.chatId].mapping.journal, merged.journal)
    ensures earlier.Converted? && earlier.mapping.chatId == e.mapping.chatId ==>
              AllSurvive(digest, earlier.mapping.journal, merged.journal)
  {
    MergedSurvives(digest, s.candidates[e.mapping.chatId].mapping.journal, merged.journal);
    if earlier.Converted? && earlier.mapping.chatId == e.mapping.chatId {
      SurvivesOn(digest, earlier.mapping.journal, s.candidates[e.mapping.chatId].mapping.journal, merged.journal);
    }
  }

  lemma ReplacedSourced(digest: Dated -> string, s: State, entries: seq<Entry>, e: Entry, merged: Mapping,
                        keepIncoming: bool)
    requires Sourced(digest, s.candidates, entries) && e.Converted? && e.mapping.chatId in s.candidates
    requires s.candidates[e.mapping.chatId].itemIndex < |s.items|
    requires var prior := s.candidates[e.mapping.chatId].mapping;
             AllStem(digest, merged.journal, if keepIncoming then e.mapping.journal + prior.journal
               else prior.journal + e.mapping.journal)
    ensures Sourced(digest, Replaced(s, |s.items|, e, merged, keepIncoming).candidates, entries + [e])
  {
    var k, prior := e.mapping.chatId, s.candidates[e.mapping.chatId].mapping;
    SourcedMore(digest, s.candidates, entries, e);
    OwnFrom(digest, entries, e);
    assert AllFrom(digest, prior.journal, entries + [e], k);
    if keepIncoming {
      MergedFrom(digest, merged.journal, e.mapping.journal, prior.journal, entries + [e], k);
    } else {
      MergedFrom(digest, merged.journal, prior.journal, e.mapping.journal, entries + [e], k);
    }
  }

  lemma ReplacedAccounted(digest: Dated -> string, s: State, entries: seq<Entry>, e: Entry, merged: Mapping,
                          keepIncoming: bool)
    requires Accounted(digest, s, entries) && e.Converted? && Registrable(s.aliases, e)
        && e.mapping.chatId in s.candidates
    requires var prior := s.candidates[e.mapping.chatId].mapping;
             && prior.projectId == e.mapping.projectId && prior.sessionId == e.mapping.sessionId
             && if keepIncoming then Merges(digest, merged, e.mapping, prior)
               else Merges(digest, merged, prior, e.mapping)
    ensures Accounted(digest, Replaced(s, |entries|, e, merged, keepIncoming), entries + [e])
  {
    assert CandidateListed(s, e.mapping.chatId);
    ReplacedOneToOne(s, e, merged, keepIncoming);
    ReplacedItemised(s, entries, e, merged, keepIncoming);
    ReplacedEach(digest, s, entries, e, merged, keepIncoming);
    ReplacedAliases(s, e, merged, keepIncoming);
    ReplacedSourced(digest, s, entries, e, merged, keepIncoming);
  }

  lemma ReplacedAliases(s: State, e: Entry, merged: Mapping, keepIncoming: bool)
    requires e.Converted? && e.mapping.chatId in s.candidates && s.candidates[e.mapping.chatId].itemIndex < |s.items|
    requires forall a :: a in s.aliases ==> s.aliases[a] in s.candidates
    ensures var s' := Replaced(s, |s.items|, e, merged, keepIncoming);
            forall a :: a in s'.aliases ==> s'.aliases[a] in s'.candidates
  {
  }

  lemma ReplacedEach(digest: Dated -> string, s: State, entries: seq<Entry>, e: Entry, merged: Mapping,
                     keepIncoming: bool)
    requires Accounted(digest, s, entries) && e.Converted? && Registrable(s.aliases, e)
        && e.mapping.chatId in s.candidates
    requires s.candidates[e.mapping.chatId].itemIndex < |s.items|
    requires var prior := s.candidates[e.mapping.chatId].mapping;
             && prior.projectId == e.mapping.projectId && prior.sessionId == e.mapping.sessionId
             && if keepIncoming then Merges(digest, merged, e.mapping, prior)
               else Merges(digest, merged, prior, e.mapping)
    ensures var s' := Replaced(s, |entries|, e, merged, keepIncoming);
            Each(digest, s'.aliases, s'.candidates, entries + [e])
  {
    var s' := Replaced(s, |entries|, e, merged, keepIncoming);
    var all := entries + [e];
    ReplacedKept(digest, s, entries, e, merged, keepIncoming);
    RegisteredResolves(s.aliases, e, entries);
    forall i | 0 <= i < |all|
      ensures Resolves(s'.aliases, all[i]) && Kept(digest, s'.candidates, all[i])
    {
      assert i < |entries| ==> all[i] == entries[i];
    }
  }

  // --------------------------------------------------- who wins, who stops it

  predicate GoesTo(e: Entry, k: string) {
    e.Converted? && e.mapping.chatId == k
  }

  /** The output of a destination is the mapping of the entry created last, the later one where times are
      equal, but for its history, which starts with that entry's own. */
  ghost predicate WonBy(c: Candidate, k: string, entries: seq<Entry>) {
    && c.sourceIndex == c.itemIndex < |entries| && GoesTo(entries[c.itemIndex], k)
    && var winner := entries[c.itemIndex];
    && c.legacyChatId == winner.legacyChatId && c.mapping == winner.mapping.(journal := c.mapping.journal)
    && (DistinctIds(winner.mapping.journal) ==>
          winner.mapping.journal <= c.mapping.journal && DistinctIds(c.mapping.journal))
    && (forall j :: 0 <= j < |entries| && GoesTo(entries[j], k) ==>
          entries[j].mapping.createdAt < winner.mapping.createdAt ||
          (entries[j].mapping.createdAt == winner.mapping.createdAt && j <= c.itemIndex))
    && (Agreeing(entries, k) ==> c.mapping.journal == winner.mapping.journal)
  }

  /** Every two entries of the destination tell the same history. */
  ghost predicate Agreeing(entries: seq<Entry>, k: string) {
    forall i, j :: 0 <= i < j < |entries| && GoesTo(entries[i], k) && GoesTo(entries[j], k) ==>
      Equivalent(entries[i].mapping, entries[j].mapping)
  }

  ghost predicate NewestWins(s: State, entries: seq<Entry>) {
    forall k :: k in s.candidates ==> WonBy(s.candidates[k], k, entries)
  }

  predicate NamesClash(a: Entry, b: Entry) {
    a.Converted? && b.Converted? && a.mapping.chatId != b.mapping.chatId &&
    exists x :: x in [a.originalChatId, a.legacyChatId, a.mapping.chatId] &&
      x in [b.originalChatId, b.legacyChatId, b.mapping.chatId]
  }

  /** Two entries of one destination that are not the same session, or tell different histories. */
  predicate Diverging(a: Entry, b: Entry) {
    a.Converted? && b.Converted? && a.mapping.chatId == b.mapping.chatId &&
    (a.mapping.projectId != b.mapping.projectId || a.mapping.sessionId != b.mapping.sessionId ||
     !Equivalent(a.mapping, b.mapping))
  }

  /** What alone can stop a normalisation: an entry of another principal, a name that leads to two
      destinations, or two entries of one destination that diverge. */
  ghost predicate Impeded(entries: seq<Entry>) {
    || (exists i :: 0 <= i < |entries| && entries[i].Refused?)
    || (exists i, j :: 0 <= i <= j < |entries| &&
          (NamesClash(entries[i], entries[j]) || Diverging(entries[i], entries[j])))
  }

  /** Each alias is a name of an entry that goes where it leads. */
  ghost predicate AliasesNamed(aliases: map<string, string>, entries: seq<Entry>) {
    forall a :: a in aliases ==> exists i :: 0 <= i < |entries| && Names(entries[i], a, aliases[a])
  }

  predicate Names(e: Entry, a: string, k: string) {
    GoesTo(e, k) && a in [e.originalChatId, e.legacyChatId, e.mapping.chatId]
  }

  lemma AliasesNamedMore(aliases: map<string, string>, entries: seq<Entry>, e: Entry)
    requires AliasesNamed(aliases, entries)
    ensures AliasesNamed(aliases, entries + [e])
    ensures e.Converted? ==> AliasesNamed(Registered(aliases, e), entries + [e])
  {
    forall a | a in aliases
      ensures exists i :: 0 <= i < |entries + [e]| && Names((entries + [e])[i], a, aliases[a])
    {
      var i :| 0 <= i < |entries| && Names(entries[i], a, aliases[a]);
      assert (entries + [e])[i] == entries[i];
    }
    if e.Converted? {
      assert (entries + [e])[|entries|] == e;
      forall a | a in [e.originalChatId, e.legacyChatId, e.mapping.chatId]
        ensures Names((entries + [e])[|entries|], a, e.mapping.chatId)
      {
      }
      assert e.originalChatId in [e.originalChatId, e.legacyChatId, e.mapping.chatId];
      assert e.legacyChatId in [e.originalChatId, e.legacyChatId, e.mapping.chatId];
      assert e.mapping.chatId in [e.originalChatId, e.legacyChatId, e.mapping.chatId];
    }
  }

  lemma UnregistrableClashes(aliases: map<string, string>, entries: seq<Entry>, e: Entry)
    requires e.Converted? && AliasesNamed(aliases, entries) && !Registrable(aliases, e)
    ensures Impeded(entries + [e])
  {
    var all := entries + [e];
    var a :| a in [e.originalChatId, e.legacyChatId, e.mapping.chatId] && a in aliases
      && aliases[a] != e.mapping.chatId;
    var i :| 0 <= i < |entries| && Names(entries[i], a, aliases[a]);
    assert all[i] == entries[i] && all[|entries|] == e;
    assert NamesClash(all[i], all[|entries|]);
  }

  lemma UnaffectedWins(s: State, entries: seq<Entry>, e: Entry)
    requires NewestWins(s, entries)
    ensures forall k :: k in s.candidates && !GoesTo(e, k) ==> WonBy(s.candidates[k], k, entries + [e])
  {
    forall k | k in s.candidates && !GoesTo(e, k)
      ensures WonBy(s.candidates[k], k, entries + [e])
    {
      var c, all := s.candidates[k], entries + [e];
      assert WonBy(c, k, entries) && all[c.itemIndex] == entries[c.itemIndex];
      assert forall j :: 0 <= j < |entries| ==> all[j] == entries[j];
      if Agreeing(all, k) {
        assert Agreeing(entries, k);
      }
    }
  }

  lemma FreshWins(digest: Dated -> string, s: State, entries: seq<Entry>, e: Entry)
    requires NewestWins(s, entries) && Each(digest, s.aliases, s.candidates, entries)
    requires e.Converted? && e.mapping.chatId !in s.candidates
    ensures NewestWins(Fresh(s, |entries|, e), entries + [e])
  {
    UnaffectedWins(s, entries, e);
    var all, k := entries + [e], e.mapping.chatId;
    assert all[|entries|] == e;
    forall j | 0 <= j < |entries|
      ensures !GoesTo(entries[j], k)
    {
      assert Kept(digest, s.candidates, entries[j]);
    }
  }

  lemma ReplacedWins(digest: Dated -> string, s: State, entries: seq<Entry>, e: Entry, merged: Mapping,
                     keepIncoming: bool)
    requires NewestWins(s, entries) && e.Converted? && e.mapping.chatId in s.candidates
    requires s.candidates[e.mapping.chatId].itemIndex < |s.items| == |entries|
    requires var prior := s.candidates[e.mapping.chatId].mapping;
             && keepIncoming == (e.mapping.createdAt >= prior.createdAt)
             && (if keepIncoming then Merges(digest, merged, e.mapping, prior)
                 else Merges(digest, merged, prior, e.mapping))
             && (Equivalent(e.mapping, prior) ==> merged == if keepIncoming then e.mapping else prior)
    ensures NewestWins(Replaced(s, |entries|, e, merged, keepIncoming), entries + [e])
  {
    var s', k := Replaced(s, |entries|, e, merged, keepIncoming), e.mapping.chatId;
    UnaffectedWins(s, entries, e);
    PriorAgrees(s, entries, e);
    assert WonBy(s.candidates[k], k, entries);
    if keepIncoming {
      IncomingWins(digest, s.candidates[k], k, entries, e, merged);
    } else {
      PriorWins(digest, s.candidates[k], k, entries, e, merged);
    }
    forall j | j in s'.candidates && j != k
      ensures WonBy(s'.candidates[j], j, entries + [e])
    {
      assert s'.candidates[j] == s.candidates[j];
    }
  }

  lemma IncomingWins(digest: Dated -> string, c: Candidate, k: string, entries: seq<Entry>, e: Entry, merged: Mapping)
    requires WonBy(c, k, entries) && GoesTo(e, k) && e.mapping.createdAt >= c.mapping.createdAt
    requires Merges(digest, merged, e.mapping, c.mapping)
    requires Agreeing(entries + [e], k) ==> merged == e.mapping
    ensures WonBy(Candidate(merged, e.legacyChatId, |entries|, |entries|), k, entries + [e])
  {
    var all := entries + [e];
    assert all[|entries|] == e && forall j :: 0 <= j < |entries| ==> all[j] == entries[j];
  }

  lemma PriorWins(digest: Dated -> string, c: Candidate, k: string, entries: seq<Entry>, e: Entry, merged: Mapping)
    requires WonBy(c, k, entries) && GoesTo(e, k) && e.mapping.createdAt < c.mapping.createdAt
    requires Merges(digest, merged, c.mapping, e.mapping)
    requires Agreeing(entries + [e], k) ==> Agreeing(entries, k) && merged == c.mapping
    ensures WonBy(c.(mapping := merged), k, entries + [e])
  {
    var all := entries + [e];
    assert all[|entries|] == e && forall j :: 0 <= j < |entries| ==> all[j] == entries[j];
  }

  /** Where all entries of the destination agree, so does what was made of them before. */
  lemma PriorAgrees(s: State, entries: seq<Entry>, e: Entry)
    requires NewestWins(s, entries) && e.Converted? && e.mapping.chatId in s.candidates
    ensures Agreeing(entries + [e], e.mapping.chatId) ==>
              Agreeing(entries, e.mapping.chatId) && Equivalent(e.mapping, s.candidates[e.mapping.chatId].mapping)
  {
    var k, all := e.mapping.chatId, entries + [e];
    var c := s.candidates[k];
    assert WonBy(c, k, entries) && all[|entries|] == e;
    if Agreeing(all, k) {
      assert forall j :: 0 <= j < |entries| ==> all[j] == entries[j];
      assert Agreeing(entries, k);
      assert Equivalent(all[c.itemIndex].mapping, all[|entries|].mapping);
    }
  }

  /** A duplicate that cannot be admitted diverges from an earlier entry, or two earlier ones diverge. */
  lemma UnadmittedDiverges(s: State, entries: seq<Entry>, e: Entry)
    requires NewestWins(s, entries) && e.Converted? && e.mapping.chatId in s.candidates
    requires var prior := s.candidates[e.mapping.chatId].mapping;
             prior.projectId != e.mapping.projectId || prior.sessionId != e.mapping.sessionId
               || !Equivalent(e.mapping, prior)
    ensures Impeded(entries + [e])
  {
    var k, all := e.mapping.chatId, entries + [e];
    var c := s.candidates[k];
    if c.mapping.projectId != e.mapping.projectId || c.mapping.sessionId != e.mapping.sessionId {
      assert WonBy(c, k, entries) && all[c.itemIndex] == entries[c.itemIndex] && all[|entries|] == e;
      assert Diverging(all[c.itemIndex], all[|entries|]);
    } else {
      PriorAgrees(s, entries, e);
      DisagreeingDiverge(all, k);
    }
  }

  lemma DisagreeingDiverge(entries: seq<Entry>, k: string)
    requires !Agreeing(entries, k)
    ensures Impeded(entries)
  {
    var i, j :| 0 <= i < j < |entries| && GoesTo(entries[i], k) && GoesTo(entries[j], k)
      && !Equivalent(entries[i].mapping, entries[j].mapping);
    assert Diverging(entries[i], entries[j]);
  }

  /** What stood in the way of some entries stands in the way of more. */
  lemma ImpededBefore(part: seq<Entry>, entries: seq<Entry>)
    requires part <= entries && Impeded(part)
    ensures Impeded(entries)
  {
    if i, j :| 0 <= i <= j < |part| && (NamesClash(part[i], part[j]) || Diverging(part[i], part[j])) {
      assert NamesClash(entries[i], entries[j]) || Diverging(entries[i], entries[j]);
    }
  }

  method AdmitDuplicate(digest: Dated -> string, s: State, n: nat, e: Entry, ghost entries: seq<Entry>)
    returns (ok: bool, out: State)
    requires Accounted(digest, s, entries) && n == |entries| && e.Converted? && Registrable(s.aliases, e)
    requires NewestWins(s, entries) && e.mapping.chatId in s.candidates
    ensures ok ==> Accounted(digest, out, entries + [e]) && NewestWins(out, entries + [e])
    ensures ok ==> out.aliases == Registered(s.aliases, e)
    ensures !ok ==>
              var prior := s.candidates[e.mapping.chatId].mapping;
              prior.projectId != e.mapping.projectId || prior.sessionId != e.mapping.sessionId
                || !Equivalent(e.mapping, prior)
  {
    out := s;
    var prior := s.candidates[e.mapping.chatId];
    if prior.mapping.projectId != e.mapping.projectId || prior.mapping.sessionId != e.mapping.sessionId {
      return false, s;
    }
    var keepIncoming := e.mapping.createdAt >= prior.mapping.createdAt;
    var merged;
    if keepIncoming {
      merged := MergeDuplicates(digest, e.mapping, prior.mapping);
    } else {
      merged := MergeDuplicates(digest, prior.mapping, e.mapping);
    }
    if merged.None? {
      return false, s;
    }
    ReplacedAccounted(digest, s, entries, e, merged.value, keepIncoming);
    assert CandidateListed(s, e.mapping.chatId);
    ReplacedWins(digest, s, entries, e, merged.value, keepIncoming);
    return true, Replaced(s, n, e, merged.value, keepIncoming);
  }

  /** Walks the source mappings in order.  When it succeeds every entry has exactly one item, the
      outputs and the items that are not quarantined correspond one to one, every name resolves to
      one destination, every operation of every source is still there, and of the entries of one
      destination the newest is put out.  Unless the entries stand in each other's way it succeeds. */
  method NormalizeMappings(digest: Dated -> string, entries: seq<Entry>) returns (ok: bool, s: State)
    ensures ok ==> Accounted(digest, s, entries) && NewestWins(s, entries)
    ensures ok || Impeded(entries)
  {
    ok, s := true, State(map[], map[], []);
    ghost var done: seq<Entry> := [];
    for n := 0 to |entries|
      invariant ok && |done| == n && done <= entries
      invariant Accounted(digest, s, done) && NewestWins(s, done) && AliasesNamed(s.aliases, done)
    {
      ok, s := Admit(digest, s, n, entries[n], done);
      PartMore(done, entries);
      done := done + [entries[n]];
      if !ok {
        ImpededBefore(done, entries);
        return;
      }
    }
    assert done == entries;
  }

  lemma PartMore(part: seq<Entry>, entries: seq<Entry>)
    requires part <= entries && |part| < |entries|
    ensures part + [entries[|part|]] <= entries
  {
  }

  method Admit(digest: Dated -> string, s: State, n: nat, e: Entry, ghost entries: seq<Entry>)
    returns (ok: bool, out: State)
    requires Accounted(digest, s, entries) && NewestWins(s, entries) && AliasesNamed(s.aliases, entries)
    requires n == |entries|
    ensures ok ==> Accounted(digest, out, entries + [e]) && NewestWins(out, entries + [e])
    ensures ok ==> AliasesNamed(out.aliases, entries + [e])
    ensures ok || Impeded(entries + [e])
  {
    match e {
      case Refused =>
        assert (entries + [e])[n].Refused?;
        return false, s;
      case Malformed(raw) =>
        SetAside(digest, s, entries, e);
        return true, s.(items := s.items + [Item(n, raw, None, Quarantined)]);
      case Converted(_, _, _, _) =>
        ok, out := AdmitConverted(digest, s, n, e, entries);
    }
  }

  lemma SetAside(digest: Dated -> string, s: State, entries: seq<Entry>, e: Entry)
    requires Accounted(digest, s, entries) && NewestWins(s, entries) && AliasesNamed(s.aliases, entries)
    requires e.Malformed?
    ensures var out := s.(items := s.items + [Item(|entries|, e.rawChatId, None, Quarantined)]);
            && Accounted(digest, out, entries + [e]) && NewestWins(out, entries + [e])
            && AliasesNamed(out.aliases, entries + [e])
  {
    AliasesNamedMore(s.aliases, entries, e);
    SkipAccounted(digest, s, entries, e, Item(|entries|, e.rawChatId, None, Quarantined));
    UnaffectedWins(s, entries, e);
  }

  method AdmitConverted(digest: Dated -> string, s: State, n: nat, e: Entry, ghost entries: seq<Entry>)
    returns (ok: bool, out: State)
    requires Accounted(digest, s, entries) && NewestWins(s, entries) && AliasesNamed(s.aliases, entries)
    requires n == |entries| && e.Converted?
    ensures ok ==> Accounted(digest, out, entries + [e]) && NewestWins(out, entries + [e])
    ensures ok ==> AliasesNamed(out.aliases, entries + [e])
    ensures ok || Impeded(entries + [e])
  {
    AliasesNamedMore(s.aliases, entries, e);
    var registered, _ := RegisterAll(s.aliases, e);
    if !registered {
      UnregistrableClashes(s.aliases, entries, e);
      return false, s;
    }
    if e.mapping.chatId in s.candidates {
      ok, out := AdmitDuplicate(digest, s, n, e, entries);
      if !ok {
        UnadmittedDiverges(s, entries, e);
      }
    } else {
      FreshAccounted(digest, s, entries, e);
      FreshWins(digest, s, entries, e);
      return true, Fresh(s, n, e);
    }
  }

  /** Outputs carry distinct chats, and there are as many of them as items not quarantined. */
  lemma OutputsMatchItems(digest: Dated -> string, s: State, entries: seq<Entry>)
    requires Accounted(digest, s, entries)
    ensures |s.candidates| == CountOf(s.items, Migrated) + CountOf(s.items, Skipped)
    ensures |entries| == CountOf(s.items, Migrated) + CountOf(s.items, Skipped) + CountOf(s.items, Quarantined)
    ensures forall j, k :: j in s.candidates && k in s.candidates && j != k ==>
              s.candidates[j].mapping.chatId != s.candidates[k].mapping.chatId
  {
    CountsAddUp(s.items);
  }

  // ------------------------------------------------------------- provisional

  /** A provisional source entry; `op` is missing when the entry is no operation. */
  datatype ProvisionalEntry = ProvisionalEntry(chatId: Option<string>, op: Option<Provisional>)

  /** A chat name inside a result leads to the destination: as an alias, as one of its two names, or as
      another spelling of its key, which `parse` reads. */
  predicate LeadsTo(parse: string -> Option<(string, string)>, aliases: map<string, string>, name: string,
                    legacyChatId: string, destination: string)
  {
    if name in aliases then aliases[name] == destination
    else name == legacyChatId || name == destination || (parse(name).Some? && parse(name) == parse(destination))
  }

  predicate ResultRewritable(parse: string -> Option<(string, string)>, s: State, destination: string, p: Provisional,
                             r: OperationResult)
    requires destination in s.candidates
  {
    var owner := s.candidates[destination];
    && LeadsTo(parse, s.aliases, r.mapping.chatId, owner.legacyChatId, destination)
    && r.mapping.projectId == p.projectId && r.mapping.sessionId == owner.mapping.sessionId
      && r.mapping.operationId == p.oid.id
    && (r.correlation.Some? ==>
          var c := r.correlation.value;
          && ("chatId" in c ==> LeadsTo(parse, s.aliases, c["chatId"], owner.legacyChatId, destination))
          && Agrees(c, "projectId", p.projectId) && Agrees(c, "sessionId", owner.mapping.sessionId)
          && Agrees(c, "operationId", p.oid.id))
  }

  /** The operation names its destination's project and session, and so does its result. */
  predicate Rewritable(parse: string -> Option<(string, string)>, s: State, destination: string, p: Provisional)
    requires destination in s.candidates
  {
    var owner := s.candidates[destination].mapping;
    && p.projectId == owner.projectId && (p.sessionId.Some? ==> p.sessionId.value == owner.sessionId)
    && (p.result.Some? ==> ResultRewritable(parse, s, destination, p, p.result.value))
    && ProvisionalShape(RewrittenFor(destination, p))
  }

  function RewrittenFor(destination: string, p: Provisional): Provisional {
    p.(chatId := destination,
       result := if p.result.None? then None else Some(ResultFor(destination, p.result.value)))
  }

  function ResultFor(destination: string, r: OperationResult): OperationResult {
    r.(mapping := r.mapping.(chatId := destination),
       correlation := if r.correlation.Some? && "chatId" in r.correlation.value
                      then Some(r.correlation.value["chatId" := destination]) else r.correlation)
  }

  /** An output belongs to a migrated mapping and says so throughout. */
  predicate BoundTo(s: State, p: Provisional) {
    && p.chatId in s.candidates && ProvisionalShape(p)
    && var owner := s.candidates[p.chatId].mapping;
       && p.projectId == owner.projectId && (p.sessionId.Some? ==> p.sessionId.value == owner.sessionId)
       && (p.result.Some? ==>
             && p.result.value.mapping.chatId == p.chatId && p.result.value.mapping.projectId == owner.projectId
             && p.result.value.mapping.sessionId == owner.sessionId && p.result.value.mapping.operationId == p.oid.id
             && (p.result.value.correlation.Some? ==>
                   && Agrees(p.result.value.correlation.value, "chatId", p.chatId)
                   && Agrees(p.result.value.correlation.value, "projectId", owner.projectId)
                   && Agrees(p.result.value.correlation.value, "sessionId", owner.sessionId)
                   && Agrees(p.result.value.correlation.value, "operationId", p.oid.id)))
  }

  /** Whatever chat the result names leads to the destination. */
  predicate ResultLeads(parse: string -> Option<(string, string)>, s: State, destination: string, p: Provisional)
    requires destination in s.candidates
  {
    p.result.Some? ==>
      var r, legacy := p.result.value, s.candidates[destination].legacyChatId;
      && LeadsTo(parse, s.aliases, r.mapping.chatId, legacy, destination)
      && (r.correlation.Some? && "chatId" in r.correlation.value ==>
            LeadsTo(parse, s.aliases, r.correlation.value["chatId"], legacy, destination))
  }

  /** The very operation, under another chat. */
  predicate SameElsewhere(p: Provisional, q: Provisional) {
    && q.oid == p.oid && q.kind == p.kind && q.state == p.state && q.detail == p.detail
    && q.projectId == p.projectId && q.sessionId == p.sessionId && q.sessionFile == p.sessionFile
    && q.attachment == p.attachment && (q.result.Some? <==> p.result.Some?)
    && (p.result.Some? ==>
          var r, r' := p.result.value, q.result.value;
          && r'.kind == r.kind && r'.assistantText == r.assistantText && r'.events == r.events && r'.gate == r.gate
          && r'.mapping == r.mapping.(chatId := q.chatId) && (r'.correlation.Some? <==> r.correlation.Some?)
          && (r.correlation.Some? ==>
                && r'.correlation.value.Keys == r.correlation.value.Keys
                && forall k :: k in r.correlation.value && k != "chatId" ==>
                     r'.correlation.value[k] == r.correlation.value[k]))
  }

  /** An operation can be put out for a destination exactly when its result leads there and the operation,
      moved there and otherwise as it was, is bound to the destination's mapping. */
  lemma RewritableExact(parse: string -> Option<(string, string)>, s: State, destination: string, p: Provisional)
    requires destination in s.candidates
    ensures SameElsewhere(p, RewrittenFor(destination, p)) && RewrittenFor(destination, p).chatId == destination
    ensures Rewritable(parse, s, destination, p) <==>
            ResultLeads(parse, s, destination, p) && BoundTo(s, RewrittenFor(destination, p))
  {
  }

  /** Where the entry goes: to the mapping its chat name leads to, if it can be rewritten for it. */
  function ProvisionalDestination(parse: string -> Option<(string, string)>, s: State,
                                  e: ProvisionalEntry): Option<string> {
    if e.chatId.Some? && e.chatId.value in s.aliases && s.aliases[e.chatId.value] in s.candidates
       && e.op.Some? && Rewritable(parse, s, s.aliases[e.chatId.value], e.op.value)
    then Some(s.aliases[e.chatId.value]) else None
  }

  predicate ProvisionalItemFor(parse: string -> Option<(string, string)>, s: State, item: Item, index: nat,
                               e: ProvisionalEntry) {
    && item.sourceIndex == index
    && item.destinationChatId == ProvisionalDestination(parse, s, e)
    && item.status == if item.destinationChatId.Some? then Migrated else Quarantined
  }

  /** Each provisional operation is rewritten for its chat's destination and put out, or quarantined. */
  method NormalizeProvisional(parse: string -> Option<(string, string)>, s: State, first: nat,
                              provisional: seq<ProvisionalEntry>)
    returns (outputs: seq<Provisional>, items: seq<Item>)
    ensures |items| == |provisional| && |outputs| == Live(items)
    ensures forall i :: 0 <= i < |items| ==> ProvisionalItemFor(parse, s, items[i], first + i, provisional[i])
    ensures forall i :: 0 <= i < |items| && items[i].destinationChatId.Some? ==>
              provisional[i].op.Some?
                && RewrittenFor(items[i].destinationChatId.value, provisional[i].op.value) in outputs
    ensures forall p :: p in outputs ==> BoundTo(s, p)
  {
    outputs, items := [], [];
    for n := 0 to |provisional|
      invariant |items| == n && |outputs| == Live(items)
      invariant forall i :: 0 <= i < n ==> ProvisionalItemFor(parse, s, items[i], first + i, provisional[i])
      invariant forall i :: 0 <= i < n && items[i].destinationChatId.Some? ==>
                  provisional[i].op.Some?
                    && RewrittenFor(items[i].destinationChatId.value, provisional[i].op.value) in outputs
      invariant forall p :: p in outputs ==> BoundTo(s, p)
    {
      var item, output := PlaceProvisional(parse, s, first + n, provisional[n]);
      LiveAppend(items, item);
      items := items + [item];
      if output.Some? {
        outputs := outputs + [output.value];
      }
    }
  }

  method PlaceProvisional(parse: string -> Option<(string, string)>, s: State, index: nat, e: ProvisionalEntry)
    returns (item: Item, output: Option<Provisional>)
    ensures ProvisionalItemFor(parse, s, item, index, e)
    ensures output == if item.destinationChatId.Some? then Some(RewrittenFor(item.destinationChatId.value, e.op.value))
        else None
    ensures output.Some? ==> BoundTo(s, output.value)
  {
    item, output := Item(index, e.chatId, None, Quarantined), None;
    if e.chatId.Some? && e.chatId.value in s.aliases && e.op.Some? {
      var destination := s.aliases[e.chatId.value];
      if destination in s.candidates && Rewritable(parse, s, destination, e.op.value) {
        RewritableExact(parse, s, destination, e.op.value);
        item := item.(destinationChatId := Some(destination), status := Migrated);
        output := Some(RewrittenFor(destination, e.op.value));
      }
    }
  }
}
