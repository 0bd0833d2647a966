/** The invariant every accepted journal step keeps: the document stays loadable,
    and unfinished work stays separable from retired lineages. */
module JournalInvariant {
  import opened AuthorityTypes
  import opened RelationalValidity
  import opened JournalSteps

  predicate MarkerOk(rea: Option<Reassignment>) {
    rea.Some? ==>
      && (rea.value.state.RolledBack? ==> rea.value.sourceTombstone.None?)
      && (rea.value.state.Committed? && rea.value.sourceTombstone.Some? ==>
            rea.value.sourceTombstone.value.prior == rea.value.priorTombstone)
  }

  predicate RecordOk(r: Record) {
    RecordShape(r) && RecordRelations(r) && MarkerOk(r.reassignment)
  }

  /** Unfinished work never hides behind a retired name, and a live target can be rolled back. */
  predicate Live(r: Option<Record>, p: Provisional) {
    && (!p.state.Complete? ==> !AnyOverlap(p.oid, ChainOps(Root(ReassignmentOf(r)))))
    && (!p.state.Complete? && Foreign(r, p) && InProgress?(r) ==> !AnyOverlap(p.oid, LineageOf(r)))
    && (Foreign(r, p) && InProgress?(r) && MatchesReassignment(r.value, p) ==>
          !p.state.Complete? && p.detail.Some?)
  }

  predicate EntryOk(r: Option<Record>, p: Provisional) {
    ProvisionalShape(p) && ProvisionalRelations(r, p) && Live(r, p)
  }

  ghost predicate Inv(d: Document) {
    && WellKeyed(d)
    && (forall c :: c in d.records ==> RecordOk(d.records[c]))
    && (forall k :: k in d.provisional ==> EntryOk(d.RecordOf(d.provisional[k].chatId), d.provisional[k]))
    && ProvisionalDisjoint(d)
  }

  lemma InvIsLoadable(d: Document)
    requires Inv(d)
    ensures Loadable(d)
  {
  }

  lemma EmptyInv()
    ensures Inv(EMPTY_DOCUMENT)
  {
  }

  // ------------------------------------------------------------ local change

  ghost predicate EntriesOk(d: Document, r: Record) {
    forall k :: k in d.provisional && d.provisional[k].chatId == r.chatId ==> EntryOk(Some(r), d.provisional[k])
  }

  lemma SwapRecord(d: Document, r: Record)
    requires Inv(d) && RecordOk(r) && EntriesOk(d, r)
    ensures Inv(d.WithRecord(r))
  {
  }

  ghost predicate ApartFromOthers(d: Document, p: Provisional) {
    forall k :: k in d.provisional && k != KeyOf(p) && k.chatId == p.chatId ==> !Overlap(d.provisional[k].oid, p.oid)
  }

  lemma SwapProvisional(d: Document, p: Provisional)
    requires Inv(d) && EntryOk(d.RecordOf(p.chatId), p) && ApartFromOthers(d, p)
    ensures Inv(d.WithProvisional(p))
  {
    var d' := d.WithProvisional(p);
    forall j, k | j in d'.provisional && k in d'.provisional && j != k && j.chatId == k.chatId
      ensures !Overlap(d'.provisional[j].oid, d'.provisional[k].oid)
    {
      if j == KeyOf(p) {
        assert !Overlap(d.provisional[k].oid, p.oid);
      }
    }
  }

  /** Replacing a stored entry under its own identity keeps it apart from the others. */
  lemma SameNameApart(d: Document, k: Key, p: Provisional)
    requires Inv(d) && k in d.provisional
    requires p.chatId == d.provisional[k].chatId && p.oid == d.provisional[k].oid
    ensures KeyOf(p) == k && ApartFromOthers(d, p)
  {
  }

  // --------------------------------------------------- lineages as sequences

  /** Changing operations in place, under their old names, is invisible to names. */
  predicate SameNames(a: seq<Operation>, b: seq<Operation>) {
    |a| == |b| && forall i :: 0 <= i < |a| ==> a[i].oid == b[i].oid
  }

  lemma UniqueByName(a: seq<Operation>, b: seq<Operation>)
    requires SameNames(a, b)
    ensures Unique(a) <==> Unique(b)
  {
  }

  /** Inserting a fresh operation anywhere keeps identifiers apart, and only a fresh one does. */
  lemma UniqueInsert(a: seq<Operation>, o: Operation, b: seq<Operation>)
    requires Unique(a + b)
    ensures Unique(a + [o] + b) <==> !AnyOverlap(o.oid, a + b)
  {
    var whole, without := a + [o] + b, a + b;
    if !AnyOverlap(o.oid, without) {
      forall i, j | 0 <= i < j < |whole|
        ensures !Overlap(whole[i].oid, whole[j].oid)
      {
        var i' := if i < |a| then i else i - 1;
        var j' := if j < |a| then j else j - 1;
        if i != |a| && j != |a| {
          assert whole[i] == without[i'] && whole[j] == without[j'];
        } else if i == |a| {
          assert whole[j] == without[j'];
        } else {
          assert whole[i] == without[i'];
        }
      }
    } else {
      var i :| 0 <= i < |without| && Overlap(o.oid, without[i].oid);
      if i < |a| {
        assert whole[i] == without[i] && whole[|a|] == o;
      } else {
        assert whole[i + 1] == without[i] && whole[|a|] == o;
      }
    }
  }

  predicate NoneShared(a: seq<Operation>, b: seq<Operation>) {
    forall i, j :: 0 <= i < |a| && 0 <= j < |b| ==> !Overlap(a[i].oid, b[j].oid)
  }

  lemma UniqueConcat(a: seq<Operation>, b: seq<Operation>)
    ensures Unique(a + b) <==> Unique(a) && Unique(b) && NoneShared(a, b)
  {
    var whole := a + b;
    if Unique(whole) {
      forall i, j | 0 <= i < j < |a|
        ensures !Overlap(a[i].oid, a[j].oid)
      {
        assert whole[i] == a[i] && whole[j] == a[j];
      }
      forall i, j | 0 <= i < j < |b|
        ensures !Overlap(b[i].oid, b[j].oid)
      {
        assert whole[|a| + i] == b[i] && whole[|a| + j] == b[j];
      }
      forall i, j | 0 <= i < |a| && 0 <= j < |b|
        ensures !Overlap(a[i].oid, b[j].oid)
      {
        assert whole[i] == a[i] && whole[|a| + j] == b[j];
      }
    }
  }

  lemma ApartConcat(a: seq<Operation>, b: seq<Operation>, c: seq<Operation>)
    ensures NoneShared(a + b, c) <==> NoneShared(a, c) && NoneShared(b, c)
  {
    var whole := a + b;
    if NoneShared(whole, c) {
      forall i, j | 0 <= i < |a| && 0 <= j < |c|
        ensures !Overlap(a[i].oid, c[j].oid)
      {
        assert whole[i] == a[i];
      }
      forall i, j | 0 <= i < |b| && 0 <= j < |c|
        ensures !Overlap(b[i].oid, c[j].oid)
      {
        assert whole[|a| + i] == b[i];
      }
    }
  }

  /** Operations put between two parts of a lineage keep all names apart, and only fresh ones do. */
  lemma UniqueBetween(a: seq<Operation>, mid: seq<Operation>, b: seq<Operation>)
    requires Unique(a + b) && Unique(a + mid)
    ensures Unique(a + mid + b) <==> NoneShared(mid, b)
  {
    UniqueConcat(a, b);
    UniqueConcat(a + mid, b);
    ApartConcat(a, mid, b);
  }

  lemma CommonNameOverlaps(a: OperationId, b: OperationId, name: string)
    ensures name in a.Identifiers() && name in b.Identifiers() ==> Overlap(a, b)
  {
    assert name in a.Identifiers() && name in b.Identifiers() ==> name in a.Identifiers() * b.Identifiers();
  }

  lemma OverlapConcat(oid: OperationId, a: seq<Operation>, b: seq<Operation>)
    ensures AnyOverlap(oid, a + b) <==> AnyOverlap(oid, a) || AnyOverlap(oid, b)
  {
    var whole := a + b;
    if AnyOverlap(oid, a) {
      var i :| 0 <= i < |a| && Overlap(oid, a[i].oid);
      assert whole[i] == a[i];
    }
    if AnyOverlap(oid, b) {
      var i :| 0 <= i < |b| && Overlap(oid, b[i].oid);
      assert whole[|a| + i] == b[i];
    }
    if AnyOverlap(oid, whole) {
      var i :| 0 <= i < |whole| && Overlap(oid, whole[i].oid);
      assert whole[i] == if i < |a| then a[i] else b[i - |a|];
    }
  }

  lemma SharesConcat(oid: OperationId, a: seq<Operation>, b: seq<Operation>)
    ensures SharesIdentityOnly(oid, a + b) <==> SharesIdentityOnly(oid, a) && SharesIdentityOnly(oid, b)
  {
    var whole := a + b;
    if SharesIdentityOnly(oid, whole) {
      forall i | 0 <= i < |a| && Overlap(oid, a[i].oid)
        ensures oid.Identity() == a[i].oid.Identity()
      {
        assert whole[i] == a[i];
      }
      forall i | 0 <= i < |b| && Overlap(oid, b[i].oid)
        ensures oid.Identity() == b[i].oid.Identity()
      {
        assert whole[|a| + i] == b[i];
      }
    }
  }

  lemma SameIdentitySameNames(a: OperationId, b: OperationId)
    requires a.Identity() == b.Identity()
    ensures a.Identifiers() == b.Identifiers()
    ensures forall o: OperationId :: Overlap(a, o) <==> Overlap(b, o)
  {
  }

  lemma SameNamesSameClashes(oid: OperationId, a: seq<Operation>, b: seq<Operation>)
    requires SameNames(a, b)
    ensures AnyOverlap(oid, a) <==> AnyOverlap(oid, b)
    ensures SharesIdentityOnly(oid, a) <==> SharesIdentityOnly(oid, b)
  {
    if AnyOverlap(oid, a) {
      var i :| 0 <= i < |a| && Overlap(oid, a[i].oid);
      assert Overlap(oid, b[i].oid);
    }
    if AnyOverlap(oid, b) {
      var i :| 0 <= i < |b| && Overlap(oid, b[i].oid);
      assert Overlap(oid, a[i].oid);
    }
  }
}
