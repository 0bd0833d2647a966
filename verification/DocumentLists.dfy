/** The document as its map form and as the lists a file or a log line holds. */
module DocumentLists {
  import opened AuthorityTypes
  import opened RelationalValidity

  /** Stores the records one after another, later entries winning. */
  function RecordsInto(m: map<string, Record>, rs: seq<Record>): map<string, Record>
    decreases |rs|
  {
    if rs == [] then m
    else RecordsInto(m, rs[..|rs| - 1])[rs[|rs| - 1].chatId := rs[|rs| - 1]]
  }

  function ProvisionalInto(m: map<Key, Provisional>, ps: seq<Provisional>): map<Key, Provisional>
    decreases |ps|
  {
    if ps == [] then m
    else ProvisionalInto(m, ps[..|ps| - 1])[KeyOf(ps[|ps| - 1]) := ps[|ps| - 1]]
  }

  function Overlay(d: Document, rs: seq<Record>, ps: seq<Provisional>): Document {
    Document(RecordsInto(d.records, rs), ProvisionalInto(d.provisional, ps))
  }

  predicate NamesChat(rs: seq<Record>, c: string) {
    exists i :: 0 <= i < |rs| && rs[i].chatId == c
  }

  predicate DistinctKeys(ps: seq<Provisional>) {
    forall i, j :: 0 <= i < j < |ps| ==> KeyOf(ps[i]) != KeyOf(ps[j])
  }

  predicate NamesKey(ps: seq<Provisional>, k: Key) {
    exists i :: 0 <= i < |ps| && KeyOf(ps[i]) == k
  }

  /** Of several entries for a key the last one counts. */
  lemma {:induction false} RecordsIntoLast(m: map<string, Record>, rs: seq<Record>, j: nat)
    requires j < |rs| && forall k :: j < k < |rs| ==> rs[k].chatId != rs[j].chatId
    ensures rs[j].chatId in RecordsInto(m, rs) && RecordsInto(m, rs)[rs[j].chatId] == rs[j]
    decreases |rs|
  {
    if j < |rs| - 1 {
      RecordsIntoLast(m, rs[..|rs| - 1], j);
    }
  }

  lemma {:induction false} RecordsIntoRest(m: map<string, Record>, rs: seq<Record>, c: string)
    requires !NamesChat(rs, c)
    ensures c in RecordsInto(m, rs) <==> c in m
    ensures c in m ==> RecordsInto(m, rs)[c] == m[c]
    decreases |rs|
  {
    if rs != [] {
      var front := rs[..|rs| - 1];
      assert !NamesChat(front, c) by {
        assert forall j :: 0 <= j < |front| ==> front[j] == rs[j];
      }
      RecordsIntoRest(m, front, c);
    }
  }

  lemma {:induction false} ProvisionalIntoLast(m: map<Key, Provisional>, ps: seq<Provisional>, j: nat)
    requires j < |ps| && forall k :: j < k < |ps| ==> KeyOf(ps[k]) != KeyOf(ps[j])
    ensures KeyOf(ps[j]) in ProvisionalInto(m, ps) && ProvisionalInto(m, ps)[KeyOf(ps[j])] == ps[j]
    decreases |ps|
  {
    if j < |ps| - 1 {
      ProvisionalIntoLast(m, ps[..|ps| - 1], j);
    }
  }

  lemma {:induction false} ProvisionalIntoRest(m: map<Key, Provisional>, ps: seq<Provisional>, c: Key)
    requires !NamesKey(ps, c)
    ensures c in ProvisionalInto(m, ps) <==> c in m
    ensures c in m ==> ProvisionalInto(m, ps)[c] == m[c]
    decreases |ps|
  {
    if ps != [] {
      var front := ps[..|ps| - 1];
      assert !NamesKey(front, c) by {
        assert forall j :: 0 <= j < |front| ==> front[j] == ps[j];
      }
      ProvisionalIntoRest(m, front, c);
    }
  }

  lemma {:induction false} RecordsIntoLookup(m: map<string, Record>, rs: seq<Record>)
    requires DistinctChats(rs)
    ensures forall c :: c in RecordsInto(m, rs) <==> c in m || NamesChat(rs, c)
    ensures forall i :: 0 <= i < |rs| ==>
              rs[i].chatId in RecordsInto(m, rs) && RecordsInto(m, rs)[rs[i].chatId] == rs[i]
    ensures forall c :: c in m && !NamesChat(rs, c) ==> RecordsInto(m, rs)[c] == m[c]
    decreases |rs|
  {
    if rs != [] {
      var front, last := rs[..|rs| - 1], rs[|rs| - 1];
      RecordsIntoLookup(m, front);
      forall c
        ensures NamesChat(rs, c) <==> NamesChat(front, c) || c == last.chatId
      {
        if i :| 0 <= i < |front| && front[i].chatId == c {
          assert rs[i].chatId == c;
        }
        if c == last.chatId {
          assert rs[|rs| - 1].chatId == c;
        }
      }
      forall i | 0 <= i < |rs|
        ensures RecordsInto(m, rs)[rs[i].chatId] == rs[i]
      {
        assert i < |front| ==> front[i] == rs[i];
      }
    }
  }

  lemma {:induction false} ProvisionalIntoLookup(m: map<Key, Provisional>, ps: seq<Provisional>)
    requires DistinctKeys(ps)
    ensures forall k :: k in ProvisionalInto(m, ps) <==> k in m || NamesKey(ps, k)
    ensures forall i :: 0 <= i < |ps| ==>
              KeyOf(ps[i]) in ProvisionalInto(m, ps) && ProvisionalInto(m, ps)[KeyOf(ps[i])] == ps[i]
    ensures forall k :: k in m && !NamesKey(ps, k) ==> ProvisionalInto(m, ps)[k] == m[k]
    decreases |ps|
  {
    if ps != [] {
      var front, last := ps[..|ps| - 1], ps[|ps| - 1];
      ProvisionalIntoLookup(m, front);
      forall k
        ensures NamesKey(ps, k) <==> NamesKey(front, k) || k == KeyOf(last)
      {
        if i :| 0 <= i < |front| && KeyOf(front[i]) == k {
          assert KeyOf(ps[i]) == k;
        }
        if k == KeyOf(last) {
          assert KeyOf(ps[|ps| - 1]) == k;
        }
      }
      forall i | 0 <= i < |ps|
        ensures ProvisionalInto(m, ps)[KeyOf(ps[i])] == ps[i]
      {
        assert i < |front| ==> front[i] == ps[i];
      }
    }
  }

  /** The lists name every entry of the document exactly once. */
  ghost predicate Enumerates(d: Document, ms: seq<Record>, ps: seq<Provisional>) {
    && DistinctChats(ms) && DistinctKeys(ps)
    && Overlay(EMPTY_DOCUMENT, ms, ps) == d
  }

  lemma EnumeratedRecord(d: Document, ms: seq<Record>, ps: seq<Provisional>, chatId: string)
    requires Enumerates(d, ms, ps)
    ensures FindRecord(ms, chatId) == d.RecordOf(chatId)
  {
    RecordsIntoLookup(map[], ms);
    var found := FindRecord(ms, chatId);
    if found.Some? {
      var i :| 0 <= i < |ms| && ms[i] == found.value;
    } else {
      assert !NamesChat(ms, chatId);
    }
  }

  lemma EnumerationOf(d: Document, ms: seq<Record>, ps: seq<Provisional>)
    requires Enumerates(d, ms, ps)
    ensures WellKeyed(d)
    ensures forall m :: m in ms <==> m.chatId in d.records && d.records[m.chatId] == m
    ensures forall p :: p in ps <==> KeyOf(p) in d.provisional && d.provisional[KeyOf(p)] == p
  {
    RecordsIntoLookup(map[], ms);
    ProvisionalIntoLookup(map[], ps);
    forall c | c in d.records
      ensures d.records[c].chatId == c && d.records[c] in ms
    {
      assert NamesChat(ms, c);
    }
    forall k | k in d.provisional
      ensures KeyOf(d.provisional[k]) == k && d.provisional[k] in ps
    {
      assert NamesKey(ps, k);
    }
  }

  /** The list validator decides the relational validity of the document. */
  lemma ListsValidIffRelational(d: Document, ms: seq<Record>, ps: seq<Provisional>)
    requires Enumerates(d, ms, ps)
    ensures ListsValid(ms, ps) <==> Relational(d)
  {
    EnumerationOf(d, ms, ps);
    forall c: string
      ensures FindRecord(ms, c) == d.RecordOf(c)
    {
      EnumeratedRecord(d, ms, ps, c);
    }
    if ListsValid(ms, ps) {
      forall j, k | j in d.provisional && k in d.provisional && j != k && j.chatId == k.chatId
        ensures !Overlap(d.provisional[j].oid, d.provisional[k].oid)
      {
        ListedApart(ms, ps, d.provisional[j], d.provisional[k]);
      }
    }
    if Relational(d) {
      forall i, j | 0 <= i < j < |ps| && ps[i].chatId == ps[j].chatId
        ensures !Overlap(ps[i].oid, ps[j].oid)
      {
        assert ps[i] in ps && ps[j] in ps;
        assert KeyOf(ps[i]) != KeyOf(ps[j]);
      }
    }
  }

  lemma ListedApart(ms: seq<Record>, ps: seq<Provisional>, p: Provisional, q: Provisional)
    requires ListsValid(ms, ps) && p in ps && q in ps && p != q && p.chatId == q.chatId
    ensures !Overlap(p.oid, q.oid)
  {
    var i :| 0 <= i < |ps| && ps[i] == p;
    var j :| 0 <= j < |ps| && ps[j] == q;
    assert p.oid.Identifiers() * q.oid.Identifiers() == q.oid.Identifiers() * p.oid.Identifiers();
  }

  lemma SameKeyOverlaps(p: Provisional, q: Provisional)
    requires KeyOf(p) == KeyOf(q)
    ensures Overlap(p.oid, q.oid)
  {
    assert p.oid.Ingress() in p.oid.Identifiers() * q.oid.Identifiers();
  }

  /** Valid lists carry no entry twice. */
  lemma ListsValidDistinct(ms: seq<Record>, ps: seq<Provisional>)
    requires ListsValid(ms, ps)
    ensures DistinctChats(ms) && DistinctKeys(ps)
  {
    forall i, j | 0 <= i < j < |ps|
      ensures KeyOf(ps[i]) != KeyOf(ps[j])
    {
      if KeyOf(ps[i]) == KeyOf(ps[j]) {
        SameKeyOverlaps(ps[i], ps[j]);
        assert false;
      }
    }
  }

  // ------------------------------------------------------------ dirty marks

  /** Every entry that differs from `clean` is marked, and none has disappeared. */
  ghost predicate Covers(clean: Document, now: Document, dirtyRecords: set<string>, dirtyProvisional: set<Key>) {
    && (forall c :: c in clean.records ==> c in now.records)
    && (forall c :: c in now.records && c !in dirtyRecords ==> c in clean.records && clean.records[c] == now.records[c])
    && (forall k :: k in clean.provisional ==> k in now.provisional)
    && (forall k :: k in now.provisional && k !in dirtyProvisional ==>
          k in clean.provisional && clean.provisional[k] == now.provisional[k])
  }

  ghost predicate ListsMarked(now: Document, dirtyRecords: set<string>, dirtyProvisional: set<Key>,
                              rs: seq<Record>, ps: seq<Provisional>)
  {
    && DistinctChats(rs) && DistinctKeys(ps)
    && (forall r :: r in rs ==> r.chatId in now.records && now.records[r.chatId] == r)
    && (forall c :: c in dirtyRecords && c in now.records ==> now.records[c] in rs)
    && (forall p :: p in ps ==> KeyOf(p) in now.provisional && now.provisional[KeyOf(p)] == p)
    && (forall k :: k in dirtyProvisional && k in now.provisional ==> now.provisional[k] in ps)
  }

  /** Every entry is under its own key, or some record is not well-shaped. */
  ghost predicate Listable(d: Document) {
    && (forall k :: k in d.provisional ==> KeyOf(d.provisional[k]) == k)
    && ((forall c :: c in d.records ==> d.records[c].chatId == c)
      || (exists c :: c in d.records && !RecordShape(d.records[c])))
  }

  /** Writing just the marked entries over the clean document rebuilds the current one. */
  lemma MarkedDeltaRebuilds(clean: Document, now: Document, dirtyRecords: set<string>, dirtyProvisional: set<Key>,
                            rs: seq<Record>, ps: seq<Provisional>)
    requires WellKeyed(now) && Covers(clean, now, dirtyRecords, dirtyProvisional)
    requires ListsMarked(now, dirtyRecords, dirtyProvisional, rs, ps)
    ensures Overlay(clean, rs, ps) == now
  {
    RecordsIntoLookup(clean.records, rs);
    ProvisionalIntoLookup(clean.provisional, ps);
    var d := Overlay(clean, rs, ps);
    forall c
      ensures c in d.records <==> c in now.records
      ensures c in now.records ==> d.records[c] == now.records[c]
    {
      if c in now.records && c in dirtyRecords {
        var i :| 0 <= i < |rs| && rs[i] == now.records[c];
        assert rs[i].chatId == c;
      }
      if NamesChat(rs, c) {
        var i :| 0 <= i < |rs| && rs[i].chatId == c;
        assert rs[i] in rs;
      }
    }
    forall k
      ensures k in d.provisional <==> k in now.provisional
      ensures k in now.provisional ==> d.provisional[k] == now.provisional[k]
    {
      if k in now.provisional && k in dirtyProvisional {
        var i :| 0 <= i < |ps| && ps[i] == now.provisional[k];
        assert KeyOf(ps[i]) == k;
      }
      if NamesKey(ps, k) {
        var i :| 0 <= i < |ps| && KeyOf(ps[i]) == k;
        assert ps[i] in ps;
      }
    }
    assert d.records == now.records && d.provisional == now.provisional;
  }
}
