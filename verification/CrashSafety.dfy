/** What a crash can leave behind while a log is appended to or a base is rewritten. */
module CrashSafety {
  import opened AuthorityTypes
  import opened RelationalValidity
  import opened DocumentLists
  import opened LogText
  import opened Wal
  import opened Normalize
  import opened AuthorityDisk

  ghost predicate Lands(w: Wire, f: Files, docs: set<Document>) {
    Recover(w, f).Recovered? && Recover(w, f).doc in docs
  }

  /** Every crash outcome that was not possible before recovers to one of the documents. */
  ghost predicate AllLand(w: Wire, before: iset<Files>, after: iset<Files>, docs: set<Document>) {
    forall f :: f in after ==> f in before || Lands(w, f, docs)
  }

  ghost predicate AllKnown(w: Wire, s: iset<Files>, clock: nat) {
    forall f :: f in s ==> Known(w, f, clock)
  }

  lemma LandOnward(w: Wire, a: iset<Files>, b: iset<Files>, c: iset<Files>, pre: Document, post: Document)
    ensures AllLand(w, a, b, {pre, post, Normalized(post)}) && AllLand(w, b, c, {Normalized(post)}) ==>
              AllLand(w, a, c, {pre, post, Normalized(post)})
  {
  }

  // ------------------------------------------------------------ base rewrite

  ghost predicate OnBase(w: Wire, s: iset<Files>, b: BaseFile) {
    forall f :: f in s ==> f.base == Some(b) && RecoversTo(w, f, BaseDocument(b)) && (f.wal.Some? ==> StaleLog(w, f))
  }

  lemma RenamedKnown(w: Wire, s: iset<Files>, b: BaseFile, clock: nat)
    requires AllKnown(w, s, clock) && b.id.generation == Some(clock) && b.id.digest != ""
    ensures AllKnown(w, Renamed(s, b), clock + 1)
  {
  }

  /** Renaming a fresh base in: a crash finds the old files, or the new base whatever log is beside it. */
  lemma RenameLands(w: Wire, s: iset<Files>, b: BaseFile, clock: nat)
    requires AllKnown(w, s, clock) && ValidBase(b) && b.id.generation == Some(clock) && b.id.digest != ""
    ensures AllKnown(w, Renamed(s, b), clock + 1)
    ensures AllLand(w, s, Renamed(s, b), {BaseDocument(b)})
    ensures forall now: Files :: now.base == Some(b) ==> OnBase(w, Synced(Renamed(s, b), now), b)
  {
    forall f | f in s
      ensures var g := f.(base := Some(b)); RecoversTo(w, g, BaseDocument(b)) && (g.wal.Some? ==> StaleLog(w, g))
    {
      FreshBaseRecovers(w, f, b, clock);
    }
    forall f | f in Renamed(s, b) && f.base == Some(b)
      ensures RecoversTo(w, f, BaseDocument(b)) && (f.wal.Some? ==> StaleLog(w, f))
    {
      assert f == f.(base := Some(b));
    }
  }

  lemma RenamedVisible(w: Wire, now: Files, s: iset<Files>, b: BaseFile, clock: nat)
    requires now in s && AllKnown(w, s, clock) && ValidBase(b) && b.id.generation == Some(clock)
    ensures var g := now.(base := Some(b)); RecoversTo(w, g, BaseDocument(b)) && Recover(w, g).id.None?
  {
    FreshBaseRecovers(w, now, b, clock);
  }

  lemma UnlinkOnBase(w: Wire, s: iset<Files>, b: BaseFile)
    requires OnBase(w, s, b) && ValidBase(b)
    ensures OnBase(w, Unlinked(s), b)
    ensures AllLand(w, s, Unlinked(s), {BaseDocument(b)})
  {
  }

  lemma SyncWithoutLog(s: iset<Files>, now: Files)
    requires now.wal.None?
    ensures now in s ==> Synced(s, now) == iset{now}
  {
  }

  /** Deleting an ignored log needs no sync: with or without it, recovery is the same. */
  lemma UnlinkedDurable(w: Wire, f: Files)
    ensures f.base.Some? && f.wal.Some? && Recover(w, f).Recovered? && Recover(w, f).id.None? ==>
              StaleLog(w, f) && Durable(w, f.(wal := None), Unlinked(iset{f}))
  {
  }

  // ---------------------------------------------------------- append in place

  /** The original log with some first part of the bytes behind it. */
  predicate IsTail(f: Files, now: Files, bytes: string)
    requires now.wal.Some?
  {
    && f.base == now.base && HasLog(f, now.wal.value.inode)
    && TailOf(f.wal.value.text, now.wal.value.text, bytes)
  }

  ghost predicate Tails(s: iset<Files>, now: Files, bytes: string)
    requires now.wal.Some?
  {
    forall f :: f in s ==> IsTail(f, now, bytes)
  }

  lemma GrownTails(now: Files, bytes: string)
    requires now.wal.Some?
    ensures Tails(Grown(iset{now}, now.wal.value.inode, now.wal.value.text, bytes), now, bytes)
  {
    assert now.wal.value.text == now.wal.value.text + bytes[..0];
  }

  lemma CutTails(s: iset<Files>, now: Files, bytes: string)
    requires now.wal.Some? && Tails(s, now, bytes)
    ensures Tails(Cut(s, now.wal.value.inode, now.wal.value.text), now, bytes)
  {
    assert now.wal.value.text == now.wal.value.text + bytes[..0];
  }

  lemma StartOfTail(f: Files, now: Files, bytes: string)
    requires now.wal.Some? && IsTail(f, now, bytes)
    ensures |now.wal.value.text| <= |f.wal.value.text|
    ensures f.wal.value.text[..|now.wal.value.text|] == now.wal.value.text
  {
    var k :| 0 <= k <= |bytes| && f.wal.value.text == now.wal.value.text + bytes[..k];
  }

  lemma StartIsTail(now: Files, bytes: string)
    requires now.wal.Some?
    ensures IsTail(now, now, bytes)
  {
    assert now.wal.value.text == now.wal.value.text + bytes[..0];
  }

  lemma CutKnown(w: Wire, s: iset<Files>, now: Files, clock: nat)
    requires now.wal.Some? && Known(w, now, clock) && AllKnown(w, s, clock)
    ensures AllKnown(w, Cut(s, now.wal.value.inode, now.wal.value.text), clock)
  {
  }

  lemma FlushTails(s: iset<Files>, now: Files, bytes: string, log: WalFile)
    requires now.wal.Some? && Tails(s, now, bytes) && log.inode == now.wal.value.inode
    requires now.(wal := Some(log)) in s
    ensures Flushed(s, log) == iset{now.(wal := Some(log))}
  {
  }

  /** The log beside the base takes a chained delta. */
  ghost predicate Appendable(w: Wire, now: Files) {
    && now.base.Some? && ValidBase(now.base.value) && now.wal.Some?
    && Open(w, BaseDocument(now.base.value), BaseIdOf(now), now.wal.value.text)
  }

  function BehindText(w: Wire, rs: seq<Record>, ps: seq<Provisional>, head: string): string {
    w.deltaText(DeltaFor(w, rs, ps, head)) + "\n"
  }

  lemma TailRecovers(w: Wire, now: Files, rs: seq<Record>, ps: seq<Provisional>, f: Files)
    requires Faithful(w) && Appendable(w, now) && EntryShapes(rs, ps)
    requires IsTail(f, now, BehindText(w, rs, ps, Recover(w, now).id.value.digest))
    requires Relational(Overlay(Recover(w, now).doc, rs, ps))
    ensures Lands(w, f, {Recover(w, now).doc, Overlay(Recover(w, now).doc, rs, ps)})
  {
    var text := now.wal.value.text;
    var bytes := BehindText(w, rs, ps, Recover(w, now).id.value.digest);
    var k :| 0 <= k <= |bytes| && f.wal.value.text == text + bytes[..k];
    AppendAtomic(w, BaseDocument(now.base.value), BaseIdOf(now), text, rs, ps, k);
  }

  /** A log that is only being appended to is never deleted as stale. */
  lemma TailStays(w: Wire, now: Files, rs: seq<Record>, ps: seq<Provisional>, f: Files)
    requires Faithful(w) && Appendable(w, now)
    requires IsTail(f, now, BehindText(w, rs, ps, Recover(w, now).id.value.digest))
    ensures Recover(w, f).Recovered? ==> Recover(w, f).id.Some?
  {
    var text := now.wal.value.text;
    var bytes := BehindText(w, rs, ps, Recover(w, now).id.value.digest);
    var k :| 0 <= k <= |bytes| && f.wal.value.text == text + bytes[..k];
    OwnDeltaLinks(w, rs, ps, Recover(w, now).id.value.digest);
    if k == |bytes| {
      assert bytes[..k] == bytes;
      AppendExact(w, BaseDocument(now.base.value), BaseIdOf(now), text, rs, ps);
    } else {
      AppendTorn(w, BaseDocument(now.base.value), BaseIdOf(now), text,
                 w.deltaText(DeltaFor(w, rs, ps, Recover(w, now).id.value.digest)), k);
    }
  }

  lemma AppendedRecovers(w: Wire, now: Files, rs: seq<Record>, ps: seq<Provisional>, f: Files)
    requires Faithful(w) && Appendable(w, now) && f.base == now.base && f.wal.Some?
    requires f.wal.value.text == now.wal.value.text + BehindText(w, rs, ps, Recover(w, now).id.value.digest)
    ensures var before := Recover(w, now);
            Recover(w, f) ==
              if Replayable(before.doc, rs, ps)
              then Recovered(Overlay(before.doc, rs, ps),
                             Some(before.id.value.(size := |f.wal.value.text|,
                               digest := DeltaFor(w, rs, ps, before.id.value.digest).head)), false)
              else Lost
  {
    var doc := BaseDocument(now.base.value);
    var before := ReplayOf(w, doc, BaseIdOf(now), now.wal.value.text);
    AppendExact(w, doc, BaseIdOf(now), now.wal.value.text, rs, ps);
    RecoverReplays(w, f, ReplayOf(w, doc, BaseIdOf(now), f.wal.value.text));
    RecoverReplays(w, now, before);
  }

  /** Recovery with a valid base and a log is what replay makes of the log. */
  lemma RecoverReplays(w: Wire, f: Files, replay: Replay)
    requires f.base.Some? && ValidBase(f.base.value) && f.wal.Some?
    requires replay == ReplayOf(w, BaseDocument(f.base.value), BaseIdOf(f), f.wal.value.text)
    ensures Recover(w, f) ==
            match replay
            case Ignored(torn) => Recovered(BaseDocument(f.base.value), None, torn)
            case Unusable => Lost
            case Replayed(doc, id, torn) => Recovered(doc, Some(id), torn)
  {
  }

  lemma CreatedRecovers(w: Wire, b: BaseFile, rs: seq<Record>, ps: seq<Provisional>, f: Files)
    requires Faithful(w) && ValidBase(b) && f.base == Some(b)
    requires f.wal.Some? && f.wal.value.text == CreatedText(w, b.id, rs, ps)
    ensures Recover(w, f) ==
              if Replayable(BaseDocument(b), rs, ps)
              then Recovered(Overlay(BaseDocument(b), rs, ps),
                             Some(WalId(|f.wal.value.text|, FirstDelta(w, b.id, rs, ps).head, Chained,
                               b.id.digest != "")), false)
              else Lost
  {
    BaseLoadable(b);
    CreateExact(w, BaseDocument(b), b.id, rs, ps);
  }

  lemma KnownTail(w: Wire, text: string, line: string, k: nat, clock: nat)
    requires Terminated(text) && WholeLines(text) != [] && Plain(line) && k <= |line| + 1
    requires WellBegun(w, text) && Aged(w, text, clock)
    ensures WellBegun(w, text + (line + "\n")[..k]) && Aged(w, text + (line + "\n")[..k], clock)
  {
    LinePrefix(text, line, k);
  }

  lemma GrownKnown(w: Wire, s: iset<Files>, log: WalFile, line: string, clock: nat)
    requires AllKnown(w, s, clock) && Plain(line)
    requires Terminated(log.text) && WholeLines(log.text) != [] && WellBegun(w, log.text) && Aged(w, log.text, clock)
    ensures AllKnown(w, Grown(s, log.inode, log.text, line + "\n"), clock)
  {
    forall k: nat | k <= |line| + 1
      ensures WellBegun(w, log.text + (line + "\n")[..k]) && Aged(w, log.text + (line + "\n")[..k], clock)
    {
      KnownTail(w, log.text, line, k, clock);
    }
  }

  // ------------------------------------------------------------ new log

  /** The base with no log, an ignored one, or a first part of the new one. */
  ghost predicate IsNew(w: Wire, f: Files, base: Option<BaseFile>, inode: nat, bytes: string) {
    && f.base == base
    && (f.wal.Some? ==> if f.wal.value.inode == inode then TailOf(f.wal.value.text, "", bytes) else StaleLog(w, f))
  }

  ghost predicate News(w: Wire, s: iset<Files>, base: Option<BaseFile>, inode: nat, bytes: string) {
    forall f :: f in s ==> IsNew(w, f, base, inode, bytes)
  }

  lemma CreatedNews(w: Wire, s: iset<Files>, now: Files, inode: nat)
    requires Durable(w, now, s) && now.wal.None? && AllKnown(w, s, inode)
    ensures News(w, Created(s, inode), now.base, inode, "")
  {
    assert "" == "" + ""[..0];
    assert TailOf("", "", "");
  }

  lemma DurableNews(w: Wire, s: iset<Files>, now: Files, inode: nat, bytes: string)
    requires Durable(w, now, s) && now.wal.None? && AllKnown(w, s, inode)
    ensures News(w, s, now.base, inode, bytes)
  {
  }

  lemma GrownNews(w: Wire, s: iset<Files>, base: Option<BaseFile>, inode: nat, start: string, bytes: string)
    requires News(w, s, base, inode, start)
    ensures News(w, Grown(s, inode, start, bytes), base, inode, start + bytes)
  {
    var all := start + bytes;
    forall f | f in Grown(s, inode, start, bytes) && HasLog(f, inode)
      ensures TailOf(f.wal.value.text, "", all)
    {
      if f in s {
        var k :| 0 <= k <= |start| && f.wal.value.text == "" + start[..k];
        assert f.wal.value.text == "" + all[..k];
      } else {
        var k: nat :| k <= |bytes| && f.wal.value.text == start + bytes[..k];
        assert f.wal.value.text == "" + all[..|start| + k];
      }
    }
  }

  lemma UnlinkedNews(w: Wire, s: iset<Files>, base: Option<BaseFile>, inode: nat, bytes: string)
    requires News(w, s, base, inode, bytes)
    ensures News(w, Unlinked(s), base, inode, bytes)
  {
  }

  lemma SettledNews(w: Wire, s: iset<Files>, now: Files, bytes: string)
    requires now.wal.Some? && News(w, s, now.base, now.wal.value.inode, bytes) && now in s
    ensures Synced(Flushed(s, now.wal.value), now) == iset{now}
  {
  }

  lemma NewRecovers(w: Wire, f: Files, b: BaseFile, inode: nat, rs: seq<Record>, ps: seq<Provisional>)
    requires Faithful(w) && ValidBase(b) && EntryShapes(rs, ps)
    requires IsNew(w, f, Some(b), inode, CreatedText(w, b.id, rs, ps))
    requires Relational(Overlay(BaseDocument(b), rs, ps))
    ensures Lands(w, f, {BaseDocument(b), Overlay(BaseDocument(b), rs, ps)})
  {
    BaseLoadable(b);
    if f.wal.Some? && f.wal.value.inode == inode {
      var bytes := CreatedText(w, b.id, rs, ps);
      var k :| 0 <= k <= |bytes| && f.wal.value.text == "" + bytes[..k];
      assert f.wal.value.text == bytes[..k];
      CreateAtomic(w, BaseDocument(b), b.id, rs, ps, k);
    }
  }

  /** A first part of what was going to be written is one, too. */
  lemma IsNewMore(w: Wire, f: Files, base: Option<BaseFile>, inode: nat, start: string, bytes: string)
    requires IsNew(w, f, base, inode, start)
    ensures IsNew(w, f, base, inode, start + bytes)
  {
    if f.wal.Some? && f.wal.value.inode == inode {
      var k :| 0 <= k <= |start| && f.wal.value.text == "" + start[..k];
      assert (start + bytes)[..k] == start[..k];
      assert f.wal.value.text == "" + (start + bytes)[..k];
    }
  }

  lemma HeaderKnown(w: Wire, base: BaseId, k: nat, clock: nat)
    requires Faithful(w) && (base.generation.Some? ==> base.generation.value < clock)
    requires k <= |w.headerText(HeaderFor(base))| + 1
    ensures WellBegun(w, "" + (w.headerText(HeaderFor(base)) + "\n")[..k])
    ensures Aged(w, "" + (w.headerText(HeaderFor(base)) + "\n")[..k], clock)
  {
    LinePrefix("", w.headerText(HeaderFor(base)), k);
  }

  lemma HeaderGrownKnown(w: Wire, s: iset<Files>, inode: nat, base: BaseId, clock: nat)
    requires Faithful(w) && AllKnown(w, s, clock) && (base.generation.Some? ==> base.generation.value < clock)
    ensures AllKnown(w, Grown(s, inode, "", w.headerText(HeaderFor(base)) + "\n"), clock)
  {
    forall k: nat | k <= |w.headerText(HeaderFor(base))| + 1
      ensures WellBegun(w, "" + (w.headerText(HeaderFor(base)) + "\n")[..k])
      ensures Aged(w, "" + (w.headerText(HeaderFor(base)) + "\n")[..k], clock)
    {
      HeaderKnown(w, base, k, clock);
    }
  }
}
