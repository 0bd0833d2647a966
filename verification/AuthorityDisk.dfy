/** The two authority files, what recovery makes of them, and a disk whose
    directory entries and file contents reach storage only when synced. */
module AuthorityDisk {
  import opened AuthorityTypes
  import opened RelationalValidity
  import opened DocumentLists
  import opened LogText
  import opened Wal

  datatype BaseFile = BaseFile(mappings: seq<Record>, provisional: seq<Provisional>, normalized: bool, id: BaseId)

  datatype WalFile = WalFile(inode: nat, text: string)

  datatype Files = Files(base: Option<BaseFile>, wal: Option<WalFile>)

  function BaseDocument(b: BaseFile): Document {
    Overlay(EMPTY_DOCUMENT, b.mappings, b.provisional)
  }

  ghost predicate ValidBase(b: BaseFile) {
    EntryShapes(b.mappings, b.provisional) && ListsValid(b.mappings, b.provisional)
  }

  function BaseIdOf(f: Files): Option<BaseId> {
    if f.base.Some? then Some(f.base.value.id) else None
  }

  // ---------------------------------------------------------------- recovery

  datatype Recovery = Lost | Recovered(doc: Document, id: Option<WalId>, torn: bool)

  /** What loading the base and replaying the log gives. */
  ghost function Recover(w: Wire, f: Files): Recovery {
    if f.base.None? then Recovered(EMPTY_DOCUMENT, None, false)
    else if !ValidBase(f.base.value) then Lost
    else if f.wal.None? then Recovered(BaseDocument(f.base.value), None, false)
    else
      match ReplayOf(w, BaseDocument(f.base.value), BaseIdOf(f), f.wal.value.text)
      case Ignored(torn) => Recovered(BaseDocument(f.base.value), None, torn)
      case Unusable => Lost
      case Replayed(doc, id, torn) => Recovered(doc, Some(id), torn)
  }

  ghost predicate RecoversTo(w: Wire, f: Files, d: Document) {
    Recover(w, f).Recovered? && Recover(w, f).doc == d
  }

  lemma {:induction false} IntoShapes(d: Document, rs: seq<Record>, ps: seq<Provisional>)
    requires Shapes(d) && EntryShapes(rs, ps)
    ensures Shapes(Overlay(d, rs, ps))
    decreases |rs| + |ps|
  {
    if rs != [] {
      IntoShapes(d, rs[..|rs| - 1], ps);
    } else if ps != [] {
      IntoShapes(d, rs, ps[..|ps| - 1]);
    }
  }

  lemma {:induction false} IntoKeyed(d: Document, rs: seq<Record>, ps: seq<Provisional>)
    requires WellKeyed(d)
    ensures WellKeyed(Overlay(d, rs, ps))
    decreases |rs| + |ps|
  {
    if rs != [] {
      IntoKeyed(d, rs[..|rs| - 1], ps);
    } else if ps != [] {
      IntoKeyed(d, rs, ps[..|ps| - 1]);
    }
  }

  lemma {:induction false} ReplayedShapes(w: Wire, chained: bool, head: string, doc: Document, lines: seq<string>)
    requires Shapes(doc) && WellKeyed(doc)
    ensures ReplayLines(w, chained, head, doc, lines).Intact? ==>
              && Shapes(ReplayLines(w, chained, head, doc, lines).doc)
              && WellKeyed(ReplayLines(w, chained, head, doc, lines).doc)
    decreases |lines|
  {
    if lines != [] && ReplayLines(w, chained, head, doc, lines).Intact? {
      var before := ReplayLines(w, chained, head, doc, lines[..|lines| - 1]);
      ReplayedShapes(w, chained, head, doc, lines[..|lines| - 1]);
      var d := w.read(lines[|lines| - 1]).delta;
      IntoShapes(before.doc, d.records, d.provisional);
      IntoKeyed(before.doc, d.records, d.provisional);
    }
  }

  lemma BaseLoadable(b: BaseFile)
    requires ValidBase(b)
    ensures Loadable(BaseDocument(b)) && Enumerates(BaseDocument(b), b.mappings, b.provisional)
  {
    ListsValidDistinct(b.mappings, b.provisional);
    ListsValidIffRelational(BaseDocument(b), b.mappings, b.provisional);
    IntoShapes(EMPTY_DOCUMENT, b.mappings, b.provisional);
  }

  lemma ReplayLoadable(w: Wire, doc: Document, base: Option<BaseId>, text: string)
    requires Loadable(doc)
    ensures ReplayOf(w, doc, base, text).Replayed? ==> Loadable(ReplayOf(w, doc, base, text).doc)
  {
    var lines := WholeLines(text);
    if ReplayOf(w, doc, base, text).Replayed? {
      var h := w.read(lines[0]).header;
      ReplayedShapes(w, h.version.Chained?, FirstHead(w, h, lines[0]), doc, lines[1..]);
    }
  }

  lemma RecoverLoadable(w: Wire, f: Files)
    requires Recover(w, f).Recovered?
    ensures Loadable(Recover(w, f).doc)
  {
    if f.base.Some? {
      BaseLoadable(f.base.value);
      if f.wal.Some? {
        ReplayLoadable(w, BaseDocument(f.base.value), BaseIdOf(f), f.wal.value.text);
      }
    }
  }

  // ------------------------------------------------- logs and fresh generations

  /** The log starts with a header, if it holds a whole line at all. */
  predicate WellBegun(w: Wire, text: string) {
    WholeLines(text) == []
      || (w.read(WholeLines(text)[0]).HeaderLine? && HeaderShape(w.read(WholeLines(text)[0]).header))
  }

  /** No header names a generation that is still to be drawn. */
  predicate Aged(w: Wire, text: string, clock: nat) {
    WholeLines(text) != [] && w.read(WholeLines(text)[0]).HeaderLine? &&
    w.read(WholeLines(text)[0]).header.base.generation.Some? ==>
      w.read(WholeLines(text)[0]).header.base.generation.value < clock
  }

  predicate Known(w: Wire, f: Files, clock: nat) {
    Numbered(w, f, clock) && (f.wal.Some? ==> WellBegun(w, f.wal.value.text))
  }

  /** Generations and file numbers in use were drawn before the ones to come. */
  predicate Numbered(w: Wire, f: Files, clock: nat) {
    && (f.wal.Some? ==> f.wal.value.inode < clock && Aged(w, f.wal.value.text, clock))
    && (f.base.Some? && f.base.value.id.generation.Some? ==> f.base.value.id.generation.value < clock)
    && (f.base.Some? ==> f.base.value.id.digest != "")
  }

  /** The log would be ignored over its base. */
  ghost predicate StaleLog(w: Wire, f: Files) {
    f.wal.Some? && (f.base.None? || forall doc :: ReplayOf(w, doc, BaseIdOf(f), f.wal.value.text).Ignored?)
  }

  lemma FreshBaseIgnoresLog(w: Wire, doc: Document, id: BaseId, text: string, clock: nat)
    requires WellBegun(w, text) && Aged(w, text, clock)
    requires id.generation.Some? && clock <= id.generation.value
    ensures ReplayOf(w, doc, Some(id), text).Ignored?
  {
  }

  /** A rewritten base recovers to itself whatever older log is beside it. */
  lemma FreshBaseRecovers(w: Wire, f: Files, b: BaseFile, clock: nat)
    requires ValidBase(b) && Known(w, f, clock)
    requires b.id.generation.Some? && clock <= b.id.generation.value
    ensures RecoversTo(w, f.(base := Some(b)), BaseDocument(b))
    ensures Recover(w, f.(base := Some(b))).id.None?
    ensures f.wal.Some? ==> StaleLog(w, f.(base := Some(b)))
  {
    if f.wal.Some? {
      forall doc
        ensures ReplayOf(w, doc, Some(b.id), f.wal.value.text).Ignored?
      {
        FreshBaseIgnoresLog(w, doc, b.id, f.wal.value.text, clock);
      }
    }
  }

  // ------------------------------------------------------- crash possibilities

  /** `text` is `start` with some first part of `bytes` behind it. */
  predicate TailOf(text: string, start: string, bytes: string) {
    exists k :: 0 <= k <= |bytes| && text == start + bytes[..k]
  }

  ghost function Renamed(s: iset<Files>, b: BaseFile): iset<Files> {
    s + iset f | f in s :: f.(base := Some(b))
  }

  ghost function Unlinked(s: iset<Files>): iset<Files> {
    s + iset f | f in s :: f.(wal := None)
  }

  ghost function Created(s: iset<Files>, inode: nat): iset<Files> {
    s + iset f | f in s :: f.(wal := Some(WalFile(inode, "")))
  }

  predicate HasLog(f: Files, inode: nat) {
    f.wal.Some? && f.wal.value.inode == inode
  }

  ghost function Grown(s: iset<Files>, inode: nat, start: string, bytes: string): iset<Files> {
    s + iset f, k: nat | f in s && HasLog(f, inode) && k <= |bytes| ::
      f.(wal := Some(WalFile(inode, start + bytes[..k])))
  }

  ghost function Cut(s: iset<Files>, inode: nat, text: string): iset<Files> {
    s + iset f | f in s && HasLog(f, inode) :: f.(wal := Some(WalFile(inode, text)))
  }

  /** After a directory sync the two names point where the running system sees them. */
  ghost function Synced(s: iset<Files>, now: Files): iset<Files> {
    iset f | f in s && f.base == now.base && (f.wal.Some? <==> now.wal.Some?) &&
             (f.wal.Some? ==> f.wal.value.inode == now.wal.value.inode)
  }

  /** After a file sync the log's content is what the running system sees, wherever its name points. */
  ghost function Flushed(s: iset<Files>, log: WalFile): iset<Files> {
    iset f | f in s && (HasLog(f, log.inode) ==> f.wal.value.text == log.text)
  }

  /** Whatever a crash leaves now is what is visible, or differs by a log that is ignored. */
  ghost predicate Durable(w: Wire, now: Files, s: iset<Files>) {
    forall f :: f in s ==> f == now || (now.wal.None? && f.base == now.base && StaleLog(w, f))
  }

  /** Both names lead to the visible files in every crash outcome. */
  ghost predicate NamesReached(now: Files, s: iset<Files>)
    requires now.wal.Some?
  {
    forall f :: f in s ==> f.base == now.base && HasLog(f, now.wal.value.inode)
  }

  /** An append that was synced is durable exactly when both names had reached storage before it. */
  lemma AppendDurableExact(w: Wire, now: Files, s: iset<Files>, bytes: string)
    requires now.wal.Some? && now in s
    ensures var log := now.wal.value.(text := now.wal.value.text + bytes);
            Durable(w, now.(wal := Some(log)), Flushed(Grown(s, log.inode, now.wal.value.text, bytes), log)) <==>
              NamesReached(now, s)
  {
    var log := now.wal.value.(text := now.wal.value.text + bytes);
    var done := now.(wal := Some(log));
    var after := Flushed(Grown(s, log.inode, now.wal.value.text, bytes), log);
    if Durable(w, done, after) {
      forall f | f in s
        ensures f.base == now.base && HasLog(f, log.inode)
      {
        assert bytes[..|bytes|] == bytes;
        assert HasLog(f, log.inode) ==> f.(wal := Some(log)) in after;
        assert !HasLog(f, log.inode) ==> f in after;
      }
    }
  }

  /** The visible files, and in ghost fields all a crash could leave now (`survivors`) and
      could have left at any earlier moment (`trail`).  Each step may fail; `faults` counts those that did. */
  class Disk {
    var files: Files
    var clock: nat
    ghost var survivors: iset<Files>
    ghost var trail: iset<Files>
    ghost var faults: nat

    constructor (files: Files, clock: nat)
      ensures this.files == files && this.clock == clock
      ensures survivors == iset{files} && trail == iset{files} && faults == 0
    {
      this.files, this.clock := files, clock;
      survivors, trail, faults := iset{files}, iset{files}, 0;
    }

    ghost predicate Sound()
      reads this
    {
      files in survivors && survivors <= trail
    }

    /** The crash outcomes of earlier moments are forgotten: `trail` is collected from here on. */
    ghost method Watch()
      requires Sound()
      modifies `trail
      ensures Sound() && trail == survivors
    {
      trail := survivors;
    }

    /** A file-system call that changes neither file: a read, a stat, a write to a temporary file. */
    method Attempt() returns (ok: bool)
      modifies `faults
      ensures Counted(ok)
    {
      ok := *;
      Count(ok);
    }

    /** A step that answers false has failed, and no other step has. */
    twostate predicate Counted(ok: bool)
      reads this
    {
      faults == old(faults) + if ok then 0 else 1
    }

    ghost method Count(ok: bool)
      modifies `faults
      ensures Counted(ok)
    {
      if !ok {
        faults := faults + 1;
      }
    }

    /** Renames a complete, synced temporary file over the base. */
    method RenameBase(ms: seq<Record>, ps: seq<Provisional>) returns (ok: bool)
      requires Sound()
      modifies this
      ensures Counted(ok) && Sound() && clock == old(clock) + 1 && files.wal == old(files.wal)
      ensures !ok ==> files == old(files) && survivors == old(survivors) && trail == old(trail)
      ensures ok ==>
                && files.base.Some?
                && files.base.value.mappings == ms && files.base.value.provisional == ps
                && files.base.value.normalized && files.base.value.id.located
                && files.base.value.id.generation == Some(old(clock)) && files.base.value.id.digest != ""
                && survivors == Renamed(old(survivors), files.base.value)
                && trail == old(trail) + survivors
    {
      var size: nat, mtime: nat := *, *;
      var digest: string := *;
      var b := BaseFile(ms, ps, true, BaseId(size, mtime, Some(clock), true, "#" + digest));
      clock := clock + 1;
      ok := *;
      if ok {
        survivors := Renamed(survivors, b);
        assert files.(base := Some(b)) in survivors;
        files := files.(base := Some(b));
        trail := trail + survivors;
      }
      Count(ok);
    }

    method SyncDirectory() returns (ok: bool)
      requires Sound()
      modifies `survivors, `faults
      ensures Sound() && Counted(ok)
      ensures survivors == if ok then Synced(old(survivors), files) else old(survivors)
    {
      ok := *;
      if ok {
        survivors := Synced(survivors, files);
      }
      Count(ok);
    }

    method UnlinkLog() returns (ok: bool)
      requires Sound()
      modifies `files, `survivors, `trail, `faults
      ensures Sound() && Counted(ok)
      ensures !ok ==> files == old(files) && survivors == old(survivors) && trail == old(trail)
      ensures ok ==>
                && files == old(files).(wal := None) && survivors == Unlinked(old(survivors))
                && trail == old(trail) + survivors
    {
      ok := *;
      if ok {
        survivors := Unlinked(survivors);
        assert files.(wal := None) in survivors;
        files := files.(wal := None);
        trail := trail + survivors;
      }
      Count(ok);
    }

    method CreateLog() returns (ok: bool)
      requires Sound()
      modifies this
      ensures Counted(ok) && Sound() && clock == old(clock) + 1
      ensures !ok ==> files == old(files) && survivors == old(survivors) && trail == old(trail)
      ensures ok ==> files == old(files).(wal := Some(WalFile(old(clock), ""))) &&
                     survivors == Created(old(survivors), old(clock)) && trail == old(trail) + survivors
    {
      var inode := clock;
      clock := clock + 1;
      ok := *;
      if ok {
        survivors := Created(survivors, inode);
        assert files.(wal := Some(WalFile(inode, ""))) in survivors;
        files := files.(wal := Some(WalFile(inode, "")));
        trail := trail + survivors;
      }
      Count(ok);
    }

    /** Writes at the end of the log.  A failed write may leave any first part of the bytes. */
    method AppendLog(bytes: string) returns (ok: bool)
      requires Sound() && files.wal.Some?
      modifies `files, `survivors, `trail, `faults
      ensures Counted(ok) && Sound() && files.base == old(files.base)
      ensures files.wal.Some? && files.wal.value.inode == old(files.wal.value.inode)
      ensures TailOf(files.wal.value.text, old(files.wal.value.text), bytes)
      ensures ok ==> files.wal.value.text == old(files.wal.value.text) + bytes
      ensures survivors == Grown(old(survivors), old(files.wal.value.inode), old(files.wal.value.text), bytes)
      ensures trail == old(trail) + survivors
    {
      var log := files.wal.value;
      var k :| 0 <= k <= |bytes|;
      ok := *;
      ok := ok && k == |bytes|;
      assert bytes[..|bytes|] == bytes;
      survivors := Grown(survivors, log.inode, log.text, bytes);
      assert files.(wal := Some(WalFile(log.inode, log.text + bytes[..k]))) in survivors;
      files := files.(wal := Some(WalFile(log.inode, log.text + bytes[..k])));
      trail := trail + survivors;
      Count(ok);
    }

    method TruncateLog(size: nat) returns (ok: bool)
      requires Sound() && files.wal.Some? && size <= |files.wal.value.text|
      modifies `files, `survivors, `trail, `faults
      ensures Sound() && Counted(ok)
      ensures !ok ==> files == old(files) && survivors == old(survivors) && trail == old(trail)
      ensures ok ==>
                && files == old(files).(wal := Some(old(files.wal.value).(text := old(files.wal.value.text)[..size])))
                && survivors == Cut(old(survivors), old(files.wal.value.inode), old(files.wal.value.text)[..size])
                && trail == old(trail) + survivors
    {
      var log := files.wal.value;
      ok := *;
      if ok {
        survivors := Cut(survivors, log.inode, log.text[..size]);
        files := files.(wal := Some(log.(text := log.text[..size])));
        trail := trail + survivors;
      }
      Count(ok);
    }

    method FlushLog() returns (ok: bool)
      requires Sound() && files.wal.Some?
      modifies `survivors, `faults
      ensures Sound() && Counted(ok)
      ensures survivors == if ok then Flushed(old(survivors), files.wal.value) else old(survivors)
    {
      ok := *;
      if ok {
        survivors := Flushed(survivors, files.wal.value);
      }
      Count(ok);
    }
  }
}
