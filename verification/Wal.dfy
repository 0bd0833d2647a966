/** The append-only log beside a base document: a header bound to one base file,
    then whole-entry deltas chained by hash. */
module Wal {
  import opened AuthorityTypes
  import opened RelationalValidity
  import opened DocumentLists
  import opened LogText

  const SEED := "openwebui-gjc-session-authority-wal:v2"

  datatype Version = Legacy | Chained

  /** What a running authority remembers of the base file it read or wrote.  `located` says
      whether the generation key was found in the text, so that it can be re-read in place. */
  datatype BaseId = BaseId(size: nat, mtime: nat, generation: Option<nat>, located: bool, digest: string)

  datatype RecordedBase = RecordedBase(size: nat, mtime: nat, generation: Option<nat>, digest: Option<string>)

  datatype Header = Header(version: Version, base: RecordedBase, prevHash: string)

  /** `rest` stands for anything else the line's object carries. */
  datatype Delta = Delta(
    version: Version, records: seq<Record>, provisional: seq<Provisional>,
    prevHash: string, head: string, rest: string)

  datatype Line = HeaderLine(header: Header) | DeltaLine(delta: Delta) | OtherLine

  /** The text encoding and the hash, which are only known by their laws. */
  datatype Wire = Wire(
    digest: string -> string, sample: string -> string,
    headerText: Header -> string, bodyText: Delta -> string, deltaText: Delta -> string,
    read: string -> Line)

  ghost predicate Plain(s: string) {
    s != "" && NewlineFree(s)
  }

  /** SHA-256 is taken to be collision-free; JSON text carries no raw newline and reads back. */
  ghost predicate Faithful(w: Wire) {
    && (forall s, t :: w.digest(s) == w.digest(t) ==> s == t)
    && (forall s :: Plain(w.digest(s)) && w.digest(s) != SEED)
    && (forall h :: Plain(w.headerText(h)) && w.read(w.headerText(h)) == HeaderLine(h))
    && (forall d :: Plain(w.deltaText(d)) && w.read(w.deltaText(d)) == DeltaLine(d))
    && (forall d, e :: w.bodyText(d) == w.bodyText(e) ==> d.(head := "") == e.(head := ""))
    && (forall d: Delta, x :: w.bodyText(d.(head := x)) == w.bodyText(d))
  }

  function LineHash(w: Wire, prev: string, text: string): string {
    w.digest(prev + "\n" + text)
  }

  predicate HeaderShape(h: Header) {
    h.version.Chained? ==> h.prevHash != ""
  }

  predicate DeltaShape(d: Delta) {
    && (d.version.Chained? ==> d.prevHash != "" && d.head != "")
    && (forall r :: r in d.records ==> RecordShape(r))
    && (forall p :: p in d.provisional ==> ProvisionalShape(p))
  }

  predicate Bound(h: Header, base: Option<BaseId>) {
    && HeaderShape(h)
    && base.Some?
    && h.base.size == base.value.size && h.base.mtime == base.value.mtime
    && h.base.generation == base.value.generation
    && (h.base.digest.Some? && h.base.digest.value != "" ==> h.base.digest.value == base.value.digest)
  }

  predicate DigestBound(h: Header) {
    h.base.digest.Some? && h.base.digest.value != ""
  }

  /** The header an authority writes for its base, and the delta it writes behind `prevHash`. */
  function HeaderFor(base: BaseId): Header {
    Header(Chained, RecordedBase(base.size, base.mtime, base.generation, Some(base.digest)), SEED)
  }

  function DeltaFor(w: Wire, rs: seq<Record>, ps: seq<Provisional>, prevHash: string): Delta {
    var body := Delta(Chained, rs, ps, prevHash, "", "");
    body.(head := LineHash(w, prevHash, w.bodyText(body)))
  }

  // ---------------------------------------------------------------- replay

  predicate Linked(w: Wire, head: string, d: Delta) {
    && d.prevHash == head
    && LineHash(w, d.prevHash, w.bodyText(d)) == d.head
  }

  datatype Progress = Intact(doc: Document, head: string) | CorruptLine | BrokenChain

  function ReplayLine(w: Wire, chained: bool, head: string, doc: Document, line: string): Progress {
    match w.read(line)
    case DeltaLine(d) =>
      if !DeltaShape(d) then CorruptLine
      else if chained && (d.prevHash == "" || !Linked(w, head, d)) then BrokenChain
      else Intact(Overlay(doc, d.records, d.provisional), if chained then d.head else "")
    case _ => CorruptLine
  }

  function ReplayLines(w: Wire, chained: bool, head: string, doc: Document, lines: seq<string>): Progress
    decreases |lines|
  {
    if lines == [] then Intact(doc, head)
    else
      var before := ReplayLines(w, chained, head, doc, lines[..|lines| - 1]);
      if before.Intact? then ReplayLine(w, chained, before.head, before.doc, lines[|lines| - 1]) else before
  }

  /** What the authority remembers of a log it has replayed or written. */
  datatype WalId = WalId(size: nat, digest: string, version: Version, digestBound: bool)

  datatype Replay =
    | Ignored(torn: bool)
    | Unusable
    | Replayed(doc: Document, id: WalId, torn: bool)

  function FirstHead(w: Wire, h: Header, line: string): string {
    if h.version.Chained? then LineHash(w, SEED, line) else ""
  }

  function IdentityOf(w: Wire, h: Header, head: string, text: string): WalId {
    WalId(|text|, if h.version.Chained? then head else w.sample(text), h.version, h.version.Chained? && DigestBound(h))
  }

  /** Replaying whole lines; `text` is the file they were taken from. */
  ghost function ReplayWhole(w: Wire, doc: Document, base: Option<BaseId>, lines: seq<string>, text: string,
                             torn: bool): Replay {
    if lines == [] then Ignored(torn)
    else
      match w.read(lines[0])
      case HeaderLine(h) =>
        if !HeaderShape(h) then Unusable
        else if !Bound(h, base) then Ignored(false)
        else
          var progress := ReplayLines(w, h.version.Chained?, FirstHead(w, h, lines[0]), doc, lines[1..]);
          if !progress.Intact? || !Relational(progress.doc) then Unusable
          else Replayed(progress.doc, IdentityOf(w, h, progress.head, text), torn)
      case _ => Unusable
  }

  /** Replaying a log over the document its base holds.  An ignored log is deleted. */
  ghost function ReplayOf(w: Wire, doc: Document, base: Option<BaseId>, text: string): Replay {
    ReplayWhole(w, doc, base, WholeLines(text), text, !Terminated(text))
  }

  lemma {:induction false} FailureSticks(w: Wire, chained: bool, head: string, doc: Document, lines: seq<string>,
                                         n: nat)
    requires n <= |lines| && !ReplayLines(w, chained, head, doc, lines[..n]).Intact?
    ensures ReplayLines(w, chained, head, doc, lines) == ReplayLines(w, chained, head, doc, lines[..n])
    decreases |lines|
  {
    if n == |lines| {
      assert lines[..n] == lines;
    } else {
      var front := lines[..|lines| - 1];
      assert front[..n] == lines[..n];
      FailureSticks(w, chained, head, doc, front, n);
    }
  }

  /** The loop over the delta lines, stopping at the first one that cannot be used. */
  method ReplayDeltas(w: Wire, chained: bool, head: string, doc: Document, lines: seq<string>)
    returns (progress: Progress)
    ensures progress == ReplayLines(w, chained, head, doc, lines)
  {
    progress := Intact(doc, head);
    for n := 0 to |lines|
      invariant progress.Intact? && progress == ReplayLines(w, chained, head, doc, lines[..n])
    {
      assert lines[..n + 1][..n] == lines[..n];
      progress := ReplayLine(w, chained, progress.head, progress.doc, lines[n]);
      if !progress.Intact? {
        FailureSticks(w, chained, head, doc, lines, n + 1);
        return;
      }
    }
    assert lines[..|lines|] == lines;
  }

  /** The deltas of a chained log: each follows the head before it and carries the hash of that head and its
      own body. */
  predicate Chain(w: Wire, head: string, ds: seq<Delta>) {
    ChainUpTo(w, head, ds, |ds|)
  }

  predicate ChainUpTo(w: Wire, head: string, ds: seq<Delta>, n: nat)
    requires n <= |ds|
  {
    forall i :: 0 <= i < n ==> FollowsAt(w, head, ds, i)
  }

  predicate AllShaped(ds: seq<Delta>) {
    ShapedUpTo(ds, |ds|)
  }

  predicate ShapedUpTo(ds: seq<Delta>, n: nat)
    requires n <= |ds|
  {
    forall i :: 0 <= i < n ==> DeltaShape(ds[i])
  }

  predicate Follows(w: Wire, prev: string, d: Delta) {
    prev != "" && d.prevHash == prev && d.head == w.digest(prev + "\n" + w.bodyText(d))
  }

  predicate FollowsAt(w: Wire, head: string, ds: seq<Delta>, i: nat)
    requires i < |ds|
  {
    Follows(w, HeadBefore(head, ds, i), ds[i])
  }

  function HeadBefore(head: string, ds: seq<Delta>, i: nat): string
    requires i <= |ds|
  {
    if i == 0 then head else ds[i - 1].head
  }

  /** The last of these writes to a chat, and to a reservation. */
  predicate LastOfChat(ds: seq<Delta>, i: nat, j: nat) {
    && i < |ds| && j < |ds[i].records|
    && (forall k :: j < k < |ds[i].records| ==> ds[i].records[k].chatId != ds[i].records[j].chatId)
    && (forall n :: i < n < |ds| ==> !NamesChat(ds[n].records, ds[i].records[j].chatId))
  }

  predicate LastOfKey(ds: seq<Delta>, i: nat, j: nat) {
    && i < |ds| && j < |ds[i].provisional|
    && (forall k :: j < k < |ds[i].provisional| ==> KeyOf(ds[i].provisional[k]) != KeyOf(ds[i].provisional[j]))
    && (forall n :: i < n < |ds| ==> !NamesKey(ds[n].provisional, KeyOf(ds[i].provisional[j])))
  }

  /** What the deltas write is there as last written, and the rest as it was before. */
  ghost predicate LastWrites(before: Document, after: Document, ds: seq<Delta>) {
    && (forall i: nat, j: nat :: LastOfChat(ds, i, j) ==>
          after.RecordOf(ds[i].records[j].chatId) == Some(ds[i].records[j]))
    && (forall i: nat, j: nat :: LastOfKey(ds, i, j) ==>
          after.ProvisionalAt(KeyOf(ds[i].provisional[j])) == Some(ds[i].provisional[j]))
    && (forall c :: (forall i :: 0 <= i < |ds| ==> !NamesChat(ds[i].records, c)) ==>
          after.RecordOf(c) == before.RecordOf(c))
    && (forall k :: (forall i :: 0 <= i < |ds| ==> !NamesKey(ds[i].provisional, k)) ==>
          after.ProvisionalAt(k) == before.ProvisionalAt(k))
  }

  /** Replay can use these lines if and only if each is a well-shaped delta and, in a chained log, they are
      one unbroken chain behind the head; every entry is then as it was last written. */
  lemma ReplayLinesExact(w: Wire, chained: bool, head: string, doc: Document, lines: seq<string>, ds: seq<Delta>)
    requires |ds| == |lines|
    requires forall i :: 0 <= i < |lines| ==> w.read(lines[i]) == DeltaLine(ds[i])
    ensures var progress := ReplayLines(w, chained, head, doc, lines);
            && (progress.Intact? <==> AllShaped(ds) && (chained ==> Chain(w, head, ds)))
            && (progress.Intact? ==> LastWrites(doc, progress.doc, ds))
            && (progress.Intact? && chained ==> progress.head == HeadBefore(head, ds, |ds|))
  {
    assert lines[..|lines|] == lines;
    UsedExact(w, chained, head, doc, lines, ds, |lines|);
    if ReplayLines(w, chained, head, doc, lines).Intact? {
      WritesKept(w, chained, head, doc, lines, ds);
    }
  }

  lemma {:induction false} UsedExact(w: Wire, chained: bool, head: string, doc: Document, lines: seq<string>,
                                     ds: seq<Delta>, n: nat)
    requires |ds| == |lines| && n <= |lines|
    requires forall i :: 0 <= i < |lines| ==> w.read(lines[i]) == DeltaLine(ds[i])
    ensures var progress := ReplayLines(w, chained, head, doc, lines[..n]);
            && (progress.Intact? <==> ShapedUpTo(ds, n) && (chained ==> ChainUpTo(w, head, ds, n)))
            && (progress.Intact? && chained ==> progress.head == HeadBefore(head, ds, n))
    decreases n
  {
    if n > 0 {
      UsedExact(w, chained, head, doc, lines, ds, n - 1);
      assert lines[..n][..n - 1] == lines[..n - 1];
      LastLineUsed(w, chained, head, doc, lines[..n], ds[n - 1]);
      assert FollowsAt(w, head, ds, n - 1) <==> Follows(w, HeadBefore(head, ds, n - 1), ds[n - 1]);
    }
  }

  lemma LastLineUsed(w: Wire, chained: bool, head: string, doc: Document, lines: seq<string>, d: Delta)
    requires lines != [] && w.read(lines[|lines| - 1]) == DeltaLine(d)
    ensures var before := ReplayLines(w, chained, head, doc, lines[..|lines| - 1]);
            var progress := ReplayLines(w, chained, head, doc, lines);
            && (progress.Intact? <==>
                  && before.Intact? && DeltaShape(d)
                  && (chained ==> Follows(w, before.head, d)))
            && (progress.Intact? && chained ==> progress.head == d.head)
  {
  }

  lemma {:induction false} WritesKept(w: Wire, chained: bool, head: string, doc: Document, lines: seq<string>,
                                      ds: seq<Delta>)
    requires |ds| == |lines| && ReplayLines(w, chained, head, doc, lines).Intact?
    requires forall i :: 0 <= i < |lines| ==> w.read(lines[i]) == DeltaLine(ds[i])
    ensures LastWrites(doc, ReplayLines(w, chained, head, doc, lines).doc, ds)
    decreases |lines|
  {
    if lines != [] {
      var n := |lines| - 1;
      var before := ReplayLines(w, chained, head, doc, lines[..n]);
      WritesKept(w, chained, head, doc, lines[..n], ds[..n]);
      WritesMore(doc, before.doc, ds);
    }
  }

  lemma WritesMore(doc: Document, mid: Document, ds: seq<Delta>)
    requires ds != [] && LastWrites(doc, mid, ds[..|ds| - 1])
    ensures LastWrites(doc, Overlay(mid, ds[|ds| - 1].records, ds[|ds| - 1].provisional), ds)
  {
    ChatsMore(doc, mid, ds);
    KeysMore(doc, mid, ds);
  }

  lemma ChatsMore(doc: Document, mid: Document, ds: seq<Delta>)
    requires ds != [] && LastWrites(doc, mid, ds[..|ds| - 1])
    ensures var after := Overlay(mid, ds[|ds| - 1].records, ds[|ds| - 1].provisional);
            && (forall i: nat, j: nat :: LastOfChat(ds, i, j) ==>
                  after.RecordOf(ds[i].records[j].chatId) == Some(ds[i].records[j]))
            && (forall c :: (forall i :: 0 <= i < |ds| ==> !NamesChat(ds[i].records, c)) ==>
                  after.RecordOf(c) == doc.RecordOf(c))
  {
    var n := |ds| - 1;
    var after := Overlay(mid, ds[n].records, ds[n].provisional);
    assert forall m :: 0 <= m < n ==> ds[..n][m] == ds[m];
    forall i: nat, j: nat | LastOfChat(ds, i, j)
      ensures after.RecordOf(ds[i].records[j].chatId) == Some(ds[i].records[j])
    {
      if i == n {
        RecordsIntoLast(mid.records, ds[n].records, j);
      } else {
        assert LastOfChat(ds[..n], i, j);
        RecordsIntoRest(mid.records, ds[n].records, ds[i].records[j].chatId);
      }
    }
    forall c | forall i :: 0 <= i < |ds| ==> !NamesChat(ds[i].records, c)
      ensures after.RecordOf(c) == doc.RecordOf(c)
    {
      RecordsIntoRest(mid.records, ds[n].records, c);
    }
  }

  lemma KeysMore(doc: Document, mid: Document, ds: seq<Delta>)
    requires ds != [] && LastWrites(doc, mid, ds[..|ds| - 1])
    ensures var after := Overlay(mid, ds[|ds| - 1].records, ds[|ds| - 1].provisional);
            && (forall i: nat, j: nat :: LastOfKey(ds, i, j) ==>
                  after.ProvisionalAt(KeyOf(ds[i].provisional[j])) == Some(ds[i].provisional[j]))
            && (forall k :: (forall i :: 0 <= i < |ds| ==> !NamesKey(ds[i].provisional, k)) ==>
                  after.ProvisionalAt(k) == doc.ProvisionalAt(k))
  {
    var n := |ds| - 1;
    var after := Overlay(mid, ds[n].records, ds[n].provisional);
    assert forall m :: 0 <= m < n ==> ds[..n][m] == ds[m];
    forall i: nat, j: nat | LastOfKey(ds, i, j)
      ensures after.ProvisionalAt(KeyOf(ds[i].provisional[j])) == Some(ds[i].provisional[j])
    {
      if i == n {
        ProvisionalIntoLast(mid.provisional, ds[n].provisional, j);
      } else {
        assert LastOfKey(ds[..n], i, j);
        ProvisionalIntoRest(mid.provisional, ds[n].provisional, KeyOf(ds[i].provisional[j]));
      }
    }
    forall k | forall i :: 0 <= i < |ds| ==> !NamesKey(ds[i].provisional, k)
      ensures after.ProvisionalAt(k) == doc.ProvisionalAt(k)
    {
      ProvisionalIntoRest(mid.provisional, ds[n].provisional, k);
    }
  }

  // ---------------------------------------------------------- atomic append

  lemma OneMoreLine(w: Wire, chained: bool, head: string, doc: Document, lines: seq<string>, line: string)
    requires ReplayLines(w, chained, head, doc, lines).Intact?
    ensures ReplayLines(w, chained, head, doc, lines + [line]) ==
            var before := ReplayLines(w, chained, head, doc, lines);
            ReplayLine(w, chained, before.head, before.doc, line)
  {
    assert (lines + [line])[..|lines|] == lines;
  }

  lemma OwnDeltaLinks(w: Wire, rs: seq<Record>, ps: seq<Provisional>, head: string)
    requires Faithful(w)
    ensures Linked(w, head, DeltaFor(w, rs, ps, head))
    ensures w.read(w.deltaText(DeltaFor(w, rs, ps, head))) == DeltaLine(DeltaFor(w, rs, ps, head))
    ensures Plain(w.deltaText(DeltaFor(w, rs, ps, head))) && Plain(DeltaFor(w, rs, ps, head).head)
  {
    var d := DeltaFor(w, rs, ps, head);
    assert w.bodyText(d.(head := "")) == w.bodyText(d);
  }

  ghost predicate EntryShapes(rs: seq<Record>, ps: seq<Provisional>) {
    && (forall r :: r in rs ==> RecordShape(r))
    && (forall p :: p in ps ==> ProvisionalShape(p))
  }

  /** What replay makes of a log once `after` is the document a new delta leads to. */
  ghost function Extended(after: Document, id: WalId): Replay {
    if Relational(after) then Replayed(after, id, false) else Unusable
  }

  /** The same lines seen in a longer file replay alike. */
  lemma SameLines(w: Wire, doc: Document, base: Option<BaseId>, lines: seq<string>, text: string, text': string,
                  torn': bool)
    requires ReplayWhole(w, doc, base, lines, text, false).Replayed?
    requires ReplayWhole(w, doc, base, lines, text, false).id.version.Chained?
    ensures var before := ReplayWhole(w, doc, base, lines, text, false);
            ReplayWhole(w, doc, base, lines, text', torn') == Replayed(before.doc, before.id.(size := |text'|), torn')
  {
  }

  lemma WholeLineMore(w: Wire, doc: Document, base: Option<BaseId>, lines: seq<string>, text: string,
                      d: Delta, line: string, text': string)
    requires ReplayWhole(w, doc, base, lines, text, false).Replayed?
    requires ReplayWhole(w, doc, base, lines, text, false).id.version.Chained?
    requires w.read(line) == DeltaLine(d) && DeltaShape(d) && d.prevHash != ""
    requires Linked(w, ReplayWhole(w, doc, base, lines, text, false).id.digest, d)
    ensures var before := ReplayWhole(w, doc, base, lines, text, false);
            ReplayWhole(w, doc, base, lines + [line], text', false) ==
            Extended(Overlay(before.doc, d.records, d.provisional), before.id.(size := |text'|, digest := d.head))
  {
    var h := w.read(lines[0]).header;
    var first := FirstHead(w, h, lines[0]);
    assert (lines + [line])[1..] == lines[1..] + [line] && (lines + [line])[0] == lines[0];
    OneMoreLine(w, true, first, doc, lines[1..], line);
    var progress := ReplayLines(w, true, first, doc, lines[1..]);
    assert ReplayLine(w, true, progress.head, progress.doc, line) ==
      Intact(Overlay(progress.doc, d.records, d.provisional), d.head);
  }

  /** A log that a chained delta may be appended to: its last line is finished and it replays. */
  ghost predicate Open(w: Wire, doc: Document, base: Option<BaseId>, text: string) {
    && Terminated(text)
    && ReplayOf(w, doc, base, text).Replayed?
    && ReplayOf(w, doc, base, text).id.version.Chained?
  }

  lemma AppendTorn(w: Wire, doc: Document, base: Option<BaseId>, text: string, line: string, k: nat)
    requires Open(w, doc, base, text) && Plain(line) && k <= |line|
    ensures var before := ReplayOf(w, doc, base, text);
            ReplayOf(w, doc, base, text + (line + "\n")[..k]) ==
            Replayed(before.doc, before.id.(size := |text| + k), k > 0)
  {
    LinePrefix(text, line, k);
    SameLines(w, doc, base, WholeLines(text), text, text + (line + "\n")[..k], k > 0);
  }

  lemma AppendedLines(w: Wire, doc: Document, base: Option<BaseId>, text: string, line: string)
    requires Terminated(text) && Plain(line)
    ensures ReplayOf(w, doc, base, text + (line + "\n")) ==
            ReplayWhole(w, doc, base, WholeLines(text) + [line], text + (line + "\n"), false)
  {
    LineWritten(text, line);
  }

  lemma AppendWhole(w: Wire, doc: Document, base: Option<BaseId>, text: string, d: Delta, line: string)
    requires Open(w, doc, base, text) && Plain(line)
    requires w.read(line) == DeltaLine(d) && DeltaShape(d) && d.prevHash != ""
    requires Linked(w, ReplayOf(w, doc, base, text).id.digest, d)
    ensures var before := ReplayOf(w, doc, base, text);
            ReplayOf(w, doc, base, text + (line + "\n")) ==
            Extended(Overlay(before.doc, d.records, d.provisional),
                     before.id.(size := |text + (line + "\n")|, digest := d.head))
  {
    AppendedLines(w, doc, base, text, line);
    WholeLineMore(w, doc, base, WholeLines(text), text, d, line, text + (line + "\n"));
  }

  /** Append is atomic at every byte.  Of a delta written behind a replayable log, any
      prefix replays to the state before it; the whole line replays to the state after
      it if and only if that state is valid, and makes the log unusable otherwise. */
  lemma AppendAtomic(w: Wire, doc: Document, base: Option<BaseId>, text: string,
                     rs: seq<Record>, ps: seq<Provisional>, k: nat)
    requires Faithful(w) && Open(w, doc, base, text) && EntryShapes(rs, ps)
    requires k <= |w.deltaText(DeltaFor(w, rs, ps, ReplayOf(w, doc, base, text).id.digest))| + 1
    ensures var before := ReplayOf(w, doc, base, text);
            var d := DeltaFor(w, rs, ps, before.id.digest);
            var line := w.deltaText(d);
            ReplayOf(w, doc, base, text + (line + "\n")[..k]) ==
              if k == |line| + 1
              then Extended(Overlay(before.doc, rs, ps), before.id.(size := |text| + |line| + 1, digest := d.head))
              else Replayed(before.doc, before.id.(size := |text| + k), k > 0)
  {
    var head := ReplayOf(w, doc, base, text).id.digest;
    var d := DeltaFor(w, rs, ps, head);
    var line := w.deltaText(d);
    OwnDeltaLinks(w, rs, ps, head);
    ReplayedHeadPlain(w, doc, base, text);
    if k == |line| + 1 {
      assert (line + "\n")[..k] == line + "\n";
      AppendWhole(w, doc, base, text, d, line);
    } else {
      AppendTorn(w, doc, base, text, line, k);
    }
  }

  lemma MalformedLine(w: Wire, doc: Document, base: Option<BaseId>, lines: seq<string>, text: string, line: string,
                      text': string)
    requires ReplayWhole(w, doc, base, lines, text, false).Replayed?
    requires w.read(line).DeltaLine? && !DeltaShape(w.read(line).delta)
    ensures ReplayWhole(w, doc, base, lines + [line], text', false).Unusable?
  {
    var h := w.read(lines[0]).header;
    assert (lines + [line])[1..] == lines[1..] + [line];
    OneMoreLine(w, h.version.Chained?, FirstHead(w, h, lines[0]), doc, lines[1..], line);
  }

  /** The step a delta records may be acknowledged: its entries are well-shaped and lead to a valid document. */
  ghost predicate Replayable(doc: Document, rs: seq<Record>, ps: seq<Provisional>) {
    EntryShapes(rs, ps) && Relational(Overlay(doc, rs, ps))
  }

  /** A finished append can be replayed if and only if the step it records was valid. */
  lemma AppendExact(w: Wire, doc: Document, base: Option<BaseId>, text: string, rs: seq<Record>, ps: seq<Provisional>)
    requires Faithful(w) && Open(w, doc, base, text)
    ensures var before := ReplayOf(w, doc, base, text);
            var d := DeltaFor(w, rs, ps, before.id.digest);
            var line := w.deltaText(d);
            ReplayOf(w, doc, base, text + (line + "\n")) ==
              if Replayable(before.doc, rs, ps)
              then Replayed(Overlay(before.doc, rs, ps), before.id.(size := |text + (line + "\n")|, digest := d.head),
                false)
              else Unusable
  {
    var head := ReplayOf(w, doc, base, text).id.digest;
    var d := DeltaFor(w, rs, ps, head);
    var line := w.deltaText(d);
    OwnDeltaLinks(w, rs, ps, head);
    ReplayedHeadPlain(w, doc, base, text);
    if EntryShapes(rs, ps) {
      AppendWhole(w, doc, base, text, d, line);
    } else {
      AppendedLines(w, doc, base, text, line);
      MalformedLine(w, doc, base, WholeLines(text), text, line, text + (line + "\n"));
    }
  }

  /** The same for the first delta of a new log. */
  lemma CreateExact(w: Wire, doc: Document, base: BaseId, rs: seq<Record>, ps: seq<Provisional>)
    requires Faithful(w) && Relational(doc)
    ensures var text := CreatedText(w, base, rs, ps);
            ReplayOf(w, doc, Some(base), text) ==
              if Replayable(doc, rs, ps)
              then Replayed(Overlay(doc, rs, ps),
                WalId(|text|, FirstDelta(w, base, rs, ps).head, Chained, base.digest != ""), false)
              else Unusable
  {
    var top := w.headerText(HeaderFor(base)) + "\n";
    assert top[..|top|] == top;
    HeaderPrefix(w, doc, base, |top|);
    HeaderLineOpens(w, base);
    AppendExact(w, doc, Some(base), top, rs, ps);
  }

  lemma HeaderPrefix(w: Wire, doc: Document, base: BaseId, k: nat)
    requires Faithful(w) && Relational(doc)
    requires k <= |w.headerText(HeaderFor(base))| + 1
    ensures var line := w.headerText(HeaderFor(base));
            ReplayOf(w, doc, Some(base), (line + "\n")[..k]) ==
              if k == |line| + 1
              then Replayed(doc, WalId(|line| + 1, LineHash(w, SEED, line), Chained, base.digest != ""), false)
              else Ignored(k > 0)
  {
    var line := w.headerText(HeaderFor(base));
    var text := (line + "\n")[..k];
    assert "" + text == text;
    LinePrefix("", line, k);
    if k == |line| + 1 {
      assert WholeLines(text) == [line];
    }
  }

  /** The header an authority writes binds the log to its own base: to no base of another size, time,
      generation or content. */
  lemma BoundExact(base: BaseId, other: BaseId)
    requires base.digest != ""
    ensures !Bound(HeaderFor(base), None)
    ensures Bound(HeaderFor(base), Some(other)) <==>
            && base.size == other.size && base.mtime == other.mtime
            && base.generation == other.generation && base.digest == other.digest
  {
  }

  /** Beside any other base its log is ignored, whatever was appended to it, and is not adopted; without a
      base it is, too. */
  lemma OwnLogOnly(w: Wire, doc: Document, base: BaseId, other: Option<BaseId>, appended: string)
    requires Faithful(w) && base.digest != ""
    requires other.None? || base.size != other.value.size || base.mtime != other.value.mtime
             || base.generation != other.value.generation || base.digest != other.value.digest
    ensures var text := w.headerText(HeaderFor(base)) + "\n" + appended;
            ReplayOf(w, doc, other, text) == Ignored(false) && Adopt(w, other, text).NotAdopted?
              && VerdictOf(w, other, text).Stale? && VerifiedHead(w, other, text).None?
  {
    var top := w.headerText(HeaderFor(base));
    FirstLineStays(top, appended);
    if other.Some? {
      BoundExact(base, other.value);
    }
  }

  /** The first write to a new log, header and delta together, is atomic at every byte too. */
  lemma CreateAtomic(w: Wire, doc: Document, base: BaseId, rs: seq<Record>, ps: seq<Provisional>, k: nat)
    requires Faithful(w) && Relational(doc) && EntryShapes(rs, ps)
    requires k <= |CreatedText(w, base, rs, ps)|
    ensures var replay := ReplayOf(w, doc, Some(base), CreatedText(w, base, rs, ps)[..k]);
            if k == |CreatedText(w, base, rs, ps)|
            then if Relational(Overlay(doc, rs, ps)) then replay.Replayed? && replay.doc == Overlay(doc, rs, ps)
              && !replay.torn
                 else replay.Unusable?
            else replay.Ignored? || (replay.Replayed? && replay.doc == doc)
  {
    var top := w.headerText(HeaderFor(base)) + "\n";
    var all := CreatedText(w, base, rs, ps);
    if k < |top| {
      assert all[..k] == top[..k];
      HeaderPrefix(w, doc, base, k);
    } else {
      assert all[..k] == top + FirstDeltaText(w, base, rs, ps)[..k - |top|];
      FirstDeltaAtomic(w, doc, base, rs, ps, k - |top|);
    }
  }

  lemma FirstDeltaAtomic(w: Wire, doc: Document, base: BaseId, rs: seq<Record>, ps: seq<Provisional>, k: nat)
    requires Faithful(w) && Relational(doc) && EntryShapes(rs, ps)
    requires k <= |FirstDeltaText(w, base, rs, ps)|
    ensures var replay :=
        ReplayOf(w, doc, Some(base), w.headerText(HeaderFor(base)) + "\n" + FirstDeltaText(w, base, rs, ps)[..k]);
            if k == |FirstDeltaText(w, base, rs, ps)|
            then if Relational(Overlay(doc, rs, ps)) then replay.Replayed? && replay.doc == Overlay(doc, rs, ps)
              && !replay.torn
                 else replay.Unusable?
            else replay.Replayed? && replay.doc == doc
  {
    var top := w.headerText(HeaderFor(base)) + "\n";
    assert top[..|top|] == top;
    HeaderPrefix(w, doc, base, |top|);
    HeaderLineOpens(w, base);
    AppendAtomic(w, doc, Some(base), top, rs, ps, k);
  }

  function FirstDelta(w: Wire, base: BaseId, rs: seq<Record>, ps: seq<Provisional>): Delta {
    DeltaFor(w, rs, ps, LineHash(w, SEED, w.headerText(HeaderFor(base))))
  }

  function FirstDeltaText(w: Wire, base: BaseId, rs: seq<Record>, ps: seq<Provisional>): string {
    w.deltaText(FirstDelta(w, base, rs, ps)) + "\n"
  }

  function CreatedText(w: Wire, base: BaseId, rs: seq<Record>, ps: seq<Provisional>): string {
    w.headerText(HeaderFor(base)) + "\n" + FirstDeltaText(w, base, rs, ps)
  }

  lemma HeaderLineOpens(w: Wire, base: BaseId)
    requires Faithful(w)
    ensures Terminated(w.headerText(HeaderFor(base)) + "\n")
  {
    var line := w.headerText(HeaderFor(base));
    assert "" + (line + "\n") == line + "\n";
    LineWritten("", line);
  }

  // ------------------------------------------------------------- the chain

  function ChainHead(w: Wire, lines: seq<string>): Option<string>
    requires |lines| > 0
    decreases |lines|
  {
    if |lines| == 1 then Some(LineHash(w, SEED, lines[0]))
    else
      match ChainHead(w, lines[..|lines| - 1])
      case None => None
      case Some(head) =>
        match w.read(lines[|lines| - 1])
        case DeltaLine(d) => if DeltaShape(d) && d.prevHash != "" && Linked(w, head, d) then Some(d.head) else None
        case _ => None
  }

  lemma {:induction false} BrokenSticks(w: Wire, lines: seq<string>, n: nat)
    requires 0 < n <= |lines| && ChainHead(w, lines[..n]).None?
    ensures ChainHead(w, lines).None?
    decreases |lines|
  {
    if n == |lines| {
      assert lines[..n] == lines;
    } else {
      assert lines[..|lines| - 1][..n] == lines[..n];
      BrokenSticks(w, lines[..|lines| - 1], n);
    }
  }

  /** The loop that re-reads every link from disk. */
  method VerifyLines(w: Wire, lines: seq<string>) returns (head: Option<string>)
    requires |lines| > 0
    ensures head == ChainHead(w, lines)
  {
    var expected := LineHash(w, SEED, lines[0]);
    for n := 1 to |lines|
      invariant ChainHead(w, lines[..n]) == Some(expected)
    {
      assert lines[..n + 1][..n] == lines[..n];
      var line := w.read(lines[n]);
      if !line.DeltaLine? || !DeltaShape(line.delta) || line.delta.prevHash == "" || !Linked(w, expected, line.delta) {
        BrokenSticks(w, lines, n + 1);
        return None;
      }
      expected := line.delta.head;
    }
    assert lines[..|lines|] == lines;
    return Some(expected);
  }

  lemma {:induction false} HeadIsHash(w: Wire, lines: seq<string>)
    requires Faithful(w) && |lines| > 0 && ChainHead(w, lines).Some?
    ensures exists prev, text :: ChainHead(w, lines).value == LineHash(w, prev, text)
    ensures Plain(ChainHead(w, lines).value) && ChainHead(w, lines).value != SEED
  {
    if |lines| == 1 {
      assert ChainHead(w, lines).value == LineHash(w, SEED, lines[0]);
    } else {
      var d := w.read(lines[|lines| - 1]).delta;
      assert ChainHead(w, lines).value == LineHash(w, d.prevHash, w.bodyText(d));
    }
  }

  lemma JoinInjective(p: string, s: string, q: string, t: string)
    requires NewlineFree(p) && NewlineFree(q) && p + "\n" + s == q + "\n" + t
    ensures p == q && s == t
  {
    var a, b := p + "\n" + s, q + "\n" + t;
    assert a[|p|] == '\n' && b[|q|] == '\n';
    assert forall i :: 0 <= i < |p| ==> a[i] == p[i];
    assert forall i :: 0 <= i < |q| ==> b[i] == q[i];
    assert |p| == |q|;
    assert p == a[..|p|] && q == b[..|q|];
    assert s == a[|p| + 1..] && t == b[|q| + 1..];
  }

  lemma LineHashInjective(w: Wire, p: string, s: string, q: string, t: string)
    requires Faithful(w) && NewlineFree(p) && NewlineFree(q) && LineHash(w, p, s) == LineHash(w, q, t)
    ensures p == q && s == t
  {
    JoinInjective(p, s, q, t);
  }

  /** Two logs with the same content: the same header text and the same deltas. */
  ghost predicate SameLog(w: Wire, a: seq<string>, b: seq<string>) {
    && |a| == |b| && |a| > 0 && a[0] == b[0]
    && forall i :: 1 <= i < |a| ==> w.read(a[i]) == w.read(b[i])
  }

  lemma SeedPlain()
    ensures NewlineFree(SEED)
  {
  }

  lemma HeadersDiffer(w: Wire, a: seq<string>, b: seq<string>)
    requires Faithful(w) && |a| == 1 && |b| > 1
    requires ChainHead(w, a).Some? && ChainHead(w, b).Some?
    ensures ChainHead(w, a) != ChainHead(w, b)
  {
    var front := b[..|b| - 1];
    HeadIsHash(w, front);
    SeedPlain();
    var d := w.read(b[|b| - 1]).delta;
    if LineHash(w, SEED, a[0]) == LineHash(w, d.prevHash, w.bodyText(d)) {
      LineHashInjective(w, SEED, a[0], d.prevHash, w.bodyText(d));
      assert false;
    }
  }

  lemma SameBody(w: Wire, d: Delta, e: Delta)
    requires Faithful(w) && w.bodyText(d) == w.bodyText(e) && d.head == e.head
    ensures d == e
  {
    assert d.(head := "") == e.(head := "");
    assert d == d.(head := "").(head := d.head) && e == e.(head := "").(head := e.head);
  }

  lemma LastLinkSame(w: Wire, a: seq<string>, b: seq<string>)
    requires Faithful(w) && |a| > 1 && |b| > 1
    requires ChainHead(w, a).Some? && ChainHead(w, a) == ChainHead(w, b)
    ensures ChainHead(w, a[..|a| - 1]).Some? && ChainHead(w, a[..|a| - 1]) == ChainHead(w, b[..|b| - 1])
    ensures w.read(a[|a| - 1]) == w.read(b[|b| - 1])
  {
    HeadIsHash(w, a[..|a| - 1]);
    HeadIsHash(w, b[..|b| - 1]);
    var d, e := w.read(a[|a| - 1]).delta, w.read(b[|b| - 1]).delta;
    LineHashInjective(w, d.prevHash, w.bodyText(d), e.prevHash, w.bodyText(e));
    SameBody(w, d, e);
  }

  /** The head names the whole log: logs that verify to the same head are the same. */
  lemma {:induction false} HeadDeterminesLog(w: Wire, a: seq<string>, b: seq<string>)
    requires Faithful(w) && |a| > 0 && |b| > 0
    requires ChainHead(w, a).Some? && ChainHead(w, a) == ChainHead(w, b)
    ensures SameLog(w, a, b)
    decreases |a|
  {
    SeedPlain();
    if |a| == 1 && |b| == 1 {
      LineHashInjective(w, SEED, a[0], SEED, b[0]);
    } else if |a| == 1 {
      HeadersDiffer(w, a, b);
    } else if |b| == 1 {
      HeadersDiffer(w, b, a);
    } else {
      var fa, fb := a[..|a| - 1], b[..|b| - 1];
      LastLinkSame(w, a, b);
      HeadDeterminesLog(w, fa, fb);
      forall i | 1 <= i < |a|
        ensures w.read(a[i]) == w.read(b[i])
      {
        assert i < |fa| ==> fa[i] == a[i] && fb[i] == b[i];
      }
    }
  }

  /** No log shares its head with a log it starts with. */
  lemma NoPrefixSharesHead(w: Wire, lines: seq<string>, n: nat)
    requires Faithful(w) && 0 < n < |lines|
    requires ChainHead(w, lines).Some?
    ensures ChainHead(w, lines[..n]) != ChainHead(w, lines)
  {
    if ChainHead(w, lines[..n]) == ChainHead(w, lines) {
      HeadDeterminesLog(w, lines[..n], lines);
    }
  }

  // ---------------------------------------------------- verification on disk

  /** The check made before every mutation: the head of a finished, bound, unbroken log. */
  function VerifiedHead(w: Wire, base: Option<BaseId>, text: string): Option<string> {
    var lines := Lines(text);
    if !Terminated(text) || lines == [] then None
    else
      match w.read(lines[0])
      case HeaderLine(h) => if Bound(h, base) && h.version.Chained? then ChainHead(w, lines) else None
      case _ => None
  }

  method VerifyOnDisk(w: Wire, base: Option<BaseId>, text: string) returns (head: Option<string>)
    ensures head == VerifiedHead(w, base, text)
  {
    var lines := Lines(text);
    if !Terminated(text) || lines == [] {
      return None;
    }
    var header := w.read(lines[0]);
    if !header.HeaderLine? || !Bound(header.header, base) || !header.header.version.Chained? {
      return None;
    }
    head := VerifyLines(w, lines);
  }

  lemma {:induction false} ChainIsReplay(w: Wire, doc: Document, lines: seq<string>)
    requires |lines| > 0
    ensures ChainHead(w, lines).Some? <==>
            ReplayLines(w, true, LineHash(w, SEED, lines[0]), doc, lines[1..]).Intact?
    ensures ChainHead(w, lines).Some? ==>
            ReplayLines(w, true, LineHash(w, SEED, lines[0]), doc, lines[1..]).head == ChainHead(w, lines).value
    decreases |lines|
  {
    if |lines| > 1 {
      ChainIsReplay(w, doc, lines[..|lines| - 1]);
      assert lines[..|lines| - 1][1..] == lines[1..][..|lines| - 2];
    }
  }

  lemma ReplayedHeadPlain(w: Wire, doc: Document, base: Option<BaseId>, text: string)
    requires Faithful(w)
    requires ReplayOf(w, doc, base, text).Replayed? && ReplayOf(w, doc, base, text).id.version.Chained?
    ensures Plain(ReplayOf(w, doc, base, text).id.digest)
  {
    ChainIsReplay(w, doc, WholeLines(text));
    HeadIsHash(w, WholeLines(text));
  }

  /** Of a log that replays, the live check accepts exactly the finished ones, at the head replay reached. */
  lemma VerifiedIffFinished(w: Wire, doc: Document, base: Option<BaseId>, text: string)
    requires ReplayOf(w, doc, base, text).Replayed? && ReplayOf(w, doc, base, text).id.version.Chained?
    ensures VerifiedHead(w, base, text) == if Terminated(text) then Some(ReplayOf(w, doc, base, text).id.digest)
        else None
  {
    if Terminated(text) {
      ChainIsReplay(w, doc, WholeLines(text));
    }
  }

  lemma {:induction false} SameLogReplays(w: Wire, doc: Document, head: string, a: seq<string>, b: seq<string>)
    requires |a| == |b| && forall i :: 0 <= i < |a| ==> w.read(a[i]) == w.read(b[i])
    ensures ReplayLines(w, true, head, doc, a) == ReplayLines(w, true, head, doc, b)
    decreases |a|
  {
    if |a| > 0 {
      SameLogReplays(w, doc, head, a[..|a| - 1], b[..|b| - 1]);
    }
  }

  /** Whatever happened to the file, if the live check still finds the remembered head then
      replay still finds the remembered document. */
  lemma RememberedHeadFixesDocument(w: Wire, doc: Document, base: Option<BaseId>, before: string, after: string)
    requires Faithful(w)
    requires VerifiedHead(w, base, before).Some? && VerifiedHead(w, base, after) == VerifiedHead(w, base, before)
    ensures ReplayOf(w, doc, base, before).Replayed? <==> ReplayOf(w, doc, base, after).Replayed?
    ensures ReplayOf(w, doc, base, before).Replayed? ==>
              ReplayOf(w, doc, base, after).doc == ReplayOf(w, doc, base, before).doc
  {
    var a, b := Lines(before), Lines(after);
    HeadDeterminesLog(w, a, b);
    SameLogReplays(w, doc, LineHash(w, SEED, a[0]), a[1..], b[1..]);
  }

  // -------------------------------------------------------------- adoption

  datatype Adoption = NotAdopted | MalformedLog | AdoptedLegacy | Adopted(id: WalId)

  /** Seeding the identity from a log that is already there.  It looks at every line,
      also at an unfinished last one. */
  function Adopt(w: Wire, base: Option<BaseId>, text: string): Adoption {
    var lines := Lines(text);
    if lines == [] then NotAdopted
    else
      match w.read(lines[0])
      case HeaderLine(h) =>
        if !HeaderShape(h) then MalformedLog
        else if !Bound(h, base) then NotAdopted
        else if h.version.Legacy? then AdoptedLegacy
        else if |lines| == 1 || ChainHead(w, lines).None? then NotAdopted
        else Adopted(WalId(|text|, ChainHead(w, lines).value, Chained, DigestBound(h)))
      case _ => MalformedLog
  }

  /** An adopted identity is the one replay would have found exactly when the last line is finished. */
  lemma AdoptAgreesIffFinished(w: Wire, doc: Document, base: Option<BaseId>, text: string)
    requires Faithful(w) && Adopt(w, base, text).Adopted?
    requires ReplayOf(w, doc, base, text).Replayed?
    ensures ReplayOf(w, doc, base, text).id == Adopt(w, base, text).id <==> Terminated(text)
  {
    var lines := Lines(text);
    ChainIsReplay(w, doc, WholeLines(text));
    if !Terminated(text) {
      NoPrefixSharesHead(w, lines, |lines| - 1);
    }
  }

  /** Of a finished chained log that replays, the one that is adopted is the one with a delta in it. */
  lemma AdoptedExact(w: Wire, doc: Document, base: Option<BaseId>, text: string)
    requires ReplayOf(w, doc, base, text).Replayed? && ReplayOf(w, doc, base, text).id.version.Chained?
    requires Terminated(text)
    ensures Adopt(w, base, text) ==
            if |WholeLines(text)| > 1 then Adopted(ReplayOf(w, doc, base, text).id) else NotAdopted
  {
    ChainIsReplay(w, doc, WholeLines(text));
  }

  // ------------------------------------------------------ migration verdict

  datatype Verdict = Current | Stale | Malformed

  predicate UsableDelta(w: Wire, line: string) {
    w.read(line).DeltaLine? && DeltaShape(w.read(line).delta)
  }

  /** What the migration concludes about a log without replaying it. */
  method BindingForBase(w: Wire, base: Option<BaseId>, text: string) returns (verdict: Verdict)
    ensures verdict == VerdictOf(w, base, text)
  {
    var lines := Lines(text);
    if lines == [] {
      return Malformed;
    }
    var header := w.read(lines[0]);
    if !header.HeaderLine? || !HeaderShape(header.header) {
      return Malformed;
    }
    if !Bound(header.header, base) {
      return Stale;
    }
    var sawDelta := false;
    var n := 1;
    while n < |lines| && !(n == |lines| - 1 && !Terminated(text))
      invariant 1 <= n <= |lines|
      invariant n == |lines| && n > 1 ==> Terminated(text)
      invariant forall i :: 1 <= i < n ==> UsableDelta(w, lines[i])
      invariant sawDelta == (n > 1)
    {
      if !UsableDelta(w, lines[n]) {
        assert n < |WholeLines(text)| && WholeLines(text)[n] == lines[n];
        return Malformed;
      }
      sawDelta := true;
      n := n + 1;
    }
    return if sawDelta then Current else Stale;
  }

  function VerdictOf(w: Wire, base: Option<BaseId>, text: string): Verdict {
    var lines := Lines(text);
    if lines == [] || !w.read(lines[0]).HeaderLine? || !HeaderShape(w.read(lines[0]).header) then Malformed
    else if !Bound(w.read(lines[0]).header, base) || |WholeLines(text)| <= 1 then Stale
    else if forall i :: 1 <= i < |WholeLines(text)| ==> UsableDelta(w, WholeLines(text)[i]) then Current
    else Malformed
  }

  lemma {:induction false} IntactLinesUsable(w: Wire, chained: bool, head: string, doc: Document, lines: seq<string>)
    ensures ReplayLines(w, chained, head, doc, lines).Intact? ==> forall i :: 0 <= i < |lines| ==>
              UsableDelta(w, lines[i])
    decreases |lines|
  {
    if lines != [] {
      IntactLinesUsable(w, chained, head, doc, lines[..|lines| - 1]);
    }
  }

  /** The verdict against replay: stale means replay changes nothing, current means replay
      applies at least one delta or refuses, malformed means replay refuses unless the
      file holds no finished line at all. */
  lemma VerdictAgreesWithReplay(w: Wire, doc: Document, base: Option<BaseId>, text: string)
    requires Relational(doc)
    ensures var replay := ReplayOf(w, doc, base, text);
            match VerdictOf(w, base, text)
            case Stale => replay.Ignored? || (replay.Replayed? && replay.doc == doc)
            case Current =>
              |WholeLines(text)| > 1 &&
              var h := w.read(WholeLines(text)[0]).header;
              var progress := ReplayLines(w, h.version.Chained?, FirstHead(w, h, WholeLines(text)[0]), doc,
                WholeLines(text)[1..]);
              if progress.Intact? && Relational(progress.doc) then replay.Replayed? else replay.Unusable?
            case Malformed => replay.Unusable? || (WholeLines(text) == [] && replay.Ignored?)
    ensures ReplayOf(w, doc, base, text).Replayed? && |WholeLines(text)| > 1 ==> VerdictOf(w, base, text).Current?
  {
    var lines := WholeLines(text);
    if lines != [] {
      assert lines[0] == Lines(text)[0];
      if w.read(lines[0]).HeaderLine? {
        var h := w.read(lines[0]).header;
        IntactLinesUsable(w, h.version.Chained?, FirstHead(w, h, lines[0]), doc, lines[1..]);
        assert forall i :: 1 <= i < |lines| ==> lines[i] == lines[1..][i - 1];
      }
    }
  }
}
