/** The recovery snapshot as it is written and read back: every deployment file is in it exactly once,
    with its content and mode. */
module SnapshotCoverage {
  import opened AuthorityTypes
  import opened Base64
  import Bootstrap

  /** JSON values as the parser tells them apart; a number that is no safe integer is another value. */
  datatype Json =
    | Text(text: string) | Number(number: int) | Truth(truth: bool)
    | List(items: seq<Json>) | Object(fields: map<string, Json>) | OtherJson

  /** One deployment file: missing, or with its content and mode. */
  datatype Snapshot = Absent(path: string) | File(path: string, content: seq<Byte>, mode: int)

  datatype Recovery = Recovery(transactionId: string, complete: bool, snapshots: seq<Snapshot>)

  /** A captured file the snapshot may hold; `accepts` is the caller's check of a captured content. */
  predicate Regular(s: Snapshot, accepts: (string, seq<Byte>) -> bool) {
    s.File? ==> (s.mode == 0x100 || s.mode == 0x180) && accepts(s.path, s.content)
  }

  function WrittenEntry(s: Snapshot): map<string, Json> {
    match s
    case Absent(path) => map["path" := Text(path)]
    case File(path, content, mode) =>
      map["path" := Text(path), "content" := Text(Encode(content)), "mode" := Number(mode)]
  }

  function WrittenEntries(ss: seq<Snapshot>): seq<Json> {
    seq(|ss|, i requires 0 <= i < |ss| => Object(WrittenEntry(ss[i])))
  }

  /** An older snapshot carries no status, which stands for one that is not complete. */
  function Unmarked(r: Recovery): map<string, Json> {
    map["version" := Number(1), "transactionId" := Text(r.transactionId),
        "snapshots" := List(WrittenEntries(r.snapshots))]
  }

  function Status(complete: bool): Json {
    Text(if complete then "complete" else "prepared")
  }

  function Written(r: Recovery): map<string, Json> {
    Unmarked(r)["status" := Status(r.complete)]
  }

  predicate Distinct(paths: seq<string>) {
    forall i, j :: 0 <= i < j < |paths| ==> paths[i] != paths[j]
  }

  function Paths(ss: seq<Snapshot>): (paths: seq<string>)
    ensures |paths| == |ss| && forall i :: 0 <= i < |ss| ==> paths[i] == ss[i].path
  {
    seq(|ss|, i requires 0 <= i < |ss| => ss[i].path)
  }

  /** Each expected file once, nothing else, in any order. */
  ghost predicate Covers(ss: seq<Snapshot>, expected: seq<string>, accepts: (string, seq<Byte>) -> bool) {
    && Distinct(Paths(ss)) && |ss| == |expected|
    && (forall p :: p in Paths(ss) <==> p in expected)
    && (forall s :: s in ss ==> Regular(s, accepts))
  }

  // ------------------------------------------------------------- one entry

  /** Two files that are written alike are alike. */
  lemma WrittenOnce(a: Snapshot, b: Snapshot)
    requires WrittenEntry(a) == WrittenEntry(b)
    ensures a == b
  {
    assert WrittenEntry(a)["path"] == WrittenEntry(b)["path"];
    assert a.File? <==> "mode" in WrittenEntry(a);
    assert b.File? <==> "mode" in WrittenEntry(b);
    if a.File? && b.File? {
      assert WrittenEntry(a)["content"] == WrittenEntry(b)["content"];
      assert WrittenEntry(a)["mode"] == WrittenEntry(b)["mode"];
      EncodedBack(a.content);
      EncodedBack(b.content);
    }
  }

  /** What is written of a file, by the fields it has. */
  lemma WrittenMeans(fields: map<string, Json>, s: Snapshot)
    ensures fields == WrittenEntry(s) <==>
            && "path" in fields && fields["path"] == Text(s.path)
            && match s
               case Absent(_) => fields.Keys == {"path"}
               case File(_, content, mode) =>
                 && fields.Keys == {"content", "mode", "path"}
                 && fields["content"] == Text(Encode(content)) && fields["mode"] == Number(mode)
  {
    assert WrittenEntry(s).Keys == if s.Absent? then {"path"} else {"content", "mode", "path"};
  }

  /** The checks of one entry's own fields, behind those of its path: a directory or a link is refused
      whatever else it carries.  What passes is what is written of exactly one file. */
  method ReadEntry(path: string, fields: map<string, Json>, accepts: (string, seq<Byte>) -> bool)
    returns (r: Option<Snapshot>)
    requires "path" in fields && fields["path"] == Text(path)
    ensures r.Some? ==> WrittenEntry(r.value) == fields && r.value.path == path && Regular(r.value, accepts)
    ensures forall s :: WrittenEntry(s) == fields && Regular(s, accepts) ==> r == Some(s)
  {
    forall s | WrittenEntry(s) == fields && Regular(s, accepts)
      ensures IsRead(s, path, fields) && Regular(s, accepts)
    {
      WrittenMeans(fields, s);
      if s.File? {
        EncodedBack(s.content);
      }
    }
    var hasContent, hasDirectory, hasSymlink := "content" in fields, "directory" in fields, "symlink" in fields;
    var allowed :=
      if hasContent then {"content", "mode", "path"}
      else if hasDirectory then {"directory", "mode", "path"}
      else if hasSymlink then {"mode", "path", "symlink"}
      else {"path"};
    if fields.Keys != allowed || hasDirectory || hasSymlink {
      return None;
    }
    if !hasContent {
      WrittenMeans(fields, Absent(path));
      return Some(Absent(path));
    }
    var mode, content := fields["mode"], fields["content"];
    if !mode.Number? || mode.number < 0 || mode.number > 0x1ff || (mode.number != 0x100 && mode.number != 0x180) {
      return None;
    }
    if !content.Text? || !Shaped(content.text) {
      return None;
    }
    var bytes := Decode(content.text);
    if Encode(bytes) != content.text || !accepts(path, bytes) {
      return None;
    }
    WrittenMeans(fields, File(path, bytes, mode.number));
    return Some(File(path, bytes, mode.number));
  }

  ghost predicate IsRead(s: Snapshot, path: string, fields: map<string, Json>) {
    && s.path == path
    && match s
       case Absent(_) => fields.Keys == {"path"}
       case File(_, content, mode) =>
         && fields.Keys == {"content", "mode", "path"} && fields["mode"] == Number(mode)
         && fields["content"] == Text(Encode(content)) && Shaped(Encode(content)) && Decode(Encode(content)) == content
  }

  // --------------------------------------------------------------- all entries

  ghost predicate IsReading(entries: seq<Json>, ss: seq<Snapshot>, expected: seq<string>,
                            accepts: (string, seq<Byte>) -> bool) {
    WrittenEntries(ss) == entries && Covers(ss, expected, accepts)
  }

  lemma SameSoFar(a: seq<Snapshot>, b: seq<Snapshot>)
    requires |a| <= |b| && WrittenEntries(a) == WrittenEntries(b)[..|a|]
    ensures a == b[..|a|]
  {
    forall i | 0 <= i < |a|
      ensures a[i] == b[i]
    {
      assert WrittenEntries(a)[i] == WrittenEntries(b)[i];
      WrittenOnce(a[i], b[i]);
    }
  }

  /** What the next entry of a snapshot must be, behind those read so far. */
  lemma NextEntry(entries: seq<Json>, ss: seq<Snapshot>, read: seq<Snapshot>, expected: seq<string>,
                  accepts: (string, seq<Byte>) -> bool)
    requires IsReading(entries, ss, expected, accepts)
    requires |read| < |entries| && WrittenEntries(read) == entries[..|read|]
    ensures |ss| == |entries| && entries[|read|] == Object(WrittenEntry(ss[|read|])) && Regular(ss[|read|], accepts)
    ensures ss[|read|].path in expected && ss[|read|].path !in Paths(read)
    ensures "path" in WrittenEntry(ss[|read|]) && WrittenEntry(ss[|read|])["path"] == Text(ss[|read|].path)
  {
    var n := |read|;
    assert |WrittenEntries(ss)| == |ss|;
    SameSoFar(read, ss);
    assert WrittenEntries(ss)[n] == Object(WrittenEntry(ss[n])) && ss[n] in ss && Paths(ss)[n] == ss[n].path;
    assert Paths(read) == Paths(ss)[..n];
  }

  /** The parser's loop, which counts the entries first and refuses a path it does not expect or has seen.
      It reads exactly what is written of files that cover the deployment. */
  method ReadEntries(entries: seq<Json>, expected: seq<string>, accepts: (string, seq<Byte>) -> bool)
    returns (r: Option<seq<Snapshot>>)
    ensures r.Some? ==> IsReading(entries, r.value, expected, accepts)
    ensures forall ss :: IsReading(entries, ss, expected, accepts) ==> r == Some(ss)
  {
    if |entries| != |expected| {
      assert forall ss :: |WrittenEntries(ss)| == |ss|;
      return None;
    }
    var read: seq<Snapshot>, seen: set<string> := [], {};
    while |read| < |entries|
      invariant |read| <= |entries| && WrittenEntries(read) == entries[..|read|]
      invariant seen == set p | p in Paths(read)
      invariant Distinct(Paths(read)) && forall s :: s in read ==> Regular(s, accepts) && s.path in expected
    {
      var entry := entries[|read|];
      forall ss: seq<Snapshot> | IsReading(entries, ss, expected, accepts)
        ensures |ss| > |read| && entry == Object(WrittenEntry(ss[|read|])) && Regular(ss[|read|], accepts)
        ensures ss[|read|].path in expected && ss[|read|].path !in seen
        ensures "path" in WrittenEntry(ss[|read|]) && WrittenEntry(ss[|read|])["path"] == Text(ss[|read|].path)
      {
        NextEntry(entries, ss, read, expected, accepts);
      }
      if !entry.Object? || "path" !in entry.fields || !entry.fields["path"].Text? {
        return None;
      }
      var path := entry.fields["path"].text;
      if path !in expected || path in seen {
        return None;
      }
      var next := ReadEntry(path, entry.fields, accepts);
      if next.None? {
        return None;
      }
      ReadOneMore(entries, read, next.value);
      read, seen := read + [next.value], seen + {path};
    }
    ReadAll(entries, read, expected, accepts);
    forall ss | IsReading(entries, ss, expected, accepts)
      ensures ss == read
    {
      assert |WrittenEntries(ss)| == |ss| == |read|;
      SameSoFar(read, ss);
    }
    return Some(read);
  }

  lemma ReadOneMore(entries: seq<Json>, read: seq<Snapshot>, s: Snapshot)
    requires |read| < |entries| && WrittenEntries(read) == entries[..|read|]
    requires entries[|read|] == Object(WrittenEntry(s)) && s.path !in Paths(read) && Distinct(Paths(read))
    ensures WrittenEntries(read + [s]) == entries[..|read| + 1]
    ensures Paths(read + [s]) == Paths(read) + [s.path] && Distinct(Paths(read + [s]))
  {
    assert WrittenEntries(read + [s]) == WrittenEntries(read) + [Object(WrittenEntry(s))];
  }

  lemma ReadAll(entries: seq<Json>, read: seq<Snapshot>, expected: seq<string>, accepts: (string, seq<Byte>) -> bool)
    requires WrittenEntries(read) == entries && |read| == |expected|
    requires Distinct(Paths(read)) && forall s :: s in read ==> Regular(s, accepts) && s.path in expected
    ensures IsReading(entries, read, expected, accepts)
  {
    var found, wanted := set p | p in Paths(read), set p | p in expected;
    DistinctCount(Paths(read));
    NoMoreThanListed(expected);
    forall p | p in Paths(read)
      ensures p in expected
    {
      var i :| 0 <= i < |read| && Paths(read)[i] == p;
      assert read[i] in read;
    }
    SubsetSize(found, wanted);
    SameSizeSubset(found, wanted);
    forall p
      ensures p in Paths(read) <==> p in expected
    {
      assert p in found <==> p in Paths(read);
      assert p in wanted <==> p in expected;
    }
  }

  /** Where two of the deployment's paths coincide no snapshot covers it, so what is captured then cannot be
      read back. */
  lemma CoveredOnce(ss: seq<Snapshot>, expected: seq<string>, accepts: (string, seq<Byte>) -> bool)
    ensures Covers(ss, expected, accepts) ==> Distinct(expected)
  {
    if Covers(ss, expected, accepts) {
      DistinctCount(Paths(ss));
      assert (set p | p in Paths(ss)) == (set p | p in expected);
      if !Distinct(expected) {
        RepeatedCount(expected);
      }
    }
  }

  lemma {:induction false} NoMoreThanListed(paths: seq<string>)
    ensures |set p | p in paths| <= |paths|
    decreases |paths|
  {
    if paths != [] {
      var front, last := paths[..|paths| - 1], paths[|paths| - 1];
      NoMoreThanListed(front);
      assert (set p | p in paths) == (set p | p in front) + {last};
    }
  }

  lemma RepeatedCount(paths: seq<string>)
    requires !Distinct(paths)
    ensures |set p | p in paths| < |paths|
  {
    var i, j :| 0 <= i < j < |paths| && paths[i] == paths[j];
    var rest := paths[..j] + paths[j + 1..];
    NoMoreThanListed(rest);
    forall p | p in paths
      ensures p in rest
    {
      var k :| 0 <= k < |paths| && paths[k] == p;
      assert k < j ==> rest[k] == p;
      assert k > j ==> rest[k - 1] == p;
      assert rest[i] == paths[j];
    }
    assert (set p | p in paths) == (set p | p in rest);
  }

  lemma {:induction false} DistinctCount(paths: seq<string>)
    requires Distinct(paths)
    ensures |set p | p in paths| == |paths|
    decreases |paths|
  {
    if paths != [] {
      var front, last := paths[..|paths| - 1], paths[|paths| - 1];
      DistinctCount(front);
      assert forall i :: 0 <= i < |front| ==> front[i] == paths[i];
      assert (set p | p in paths) == (set p | p in front) + {last};
    }
  }

  lemma SameSizeSubset(a: set<string>, b: set<string>)
    requires a <= b && |a| == |b|
    ensures a == b
  {
    if x :| x in b && x !in a {
      assert a <= b - {x};
      SubsetSize(a, b - {x});
    }
  }

  lemma {:induction false} SubsetSize(a: set<string>, b: set<string>)
    requires a <= b
    ensures |a| <= |b|
    decreases |a|
  {
    if x :| x in a {
      SubsetSize(a - {x}, b - {x});
    }
  }

  // ------------------------------------------------------------ the whole file

  /** The file holds this recovery, with its status or, if that is not complete, without one. */
  ghost predicate Carries(value: Json, r: Recovery) {
    value == Object(Written(r)) || (!r.complete && value == Object(Unmarked(r)))
  }

  ghost predicate Recoverable(r: Recovery, expected: seq<string>, accepts: (string, seq<Byte>) -> bool) {
    !Bootstrap.Blank(r.transactionId) && Covers(r.snapshots, expected, accepts)
  }

  lemma CarriedFields(value: Json, r: Recovery)
    requires value.Object?
    ensures Carries(value, r) <==>
            && Heads(value.fields, r.transactionId)
            && value.fields["snapshots"] == List(WrittenEntries(r.snapshots))
            && ("status" in value.fields ==> value.fields["status"] == Status(r.complete))
            && ("status" !in value.fields ==> !r.complete)
  {
    var f := value.fields;
    assert Unmarked(r).Keys == {"snapshots", "transactionId", "version"};
    assert Written(r).Keys == {"snapshots", "status", "transactionId", "version"};
    if Heads(f, r.transactionId) && f["snapshots"] == List(WrittenEntries(r.snapshots)) {
      assert f.Keys == Unmarked(r).Keys || f.Keys == Written(r).Keys;
      assert "status" !in f ==> f == Unmarked(r);
      assert "status" in f && f["status"] == Status(r.complete) ==> f == Written(r);
    }
  }

  predicate Heads(fields: map<string, Json>, transactionId: string) {
    && (fields.Keys == {"snapshots", "transactionId", "version"} ||
        fields.Keys == {"snapshots", "status", "transactionId", "version"})
    && fields["version"] == Number(1) && fields["transactionId"] == Text(transactionId)
  }

  /** Reading a recovery snapshot back gives exactly the recovery it carries, whatever else that might be
      refused: what was captured of acceptable files is read back as it was, and nothing else is read. */
  method ReadSnapshot(value: Json, expected: seq<string>, accepts: (string, seq<Byte>) -> bool)
    returns (r: Option<Recovery>)
    ensures r.Some? ==> Carries(value, r.value) && Recoverable(r.value, expected, accepts)
    ensures forall v :: Carries(value, v) && Recoverable(v, expected, accepts) ==> r == Some(v)
  {
    if !value.Object? {
      return None;
    }
    var f := value.fields;
    forall v: Recovery
      ensures Carries(value, v) <==>
              && Heads(f, v.transactionId) && f["snapshots"] == List(WrittenEntries(v.snapshots))
              && ("status" in f ==> f["status"] == Status(v.complete))
              && ("status" !in f ==> !v.complete)
    {
      CarriedFields(value, v);
    }
    if f.Keys != {"snapshots", "transactionId", "version"} &&
       f.Keys != {"snapshots", "status", "transactionId", "version"} {
      return None;
    }
    if f["version"] != Number(1) || !f["snapshots"].List? ||
       !f["transactionId"].Text? || Bootstrap.Blank(f["transactionId"].text) {
      return None;
    }
    if "status" in f && f["status"] != Text("prepared") && f["status"] != Text("complete") {
      return None;
    }
    forall v: Recovery
      ensures Carries(value, v) && Recoverable(v, expected, accepts) ==>
                IsReading(f["snapshots"].items, v.snapshots, expected, accepts)
    {
    }
    var ss := ReadEntries(f["snapshots"].items, expected, accepts);
    if ss.None? {
      return None;
    }
    var complete := "status" in f && f["status"] == Text("complete");
    return Some(Recovery(f["transactionId"].text, complete, ss.value));
  }

  /** Marking a snapshot complete, for the transaction that wrote it: the same recovery, complete. */
  method MarkComplete(value: Json, transactionId: string, expected: seq<string>, accepts: (string, seq<Byte>) -> bool)
    returns (marked: Option<Json>)
    ensures forall v :: Carries(value, v) && Recoverable(v, expected, accepts) ==>
              if v.transactionId == transactionId then marked.Some? && Carries(marked.value, v.(complete := true))
              else marked.None?
    ensures marked.Some? ==> exists v :: Carries(value, v) && Recoverable(v, expected, accepts)
  {
    var current := ReadSnapshot(value, expected, accepts);
    if current.None? || current.value.transactionId != transactionId {
      return None;
    }
    if current.value.complete {
      return Some(value);
    }
    marked := Some(Object(value.fields["status" := Status(true)]));
    assert value.fields["status" := Status(true)] == Written(current.value.(complete := true));
  }
}
