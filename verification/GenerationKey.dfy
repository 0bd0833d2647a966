/** Finding the top-level generation key in the text of a base document, and
    reading it back in place later. */
module GenerationKey {
  import opened AuthorityTypes

  /** Where a scan stands: container depth, and inside a string or behind an escape in it. */
  datatype Scan = Scan(depth: nat, inString: bool, escaped: bool)

  const START := Scan(0, false, false)

  function Advance(s: Scan, c: char): Scan {
    if s.inString then
      if s.escaped then s.(escaped := false)
      else if c == '\\' then s.(escaped := true)
      else if c == '"' then s.(inString := false)
      else s
    else if c == '"' then s.(inString := true)
    else if c == '{' || c == '[' then s.(depth := s.depth + 1)
    else if (c == '}' || c == ']') && s.depth > 0 then s.(depth := s.depth - 1)
    else s
  }

  /** The scan in front of position `i`. */
  function ScanAt(raw: string, i: nat): (s: Scan)
    requires i <= |raw|
    ensures s.escaped ==> s.inString
  {
    if i == 0 then START else Advance(ScanAt(raw, i - 1), raw[i - 1])
  }

  const KEY := "\"generation\""

  predicate Space(c: char) {
    c in " \t\n\r"
  }

  /** The text from `i` on spells the key, in front of `end`. */
  predicate KeyHere(s: string, i: nat, end: nat)
    requires end <= |s|
  {
    i + |KEY| <= end && s[i..i + |KEY|] == KEY
  }

  /** The first position from `i` on that is not a space, or `end`. */
  function SkipSpace(s: string, i: nat, end: nat): (j: nat)
    requires i <= end <= |s|
    ensures i <= j <= end
    decreases end - i
  {
    if i == end || !Space(s[i]) then i else SkipSpace(s, i + 1, end)
  }

  /** The first quote from `i` on, in front of `end`. */
  function QuoteFrom(s: string, i: nat, end: nat): (q: Option<nat>)
    requires i <= end <= |s|
    ensures q.Some? ==> i <= q.value < end && s[q.value] == '"' && forall k :: i <= k < q.value ==> s[k] != '"'
    decreases end - i
  {
    if i == end then None
    else if s[i] == '"' then Some(i)
    else QuoteFrom(s, i + 1, end)
  }

  /** A colon and a quoted value from `i` on, spaces allowed around the colon: where the value
      starts, and the quote that ends it. */
  function ValueFrom(s: string, i: nat, end: nat): (v: Option<(nat, nat)>)
    requires i <= end <= |s|
    ensures v.Some? ==> i < v.value.0 <= v.value.1 < end
  {
    var a := SkipSpace(s, i, end);
    if a == end || s[a] != ':' then None
    else
      var b := SkipSpace(s, a + 1, end);
      if b == end || s[b] != '"' then None
      else
        var q := QuoteFrom(s, b + 1, end);
        if q.None? then None else Some((b + 1, q.value))
  }

  function ValueBehindKey(s: string, i: nat, end: nat): Option<(nat, nat)>
    requires end <= |s|
  {
    if KeyHere(s, i, end) then ValueFrom(s, i + |KEY|, end) else None
  }

  /** A top-level generation key with this value: outside strings, directly inside the document. */
  predicate KeyAt(raw: string, i: nat, generation: string) {
    && i < |raw|
    && ScanAt(raw, i) == Scan(1, false, false)
    && ValueBehindKey(raw, i, |raw|).Some?
    && raw[ValueBehindKey(raw, i, |raw|).value.0..ValueBehindKey(raw, i, |raw|).value.1] == generation
  }

  /** The length of the key's whole spelling, closing quote included. */
  function SpanAt(raw: string, i: nat): nat
    requires ValueBehindKey(raw, i, |raw|).Some?
  {
    ValueBehindKey(raw, i, |raw|).value.1 + 1 - i
  }

  /** The test the scan makes at one position: the matched span, if the key is there. */
  function TestAt(scan: Scan, raw: string, i: nat, generation: string): Option<nat>
    requires i < |raw|
  {
    if scan.inString || raw[i] != '"' || scan.depth != 1 then None
    else
      var matched := ValueBehindKey(raw, i, |raw|);
      if matched.Some? && raw[matched.value.0..matched.value.1] == generation then Some(matched.value.1 + 1 - i)
        else None
  }

  lemma TestIsKeyAt(raw: string, i: nat, generation: string)
    requires i < |raw|
    ensures TestAt(ScanAt(raw, i), raw, i, generation) ==
            if KeyAt(raw, i, generation) then Some(SpanAt(raw, i)) else None
  {
    if KeyHere(raw, i, |raw|) {
      assert raw[i..i + |KEY|][0] == raw[i];
    }
  }

  /** The first top-level key with the value, and the length of its whole spelling.  A key of the same
      name inside a nested value, or inside a string, is never taken for it. */
  method FindGenerationOffset(raw: string, generation: string) returns (found: Option<(nat, nat)>)
    ensures found.Some? ==>
              && KeyAt(raw, found.value.0, generation) && found.value.1 == SpanAt(raw, found.value.0)
              && forall i :: 0 <= i < found.value.0 ==> !KeyAt(raw, i, generation)
    ensures found.None? ==> forall i :: 0 <= i < |raw| ==> !KeyAt(raw, i, generation)
  {
    var scan := START;
    for index := 0 to |raw|
      invariant scan == ScanAt(raw, index)
      invariant forall i :: 0 <= i < index ==> !KeyAt(raw, i, generation)
    {
      TestIsKeyAt(raw, index, generation);
      var span := TestAt(scan, raw, index, generation);
      if span.Some? {
        return Some((index, span.value));
      }
      scan := Advance(scan, raw[index]);
    }
    return None;
  }

  /** Reading the remembered window of a document that may have been replaced since. */
  function ReadAt(raw: string, offset: nat, span: nat): Option<string> {
    var end := if offset + span <= |raw| then offset + span else |raw|;
    var matched := ValueBehindKey(raw, offset, end);
    if matched.None? then None else Some(raw[matched.value.0..matched.value.1])
  }

  lemma {:induction false} SkipSpaceWithin(s: string, i: nat, end: nat, limit: nat)
    requires i <= limit <= end <= |s| && SkipSpace(s, i, end) < limit
    ensures SkipSpace(s, i, limit) == SkipSpace(s, i, end)
    decreases end - i
  {
    if Space(s[i]) {
      SkipSpaceWithin(s, i + 1, end, limit);
    }
  }

  lemma {:induction false} QuoteWithin(s: string, i: nat, end: nat, limit: nat)
    requires i <= limit <= end <= |s| && QuoteFrom(s, i, end).Some? && QuoteFrom(s, i, end).value < limit
    ensures QuoteFrom(s, i, limit) == QuoteFrom(s, i, end)
    decreases end - i
  {
    if s[i] != '"' {
      QuoteWithin(s, i + 1, end, limit);
    }
  }

  /** A match needs no more text than up to its closing quote. */
  lemma ValueWithin(s: string, i: nat, end: nat, limit: nat)
    requires i <= limit <= end <= |s| && ValueFrom(s, i, end).Some? && ValueFrom(s, i, end).value.1 < limit
    ensures ValueFrom(s, i, limit) == ValueFrom(s, i, end)
  {
    var a := SkipSpace(s, i, end);
    var b := SkipSpace(s, a + 1, end);
    SkipSpaceWithin(s, i, end, limit);
    SkipSpaceWithin(s, a + 1, end, limit);
    QuoteWithin(s, b + 1, end, limit);
  }

  /** What was found can be read back in place: the remembered window holds exactly the value. */
  lemma FoundIsReadBack(raw: string, i: nat, generation: string)
    requires KeyAt(raw, i, generation)
    ensures ReadAt(raw, i, SpanAt(raw, i)) == Some(generation)
  {
    ValueWithin(raw, i + |KEY|, |raw|, i + SpanAt(raw, i));
  }

  lemma {:induction false} SkipSpaceSame(s: string, t: string, i: nat, end: nat)
    requires i <= end <= |s| && end <= |t| && forall k :: i <= k < end ==> s[k] == t[k]
    ensures SkipSpace(s, i, end) == SkipSpace(t, i, end)
    decreases end - i
  {
    if i < end {
      SkipSpaceSame(s, t, i + 1, end);
    }
  }

  lemma {:induction false} QuoteSame(s: string, t: string, i: nat, end: nat)
    requires i <= end <= |s| && end <= |t| && forall k :: i <= k < end ==> s[k] == t[k]
    ensures QuoteFrom(s, i, end) == QuoteFrom(t, i, end)
    decreases end - i
  {
    if i < end {
      QuoteSame(s, t, i + 1, end);
    }
  }

  /** The window decides alone: documents with the same text there read the same, whatever else differs. */
  lemma WindowDecides(s: string, t: string, offset: nat, span: nat)
    requires offset + span <= |s| && offset + span <= |t|
    requires forall k :: offset <= k < offset + span ==> s[k] == t[k]
    ensures ReadAt(s, offset, span) == ReadAt(t, offset, span)
  {
    var end := offset + span;
    if offset + |KEY| <= end {
      assert s[offset..offset + |KEY|] == t[offset..offset + |KEY|];
      ValueSame(s, t, offset + |KEY|, end);
    }
  }

  lemma ValueSame(s: string, t: string, i: nat, end: nat)
    requires i <= end <= |s| && end <= |t| && forall k :: i <= k < end ==> s[k] == t[k]
    ensures ValueFrom(s, i, end) == ValueFrom(t, i, end)
    ensures ValueFrom(s, i, end).Some? ==>
              s[ValueFrom(s, i, end).value.0..ValueFrom(s, i, end).value.1] ==
                t[ValueFrom(s, i, end).value.0..ValueFrom(s, i, end).value.1]
  {
    SkipSpaceSame(s, t, i, end);
    var a := SkipSpace(s, i, end);
    if a < end && s[a] == ':' {
      SkipSpaceSame(s, t, a + 1, end);
      var b := SkipSpace(s, a + 1, end);
      if b < end && s[b] == '"' {
        QuoteSame(s, t, b + 1, end);
      }
    }
  }
}
