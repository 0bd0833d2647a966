/** The lines of a log file, as splitting its text at every newline gives them. */
module LogText {

  predicate NewlineFree(s: string) {
    forall i :: 0 <= i < |s| ==> s[i] != '\n'
  }

  /** The pieces between newlines; one more piece than there are newlines. */
  function Parts(s: string): (parts: seq<string>)
    ensures |parts| > 0
    decreases |s|
  {
    if s == "" then [""]
    else
      var parts := Parts(s[..|s| - 1]);
      var c := s[|s| - 1];
      if c == '\n' then parts + [""] else parts[|parts| - 1 := parts[|parts| - 1] + [c]]
  }

  function NonEmpty(parts: seq<string>): seq<string>
    decreases |parts|
  {
    if parts == [] then []
    else NonEmpty(parts[..|parts| - 1]) + if parts[|parts| - 1] == "" then [] else [parts[|parts| - 1]]
  }

  function Lines(s: string): seq<string> {
    NonEmpty(Parts(s))
  }

  /** The last line, if there is one, is finished by a newline. */
  predicate Terminated(s: string) {
    var parts := Parts(s);
    parts[|parts| - 1] == ""
  }

  /** The lines that count: an unterminated last one is a torn write. */
  function WholeLines(s: string): seq<string> {
    var lines := Lines(s);
    if !Terminated(s) && |lines| > 0 then lines[..|lines| - 1] else lines
  }

  lemma {:induction false} PartsThenText(s: string, t: string)
    requires NewlineFree(t)
    ensures Parts(s + t) == Parts(s)[|Parts(s)| - 1 := Parts(s)[|Parts(s)| - 1] + t]
    decreases |t|
  {
    var whole := Parts(s);
    if t == "" {
      assert s + t == s && whole[|whole| - 1] + t == whole[|whole| - 1];
    } else {
      var front, c := t[..|t| - 1], t[|t| - 1];
      PartsThenText(s, front);
      assert (s + t)[..|s + t| - 1] == s + front;
      var parts := Parts(s);
      var last := parts[|parts| - 1];
      assert (last + front) + [c] == last + t by {
        assert front + [c] == t;
      }
    }
  }

  lemma NonEmptyReplaceLast(parts: seq<string>, t: string)
    requires |parts| > 0 && parts[|parts| - 1] == ""
    ensures NonEmpty(parts[|parts| - 1 := t]) == NonEmpty(parts) + if t == "" then [] else [t]
  {
    assert parts[|parts| - 1 := t][..|parts| - 1] == parts[..|parts| - 1];
  }

  /** Text without a newline behind a finished log is a torn tail: no committed line changes. */
  lemma TornTail(s: string, t: string)
    requires Terminated(s) && NewlineFree(t)
    ensures WholeLines(s + t) == WholeLines(s)
    ensures Terminated(s + t) <==> t == ""
    ensures Lines(s + t) == Lines(s) + if t == "" then [] else [t]
  {
    PartsThenText(s, t);
    assert [] + t == t;
    NonEmptyReplaceLast(Parts(s), t);
  }

  /** A finished line behind a finished log is one more committed line. */
  lemma FinishedLine(s: string, t: string)
    requires Terminated(s) && NewlineFree(t) && t != ""
    ensures Terminated(s + t + "\n")
    ensures WholeLines(s + t + "\n") == WholeLines(s) + [t]
  {
    TornTail(s, t);
    var all := s + t + "\n";
    assert all[..|all| - 1] == s + t;
    var parts := Parts(s + t);
    assert (parts + [""])[..|parts|] == parts;
  }

  lemma LineWritten(s: string, t: string)
    requires Terminated(s) && NewlineFree(t) && t != ""
    ensures Terminated(s + (t + "\n"))
    ensures WholeLines(s + (t + "\n")) == WholeLines(s) + [t]
  {
    assert s + (t + "\n") == s + t + "\n";
    FinishedLine(s, t);
  }

  /** Every prefix of a line write leaves the log as it was, torn, or with the whole line. */
  lemma LinePrefix(s: string, t: string, k: nat)
    requires Terminated(s) && NewlineFree(t) && t != "" && k <= |t| + 1
    ensures k <= |t| ==> WholeLines(s + (t + "\n")[..k]) == WholeLines(s)
    ensures k == |t| + 1 ==> WholeLines(s + (t + "\n")[..k]) == WholeLines(s) + [t]
    ensures Terminated(s + (t + "\n")[..k]) <==> k == 0 || k == |t| + 1
  {
    var line := t + "\n";
    if k == |t| + 1 {
      assert line[..k] == line;
      assert s + line == s + t + "\n";
      FinishedLine(s, t);
    } else {
      assert line[..k] == t[..k];
      TornTail(s, t[..k]);
    }
  }

  /** Whatever is written behind a finished first line, it stays the first line. */
  lemma FirstLineStays(top: string, appended: string)
    requires top != "" && NewlineFree(top)
    ensures var text := top + "\n" + appended;
            WholeLines(text) != [] && Lines(text) != [] && WholeLines(text)[0] == top && Lines(text)[0] == top
  {
    FirstPartStays(top, appended);
    var parts := Parts(top + "\n" + appended);
    FirstNonEmpty(parts);
  }

  lemma {:induction false} FirstPartStays(top: string, appended: string)
    requires top != "" && NewlineFree(top)
    ensures |Parts(top + "\n" + appended)| > 1 && Parts(top + "\n" + appended)[0] == top
    decreases |appended|
  {
    var text := top + "\n" + appended;
    if appended == "" {
      assert text[..|text| - 1] == top && "" + top == top;
      PartsThenText("", top);
    } else {
      assert text[..|text| - 1] == top + "\n" + appended[..|appended| - 1];
      FirstPartStays(top, appended[..|appended| - 1]);
    }
  }

  lemma {:induction false} FirstNonEmpty(parts: seq<string>)
    requires parts != [] && parts[0] != ""
    ensures NonEmpty(parts) != [] && NonEmpty(parts)[0] == parts[0]
    ensures |parts| > 1 && parts[|parts| - 1] != "" ==> |NonEmpty(parts)| > 1
    decreases |parts|
  {
    if |parts| > 1 {
      FirstNonEmpty(parts[..|parts| - 1]);
    }
  }
}
