/** The storage key of a principal and a chat: the JSON text of the pair. */
module ScopeKey {
  import opened AuthorityTypes

  function HexDigit(n: nat): char
    requires n < 16
  {
    "0123456789abcdef"[n]
  }

  /** A character as it stands inside a JSON string. */
  function Escaped(c: char): string {
    if c == '"' then "\\\""
    else if c == '\\' then "\\\\"
    else if c == '\n' then "\\n"
    else if c == '\r' then "\\r"
    else if c == '\t' then "\\t"
    else if c as int == 8 then "\\b"
    else if c as int == 12 then "\\f"
    else if c as int < 32 then "\\u00" + [HexDigit(c as int / 16), HexDigit(c as int % 16)]
    else [c]
  }

  function Quoted(s: string): string {
    if s == "" then "" else Escaped(s[0]) + Quoted(s[1..])
  }

  /** The first character of JSON string text, and how many characters stand for it;
      nothing at the closing quote. */
  function Unescape(t: string): Option<(char, nat)>
    requires t != ""
  {
    if t[0] == '"' then None
    else if t[0] != '\\' then Some((t[0], 1))
    else if |t| < 2 then None
    else if t[1] == '"' || t[1] == '\\' then Some((t[1], 2))
    else if t[1] == 'n' then Some(('\n', 2))
    else if t[1] == 'r' then Some(('\r', 2))
    else if t[1] == 't' then Some(('\t', 2))
    else if t[1] == 'b' then Some((8 as char, 2))
    else if t[1] == 'f' then Some((12 as char, 2))
    else if |t| < 6 then None
    else Some(((HexValue(t[4]) * 16 + HexValue(t[5])) as char, 6))
  }

  function HexValue(c: char): (n: nat)
    ensures n < 16
  {
    if '0' <= c <= '9' then (c as int - '0' as int)
    else if 'a' <= c <= 'f' then 10 + (c as int - 'a' as int)
    else 0
  }

  lemma HexBack(n: nat)
    requires n < 16
    ensures HexValue(HexDigit(n)) == n
  {
    if n < 10 {
      assert HexDigit(n) == ('0' as int + n) as char;
    } else {
      assert HexDigit(n) == ('a' as int + n - 10) as char;
    }
  }

  lemma UnescapeEscaped(c: char, rest: string)
    ensures Unescape(Escaped(c) + rest) == Some((c, |Escaped(c)|))
  {
    if c as int < 32 && |Escaped(c)| == 6 {
      HexBack(c as int / 16);
      HexBack(c as int % 16);
      var t := Escaped(c) + rest;
      assert t[0] == '\\' && t[1] == 'u' && t[4] == HexDigit(c as int / 16) && t[5] == HexDigit(c as int % 16);
    }
  }

  /** Quoted text up to a closing quote can be read in one way only. */
  lemma {:induction false} QuotedInjective(a: string, b: string, x: string, y: string)
    requires Quoted(a) + "\"" + x == Quoted(b) + "\"" + y
    ensures a == b && x == y
    decreases |a|
  {
    var s, t := Quoted(a) + "\"" + x, Quoted(b) + "\"" + y;
    if a == "" && b == "" {
      assert s[1..] == x && t[1..] == y;
    } else if a == "" {
      assert Unescape(s).None?;
      Split(b, y);
      UnescapeEscaped(b[0], Quoted(b[1..]) + "\"" + y);
    } else if b == "" {
      assert Unescape(t).None?;
      Split(a, x);
      UnescapeEscaped(a[0], Quoted(a[1..]) + "\"" + x);
    } else {
      Split(a, x);
      Split(b, y);
      UnescapeEscaped(a[0], Quoted(a[1..]) + "\"" + x);
      UnescapeEscaped(b[0], Quoted(b[1..]) + "\"" + y);
      var n := |Escaped(a[0])|;
      assert s[n..] == Quoted(a[1..]) + "\"" + x && t[n..] == Quoted(b[1..]) + "\"" + y;
      QuotedInjective(a[1..], b[1..], x, y);
    }
  }

  lemma Split(a: string, x: string)
    requires a != ""
    ensures Quoted(a) + "\"" + x == Escaped(a[0]) + (Quoted(a[1..]) + "\"" + x)
  {
  }

  /** No key for an empty principal. */
  function CanonicalKey(principalId: string, chatId: string): Option<string> {
    if principalId == "" then None
    else Some("[\"" + (Quoted(principalId) + "\"" + (",\"" + (Quoted(chatId) + "\"" + "]"))))
  }

  /** Two scopes share a key only if they are the same scope. */
  lemma CanonicalKeyInjective(p: string, c: string, q: string, d: string)
    requires CanonicalKey(p, c).Some? && CanonicalKey(p, c) == CanonicalKey(q, d)
    ensures p == q && c == d
  {
    var x, y := ",\"" + (Quoted(c) + "\"" + "]"), ",\"" + (Quoted(d) + "\"" + "]");
    var s, t := Quoted(p) + "\"" + x, Quoted(q) + "\"" + y;
    assert CanonicalKey(p, c).value[2..] == s && CanonicalKey(q, d).value[2..] == t;
    QuotedInjective(p, q, x, y);
    assert x[2..] == Quoted(c) + "\"" + "]" && y[2..] == Quoted(d) + "\"" + "]";
    QuotedInjective(c, d, "]", "]");
  }
}
