/** Base64 text as snapshots carry file contents. */
module Base64 {
  import opened AuthorityTypes

  type Byte = n: nat | n < 256

  function Digit(n: nat): char
    requires n < 64
  {
    if n < 26 then 'A' + n as char
    else if n < 52 then 'a' + (n - 26) as char
    else if n < 62 then '0' + (n - 52) as char
    else if n == 62 then '+' else '/'
  }

  function DigitValue(c: char): Option<nat> {
    if 'A' <= c <= 'Z' then Some(c as int - 'A' as int)
    else if 'a' <= c <= 'z' then Some(c as int - 'a' as int + 26)
    else if '0' <= c <= '9' then Some(c as int - '0' as int + 52)
    else if c == '+' then Some(62) else if c == '/' then Some(63) else None
  }

  lemma DigitBack(n: nat)
    requires n < 64
    ensures DigitValue(Digit(n)) == Some(n) && Digit(n) != '='
  {
  }

  /** Three bytes make four digits; one or two left over are padded. */
  function Encode(bytes: seq<Byte>): string {
    if |bytes| == 0 then ""
    else if |bytes| == 1 then [Digit(bytes[0] / 4), Digit(bytes[0] % 4 * 16), '=', '=']
    else if |bytes| == 2 then
      [Digit(bytes[0] / 4), Digit(bytes[0] % 4 * 16 + bytes[1] / 16), Digit(bytes[1] % 16 * 4), '=']
    else
      [Digit(bytes[0] / 4), Digit(bytes[0] % 4 * 16 + bytes[1] / 16),
       Digit(bytes[1] % 16 * 4 + bytes[2] / 64), Digit(bytes[2] % 64)] + Encode(bytes[3..])
  }

  /** Whole groups of four digits, the last one perhaps padded. */
  predicate Shaped(s: string) {
    s == "" ||
    (|s| >= 4 && DigitValue(s[0]).Some? && DigitValue(s[1]).Some? &&
     (if s[2..] == "==" then true
      else DigitValue(s[2]).Some? && (s[3..] == "=" || (DigitValue(s[3]).Some? && Shaped(s[4..])))))
  }

  /** The bytes of shaped text; what a padded group holds beyond whole bytes is passed over. */
  function Decode(s: string): seq<Byte>
    requires Shaped(s)
  {
    if s == "" then []
    else
      var x, y := DigitValue(s[0]).value, DigitValue(s[1]).value;
      if s[2..] == "==" then [First(x, y)]
      else
        var z := DigitValue(s[2]).value;
        if s[3..] == "=" then [First(x, y), Second(y, z)]
        else [First(x, y), Second(y, z), Third(z, DigitValue(s[3]).value)] + Decode(s[4..])
  }

  function First(x: nat, y: nat): Byte {
    (x * 4 + y / 16) % 256
  }

  function Second(y: nat, z: nat): Byte {
    (y % 16 * 16 + z / 4) % 256
  }

  function Third(z: nat, w: nat): Byte {
    (z % 4 * 64 + w) % 256
  }

  /** A number put together from two parts gives them back. */
  lemma Sixteens(high: nat, low: nat)
    requires low < 16
    ensures (high * 16 + low) / 16 == high && (high * 16 + low) % 16 == low
  {
  }

  lemma Fours(high: nat, low: nat)
    requires low < 4
    ensures (high * 4 + low) / 4 == high && (high * 4 + low) % 4 == low
  {
  }

  lemma GroupBack(a: Byte, b: Byte, c: Byte)
    ensures First(a / 4, a % 4 * 16 + b / 16) == a && First(a / 4, a % 4 * 16) == a
    ensures Second(a % 4 * 16 + b / 16, b % 16 * 4 + c / 64) == b && Second(a % 4 * 16 + b / 16, b % 16 * 4) == b
    ensures Third(b % 16 * 4 + c / 64, c % 64) == c
  {
    FirstBack(a, b);
    FirstBack(a, 0);
    SecondBack(a, b, c);
    SecondBack(a, b, 0);
    ThirdBack(b, c);
  }

  lemma FirstBack(a: Byte, b: Byte)
    ensures First(a / 4, a % 4 * 16 + b / 16) == a
  {
    Sixteens(a % 4, b / 16);
  }

  lemma SecondBack(a: Byte, b: Byte, c: Byte)
    ensures Second(a % 4 * 16 + b / 16, b % 16 * 4 + c / 64) == b
  {
    Sixteens(a % 4, b / 16);
    Fours(b % 16, c / 64);
  }

  lemma ThirdBack(b: Byte, c: Byte)
    ensures Third(b % 16 * 4 + c / 64, c % 64) == c
  {
    Fours(b % 16, c / 64);
  }

  /** Encoded bytes are shaped text and decode to themselves. */
  lemma {:induction false} EncodedBack(bytes: seq<Byte>)
    ensures Shaped(Encode(bytes)) && Decode(Encode(bytes)) == bytes
    decreases |bytes|
  {
    if |bytes| > 2 {
      EncodedBack(bytes[3..]);
      GroupInFront(bytes[0], bytes[1], bytes[2], Encode(bytes[3..]));
      assert bytes == [bytes[0], bytes[1], bytes[2]] + bytes[3..];
    } else if |bytes| == 2 {
      TwoLeft(bytes[0], bytes[1]);
      assert bytes == [bytes[0], bytes[1]];
    } else if |bytes| == 1 {
      OneLeft(bytes[0]);
      assert bytes == [bytes[0]];
    }
  }

  lemma OneLeft(a: Byte)
    ensures Shaped(Encode([a])) && Decode(Encode([a])) == [a]
  {
    GroupBack(a, 0, 0);
    DigitBack(a / 4);
    DigitBack(a % 4 * 16);
    assert Encode([a])[2..] == "==";
  }

  lemma TwoLeft(a: Byte, b: Byte)
    ensures Shaped(Encode([a, b])) && Decode(Encode([a, b])) == [a, b]
  {
    var s := Encode([a, b]);
    GroupBack(a, b, 0);
    DigitBack(a / 4);
    DigitBack(a % 4 * 16 + b / 16);
    DigitBack(b % 16 * 4);
    assert s[2..][0] == s[2] && s[3..] == "=";
  }

  lemma GroupInFront(a: Byte, b: Byte, c: Byte, rest: string)
    requires Shaped(rest)
    ensures var s := [Digit(a / 4), Digit(a % 4 * 16 + b / 16), Digit(b % 16 * 4 + c / 64), Digit(c % 64)] + rest;
            Shaped(s) && Decode(s) == [a, b, c] + Decode(rest)
  {
    var s := [Digit(a / 4), Digit(a % 4 * 16 + b / 16), Digit(b % 16 * 4 + c / 64), Digit(c % 64)] + rest;
    GroupBack(a, b, c);
    DigitBack(a / 4);
    DigitBack(a % 4 * 16 + b / 16);
    DigitBack(b % 16 * 4 + c / 64);
    DigitBack(c % 64);
    assert s[2..][0] == s[2] && s[3..][0] == s[3] && s[4..] == rest;
  }

  /** Text is what some bytes are encoded as exactly when it is shaped and decoding it can be undone. */
  lemma CanonicalExact(s: string)
    ensures (Shaped(s) && Encode(Decode(s)) == s) <==> (exists bytes :: Encode(bytes) == s)
  {
    if bytes :| Encode(bytes) == s {
      EncodedBack(bytes);
    }
  }
}
