/** Unpadded base64url (section 5 of RFC 4648), as the cursor tokens use it. */
module Base64Url {
  import opened Wrappers
  import opened Bytes

  predicate InAlphabet(c: char) {
    'A' <= c <= 'Z' || 'a' <= c <= 'z' || '0' <= c <= '9' || c == '-' || c == '_'
  }

  function Sextet(c: char): (n: int)
    requires InAlphabet(c)
    ensures 0 <= n < 64
  {
    if 'A' <= c <= 'Z' then c as int - 'A' as int
    else if 'a' <= c <= 'z' then c as int - 'a' as int + 26
    else if '0' <= c <= '9' then c as int - '0' as int + 52
    else if c == '-' then 62 else 63
  }

  /** The URL-safe alphabet, table 2 of RFC 4648. */
  function Symbol(n: int): (c: char)
    requires 0 <= n < 64
    ensures InAlphabet(c) && Sextet(c) == n
  {
    if n < 26 then (n + 'A' as int) as char
    else if n < 52 then (n - 26 + 'a' as int) as char
    else if n < 62 then (n - 52 + '0' as int) as char
    else if n == 62 then '-' else '_'
  }

  /** Three bytes in four symbols. */
  function Quad(x: Byte, y: Byte, z: Byte): (s: string)
    ensures |s| == 4 && TokenAlphabet(s)
  {
    [Symbol(x / 4), Symbol(x % 4 * 16 + y / 16), Symbol(y % 16 * 4 + z / 64), Symbol(z % 64)]
  }

  /** A final two bytes, and a final single byte, without padding. */
  function Trio(x: Byte, y: Byte): (s: string)
    ensures |s| == 3 && TokenAlphabet(s)
  {
    [Symbol(x / 4), Symbol(x % 4 * 16 + y / 16), Symbol(y % 16 * 4)]
  }

  function Pair(x: Byte): (s: string)
    ensures |s| == 2 && TokenAlphabet(s)
  {
    [Symbol(x / 4), Symbol(x % 4 * 16)]
  }

  /** base64.urlsafe_b64encode(raw) with the padding stripped. */
  function Encode(raw: seq<Byte>): string {
    if raw == [] then ""
    else if |raw| == 1 then Pair(raw[0])
    else if |raw| == 2 then Trio(raw[0], raw[1])
    else Quad(raw[0], raw[1], raw[2]) + Encode(raw[3..])
  }

  predicate TokenAlphabet(s: string) {
    forall i :: 0 <= i < |s| ==> InAlphabet(s[i])
  }

  /** The bytes of complete groups of four symbols and of a final group of two or three; the unused low
    * bits of a final group are dropped, whatever they are.
    */
  function Groups(s: string): seq<Byte>
    requires TokenAlphabet(s)
  {
    if |s| < 2 then []
    else if |s| == 2 then [Sextet(s[0]) * 4 + Sextet(s[1]) / 16]
    else if |s| == 3 then
      [Sextet(s[0]) * 4 + Sextet(s[1]) / 16, Sextet(s[1]) % 16 * 16 + Sextet(s[2]) / 4]
    else Triple(s[..4]) + Groups(s[4..])
  }

  function Triple(s: string): seq<Byte>
    requires |s| == 4 && TokenAlphabet(s)
  {
    [Sextet(s[0]) * 4 + Sextet(s[1]) / 16, Sextet(s[1]) % 16 * 16 + Sextet(s[2]) / 4,
     Sextet(s[2]) % 4 * 64 + Sextet(s[3])]
  }

  /** The token pattern `^[A-Za-z0-9_-]+$`: the `$` also matches before one final line feed. */
  predicate MatchesTokenPattern(token: string) {
    var body := SymbolsOf(token);
    body != [] && TokenAlphabet(body)
  }

  function SymbolsOf(token: string): string {
    if token != [] && token[|token| - 1] == '\n' then token[..|token| - 1] else token
  }

  /** base64.urlsafe_b64decode(token + "=" * (-len(token) % 4)).  Characters outside the alphabet are
    * skipped; a leftover group of two or three symbols needs padding up to four, and a leftover
    * single symbol is an error.
    */
  function Decode(token: string): Option<seq<Byte>>
    requires MatchesTokenPattern(token)
  {
    var body := SymbolsOf(token);
    var padding := (4 - |token| % 4) % 4;
    var leftover := |body| % 4;
    if leftover == 0 || (leftover >= 2 && leftover + padding >= 4) then Some(Groups(body)) else None
  }

  lemma {:induction false} EncodeAlphabet(raw: seq<Byte>)
    ensures TokenAlphabet(Encode(raw))
  {
    if |raw| >= 3 {
      EncodeAlphabet(raw[3..]);
      AlphabetConcat(Quad(raw[0], raw[1], raw[2]), Encode(raw[3..]));
    }
  }

  lemma AlphabetConcat(a: string, b: string)
    requires TokenAlphabet(a) && TokenAlphabet(b)
    ensures TokenAlphabet(a + b)
  {
  }

  lemma {:induction false} EncodeLength(raw: seq<Byte>)
    ensures |Encode(raw)| == |raw| / 3 * 4 + (if |raw| % 3 == 0 then 0 else |raw| % 3 + 1)
  {
    if |raw| >= 3 {
      EncodeLength(raw[3..]);
    }
  }

  lemma ByteSplits(x: Byte, y: Byte, z: Byte)
    ensures (x / 4) * 4 + (x % 4 * 16 + y / 16) / 16 == x
    ensures (x % 4 * 16 + y / 16) % 16 * 16 + (y % 16 * 4 + z / 64) / 4 == y
    ensures (y % 16 * 4 + z / 64) % 4 * 64 + z % 64 == z
  {
  }

  lemma GroupsOfQuad(x: Byte, y: Byte, z: Byte, rest: string)
    requires TokenAlphabet(rest)
    ensures TokenAlphabet(Quad(x, y, z) + rest)
    ensures Groups(Quad(x, y, z) + rest) == [x, y, z] + Groups(rest)
  {
    var s := Quad(x, y, z) + rest;
    assert s[..4] == Quad(x, y, z) && s[4..] == rest;
    TripleInvertsQuad(x, y, z);
  }

  lemma TripleInvertsQuad(x: Byte, y: Byte, z: Byte)
    ensures Triple(Quad(x, y, z)) == [x, y, z]
  {
    ByteSplits(x, y, z);
  }

  lemma TailInverts(x: Byte, y: Byte)
    ensures Groups(Pair(x)) == [x]
    ensures Groups(Trio(x, y)) == [x, y]
  {
    ByteSplits(x, 0, 0);
    ByteSplits(x, y, 0);
  }

  lemma GroupsStep(raw: seq<Byte>, rest: seq<Byte>)
    requires |raw| >= 3 && rest == raw[3..]
    requires TokenAlphabet(Encode(rest)) && Groups(Encode(rest)) == rest
    ensures TokenAlphabet(Encode(raw)) && Groups(Encode(raw)) == raw
  {
    GroupsOfQuad(raw[0], raw[1], raw[2], Encode(rest));
    assert raw == [raw[0], raw[1], raw[2]] + rest;
  }

  lemma {:induction false} GroupsInvertEncode(raw: seq<Byte>)
    requires TokenAlphabet(Encode(raw))
    ensures Groups(Encode(raw)) == raw
  {
    if |raw| == 1 {
      TailInverts(raw[0], 0);
    } else if |raw| == 2 {
      TailInverts(raw[0], raw[1]);
    } else if |raw| >= 3 {
      EncodeAlphabet(raw[3..]);
      GroupsInvertEncode(raw[3..]);
      GroupsStep(raw, raw[3..]);
    }
  }

  /** Every encoded token matches the pattern and decodes to the bytes it was made from. */
  lemma DecodeInvertsEncode(raw: seq<Byte>)
    requires raw != []
    ensures MatchesTokenPattern(Encode(raw)) && Decode(Encode(raw)) == Some(raw)
  {
    EncodeAlphabet(raw);
    GroupsInvertEncode(raw);
    EncodeLength(raw);
    var token := Encode(raw);
    assert SymbolsOf(token) == token by {
      assert InAlphabet(token[|token| - 1]);
    }
    LeftoverIsPadded(|raw|, |token|);
  }

  lemma LeftoverIsPadded(n: nat, m: nat)
    requires m == n / 3 * 4 + (if n % 3 == 0 then 0 else n % 3 + 1)
    ensures m % 4 == 0 || (m % 4 >= 2 && m % 4 + (4 - m % 4) % 4 >= 4)
  {
  }
}
