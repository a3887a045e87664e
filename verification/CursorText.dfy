/** The part the two cursor formats share: a flat JSON object behind unpadded base64url. */
module CursorText {
  import opened Wrappers
  import opened Decimal
  import opened Bytes
  import opened Base64Url
  import opened FlatJson
  import opened IsoTime

  const MAX_CURSOR_LENGTH: nat := 512

  /** What the Python runtime does with input the cursors never write, and with floats. */
  datatype Library = Library(
    floats: FloatText,
    loads: seq<Byte> -> Option<Json>,
    fromIso: string -> Option<DateTime>)

  /** The JSON text is always ASCII when floats are printed as numerals. */
  function TokenOf(lib: Library, ms: seq<Member>): string
    requires Flat(ms) && ms != []
  {
    if AsciiText(Dumps(lib.floats, ms)) then Encode(BytesOf(Dumps(lib.floats, ms))) else ""
  }

  predicate AcceptableToken(token: string) {
    |token| <= MAX_CURSOR_LENGTH && MatchesTokenPattern(token)
  }

  /** The payload of a token; `None` is bad base64, bad UTF-8 or bad JSON. */
  function PayloadOf(lib: Library, token: string): Option<Json>
    requires MatchesTokenPattern(token)
  {
    match Decode(token)
    case None => None
    case Some(raw) => Loads(lib.floats, raw, lib.loads)
  }

  lemma PayloadInvertsToken(lib: Library, ms: seq<Member>)
    requires WithFloats(ms) ==> Faithful(lib.floats)
    requires Flat(ms) && ms != []
    ensures AsciiText(Dumps(lib.floats, ms))
    ensures MatchesTokenPattern(TokenOf(lib, ms))
    ensures PayloadOf(lib, TokenOf(lib, ms)) == Some(JObject(ObjectOf(ms)))
  {
    LoadsInvertsDumps(lib.floats, ms, lib.loads);
    DecodeInvertsEncode(BytesOf(Dumps(lib.floats, ms)));
  }

  /** A token of at most six members shorter than 48 characters is well within the limit. */
  lemma TokenLength(lib: Library, ms: seq<Member>)
    requires WithFloats(ms) ==> Faithful(lib.floats)
    requires Flat(ms) && 0 < |ms| <= 6
    requires forall i :: 0 <= i < |ms| ==> |MemberText(lib.floats, ms[i])| < 48
    ensures AsciiText(Dumps(lib.floats, ms))
    ensures |TokenOf(lib, ms)| <= MAX_CURSOR_LENGTH
    ensures TokenAlphabet(TokenOf(lib, ms))
  {
    MembersTextAscii(lib.floats, ms);
    MembersLength(lib.floats, ms);
    EncodeLength(BytesOf(Dumps(lib.floats, ms)));
    EncodeAlphabet(BytesOf(Dumps(lib.floats, ms)));
  }

  lemma IsoFormatIsPlain(d: DateTime)
    ensures Plain(IsoFormat(d)) && |IsoFormat(d)| <= 32
  {
    assert Plain(DateText(d)) && Plain(ClockText(d)) && Plain(FractionText(d));
    IsoShapeOf(d);
  }

  lemma SixtyThreeBits(id: nat)
    requires id < 0x8000_0000_0000_0000
    ensures |Digits(id)| <= 19
  {
    assert Pow10(4) == 10000 && Pow10(8) == 100000000 && Pow10(12) == 1000000000000
           && Pow10(16) == 10000000000000000 && Pow10(19) == 10000000000000000000 by {
      assert Pow10(2) == 100 && Pow10(6) == 1000000 && Pow10(10) == 10000000000
             && Pow10(14) == 100000000000000 && Pow10(18) == 1000000000000000000;
    }
    DigitsLength(id, 19);
  }
}
