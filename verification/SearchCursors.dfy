/** The Search cursor and its token.  A cursor belongs to one ordering mode and is refused in the other. */
module SearchCursors {
  import opened Wrappers
  import opened Decimal
  import opened Base64Url
  import opened FlatJson
  import opened IsoTime
  import opened CursorText

  const CURSOR_VERSION := 1

  datatype Mode = Relevance | Recency
  datatype ContentType = Business | Product

  /** The secondary sort value: a search rank in relevance mode, a creation instant in recency mode. */
  datatype Secondary = Rank(place: Float) | Created(at: DateTime)

  datatype SearchCursor = SearchCursor(
    mode: Mode, isFeatured: bool, secondary: Secondary, contentType: ContentType, objectId: int)

  /** What the constructor demands. */
  predicate WellFormed(c: SearchCursor) {
    c.objectId > 0 && (c.mode.Relevance? <==> c.secondary.Rank?)
  }

  function ModeText(m: Mode): string {
    match m case Relevance => "r" case Recency => "c"
  }

  function ContentTypeText(t: ContentType): string {
    match t case Business => "business" case Product => "product"
  }

  function SecondaryJson(s: Secondary): Json {
    match s case Rank(x) => JFloat(x) case Created(at) => JStr(IsoFormat(at))
  }

  /** The payload, in the key order of `sort_keys=True`. */
  function Payload(c: SearchCursor): seq<Member>
    requires WellFormed(c)
  {
    [Member("ft", JInt(if c.isFeatured then 1 else 0)),
     Member("id", JInt(c.objectId)),
     Member("m", JStr(ModeText(c.mode))),
     Member("sec", SecondaryJson(c.secondary)),
     Member("t", JStr(ContentTypeText(c.contentType))),
     Member("v", JInt(CURSOR_VERSION))]
  }

  /** Recency cursors are printed without any float; `repr` of a float has at most 24 characters. */
  ghost predicate Printable(lib: Library, mode: Mode) {
    mode.Relevance? ==> Faithful(lib.floats) && forall x: Float :: |lib.floats.show(x)| <= 24
  }

  function EncodeCursor(lib: Library, c: SearchCursor): string
    requires WellFormed(c)
  {
    PayloadIsFlat(c);
    TokenOf(lib, Payload(c))
  }

  function ModeOf(v: Json): Option<Mode> {
    if v == JStr("r") then Some(Relevance) else if v == JStr("c") then Some(Recency) else None
  }

  function ContentTypeOf(v: Json): Option<ContentType> {
    if v == JStr("business") then Some(Business) else if v == JStr("product") then Some(Product) else None
  }

  function SecondaryOf(lib: Library, mode: Mode, v: Json): Option<Secondary> {
    match mode
    case Relevance =>
      if v.JFloat? then Some(Rank(v.place))
      else if v.JInt? then Some(Rank(lib.floats.fromInt(v.number)))
      else None
    case Recency =>
      if !v.JStr? || FromIso(v.text, lib.fromIso).None? then None
      else Some(Created(FromIso(v.text, lib.fromIso).value))
  }

  const KEYS: set<string> := {"v", "m", "ft", "sec", "t", "id"}

  function DecodePayload(lib: Library, payload: Json, expected: Mode): Option<SearchCursor> {
    if !payload.JObject? || payload.fields.Keys != KEYS then None
    else
      var fields := payload.fields;
      if fields["v"] != JInt(CURSOR_VERSION) || ModeOf(fields["m"]) != Some(expected) then None
      else if fields["ft"] != JInt(0) && fields["ft"] != JInt(1) then None
      else
        MakeCursor(expected, fields["ft"] == JInt(1), SecondaryOf(lib, expected, fields["sec"]),
                   ContentTypeOf(fields["t"]), fields["id"])
  }

  /** The dataclass constructor; `None` is its ValueError. */
  function MakeCursor(mode: Mode, featured: bool, secondary: Option<Secondary>, contentType: Option<ContentType>,
                      id: Json): Option<SearchCursor>
  {
    if secondary.None? || contentType.None? || !id.JInt? || id.number <= 0
       || (mode.Relevance? <==> secondary.value.Created?)
    then None
    else Some(SearchCursor(mode, featured, secondary.value, contentType.value, id.number))
  }

  function DecodeCursor(lib: Library, token: string, expected: Mode): Option<SearchCursor> {
    if !AcceptableToken(token) then None
    else
      match PayloadOf(lib, token)
      case None => None
      case Some(payload) => DecodePayload(lib, payload, expected)
  }

  // ---- Round trip and mode

  lemma PayloadIsFlat(c: SearchCursor)
    requires WellFormed(c)
    ensures Flat(Payload(c)) && Payload(c) != [] && (WithFloats(Payload(c)) ==> c.mode.Relevance?)
  {
    if c.secondary.Created? {
      IsoFormatIsPlain(c.secondary.at);
    }
    assert FlatMember(Payload(c)[3]);
  }

  /** Fields that carry the cursor `c`. */
  predicate Carries(fields: map<string, Json>, c: SearchCursor) {
    && fields.Keys == KEYS
    && fields["v"] == JInt(CURSOR_VERSION) && fields["m"] == JStr(ModeText(c.mode))
    && fields["id"] == JInt(c.objectId) && fields["t"] == JStr(ContentTypeText(c.contentType))
    && fields["sec"] == SecondaryJson(c.secondary)
    && fields["ft"] == JInt(if c.isFeatured then 1 else 0)
  }

  lemma PayloadKeys(c: SearchCursor)
    requires WellFormed(c)
    ensures var p := Payload(c);
            && (forall i, j :: 0 <= i < j < |p| ==> p[i].key != p[j].key)
            && (forall i :: 0 <= i < |p| ==> p[i].key in KEYS)
            && (forall k :: k in KEYS ==> exists i :: 0 <= i < |p| && p[i].key == k)
  {
    var p := Payload(c);
    assert p[0].key == "ft" && p[1].key == "id" && p[2].key == "m" && p[3].key == "sec" && p[4].key == "t"
           && p[5].key == "v";
  }

  lemma FieldsByPosition(p: seq<Member>, fields: map<string, Json>)
    requires |p| == 6 && fields.Keys == KEYS
    requires forall i :: 0 <= i < 6 ==> p[i].key in KEYS && fields[p[i].key] == p[i].value
    ensures fields[p[0].key] == p[0].value && fields[p[1].key] == p[1].value && fields[p[2].key] == p[2].value
    ensures fields[p[3].key] == p[3].value && fields[p[4].key] == p[4].value && fields[p[5].key] == p[5].value
  {
  }

  lemma PayloadCarries(c: SearchCursor, p: seq<Member>, fields: map<string, Json>)
    requires WellFormed(c) && p == Payload(c) && fields == ObjectOf(p)
    ensures Carries(fields, c)
  {
    PayloadKeys(c);
    ObjectHasKeys(p, fields, KEYS);
    FieldsByPosition(p, fields);
  }

  lemma NamesBack(c: SearchCursor)
    ensures ModeOf(JStr(ModeText(c.mode))) == Some(c.mode)
    ensures ContentTypeOf(JStr(ContentTypeText(c.contentType))) == Some(c.contentType)
  {
  }

  lemma SecondaryBack(lib: Library, c: SearchCursor)
    requires WellFormed(c)
    ensures SecondaryOf(lib, c.mode, SecondaryJson(c.secondary)) == Some(c.secondary)
  {
    if c.secondary.Created? {
      FromIsoInvertsIsoFormat(c.secondary.at, lib.fromIso);
    }
  }

  lemma DecodePayloadBack(lib: Library, c: SearchCursor, fields: map<string, Json>)
    requires WellFormed(c) && Carries(fields, c)
    requires SecondaryOf(lib, c.mode, SecondaryJson(c.secondary)) == Some(c.secondary)
    ensures DecodePayload(lib, JObject(fields), c.mode) == Some(c)
  {
    NamesBack(c);
  }

  /** A cursor is never resumed in the other mode. */
  lemma OtherModeRefuses(lib: Library, c: SearchCursor, other: Mode)
    requires WellFormed(c) && Printable(lib, c.mode) && other != c.mode
    ensures DecodeCursor(lib, EncodeCursor(lib, c), other) == None
  {
    PayloadIsFlat(c);
    PayloadInvertsToken(lib, Payload(c));
    var fields := ObjectOf(Payload(c));
    PayloadCarries(c, Payload(c), fields);
    RefusesMode(lib, c, fields, other);
  }

  lemma RefusesMode(lib: Library, c: SearchCursor, fields: map<string, Json>, other: Mode)
    requires Carries(fields, c) && other != c.mode
    ensures DecodePayload(lib, JObject(fields), other) == None
  {
    NamesBack(c);
  }

  lemma MembersAreShort(lib: Library, c: SearchCursor)
    requires WellFormed(c) && c.objectId < 0x8000_0000_0000_0000
    requires c.secondary.Rank? ==> |lib.floats.show(c.secondary.place)| <= 34
    ensures Flat(Payload(c))
    ensures forall i :: 0 <= i < |Payload(c)| ==> |MemberText(lib.floats, Payload(c)[i])| < 48
  {
    PayloadIsFlat(c);
    SixtyThreeBits(c.objectId);
    assert |Digits(0)| == 1 && |Digits(1)| == 1;
    var p := Payload(c);
    if c.secondary.Created? {
      IsoFormatIsPlain(c.secondary.at);
    }
    forall i | 0 <= i < |p|
      ensures |MemberText(lib.floats, p[i])| < 48
    {
      assert |p[i].key| <= 3;
      assert |ValueText(lib.floats, p[i].value)| <= 34;
    }
  }

  /** Tokens stay within the length limit and the URL-safe alphabet. */
  lemma TokenFits(lib: Library, c: SearchCursor)
    requires WellFormed(c) && Printable(lib, c.mode) && c.objectId < 0x8000_0000_0000_0000
    ensures |EncodeCursor(lib, c)| <= MAX_CURSOR_LENGTH && TokenAlphabet(EncodeCursor(lib, c))
  {
    PayloadIsFlat(c);
    MembersAreShort(lib, c);
    TokenLength(lib, Payload(c));
  }

  /** Decoding in the same mode gives the cursor back. */
  lemma DecodeInvertsEncodeCursor(lib: Library, c: SearchCursor)
    requires WellFormed(c) && Printable(lib, c.mode) && c.objectId < 0x8000_0000_0000_0000
    ensures DecodeCursor(lib, EncodeCursor(lib, c), c.mode) == Some(c)
  {
    PayloadIsFlat(c);
    PayloadInvertsToken(lib, Payload(c));
    SecondaryBack(lib, c);
    PayloadCarries(c, Payload(c), ObjectOf(Payload(c)));
    DecodePayloadBack(lib, c, ObjectOf(Payload(c)));
    TokenFits(lib, c);
  }

  /** Whatever token is accepted, and whatever the library does, the cursor obeys its constructor and
    * is of the expected mode.
    */
  lemma AcceptedCursorsAreWellFormed(lib: Library, token: string, expected: Mode)
    requires DecodeCursor(lib, token, expected).Some?
    ensures WellFormed(DecodeCursor(lib, token, expected).value)
    ensures DecodeCursor(lib, token, expected).value.mode == expected
    ensures 0 < |token| <= MAX_CURSOR_LENGTH && TokenAlphabet(SymbolsOf(token))
  {
  }

  // ---- The codec as the search service sees it

  type ValidCursor = c: SearchCursor | WellFormed(c)
    witness SearchCursor(Recency, false, Created(Civil(1, 1, 1, 0, 0, 0, 0)), Business, 1)

  datatype Codec = Codec(encode: ValidCursor -> string, decode: (string, Mode) -> Option<ValidCursor>)

  /** In the given mode a token is never empty, brings back its cursor, and decodes to no other mode. */
  ghost predicate Lawful(codec: Codec, mode: Mode) {
    && (forall c: ValidCursor :: c.mode == mode && c.objectId < 0x8000_0000_0000_0000 ==>
          codec.encode(c) != "" && codec.decode(codec.encode(c), mode) == Some(c))
    && forall token :: codec.decode(token, mode).Some? ==> codec.decode(token, mode).value.mode == mode
  }

  function Decoded(lib: Library, token: string, mode: Mode): Option<ValidCursor> {
    var c := DecodeCursor(lib, token, mode);
    if c.Some? then Some(c.value) else None
  }

  function TokenCodec(lib: Library): Codec {
    Codec((c: ValidCursor) => EncodeCursor(lib, c), (token, mode) => Decoded(lib, token, mode))
  }

  /** The real tokens are lawful in recency mode, and in relevance mode if floats print faithfully. */
  lemma TokenCodecIsLawful(lib: Library, mode: Mode)
    requires Printable(lib, mode)
    ensures Lawful(TokenCodec(lib), mode)
  {
    forall c: ValidCursor | c.mode == mode && c.objectId < 0x8000_0000_0000_0000
      ensures EncodeCursor(lib, c) != "" && Decoded(lib, EncodeCursor(lib, c), mode) == Some(c)
    {
      DecodeInvertsEncodeCursor(lib, c);
      AcceptedCursorsAreWellFormed(lib, EncodeCursor(lib, c), mode);
    }
  }
}
