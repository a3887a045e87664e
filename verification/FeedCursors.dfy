/** The Home Feed cursor and its token. */
module FeedCursors {
  import opened Wrappers
  import opened Decimal
  import opened Base64Url
  import opened FlatJson
  import opened IsoTime
  import opened CursorText

  const CURSOR_VERSION := 1

  datatype Phase = Following | Backfill
  datatype ContentType = Post | Reel

  datatype FeedCursor = FeedCursor(
    phase: Phase, createdAt: DateTime, contentType: ContentType, objectId: int, isFeatured: Option<bool>)

  function PhaseText(p: Phase): string {
    match p case Following => "f" case Backfill => "b"
  }

  function ContentTypeText(t: ContentType): string {
    match t case Post => "post" case Reel => "reel"
  }

  /** What the constructor demands: a positive id, and a featured flag exactly in the backfill phase. */
  predicate WellFormed(c: FeedCursor) {
    c.objectId > 0 && (c.phase.Backfill? <==> c.isFeatured.Some?)
  }

  /** The payload, in the key order of `sort_keys=True`. */
  function Payload(c: FeedCursor): seq<Member>
    requires WellFormed(c)
  {
    (if c.phase.Backfill? then [Member("ft", JInt(if c.isFeatured.value then 1 else 0))] else [])
    + [Member("id", JInt(c.objectId)),
       Member("p", JStr(PhaseText(c.phase))),
       Member("t", JStr(ContentTypeText(c.contentType))),
       Member("ts", JStr(IsoFormat(c.createdAt))),
       Member("v", JInt(CURSOR_VERSION))]
  }

  function EncodeCursor(lib: Library, c: FeedCursor): string
    requires WellFormed(c)
  {
    PayloadIsFlat(c);
    TokenOf(lib, Payload(c))
  }

  function PhaseOf(v: Json): Option<Phase> {
    if v == JStr("f") then Some(Following) else if v == JStr("b") then Some(Backfill) else None
  }

  function ContentTypeOf(v: Json): Option<ContentType> {
    if v == JStr("post") then Some(Post) else if v == JStr("reel") then Some(Reel) else None
  }

  function KeysFor(p: Phase): set<string> {
    {"v", "p", "ts", "t", "id"} + (if p.Backfill? then {"ft"} else {})
  }

  function DecodePayload(lib: Library, payload: Json): Option<FeedCursor> {
    if !payload.JObject? || "v" !in payload.fields || payload.fields["v"] != JInt(CURSOR_VERSION) then None
    else if "p" !in payload.fields || PhaseOf(payload.fields["p"]).None? then None
    else
      var fields, phase := payload.fields, PhaseOf(payload.fields["p"]).value;
      if fields.Keys != KeysFor(phase) then None
      else
        var ts := fields["ts"];
        if !ts.JStr? then None
        else if phase.Backfill? && fields["ft"] != JInt(0) && fields["ft"] != JInt(1) then None
        else
          var featured := if phase.Backfill? then Some(fields["ft"] == JInt(1)) else None;
          MakeCursor(phase, FromIso(ts.text, lib.fromIso), ContentTypeOf(fields["t"]), fields["id"], featured)
  }

  /** The dataclass constructor; `None` is its ValueError. */
  function MakeCursor(phase: Phase, createdAt: Option<DateTime>, contentType: Option<ContentType>, id: Json,
                      featured: Option<bool>): Option<FeedCursor>
  {
    if createdAt.None? || contentType.None? || !id.JInt? || id.number <= 0 || (phase.Backfill? <==> featured.None?)
    then None
    else Some(FeedCursor(phase, createdAt.value, contentType.value, id.number, featured))
  }

  function DecodeCursor(lib: Library, token: string): Option<FeedCursor> {
    if !AcceptableToken(token) then None
    else
      match PayloadOf(lib, token)
      case None => None
      case Some(payload) => DecodePayload(lib, payload)
  }

  // ---- Round trip, length, well-formedness

  lemma PayloadIsFlat(c: FeedCursor)
    requires WellFormed(c)
    ensures Flat(Payload(c)) && Payload(c) != [] && !WithFloats(Payload(c))
  {
    IsoFormatIsPlain(c.createdAt);
  }

  /** Fields that carry the cursor `c`. */
  predicate Carries(fields: map<string, Json>, c: FeedCursor) {
    && fields.Keys == KeysFor(c.phase)
    && fields["v"] == JInt(CURSOR_VERSION) && fields["p"] == JStr(PhaseText(c.phase))
    && fields["id"] == JInt(c.objectId) && fields["t"] == JStr(ContentTypeText(c.contentType))
    && fields["ts"] == JStr(IsoFormat(c.createdAt))
    && (c.phase.Backfill? ==> c.isFeatured.Some? && fields["ft"] == JInt(if c.isFeatured.value then 1 else 0))
  }

  lemma PayloadKeys(c: FeedCursor)
    requires WellFormed(c)
    ensures var p := Payload(c);
            && (forall i, j :: 0 <= i < j < |p| ==> p[i].key != p[j].key)
            && (forall i :: 0 <= i < |p| ==> p[i].key in KeysFor(c.phase))
            && (forall k :: k in KeysFor(c.phase) ==> exists i :: 0 <= i < |p| && p[i].key == k)
  {
    var p := Payload(c);
    var k := |p| - 5;
    assert p[k].key == "id" && p[k + 1].key == "p" && p[k + 2].key == "t"
           && p[k + 3].key == "ts" && p[k + 4].key == "v";
    assert k == 1 ==> p[0].key == "ft";
  }

  lemma PayloadCarries(c: FeedCursor, p: seq<Member>, fields: map<string, Json>)
    requires WellFormed(c) && p == Payload(c) && fields == ObjectOf(p)
    ensures Carries(fields, c)
  {
    PayloadKeys(c);
    ObjectHasKeys(p, fields, KeysFor(c.phase));
    var k := |p| - 5;
    assert p[k].key == "id" && p[k + 1].key == "p" && p[k + 2].key == "t"
           && p[k + 3].key == "ts" && p[k + 4].key == "v";
    assert k == 1 ==> p[0].key == "ft";
  }

  lemma MembersAreShort(lib: Library, c: FeedCursor)
    requires WellFormed(c) && c.objectId < 0x8000_0000_0000_0000
    ensures Flat(Payload(c))
    ensures forall i :: 0 <= i < |Payload(c)| ==> |MemberText(lib.floats, Payload(c)[i])| < 48
  {
    PayloadIsFlat(c);
    IsoFormatIsPlain(c.createdAt);
    SixtyThreeBits(c.objectId);
    var p := Payload(c);
    forall i | 0 <= i < |p|
      ensures |MemberText(lib.floats, p[i])| < 48
    {
      assert |p[i].key| <= 2;
      SmallDigits();
      assert |ValueText(lib.floats, p[i].value)| <= 34;
    }
  }

  lemma SmallDigits()
    ensures |Digits(0)| == 1 && |Digits(1)| == 1
  {
  }

  /** Tokens stay within the length limit and the URL-safe alphabet. */
  lemma TokenFits(lib: Library, c: FeedCursor)
    requires WellFormed(c) && c.objectId < 0x8000_0000_0000_0000
    ensures |EncodeCursor(lib, c)| <= MAX_CURSOR_LENGTH && TokenAlphabet(EncodeCursor(lib, c))
  {
    PayloadIsFlat(c);
    MembersAreShort(lib, c);
    TokenLength(lib, Payload(c));
  }

  lemma DecodePayloadBack(lib: Library, c: FeedCursor, fields: map<string, Json>)
    requires WellFormed(c) && Carries(fields, c) && FromIso(IsoFormat(c.createdAt), lib.fromIso) == Some(c.createdAt)
    ensures DecodePayload(lib, JObject(fields)) == Some(c)
  {
    NamesBack(c);
    var created := FromIso(IsoFormat(c.createdAt), lib.fromIso);
    assert MakeCursor(c.phase, created, Some(c.contentType), JInt(c.objectId), c.isFeatured) == Some(c);
  }

  lemma NamesBack(c: FeedCursor)
    ensures PhaseOf(JStr(PhaseText(c.phase))) == Some(c.phase)
    ensures ContentTypeOf(JStr(ContentTypeText(c.contentType))) == Some(c.contentType)
    ensures "v" in KeysFor(c.phase) && "p" in KeysFor(c.phase)
  {
  }

  /** Decoding what was encoded gives the cursor back. */
  lemma DecodeInvertsEncodeCursor(lib: Library, c: FeedCursor)
    requires WellFormed(c) && c.objectId < 0x8000_0000_0000_0000
    ensures DecodeCursor(lib, EncodeCursor(lib, c)) == Some(c)
  {
    PayloadIsFlat(c);
    PayloadInvertsToken(lib, Payload(c));
    FromIsoInvertsIsoFormat(c.createdAt, lib.fromIso);
    PayloadCarries(c, Payload(c), ObjectOf(Payload(c)));
    DecodePayloadBack(lib, c, ObjectOf(Payload(c)));
    TokenFits(lib, c);
  }

  /** Whatever token is accepted, and whatever the library does, the cursor obeys its constructor. */
  lemma AcceptedCursorsAreWellFormed(lib: Library, token: string)
    requires DecodeCursor(lib, token).Some?
    ensures WellFormed(DecodeCursor(lib, token).value)
    ensures 0 < |token| <= MAX_CURSOR_LENGTH && TokenAlphabet(SymbolsOf(token))
  {
  }

  // ---- The codec as the feed sees it

  type ValidCursor = c: FeedCursor | WellFormed(c)
    witness FeedCursor(Following, Civil(1, 1, 1, 0, 0, 0, 0), Post, 1, None)

  datatype Codec = Codec(encode: ValidCursor -> string, decode: string -> Option<ValidCursor>)

  /** A token is never empty, and brings back the cursor it was made from. */
  ghost predicate Lawful(codec: Codec) {
    forall c: ValidCursor :: c.objectId < 0x8000_0000_0000_0000 ==>
      codec.encode(c) != "" && codec.decode(codec.encode(c)) == Some(c)
  }

  function Decoded(lib: Library, token: string): Option<ValidCursor> {
    var c := DecodeCursor(lib, token);
    if c.Some? then Some(c.value) else None
  }

  function TokenCodec(lib: Library): Codec {
    Codec((c: ValidCursor) => EncodeCursor(lib, c), token => Decoded(lib, token))
  }

  /** The real tokens are lawful, whatever the library does with text the cursors never write. */
  lemma TokenCodecIsLawful(lib: Library)
    ensures Lawful(TokenCodec(lib))
  {
    forall c: ValidCursor | c.objectId < 0x8000_0000_0000_0000
      ensures EncodeCursor(lib, c) != "" && Decoded(lib, EncodeCursor(lib, c)) == Some(c)
    {
      DecodeInvertsEncodeCursor(lib, c);
      AcceptedCursorsAreWellFormed(lib, EncodeCursor(lib, c));
    }
  }
}
