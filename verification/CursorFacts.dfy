/** The cursor tokens character by character: base64, timestamps, JSON text, and what is accepted. */
module CursorFacts {
  import opened Wrappers
  import opened Decimal
  import opened Bytes
  import opened Base64Url
  import opened FlatJson
  import opened IsoTime
  import opened CursorText
  import FC = FeedCursors
  import SC = SearchCursors

  // ---- Base64

  /** Table 2 of RFC 4648: the capitals, the small letters, the digits, minus and underline, in this order. */
  lemma SymbolsInOrder()
    ensures Symbol(0) == 'A' && Symbol(25) == 'Z' && Symbol(26) == 'a' && Symbol(51) == 'z'
    ensures Symbol(52) == '0' && Symbol(61) == '9' && Symbol(62) == '-' && Symbol(63) == '_'
    ensures forall n :: 0 <= n < 61 && n != 25 && n != 51 ==> Symbol(n + 1) as int == Symbol(n) as int + 1
    ensures forall n :: 0 <= n < 64 ==> Sextet(Symbol(n)) == n
  {
  }

  /** The bits of a group are the bits of its symbols, most significant first; unused low bits are zero. */
  lemma GroupInBits(x: Byte, y: Byte, z: Byte)
    ensures BitsOf(Encode([x, y, z])) == Wide(Wide(x, 256, y), 256, z)
    ensures BitsOf(Encode([x, y])) == Wide(Wide(x, 256, y), 4, 0)
    ensures BitsOf(Encode([x])) == Wide(x, 16, 0)
    ensures |Encode([x, y, z])| == 4 && |Encode([x, y])| == 3 && |Encode([x])| == 2
  {
    assert [x, y, z][3..] == [];
    assert Encode([x, y, z]) == Quad(x, y, z);
    FourBits(Symbol(x / 4), Symbol(x % 4 * 16 + y / 16), Symbol(y % 16 * 4 + z / 64), Symbol(z % 64));
    ThreeBits(Symbol(x / 4), Symbol(x % 4 * 16 + y / 16), Symbol(y % 16 * 4));
    TwoBits(Symbol(x / 4), Symbol(x % 4 * 16));
  }

  function Wide(high: int, radix: int, low: int): int {
    high * radix + low
  }

  /** The symbols as digits of one number. */
  function BitsOf(s: string): int {
    if s == "" then 0 else BitsOf(s[..|s| - 1]) * 64 + (if InAlphabet(s[|s| - 1]) then Sextet(s[|s| - 1]) else 0)
  }

  lemma TwoBits(a: char, b: char)
    requires InAlphabet(a) && InAlphabet(b)
    ensures BitsOf([a, b]) == Sextet(a) * 64 + Sextet(b)
  {
    assert [a, b][..1] == [a] && [a][..0] == "";
    assert BitsOf([a]) == Sextet(a);
  }

  lemma ThreeBits(a: char, b: char, c: char)
    requires InAlphabet(a) && InAlphabet(b) && InAlphabet(c)
    ensures BitsOf([a, b, c]) == (Sextet(a) * 64 + Sextet(b)) * 64 + Sextet(c)
  {
    assert [a, b, c][..2] == [a, b];
    TwoBits(a, b);
  }

  lemma FourBits(a: char, b: char, c: char, d: char)
    requires InAlphabet(a) && InAlphabet(b) && InAlphabet(c) && InAlphabet(d)
    ensures BitsOf([a, b, c, d]) == ((Sextet(a) * 64 + Sextet(b)) * 64 + Sextet(c)) * 64 + Sextet(d)
  {
    assert [a, b, c, d][..3] == [a, b, c];
    ThreeBits(a, b, c);
  }

  /** Groups of three bytes are encoded one after another. */
  lemma {:induction false} EncodedOneByOne(q: seq<Byte>, rest: seq<Byte>)
    requires |q| == 3
    ensures Encode(q + rest) == Encode(q) + Encode(rest)
  {
    FirstQuad(q, rest);
    FirstQuad(q, []);
    assert q + [] == q && Quad(q[0], q[1], q[2]) + "" == Quad(q[0], q[1], q[2]);
  }

  lemma {:induction false} FirstQuad(q: seq<Byte>, rest: seq<Byte>)
    requires |q| == 3
    ensures Encode(q + rest) == Quad(q[0], q[1], q[2]) + Encode(rest)
  {
    assert (q + rest)[3..] == rest;
  }

  /** Decoding reads the same bits; of a last group the low bits that make no byte are dropped. */
  lemma GroupFromBits(s: string)
    requires 2 <= |s| <= 4 && TokenAlphabet(s)
    ensures |Groups(s)| == |s| - 1
    ensures |s| == 4 ==> Wide(Wide(Groups(s)[0], 256, Groups(s)[1]), 256, Groups(s)[2]) == BitsOf(s)
    ensures |s| == 3 ==> Wide(Groups(s)[0], 256, Groups(s)[1]) == BitsOf(s) / 4
    ensures |s| == 2 ==> Groups(s)[0] == BitsOf(s) / 16
  {
    if |s| == 4 {
      assert s[4..] == "" && s[..4] == s && s == [s[0], s[1], s[2], s[3]];
      FourBits(s[0], s[1], s[2], s[3]);
    } else if |s| == 3 {
      assert s == [s[0], s[1], s[2]];
      ThreeBits(s[0], s[1], s[2]);
    } else {
      assert s == [s[0], s[1]];
      TwoBits(s[0], s[1]);
    }
  }

  lemma {:induction false} FirstTriple(q: string, rest: string)
    requires |q| == 4 && TokenAlphabet(q) && TokenAlphabet(rest)
    ensures TokenAlphabet(q + rest) && Groups(q + rest) == Triple(q) + Groups(rest)
  {
    assert (q + rest)[..4] == q && (q + rest)[4..] == rest;
  }

  /** Groups of four symbols are decoded one after another. */
  lemma {:induction false} DecodedOneByOne(q: string, rest: string)
    requires |q| == 4 && TokenAlphabet(q) && TokenAlphabet(rest)
    ensures TokenAlphabet(q + rest) && Groups(q + rest) == Groups(q) + Groups(rest)
  {
    FirstTriple(q, rest);
    FirstTriple(q, "");
    assert q + "" == q && Triple(q) + [] == Triple(q);
  }

  /** A token is some symbols and perhaps a line feed.  Without the line feed it decodes unless a single symbol is left
    * over.
    */
  lemma DecodableInLengths(body: string)
    requires body != "" && TokenAlphabet(body)
    ensures MatchesTokenPattern(body) && Decode(body) == if |body| % 4 == 1 then None else Some(Groups(body))
  {
    assert SymbolsOf(body) == body by {
      assert InAlphabet(body[|body| - 1]);
    }
    Complements(|body| % 4);
    DecodesAs(body, body);
  }

  /** Which tokens decode is a matter of lengths alone. */
  lemma DecodesAs(token: string, body: string)
    requires SymbolsOf(token) == body && body != "" && TokenAlphabet(body)
    ensures MatchesTokenPattern(token)
    ensures var r, padding := |body| % 4, (4 - |token| % 4) % 4;
            Decode(token) == if r == 0 || (r >= 2 && r + padding >= 4) then Some(Groups(body)) else None
  {
  }

  lemma Complements(r: int)
    requires 0 <= r < 4
    ensures r == 0 || (r >= 2 && r + (4 - r) % 4 >= 4) <==> r != 1
  {
    assert r in {0, 1, 2, 3};
  }

  /** With it, only if none is. */
  lemma DecodableWithLineFeed(body: string)
    requires body != "" && TokenAlphabet(body)
    ensures MatchesTokenPattern(body + "\n")
    ensures Decode(body + "\n") == if |body| % 4 == 0 then Some(Groups(body)) else None
  {
    LineFeedIsDropped(body);
    NoRoomForLineFeed(|body| % 4, |body + "\n"| % 4);
    DecodesAs(body + "\n", body);
  }

  lemma LineFeedIsDropped(body: string)
    ensures SymbolsOf(body + "\n") == body
  {
    var token := body + "\n";
    assert token[|token| - 1] == '\n' && token[..|token| - 1] == body;
  }

  lemma NoRoomForLineFeed(r: int, t: int)
    requires 0 <= r < 4 && t == (r + 1) % 4
    ensures !(r >= 2 && r + (4 - t) % 4 >= 4)
  {
    assert r in {0, 1, 2, 3};
  }

  // ---- Timestamps

  predicate Reads(s: string, i: nat, j: nat, n: nat) {
    i <= j <= |s| && AllDigits(s[i..j]) && NumberOf(s[i..j]) == n
  }

  /** `YYYY-MM-DDTHH:MM:SS[.ffffff]+00:00` */
  lemma IsoInCharacters(d: DateTime)
    ensures var s := IsoFormat(d);
            && |s| == (if d.micro == 0 then 25 else 32)
            && Reads(s, 0, 4, d.year) && s[4] == '-' && Reads(s, 5, 7, d.month) && s[7] == '-'
            && Reads(s, 8, 10, d.day) && s[10] == 'T' && Reads(s, 11, 13, d.hour) && s[13] == ':'
            && Reads(s, 14, 16, d.minute) && s[16] == ':' && Reads(s, 17, 19, d.second)
            && (d.micro != 0 ==> s[19] == '.' && Reads(s, 20, 26, d.micro)) && s[|s| - 6..] == "+00:00"
  {
    IsoShapeOf(d);
    FromIsoInvertsIsoFormat(d, s => None);
    if d.micro != 0 {
      assert AllDigits(IsoFormat(d)[20..26]);
    }
  }

  predicate AreDigits(s: string, at: set<int>) {
    forall i :: i in at && 0 <= i < |s| ==> '0' <= s[i] <= '9'
  }

  /** The same shape, character by character. */
  predicate IsTimeText(s: string) {
    && (|s| == 25 || (|s| == 32 && s[19] == '.' && AreDigits(s, {20, 21, 22, 23, 24, 25})))
    && AreDigits(s, {0, 1, 2, 3, 5, 6, 8, 9, 11, 12, 14, 15, 17, 18})
    && s[4] == '-' && s[7] == '-' && s[10] == 'T' && s[13] == ':' && s[16] == ':'
    && s[|s| - 6] == '+' && s[|s| - 5] == '0' && s[|s| - 4] == '0' && s[|s| - 3] == ':' && s[|s| - 2] == '0'
    && s[|s| - 1] == '0'
  }

  lemma DigitsOf(s: string, i: nat, j: nat)
    requires i <= j <= |s|
    ensures AllDigits(s[i..j]) <==> forall k :: i <= k < j ==> '0' <= s[k] <= '9'
  {
    assert forall k :: i <= k < j ==> s[i..j][k - i] == s[k];
  }

  lemma ShapeInCharacters(s: string)
    ensures IsoUtcShape(s) <==> IsTimeText(s)
  {
    if |s| == 25 || |s| == 32 {
      DigitsOf(s, 0, 4);
      DigitsOf(s, 5, 7);
      DigitsOf(s, 8, 10);
      DigitsOf(s, 11, 13);
      DigitsOf(s, 14, 16);
      DigitsOf(s, 17, 19);
      if |s| == 32 {
        DigitsOf(s, 20, 26);
      }
      assert s[|s| - 6..] == [s[|s| - 6], s[|s| - 5], s[|s| - 4], s[|s| - 3], s[|s| - 2], s[|s| - 1]];
    }
  }

  /** A text of this shape is read as the time it shows, if there is such a time; any other is left to the library. */
  lemma TimesAreRead(s: string, other: string -> Option<DateTime>, d: DateTime)
    ensures !IsTimeText(s) ==> FromIso(s, other) == other(s)
    ensures IsTimeText(s) ==>
              (FromIso(s, other) == Some(d) <==>
                 && Reads(s, 0, 4, d.year) && Reads(s, 5, 7, d.month) && Reads(s, 8, 10, d.day)
                 && Reads(s, 11, 13, d.hour) && Reads(s, 14, 16, d.minute) && Reads(s, 17, 19, d.second)
                 && if |s| == 25 then d.micro == 0 else Reads(s, 20, 26, d.micro))
  {
    ShapeInCharacters(s);
  }

  /** The calendar: thirty-one days but for the four short months and February, and real times of day. */
  lemma DatesInFields(c: Civil)
    ensures ValidCivil(c) <==>
              && 1 <= c.year <= 9999 && c.month in {1, 2, 3, 4, 5, 6, 7, 8, 9, 10, 11, 12} && 1 <= c.day <= 31
              && (c.day == 31 ==> c.month !in {2, 4, 6, 9, 11}) && (c.day == 30 ==> c.month != 2)
              && (c.day == 29 && c.month == 2 ==> c.year % 400 == 0 || (c.year % 4 == 0 && c.year % 100 != 0))
              && c.hour <= 23 && c.minute <= 59 && c.second <= 59 && c.micro <= 999999
  {
  }

  /** Of the 2^64 bit patterns those with all exponent bits set are no finite floats, and the two zeros are equal. */
  lemma FloatsInNumbers()
    ensures FINITE_FLOATS == 0x1_0000_0000_0000_0000 - 0x20_0000_0000_0000 - 1
  {
  }

  /** Decimal numerals, most significant digit first, without leading zeros. */
  lemma NumeralsByPosition(a: nat, d: nat, s: string)
    requires d < 10 && AllDigits(s)
    ensures Digits(d) == ["0123456789"[d]]
    ensures a > 0 ==> Digits(10 * a + d) == Digits(a) + Digits(d)
    ensures NumberOf("") == 0 && AllDigits(s + Digits(d)) && NumberOf(s + Digits(d)) == 10 * NumberOf(s) + d
  {
    assert (s + Digits(d))[..|s|] == s;
  }

  // ---- What is written

  /** The members in braces, with commas between them and nothing else. */
  function InBraces(members: seq<string>): string
    requires members != []
  {
    "{" + Listed(members)
  }

  function Listed(members: seq<string>): string
    requires members != []
  {
    members[0] + (if |members| == 1 then "}" else "," + Listed(members[1..]))
  }

  function Texts(fl: FloatText, ms: seq<Member>): (r: seq<string>)
    requires Flat(ms)
    ensures |r| == |ms| && forall i :: 0 <= i < |ms| ==> r[i] == MemberText(fl, ms[i])
  {
    seq(|ms|, i requires 0 <= i < |ms| => MemberText(fl, ms[i]))
  }

  lemma {:induction false} MembersAreListed(fl: FloatText, ms: seq<Member>)
    requires Flat(ms) && ms != []
    ensures MembersText(fl, ms) == Listed(Texts(fl, ms))
  {
    if |ms| > 1 {
      MembersAreListed(fl, ms[1..]);
      assert Texts(fl, ms)[1..] == Texts(fl, ms[1..]);
    }
  }

  function Quoted(s: string): string {
    "\"" + s + "\""
  }

  /** The members of a feed cursor: compact, and in the order of their keys. */
  function FeedMembers(c: FC.FeedCursor): seq<string>
    requires c.objectId > 0 && (c.phase.Backfill? ==> c.isFeatured.Some?)
  {
    (if c.phase.Following? then [] else if c.isFeatured.value then ["\"ft\":1"] else ["\"ft\":0"])
    + ["\"id\":" + Digits(c.objectId),
       if c.phase.Following? then "\"p\":\"f\"" else "\"p\":\"b\"",
       if c.contentType.Post? then "\"t\":\"post\"" else "\"t\":\"reel\"",
       "\"ts\":" + Quoted(IsoFormat(c.createdAt)),
       "\"v\":1"]
  }

  lemma FlagTexts(fl: FloatText)
    ensures MemberText(fl, Member("ft", JInt(1))) == "\"ft\":1" && MemberText(fl, Member("ft", JInt(0))) == "\"ft\":0"
    ensures MemberText(fl, Member("v", JInt(1))) == "\"v\":1"
  {
    assert Digits(0) == "0" && Digits(1) == "1";
  }

  lemma PhaseTexts(fl: FloatText)
    requires Plain("f") && Plain("b")
    ensures MemberText(fl, Member("p", JStr("f"))) == "\"p\":\"f\""
    ensures MemberText(fl, Member("p", JStr("b"))) == "\"p\":\"b\""
  {
  }

  lemma FeedTypeTexts(fl: FloatText)
    requires Plain("post") && Plain("reel")
    ensures MemberText(fl, Member("t", JStr("post"))) == "\"t\":\"post\""
    ensures MemberText(fl, Member("t", JStr("reel"))) == "\"t\":\"reel\""
  {
  }

  lemma ModeTexts(fl: FloatText)
    requires Plain("r") && Plain("c")
    ensures MemberText(fl, Member("m", JStr("r"))) == "\"m\":\"r\""
    ensures MemberText(fl, Member("m", JStr("c"))) == "\"m\":\"c\""
  {
  }

  lemma SearchTypeTexts(fl: FloatText)
    requires Plain("business") && Plain("product")
    ensures MemberText(fl, Member("t", JStr("business"))) == "\"t\":\"business\""
    ensures MemberText(fl, Member("t", JStr("product"))) == "\"t\":\"product\""
  {
  }

  lemma ValueTexts(fl: FloatText, id: nat, at: string)
    requires Plain(at)
    ensures MemberText(fl, Member("id", JInt(id))) == "\"id\":" + Digits(id)
    ensures MemberText(fl, Member("ts", JStr(at))) == "\"ts\":" + Quoted(at)
    ensures MemberText(fl, Member("sec", JStr(at))) == "\"sec\":" + Quoted(at)
  {
    assert "\"" + "id" + "\":" == "\"id\":" && "\"" + "ts" + "\":" == "\"ts\":" && "\"" + "sec" + "\":" == "\"sec\":";
  }

  /** The payload of a feed token, character by character. */
  lemma FeedPayload(fl: FloatText, c: FC.FeedCursor)
    requires FC.WellFormed(c)
    ensures Flat(FC.Payload(c)) && FC.Payload(c) != []
    ensures Dumps(fl, FC.Payload(c)) == InBraces(FeedMembers(c))
  {
    FC.PayloadIsFlat(c);
    MembersAreListed(fl, FC.Payload(c));
    FeedTexts(fl, c);
  }

  lemma FeedTexts(fl: FloatText, c: FC.FeedCursor)
    requires FC.WellFormed(c) && Flat(FC.Payload(c))
    ensures Texts(fl, FC.Payload(c)) == FeedMembers(c)
  {
    IsoFormatIsPlain(c.createdAt);
    FlagTexts(fl);
    PhaseTexts(fl);
    FeedTypeTexts(fl);
    ValueTexts(fl, c.objectId, IsoFormat(c.createdAt));
  }

  function SearchMembers(fl: FloatText, c: SC.SearchCursor): seq<string>
    requires c.objectId > 0
  {
    [if c.isFeatured then "\"ft\":1" else "\"ft\":0",
     "\"id\":" + Digits(c.objectId),
     if c.mode.Relevance? then "\"m\":\"r\"" else "\"m\":\"c\"",
     "\"sec\":" + (match c.secondary case Rank(x) => fl.show(x) case Created(at) => Quoted(IsoFormat(at))),
     if c.contentType.Business? then "\"t\":\"business\"" else "\"t\":\"product\"",
     "\"v\":1"]
  }

  lemma SearchPayload(fl: FloatText, c: SC.SearchCursor)
    requires SC.WellFormed(c)
    ensures Flat(SC.Payload(c)) && SC.Payload(c) != []
    ensures Dumps(fl, SC.Payload(c)) == InBraces(SearchMembers(fl, c))
  {
    SC.PayloadIsFlat(c);
    MembersAreListed(fl, SC.Payload(c));
    SearchTexts(fl, c);
  }

  lemma SearchTexts(fl: FloatText, c: SC.SearchCursor)
    requires SC.WellFormed(c) && Flat(SC.Payload(c))
    ensures Texts(fl, SC.Payload(c)) == SearchMembers(fl, c)
  {
    SearchNames(fl, c);
    SearchValues(fl, c);
  }

  lemma SearchNames(fl: FloatText, c: SC.SearchCursor)
    requires SC.WellFormed(c) && Flat(SC.Payload(c))
    ensures forall i :: i in {0, 2, 4, 5} ==> MemberText(fl, SC.Payload(c)[i]) == SearchMembers(fl, c)[i]
  {
    FlagTexts(fl);
    ModeTexts(fl);
    SearchTypeTexts(fl);
  }

  lemma SearchValues(fl: FloatText, c: SC.SearchCursor)
    requires SC.WellFormed(c) && Flat(SC.Payload(c))
    ensures forall i :: i in {1, 3} ==> MemberText(fl, SC.Payload(c)[i]) == SearchMembers(fl, c)[i]
  {
    if c.secondary.Created? {
      IsoFormatIsPlain(c.secondary.at);
      ValueTexts(fl, c.objectId, IsoFormat(c.secondary.at));
    } else {
      ValueTexts(fl, c.objectId, "");
      RankText(fl, c.secondary.place);
    }
  }

  lemma RankText(fl: FloatText, x: Float)
    ensures MemberText(fl, Member("sec", JFloat(x))) == "\"sec\":" + fl.show(x)
  {
    assert "\"" + "sec" + "\":" == "\"sec\":";
  }

  /** A token is the base64 of the ASCII codes of its payload. */
  lemma TokensAreBase64(lib: Library, f: FC.FeedCursor, c: SC.SearchCursor)
    requires FC.WellFormed(f) && SC.WellFormed(c) && SC.Printable(lib, c.mode)
    ensures AsciiText(InBraces(FeedMembers(f))) && AsciiText(InBraces(SearchMembers(lib.floats, c)))
    ensures FC.EncodeCursor(lib, f) == Encode(BytesOf(InBraces(FeedMembers(f))))
    ensures SC.EncodeCursor(lib, c) == Encode(BytesOf(InBraces(SearchMembers(lib.floats, c))))
  {
    FeedPayload(lib.floats, f);
    FC.PayloadIsFlat(f);
    MembersTextAscii(lib.floats, FC.Payload(f));
    SearchPayload(lib.floats, c);
    SC.PayloadIsFlat(c);
    MembersTextAscii(lib.floats, SC.Payload(c));
  }

  lemma CodesOfText(s: string)
    requires AsciiText(s)
    ensures |BytesOf(s)| == |s| && forall i :: 0 <= i < |s| ==> BytesOf(s)[i] == s[i] as int < 128
  {
  }

  // ---- What is read

  /** Printable ASCII without quotes and backslashes. */
  predicate IsUnescaped(s: string) {
    forall i :: 0 <= i < |s| ==> 0x20 <= s[i] as int <= 0x7E && s[i] != '"' && s[i] != '\\'
  }

  /** The text of a value: a quoted string, a numeral without leading zeros, or a float the library reads. */
  ghost predicate IsValueText(fl: FloatText, t: string, v: Json) {
    match v
    case JStr(s) => t == "\"" + s + "\"" && IsUnescaped(s)
    case JInt(n) => t != "" && AllDigits(t) && (t[0] == '0' ==> |t| == 1) && NumberOf(t) == n
    case JFloat(x) => !AllDigits(t) && fl.read(t) == Some(x)
    case _ => false
  }

  ghost predicate IsMemberText(fl: FloatText, t: string, m: Member) {
    IsUnescaped(m.key) && exists v :: t == "\"" + m.key + "\"" + ":" + v && IsValueText(fl, v, m.value)
  }

  lemma {:induction false} StringWasThere(s: string)
    requires ReadString(s).Some?
    ensures var (text, rest) := ReadString(s).value;
            s == "\"" + text + "\"" + rest && IsUnescaped(text)
  {
    var n := PlainRun(s[1..]);
    assert s[1..][..n] == s[1..n + 1];
    assert s == [s[0]] + s[1..n + 1] + [s[n + 1]] + s[n + 2..];
  }

  lemma {:induction false} NumberWasThere(fl: FloatText, s: string) returns (t: string)
    requires ReadNumber(fl, s).Some?
    ensures s == t + ReadNumber(fl, s).value.1 && IsValueText(fl, t, ReadNumber(fl, s).value.0)
  {
    var n := NumberRun(s);
    t := s[..n];
    assert s == t + s[n..];
    if !(AllDigits(t) && (n == 1 || s[0] != '0')) {
      assert FloatShape(t);
      var i :| 0 <= i < |t| && t[i] in {'.', 'e', 'E'};
      assert !IsDigit(t[i]);
    }
  }

  lemma {:induction false} ValueWasThere(fl: FloatText, s: string) returns (t: string)
    requires ReadValue(fl, s).Some?
    ensures s == t + ReadValue(fl, s).value.1 && IsValueText(fl, t, ReadValue(fl, s).value.0)
  {
    if s != [] && s[0] == '"' {
      StringWasThere(s);
      t := "\"" + ReadString(s).value.0 + "\"";
    } else {
      t := NumberWasThere(fl, s);
    }
  }

  lemma {:induction false} MemberWasThere(fl: FloatText, s: string) returns (t: string)
    requires ReadMember(fl, s).Some?
    ensures s == t + ReadMember(fl, s).value.1 && IsMemberText(fl, t, ReadMember(fl, s).value.0)
  {
    StringWasThere(s);
    var (key, rest) := ReadString(s).value;
    var v := ValueWasThere(fl, rest[1..]);
    t := "\"" + key + "\"" + ":" + v;
    assert rest == ":" + rest[1..];
    KeyThenValue(key, v, ReadMember(fl, s).value.1);
  }

  lemma KeyThenValue(key: string, v: string, after: string)
    ensures "\"" + key + "\"" + (":" + (v + after)) == ("\"" + key + "\"" + ":" + v) + after
  {
  }

  lemma ListedCons(t: string, more: seq<string>)
    requires more != []
    ensures Listed([t] + more) == t + ("," + Listed(more))
  {
    assert ([t] + more)[1..] == more;
  }

  lemma {:induction false} MembersWereThere(fl: FloatText, s: string) returns (texts: seq<string>)
    requires ReadMembers(fl, s).Some?
    ensures texts != [] && s == Listed(texts) && |texts| == |ReadMembers(fl, s).value|
    ensures forall i :: 0 <= i < |texts| ==> IsMemberText(fl, texts[i], ReadMembers(fl, s).value[i])
    decreases |s|
  {
    var t := MemberWasThere(fl, s);
    var rest := ReadMember(fl, s).value.1;
    if rest == "}" {
      texts := [t];
    } else {
      var more := MembersWereThere(fl, rest[1..]);
      texts := [t] + more;
      ListedCons(t, more);
      assert rest == "," + rest[1..];
    }
  }

  /** What is read without the library is an object, and its members are those spelled out in the braces. */
  lemma LoadedWasThere(fl: FloatText, raw: seq<Byte>, other: seq<Byte> -> Option<Json>)
    returns (texts: seq<string>, ms: seq<Member>)
    ensures || Loads(fl, raw, other) == other(raw)
            || (&& |texts| == |ms| > 0 && TextOf(raw) == InBraces(texts)
                && (forall i :: 0 <= i < |texts| ==> IsMemberText(fl, texts[i], ms[i]))
                && Loads(fl, raw, other) == Some(JObject(ObjectOf(ms))))
  {
    texts, ms := [], [];
    if Loads(fl, raw, other) != other(raw) {
      ms := ReadMembers(fl, TextOf(raw)[1..]).value;
      texts := MembersWereThere(fl, TextOf(raw)[1..]);
      assert TextOf(raw) == "{" + TextOf(raw)[1..];
    }
  }

  /** Of members with one key the last counts. */
  lemma {:induction false} LastMemberCounts(ms: seq<Member>, k: nat)
    requires k < |ms| && forall i :: k < i < |ms| ==> ms[i].key != ms[k].key
    ensures ms[k].key in ObjectOf(ms) && ObjectOf(ms)[ms[k].key] == ms[k].value
  {
    var rest := ms[1..];
    assert forall i :: 0 <= i < |rest| ==> rest[i] == ms[i + 1];
    if k > 0 {
      LastMemberCounts(rest, k - 1);
    } else if ms[0].key in ObjectOf(rest) {
      var j := ObjectKeys(rest, ms[0].key);
    }
  }

  // ---- What is accepted

  /** The keys, the version, the names and the flag are exactly those written, the id is positive, and the time is one
    * the library reads.
    */
  predicate IsFeedPayload(lib: Library, fields: map<string, Json>, c: FC.FeedCursor) {
    && fields.Keys == (if c.phase.Following? then {"id", "p", "t", "ts", "v"} else {"ft", "id", "p", "t", "ts", "v"})
    && fields["v"] == JInt(1) && fields["p"] == JStr(if c.phase.Following? then "f" else "b")
    && fields["t"] == JStr(if c.contentType.Post? then "post" else "reel")
    && fields["id"] == JInt(c.objectId) && c.objectId > 0
    && fields["ts"].JStr? && FromIso(fields["ts"].text, lib.fromIso) == Some(c.createdAt)
    && if c.phase.Following? then c.isFeatured == None
       else c.isFeatured.Some? && fields["ft"] == JInt(if c.isFeatured.value then 1 else 0)
  }

  /** At most 512 characters of the alphabet, with one line feed allowed at the end. */
  predicate IsToken(token: string) {
    && 0 < |token| <= 512 && (token[|token| - 1] == '\n' ==> |token| > 1)
    && forall i :: 0 <= i < |token| ==>
         || 'A' <= token[i] <= 'Z' || 'a' <= token[i] <= 'z' || '0' <= token[i] <= '9' || token[i] in {'-', '_'}
         || (i == |token| - 1 && token[i] == '\n')
  }

  lemma AcceptableInCharacters(token: string)
    ensures AcceptableToken(token) <==> IsToken(token)
  {
    var body := SymbolsOf(token);
    if AcceptableToken(token) {
      assert forall i :: 0 <= i < |body| ==> token[i] == body[i];
    }
  }

  /** A feed token is accepted exactly if its payload is one a cursor could have, and then as that cursor. */
  lemma AcceptedFeedTokens(lib: Library, token: string, c: FC.FeedCursor)
    ensures FC.DecodeCursor(lib, token) == Some(c) <==>
              && IsToken(token) && MatchesTokenPattern(token)
              && PayloadOf(lib, token).Some? && PayloadOf(lib, token).value.JObject?
              && IsFeedPayload(lib, PayloadOf(lib, token).value.fields, c)
  {
    AcceptableInCharacters(token);
    if AcceptableToken(token) && PayloadOf(lib, token).Some? && PayloadOf(lib, token).value.JObject? {
      AcceptedFeedPayload(lib, PayloadOf(lib, token).value.fields, c);
    }
  }

  lemma AcceptedFeedPayload(lib: Library, fields: map<string, Json>, c: FC.FeedCursor)
    ensures FC.DecodePayload(lib, JObject(fields)) == Some(c) <==> IsFeedPayload(lib, fields, c)
  {
  }

  predicate IsSearchPayload(lib: Library, mode: SC.Mode, fields: map<string, Json>, c: SC.SearchCursor) {
    && fields.Keys == {"ft", "id", "m", "sec", "t", "v"} && c.mode == mode
    && fields["v"] == JInt(1) && fields["m"] == JStr(if mode.Relevance? then "r" else "c")
    && fields["t"] == JStr(if c.contentType.Business? then "business" else "product")
    && fields["id"] == JInt(c.objectId) && c.objectId > 0 && fields["ft"] == JInt(if c.isFeatured then 1 else 0)
    && var v := fields["sec"];
       if mode.Recency? then
         c.secondary.Created? && v.JStr? && FromIso(v.text, lib.fromIso) == Some(c.secondary.at)
       else
         || (v.JFloat? && c.secondary == SC.Rank(v.place))
         || (v.JInt? && c.secondary == SC.Rank(lib.floats.fromInt(v.number)))
  }

  /** A search token likewise, and only in its own mode. */
  lemma AcceptedSearchTokens(lib: Library, token: string, mode: SC.Mode, c: SC.SearchCursor)
    ensures SC.DecodeCursor(lib, token, mode) == Some(c) <==>
              && IsToken(token) && MatchesTokenPattern(token)
              && PayloadOf(lib, token).Some? && PayloadOf(lib, token).value.JObject?
              && IsSearchPayload(lib, mode, PayloadOf(lib, token).value.fields, c)
  {
    AcceptableInCharacters(token);
    if AcceptableToken(token) && PayloadOf(lib, token).Some? && PayloadOf(lib, token).value.JObject? {
      AcceptedSearchPayload(lib, PayloadOf(lib, token).value.fields, mode, c);
    }
  }

  lemma AcceptedSearchPayload(lib: Library, fields: map<string, Json>, mode: SC.Mode, c: SC.SearchCursor)
    ensures SC.DecodePayload(lib, JObject(fields), mode) == Some(c) <==> IsSearchPayload(lib, mode, fields, c)
  {
  }
}
