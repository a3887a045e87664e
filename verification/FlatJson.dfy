/** Compact JSON objects whose values are plain strings, natural numbers and floats: what the cursors
  * write.
  *
  * Reading is `json.loads`.  Text outside the compact flat form is handed to `other`, which stands for
  * whatever the library makes of it, so nothing is claimed about such text and nothing is excluded.
  */
module FlatJson {
  import opened Wrappers
  import opened Decimal
  import opened Bytes

  /** How many finite 64-bit floats differ: 2047 exponents with 2^52 fractions and two signs, the two zeros being
    * equal.
    */
  const FINITE_FLOATS := 2 * 2047 * 0x10_0000_0000_0000 - 1

  /** A finite float is modelled by its place in the order of these. */
  type Float = x: int | 0 <= x < FINITE_FLOATS

  datatype Json =
    | JNull
    | JBool(truth: bool)
    | JInt(number: int)
    | JFloat(place: Float)
    | JStr(text: string)
    | JList(items: seq<Json>)
    | JObject(fields: map<string, Json>)

  datatype Member = Member(key: string, value: Json)

  /** The printing, reading and conversion of floats, which belong to the Python runtime. */
  datatype FloatText = FloatText(show: Float -> string, read: string -> Option<Float>, fromInt: int -> Float)

  predicate NumberChar(c: char) {
    IsDigit(c) || c in {'.', 'e', 'E', '+', '-'}
  }

  /** A numeral with a point or an exponent. */
  predicate FloatShape(s: string) {
    && s != [] && (forall i :: 0 <= i < |s| ==> NumberChar(s[i]))
    && exists i :: 0 <= i < |s| && s[i] in {'.', 'e', 'E'}
  }

  /** `repr` of a finite float is such a numeral, and reading it gives the float back. */
  ghost predicate Faithful(fl: FloatText) {
    forall x: Float :: FloatShape(fl.show(x)) && fl.read(fl.show(x)) == Some(x)
  }

  /** Characters that JSON text carries unescaped. */
  predicate PlainChar(c: char) {
    ' ' <= c <= '~' && c != '"' && c != '\\'
  }

  predicate Plain(s: string) {
    forall i :: 0 <= i < |s| ==> PlainChar(s[i])
  }

  predicate FlatMember(m: Member) {
    Plain(m.key) && match m.value {
      case JInt(n) => n >= 0
      case JFloat(_) => true
      case JStr(s) => Plain(s)
      case _ => false
    }
  }

  predicate Flat(ms: seq<Member>) {
    forall i :: 0 <= i < |ms| ==> FlatMember(ms[i])
  }

  predicate WithFloats(ms: seq<Member>) {
    exists i :: 0 <= i < |ms| && ms[i].value.JFloat?
  }

  function ValueText(fl: FloatText, v: Json): string
    requires FlatMember(Member("", v))
  {
    match v
    case JInt(n) => Digits(n)
    case JFloat(x) => fl.show(x)
    case JStr(s) => "\"" + s + "\""
  }

  function MemberText(fl: FloatText, m: Member): string
    requires FlatMember(m)
  {
    "\"" + m.key + "\":" + ValueText(fl, m.value)
  }

  /** The members from here to the closing brace. */
  function MembersText(fl: FloatText, ms: seq<Member>): string
    requires Flat(ms) && ms != []
  {
    MemberText(fl, ms[0]) + (if |ms| == 1 then "}" else "," + MembersText(fl, ms[1..]))
  }

  /** json.dumps(payload, separators=(",", ":")) with the members in the given order. */
  function Dumps(fl: FloatText, ms: seq<Member>): string
    requires Flat(ms) && ms != []
  {
    "{" + MembersText(fl, ms)
  }

  // ---- Reading

  function PlainRun(s: string): (n: nat)
    ensures n <= |s| && Plain(s[..n])
    ensures n < |s| ==> !PlainChar(s[n])
  {
    if s == [] || !PlainChar(s[0]) then 0
    else
      var n := PlainRun(s[1..]);
      assert s[..n + 1] == [s[0]] + s[1..][..n];
      n + 1
  }

  function NumberRun(s: string): (n: nat)
    ensures n <= |s|
    ensures n < |s| ==> !NumberChar(s[n])
  {
    if s == [] || !NumberChar(s[0]) then 0 else NumberRun(s[1..]) + 1
  }

  /** A quoted plain string at the start of `s`, and what follows it. */
  function ReadString(s: string): (r: Option<(string, string)>)
    ensures r.Some? ==> |r.value.1| < |s|
  {
    if s == [] || s[0] != '"' then None
    else
      var n := PlainRun(s[1..]);
      if n + 1 < |s| && s[n + 1] == '"' then Some((s[1..n + 1], s[n + 2..])) else None
  }

  function ReadNumber(fl: FloatText, s: string): (r: Option<(Json, string)>)
    ensures r.Some? ==> |r.value.1| < |s|
  {
    var n := NumberRun(s);
    if n == 0 then None
    else if AllDigits(s[..n]) && (n == 1 || s[0] != '0') then Some((JInt(NumberOf(s[..n])), s[n..]))
    else if FloatShape(s[..n]) && fl.read(s[..n]).Some? then Some((JFloat(fl.read(s[..n]).value), s[n..]))
    else None
  }

  function ReadValue(fl: FloatText, s: string): (r: Option<(Json, string)>)
    ensures r.Some? ==> |r.value.1| < |s|
  {
    if s != [] && s[0] == '"' then
      match ReadString(s)
      case None => None
      case Some(t) => Some((JStr(t.0), t.1))
    else
      ReadNumber(fl, s)
  }

  function ReadMember(fl: FloatText, s: string): (r: Option<(Member, string)>)
    ensures r.Some? ==> |r.value.1| < |s|
  {
    match ReadString(s)
    case None => None
    case Some(k) =>
      if k.1 == [] || k.1[0] != ':' then None
      else
        match ReadValue(fl, k.1[1..])
        case None => None
        case Some(v) => Some((Member(k.0, v.0), v.1))
  }

  function ReadMembers(fl: FloatText, s: string): Option<seq<Member>>
    decreases |s|
  {
    match ReadMember(fl, s)
    case None => None
    case Some(m) =>
      if m.1 == "}" then Some([m.0])
      else if m.1 != [] && m.1[0] == ',' then
        match ReadMembers(fl, m.1[1..])
        case None => None
        case Some(ms) => Some([m.0] + ms)
      else None
  }

  /** The object of the members; a repeated key keeps its last value. */
  function ObjectOf(ms: seq<Member>): map<string, Json> {
    if ms == [] then map[] else map[ms[0].key := ms[0].value] + ObjectOf(ms[1..])
  }

  function TextOf(raw: seq<Byte>): string {
    seq(|raw|, i requires 0 <= i < |raw| => raw[i] as char)
  }

  predicate Ascii(raw: seq<Byte>) {
    forall i :: 0 <= i < |raw| ==> raw[i] < 128
  }

  function BytesOf(s: string): seq<Byte>
    requires AsciiText(s)
  {
    seq(|s|, i requires 0 <= i < |s| => s[i] as int)
  }

  /** json.loads(raw.decode("utf-8")); `None` is a ValueError. */
  function Loads(fl: FloatText, raw: seq<Byte>, other: seq<Byte> -> Option<Json>): Option<Json> {
    if Ascii(raw) && raw != [] && raw[0] == '{' as int && ReadMembers(fl, TextOf(raw)[1..]).Some? then
      Some(JObject(ObjectOf(ReadMembers(fl, TextOf(raw)[1..]).value)))
    else
      other(raw)
  }

  // ---- Reading back what was written

  lemma {:induction false} PlainRunStops(s: string, rest: string)
    requires Plain(s) && (rest == [] || !PlainChar(rest[0]))
    ensures PlainRun(s + rest) == |s|
  {
    if s != [] {
      PlainRunStops(s[1..], rest);
      assert (s + rest)[1..] == s[1..] + rest;
    } else {
      assert s + rest == rest;
    }
  }

  lemma {:induction false} NumberRunStops(s: string, rest: string)
    requires (forall i :: 0 <= i < |s| ==> NumberChar(s[i])) && (rest == [] || !NumberChar(rest[0]))
    ensures NumberRun(s + rest) == |s|
  {
    if s != [] {
      NumberRunStops(s[1..], rest);
      assert (s + rest)[1..] == s[1..] + rest;
    } else {
      assert s + rest == rest;
    }
  }

  lemma ReadStringBack(t: string, rest: string)
    requires Plain(t)
    ensures ReadString("\"" + t + "\"" + rest) == Some((t, rest))
  {
    var s := "\"" + t + "\"" + rest;
    assert s[1..] == t + ("\"" + rest);
    PlainRunStops(t, "\"" + rest);
    assert s[1..|t| + 1] == t;
    assert s[|t| + 2..] == rest;
  }

  lemma ReadNumberBack(fl: FloatText, v: Json, text: string, rest: string)
    requires v.JFloat? ==> Faithful(fl)
    requires v.JInt? || v.JFloat?
    requires FlatMember(Member("", v)) && text == ValueText(fl, v) && (rest == [] || !NumberChar(rest[0]))
    ensures ReadNumber(fl, text + rest) == Some((v, rest))
  {
    NumberRunStops(text, rest);
    var s := text + rest;
    assert s[..|text|] == text && s[|text|..] == rest && s[0] == text[0];
    if v.JInt? {
      NumberOfDigits(v.number);
    } else {
      var i :| 0 <= i < |text| && text[i] in {'.', 'e', 'E'};
      assert !AllDigits(text);
    }
  }

  lemma ReadValueBack(fl: FloatText, v: Json, rest: string)
    requires v.JFloat? ==> Faithful(fl)
    requires FlatMember(Member("", v)) && (rest == [] || !NumberChar(rest[0]))
    ensures ReadValue(fl, ValueText(fl, v) + rest) == Some((v, rest))
  {
    if v.JStr? {
      ReadStringBack(v.text, rest);
    } else {
      ReadNumberBack(fl, v, ValueText(fl, v), rest);
    }
  }

  lemma ReadMemberBack(fl: FloatText, m: Member, rest: string)
    requires m.value.JFloat? ==> Faithful(fl)
    requires FlatMember(m) && (rest == [] || !NumberChar(rest[0]))
    ensures ReadMember(fl, MemberText(fl, m) + rest) == Some((m, rest))
  {
    var body := ValueText(fl, m.value) + rest;
    var tail := ":" + body;
    assert MemberText(fl, m) + rest == "\"" + m.key + "\"" + tail;
    ReadStringBack(m.key, tail);
    assert tail[1..] == body;
    ReadValueBack(fl, m.value, rest);
  }

  lemma ReadLast(fl: FloatText, m: Member)
    requires m.value.JFloat? ==> Faithful(fl)
    requires FlatMember(m)
    ensures ReadMembers(fl, MemberText(fl, m) + "}") == Some([m])
  {
    ReadMemberBack(fl, m, "}");
  }

  lemma ReadNext(fl: FloatText, m: Member, tail: string, ms: seq<Member>)
    requires m.value.JFloat? ==> Faithful(fl)
    requires FlatMember(m) && ReadMembers(fl, tail) == Some(ms)
    ensures ReadMembers(fl, MemberText(fl, m) + ("," + tail)) == Some([m] + ms)
  {
    ReadMemberBack(fl, m, "," + tail);
    assert ("," + tail)[1..] == tail;
  }

  lemma {:induction false} ReadMembersBack(fl: FloatText, ms: seq<Member>)
    requires WithFloats(ms) ==> Faithful(fl)
    requires Flat(ms) && ms != []
    ensures ReadMembers(fl, MembersText(fl, ms)) == Some(ms)
  {
    assert ms == [ms[0]] + ms[1..];
    if |ms| > 1 {
      RestMembers(ms);
      ReadMembersBack(fl, ms[1..]);
      ReadNext(fl, ms[0], MembersText(fl, ms[1..]), ms[1..]);
      MembersTextStep(fl, ms);
    } else {
      assert ms == [ms[0]];
      ReadLast(fl, ms[0]);
    }
  }

  lemma MembersTextStep(fl: FloatText, ms: seq<Member>)
    requires Flat(ms) && |ms| > 1
    ensures MembersText(fl, ms) == MemberText(fl, ms[0]) + ("," + MembersText(fl, ms[1..]))
  {
  }

  lemma RestMembers(ms: seq<Member>)
    requires Flat(ms) && |ms| > 1
    ensures Flat(ms[1..]) && FlatMember(ms[0])
    ensures WithFloats(ms) <==> ms[0].value.JFloat? || WithFloats(ms[1..])
  {
    assert forall i :: 0 <= i < |ms| - 1 ==> ms[1..][i] == ms[i + 1];
    if WithFloats(ms) && !ms[0].value.JFloat? {
      var i :| 0 <= i < |ms| && ms[i].value.JFloat?;
      assert ms[1..][i - 1].value.JFloat?;
    }
  }

  predicate AsciiText(s: string) {
    forall i :: 0 <= i < |s| ==> s[i] < 128 as char
  }

  lemma MemberTextAscii(fl: FloatText, m: Member)
    requires m.value.JFloat? ==> Faithful(fl)
    requires FlatMember(m)
    ensures AsciiText(MemberText(fl, m))
  {
    assert AsciiText(ValueText(fl, m.value));
  }

  lemma {:induction false} MembersTextAscii(fl: FloatText, ms: seq<Member>)
    requires WithFloats(ms) ==> Faithful(fl)
    requires Flat(ms) && ms != []
    ensures AsciiText(MembersText(fl, ms))
  {
    MemberTextAscii(fl, ms[0]);
    if |ms| > 1 {
      MembersTextAscii(fl, ms[1..]);
    }
  }

  lemma LoadsText(fl: FloatText, text: string, ms: seq<Member>, other: seq<Byte> -> Option<Json>)
    requires AsciiText(text) && text != [] && text[0] == '{' && ReadMembers(fl, text[1..]) == Some(ms)
    ensures Loads(fl, BytesOf(text), other) == Some(JObject(ObjectOf(ms)))
  {
    assert TextOf(BytesOf(text)) == text;
  }

  /** Loading the dumped object gives back its fields. */
  lemma LoadsInvertsDumps(fl: FloatText, ms: seq<Member>, other: seq<Byte> -> Option<Json>)
    requires WithFloats(ms) ==> Faithful(fl)
    requires Flat(ms) && ms != []
    ensures AsciiText(Dumps(fl, ms))
    ensures Loads(fl, BytesOf(Dumps(fl, ms)), other) == Some(JObject(ObjectOf(ms)))
  {
    MembersTextAscii(fl, ms);
    ReadMembersBack(fl, ms);
    var members := MembersText(fl, ms);
    assert ("{" + members)[1..] == members;
    LoadsText(fl, "{" + members, ms, other);
  }

  lemma {:induction false} ObjectKeys(ms: seq<Member>, k: string) returns (i: nat)
    requires k in ObjectOf(ms)
    ensures i < |ms| && ms[i].key == k
  {
    if ms[0].key == k {
      i := 0;
    } else {
      i := ObjectKeys(ms[1..], k);
      i := i + 1;
    }
  }

  /** With distinct keys, each member is a field of the object. */
  lemma {:induction false} ObjectField(ms: seq<Member>, i: nat)
    requires forall a, b :: 0 <= a < b < |ms| ==> ms[a].key != ms[b].key
    requires i < |ms|
    ensures ms[i].key in ObjectOf(ms) && ObjectOf(ms)[ms[i].key] == ms[i].value
  {
    var tail := ms[1..];
    assert forall j :: 0 <= j < |tail| ==> tail[j] == ms[j + 1];
    if i > 0 {
      ObjectField(tail, i - 1);
    } else if ms[0].key in ObjectOf(tail) {
      var j := ObjectKeys(tail, ms[0].key);
    }
  }

  /** The object has exactly the given keys when the members have. */
  lemma ObjectHasKeys(ms: seq<Member>, fields: map<string, Json>, keys: set<string>)
    requires fields == ObjectOf(ms)
    requires forall a, b :: 0 <= a < b < |ms| ==> ms[a].key != ms[b].key
    requires forall i :: 0 <= i < |ms| ==> ms[i].key in keys
    requires forall k :: k in keys ==> exists i :: 0 <= i < |ms| && ms[i].key == k
    ensures fields.Keys == keys
    ensures forall i :: 0 <= i < |ms| ==> fields[ms[i].key] == ms[i].value
  {
    forall i | 0 <= i < |ms|
      ensures ms[i].key in fields && fields[ms[i].key] == ms[i].value
    {
      ObjectField(ms, i);
    }
    forall k | k in fields
      ensures k in keys
    {
      var i := ObjectKeys(ms, k);
    }
  }

  /** The length of a text whose members are short. */
  lemma {:induction false} MembersLength(fl: FloatText, ms: seq<Member>)
    requires Flat(ms) && ms != []
    requires forall i :: 0 <= i < |ms| ==> |MemberText(fl, ms[i])| < 48
    ensures |MembersText(fl, ms)| <= 48 * |ms|
  {
    if |ms| > 1 {
      var tail := ms[1..];
      assert forall i :: 0 <= i < |tail| ==> tail[i] == ms[i + 1];
      MembersLength(fl, tail);
    }
  }
}
