/** The compiled file and the encoding of its strings, byte by byte. */
module MoFacts {
  import opened Wrappers
  import opened Bytes
  import opened Utf8
  import opened MoFile
  import opened MoCompiler

  // ---- UTF-8

  predicate IsTail(b: int) {
    0x80 <= b <= 0xBF
  }

  predicate IsTwo(c: int, b: int, t: int) {
    0xC2 <= b <= 0xDF && IsTail(t) && c == 64 * (b - 0xC0) + (t - 0x80)
  }

  predicate IsThree(c: int, b: int, t: int, u: int) {
    0xE0 <= b <= 0xEF && IsTail(t) && IsTail(u) && c == 4096 * (b - 0xE0) + 64 * (t - 0x80) + (u - 0x80)
  }

  predicate IsFour(c: int, b: int, t: int, u: int, v: int) {
    0xF0 <= b <= 0xF4 && IsTail(t) && IsTail(u) && IsTail(v)
    && c == 262144 * (b - 0xF0) + 4096 * (t - 0x80) + 64 * (u - 0x80) + (v - 0x80)
  }

  /** One to four bytes by the size of the code point; the first byte tells how many, the others begin with the bits
    * 10, and the rest of the bits are the code point (section 3 of RFC 3629).
    */
  lemma CharInBytes(c: CodePoint)
    ensures var b := EncodeChar(c);
            && |b| == (if c <= 0x7F then 1 else if c <= 0x7FF then 2 else if c <= 0xFFFF then 3 else 4)
            && (|b| == 1 ==> b[0] == c)
            && (|b| == 2 ==> IsTwo(c, b[0], b[1]))
            && (|b| == 3 ==> IsThree(c, b[0], b[1], b[2]))
            && (|b| == 4 ==> IsFour(c, b[0], b[1], b[2], b[3]))
  {
    BytesAreDigits(c);
  }

  lemma {:induction false} EncodeConcat(a: Text, b: Text)
    ensures Encode(a + b) == Encode(a) + Encode(b)
  {
    if a == [] {
      assert a + b == b && Encode(a) + Encode(b) == Encode(b);
    } else {
      assert (a + b)[1..] == a[1..] + b;
      EncodeConcat(a[1..], b);
    }
  }

  /** One sequence comes before another if it is a proper beginning of it or smaller at the first difference. */
  lemma {:induction false} LessInPositions(a: seq<int>, b: seq<int>)
    ensures Less(a, b) <==>
              exists k: nat :: k <= |a| && k < |b| && a[..k] == b[..k] && (k == |a| || a[k] < b[k])
  {
    if a == [] || b == [] || a[0] != b[0] {
      if b != [] {
        assert a[..0] == b[..0];
      }
      forall k: nat | 0 < k <= |a| && k < |b|
        ensures a[..k] != b[..k]
      {
        assert a[..k][0] != b[..k][0];
      }
    } else {
      LessInPositions(a[1..], b[1..]);
      if k: nat :| k <= |a| && k < |b| && a[..k] == b[..k] && (k == |a| || a[k] < b[k]) {
        assert k > 0;
        assert a[1..][..k - 1] == a[..k][1..] && b[1..][..k - 1] == b[..k][1..];
      }
      if k: nat :| k <= |a[1..]| && k < |b[1..]| && a[1..][..k] == b[1..][..k]
                   && (k == |a[1..]| || a[1..][k] < b[1..][k]) {
        assert a[..k + 1] == [a[0]] + a[1..][..k] && b[..k + 1] == [b[0]] + b[1..][..k];
      }
    }
  }

  // ---- The file

  /** The four bytes at `p` as a number, least significant first unless `big`. */
  function NumberAt(f: seq<Byte>, p: nat, big: bool): int
    requires p + 4 <= |f|
  {
    if big then Number(f[p], f[p + 1], f[p + 2], f[p + 3]) else Number(f[p + 3], f[p + 2], f[p + 1], f[p])
  }

  function Number(most: int, more: int, less: int, least: int): int {
    ((most * 256 + more) * 256 + less) * 256 + least
  }

  lemma WordInBytes(f: seq<Byte>, p: nat, big: bool)
    requires p + 4 <= |f|
    ensures Word(f, p, big) == NumberAt(f, p, big)
  {
  }

  /** The eight bytes at `p` are the length and the offset of `s`, which lies in the file with a NUL behind it. */
  predicate PointsAt(f: seq<Byte>, p: nat, big: bool, s: seq<Byte>) {
    && p + 8 <= |f| && NumberAt(f, p, big) == |s|
    && var q := NumberAt(f, p + 4, big);
    && 0 <= q < 0x8000_0000 && |s| < 0x8000_0000 && q + |s| < |f| && f[q..q + |s|] == s && f[q + |s|] == 0
  }

  /** The header of seven numbers. */
  predicate HasHeader(f: seq<Byte>, n: nat, big: bool) {
    && 28 + 16 * n <= |f| && n < 0x8000_0000
    && f[..4] == (if big then [0x95, 0x04, 0x12, 0xDE] else [0xDE, 0x12, 0x04, 0x95])
    && NumberAt(f, 4, big) == 0 && NumberAt(f, 8, big) == n && NumberAt(f, 12, big) == 28
    && NumberAt(f, 16, big) == 28 + 8 * n && NumberAt(f, 20, big) == 0 && NumberAt(f, 24, big) == 0
  }

  lemma MagicInBytes(f: seq<Byte>, big: bool)
    requires 4 <= |f| && NumberAt(f, 0, big) == 0x950412DE
    ensures f[..4] == if big then [0x95, 0x04, 0x12, 0xDE] else [0xDE, 0x12, 0x04, 0x95]
  {
  }

  lemma HeaderInBytes(ids: seq<seq<Byte>>, strs: seq<seq<Byte>>, big: bool)
    requires |ids| == |strs| && WordsFit(ids, strs)
    ensures HasHeader(Layout(ids, strs, big), |ids|, big)
  {
    var f, n, words := Layout(ids, strs, big), |ids|, Words(ids, strs);
    LayoutBegins(ids, strs, big);
    assert words[1..][1] == n;
    forall j | 0 <= j < 7
      ensures NumberAt(f, 4 * j, big) == words[j]
    {
      WordsAreInPlace(ids, strs, big, j);
      WordInBytes(f, 4 * j, big);
    }
    assert forall p :: p in {0, 4, 8, 12, 16, 20, 24} ==> NumberAt(f, p, big) == words[p / 4];
    MagicInBytes(f, big);
  }

  lemma PairInBytes(f: seq<Byte>, words: seq<int>, big: bool, j: nat, p: nat, s: seq<Byte>)
    requires BeginsWith(f, words, big) && 0 < j && j + 1 < |words| && p == 4 * j && Signed32(words[1..])
    requires words[j] == |s| && words[j + 1] >= 0 && Holds(f, words[j + 1], s)
    ensures PointsAt(f, p, big, s)
  {
    assert words[1..][j - 1] == words[j] && words[1..][j] == words[j + 1];
    assert p + 4 == 4 * (j + 1);
    WordInBytes(f, p, big);
    WordInBytes(f, p + 4, big);
  }

  /** Word `8 + 2 * i` is where id `i` lies. */
  lemma IdWhereSaid(ids: seq<seq<Byte>>, strs: seq<seq<Byte>>, big: bool, f: seq<Byte>, words: seq<int>, i: nat)
    requires |ids| == |strs| && WordsFit(ids, strs) && i < |ids| && f == Layout(ids, strs, big)
    requires words == Words(ids, strs)
    ensures words[7 + 2 * i] == |ids[i]| && words[8 + 2 * i] >= 0 && Holds(f, words[8 + 2 * i], ids[i])
  {
    IdWords(ids, strs, i);
    IdHeld(ids, strs, big, i);
  }

  lemma IdInBytes(ids: seq<seq<Byte>>, strs: seq<seq<Byte>>, big: bool, f: seq<Byte>, words: seq<int>, i: nat)
    requires |ids| == |strs| && WordsFit(ids, strs) && i < |ids| && f == Layout(ids, strs, big)
    requires words == Words(ids, strs)
    ensures PointsAt(f, 28 + 8 * i, big, ids[i])
  {
    LayoutBegins(ids, strs, big);
    IdWhereSaid(ids, strs, big, f, words, i);
    PairInBytes(f, words, big, 7 + 2 * i, 28 + 8 * i, ids[i]);
  }

  lemma StrInBytes(ids: seq<seq<Byte>>, strs: seq<seq<Byte>>, big: bool, f: seq<Byte>, words: seq<int>, i: nat)
    requires |ids| == |strs| && WordsFit(ids, strs) && i < |ids| && f == Layout(ids, strs, big)
    requires words == Words(ids, strs)
    ensures PointsAt(f, 28 + 8 * |ids| + 8 * i, big, strs[i])
  {
    LayoutBegins(ids, strs, big);
    StrWords(ids, strs, i);
    StrHeld(ids, strs, big, i);
    PairInBytes(f, words, big, 7 + 2 * |ids| + 2 * i, 28 + 8 * |ids| + 8 * i, strs[i]);
  }

  /** The compiled file: the magic number, the revision 0, the number of entries, where both tables are, no hash table;
    * the tables of lengths and offsets; and every string where its table says, ids in the order of the keys.
    */
  lemma FileInBytes(entries: map<Text, Text>, keys: seq<Text>, big: bool, f: seq<Byte>)
    requires forall i :: 0 <= i < |keys| ==> keys[i] in entries
    requires Fits(keys, Values(keys, entries)) && f == Compiled(keys, Values(keys, entries), big)
    ensures HasHeader(f, |keys|, big)
    ensures forall i :: 0 <= i < |keys| ==> PointsAt(f, 28 + 8 * i, big, Encode(keys[i]))
    ensures forall i :: 0 <= i < |keys| ==> PointsAt(f, 28 + 8 * |keys| + 8 * i, big, Encode(entries[keys[i]]))
  {
    var ids, strs := EncodeAll(keys), EncodeAll(Values(keys, entries));
    HeaderInBytes(ids, strs, big);
    forall i | 0 <= i < |keys|
      ensures PointsAt(f, 28 + 8 * i, big, Encode(keys[i]))
    {
      IdInBytes(ids, strs, big, f, Words(ids, strs), i);
    }
    forall i | 0 <= i < |keys|
      ensures PointsAt(f, 28 + 8 * |keys| + 8 * i, big, Encode(entries[keys[i]]))
    {
      StrInBytes(ids, strs, big, f, Words(ids, strs), i);
    }
  }

  // ---- The format and its look-up

  /** The table entry at `p` gives a string inside the file with a NUL behind it. */
  predicate HasString(f: seq<Byte>, big: bool, p: int) {
    && 0 <= p && p + 8 <= |f|
    && var length, q := NumberAt(f, p, big), NumberAt(f, p + 4, big);
    && 0 <= length && 0 <= q && q + length < |f| && f[q + length] == 0
  }

  function StringFrom(f: seq<Byte>, big: bool, p: int): seq<Byte>
    requires HasString(f, big, p)
  {
    f[NumberAt(f, p + 4, big)..NumberAt(f, p + 4, big) + NumberAt(f, p, big)]
  }

  /** Where entry `i` of the table of originals, or of translations, lies. */
  function EntryAt(f: seq<Byte>, big: bool, translated: bool, i: int): int
    requires 28 <= |f|
  {
    NumberAt(f, if translated then 16 else 12, big) + 8 * i
  }

  ghost predicate IsTable(f: seq<Byte>, big: bool, translated: bool) {
    28 <= |f| && EntryAt(f, big, translated, NumberAt(f, 8, big)) <= |f|
    && forall i :: 0 <= i < NumberAt(f, 8, big) ==> HasString(f, big, EntryAt(f, big, translated, i))
  }

  /** An MO file of revision 0: the magic number, two tables of strings, the originals in strictly ascending order. */
  ghost predicate IsMoFile(f: seq<Byte>, big: bool) {
    && 28 <= |f| && NumberAt(f, 0, big) == 0x950412DE && NumberAt(f, 4, big) == 0
    && IsTable(f, big, false) && IsTable(f, big, true)
    && forall i, j :: 0 <= i < j < NumberAt(f, 8, big) ==> IdsInOrder(f, big, i, j)
  }

  predicate IdsInOrder(f: seq<Byte>, big: bool, i: int, j: int) {
    && 28 <= |f| && HasString(f, big, EntryAt(f, big, false, i)) && HasString(f, big, EntryAt(f, big, false, j))
    && Less(StringFrom(f, big, EntryAt(f, big, false, i)), StringFrom(f, big, EntryAt(f, big, false, j)))
  }

  lemma NumbersAreNatural(f: seq<Byte>, p: nat, big: bool)
    requires p + 4 <= |f|
    ensures NumberAt(f, p, big) >= 0 && NumberAt(f, p, big) == Word(f, p, big)
  {
    WordInBytes(f, p, big);
  }

  lemma TablesInBytes(f: seq<Byte>, big: bool)
    requires 28 <= |f|
    ensures HasMagic(f, big) <==> NumberAt(f, 0, big) == 0x950412DE
    ensures HasMagic(f, big) ==> Count(f, big) == NumberAt(f, 8, big)
    ensures HasMagic(f, big) ==> Table(f, big, false) == NumberAt(f, 12, big)
    ensures HasMagic(f, big) ==> Table(f, big, true) == NumberAt(f, 16, big)
    ensures TablesInRange(f, big) <==>
              && NumberAt(f, 0, big) == 0x950412DE && NumberAt(f, 4, big) == 0
              && EntryAt(f, big, false, NumberAt(f, 8, big)) <= |f| && EntryAt(f, big, true, NumberAt(f, 8, big)) <= |f|
  {
    NumbersAreNatural(f, 0, big);
    NumbersAreNatural(f, 4, big);
    NumbersAreNatural(f, 8, big);
    NumbersAreNatural(f, 12, big);
    NumbersAreNatural(f, 16, big);
  }

  lemma StringInBytes(f: seq<Byte>, big: bool, translated: bool, i: nat)
    requires TablesInRange(f, big) && i < Count(f, big)
    ensures var p := EntryAt(f, big, translated, i);
            && (StringOk(f, big, translated, i) <==> HasString(f, big, p))
            && (HasString(f, big, p) ==> StringAt(f, big, translated, i) == StringFrom(f, big, p))
  {
    EntryInRange(f, big, translated, i);
    var p := Table(f, big, translated) + 8 * i;
    NumbersAreNatural(f, p, big);
    NumbersAreNatural(f, p + 4, big);
    StringOfNumbers(f, big, p, Length(f, big, translated, i), Offset(f, big, translated, i));
  }

  lemma EntryInRange(f: seq<Byte>, big: bool, translated: bool, i: nat)
    requires TablesInRange(f, big) && i < Count(f, big)
    ensures EntryAt(f, big, translated, i) == Table(f, big, translated) + 8 * i
    ensures Table(f, big, translated) + 8 * i + 8 <= |f|
  {
    TablesInBytes(f, big);
  }

  lemma StringOfNumbers(f: seq<Byte>, big: bool, p: nat, length: nat, q: nat)
    requires p + 8 <= |f| && NumberAt(f, p, big) == length && NumberAt(f, p + 4, big) == q
    ensures HasString(f, big, p) <==> q + length < |f| && f[q + length] == 0
    ensures HasString(f, big, p) ==> StringFrom(f, big, p) == f[q..q + length]
  {
  }

  /** The format as the reader understands it. */
  lemma FormatInBytes(f: seq<Byte>, big: bool)
    ensures WellFormed(f, big) <==> IsMoFile(f, big)
  {
    if 28 <= |f| {
      TablesInBytes(f, big);
      if TablesInRange(f, big) {
        forall translated: bool, i: nat | i < Count(f, big)
          ensures StringOk(f, big, translated, i) <==> HasString(f, big, EntryAt(f, big, translated, i))
        {
          StringInBytes(f, big, translated, i);
        }
        FormatOfTables(f, big);
      }
    }
  }

  lemma FormatOfTables(f: seq<Byte>, big: bool)
    requires TablesInRange(f, big) && Count(f, big) == NumberAt(f, 8, big)
    requires forall translated: bool, i: nat :: i < Count(f, big) ==>
               (StringOk(f, big, translated, i) <==> HasString(f, big, EntryAt(f, big, translated, i)))
    ensures StringsOk(f, big) <==>
              forall i :: 0 <= i < Count(f, big) ==>
                HasString(f, big, EntryAt(f, big, false, i)) && HasString(f, big, EntryAt(f, big, true, i))
    ensures StringsOk(f, big) ==>
              (WellFormed(f, big) <==> forall i, j :: 0 <= i < j < Count(f, big) ==> IdsInOrder(f, big, i, j))
  {
    if StringsOk(f, big) {
      forall i, j | 0 <= i < j < Count(f, big)
        ensures Less(StringAt(f, big, false, i), StringAt(f, big, false, j)) <==> IdsInOrder(f, big, i, j)
      {
        StringInBytes(f, big, false, i);
        StringInBytes(f, big, false, j);
      }
    }
  }

  /** A look-up finds the translation of the original that equals the id, and nothing if none does. */
  lemma LookupInBytes(f: seq<Byte>, big: bool, id: seq<Byte>, i: nat)
    requires WellFormed(f, big) && IsMoFile(f, big) && i < NumberAt(f, 8, big)
    ensures StringFrom(f, big, EntryAt(f, big, false, i)) == id ==>
              Lookup(f, big, id) == Some(StringFrom(f, big, EntryAt(f, big, true, i)))
    ensures (forall k :: 0 <= k < NumberAt(f, 8, big) ==> StringFrom(f, big, EntryAt(f, big, false, k)) != id) ==>
              Lookup(f, big, id) == None
  {
    TablesInBytes(f, big);
    StringInBytes(f, big, false, i);
    StringInBytes(f, big, true, i);
    var found := Search(f, big, id, 0, Count(f, big));
    if found.Some? {
      StringInBytes(f, big, false, found.value);
      if found.value != i && StringAt(f, big, false, i) == id {
        LessIrreflexive(id);
      }
    }
  }

  /** A catalogue is refused for its size only if the file would have two gigabytes or more. */
  lemma OnlyLargeFilesAreRefused(keys: seq<Text>, values: seq<Text>)
    requires |keys| == |values| && !Fits(keys, values)
    ensures 28 + 16 * |keys| + |Stored(EncodeAll(keys))| + |Stored(EncodeAll(values))| >= 0x8000_0000
  {
    if FileSize(EncodeAll(keys), EncodeAll(values)) < 0x8000_0000 {
      SmallFilesFit(EncodeAll(keys), EncodeAll(values));
    }
  }

  /** And for its characters exactly if it contains a surrogate. */
  lemma OnlySurrogatesAreRefused(entries: map<Text, Text>)
    ensures AllEncodable(entries) <==>
              && (forall k, c :: k in entries && c in k ==> !(0xD800 <= c <= 0xDFFF))
              && (forall k, c :: k in entries && c in entries[k] ==> !(0xD800 <= c <= 0xDFFF))
  {
    forall k | k in entries
      ensures Encodable(k) <==> forall c :: c in k ==> !(0xD800 <= c <= 0xDFFF)
      ensures Encodable(entries[k]) <==> forall c :: c in entries[k] ==> !(0xD800 <= c <= 0xDFFF)
    {
      EncodableCharacters(k);
      EncodableCharacters(entries[k]);
    }
  }

  lemma EncodableCharacters(s: Text)
    ensures Encodable(s) <==> forall c :: c in s ==> !(0xD800 <= c <= 0xDFFF)
  {
    assert forall i :: 0 <= i < |s| ==> s[i] in s;
  }
}
