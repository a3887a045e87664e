/** Serialising a message catalogue into an MO file. */
module MoCompiler {
  import opened Wrappers
  import opened Bytes
  import opened Utf8
  import opened MoFile

  datatype MoError = NotEncodable | TooLarge

  const LIMIT := 0x8000_0000

  // ---- The order of the ids

  ghost predicate Ascending(keys: seq<Text>) {
    forall i, j :: 0 <= i < j < |keys| ==> Less(keys[i], keys[j])
  }

  ghost predicate IsKeyOrder(keys: seq<Text>, s: set<Text>) {
    Ascending(keys) && forall k :: k in keys <==> k in s
  }

  lemma {:induction false} KeyOrderIsUnique(a: seq<Text>, b: seq<Text>, s: set<Text>)
    requires IsKeyOrder(a, s) && IsKeyOrder(b, s)
    ensures a == b
  {
    assert forall k :: k in a <==> k in b;
    if a == [] || b == [] {
      NoMembers(a);
      NoMembers(b);
    } else {
      FirstIsLeast(a, s, b[0]);
      FirstIsLeast(b, s, a[0]);
      if a[0] != b[0] {
        LessAsymmetric(a[0], b[0]);
      }
      RestIsOrdered(a, s);
      RestIsOrdered(b, s);
      KeyOrderIsUnique(a[1..], b[1..], s - {a[0]});
      assert a == [a[0]] + a[1..] && b == [b[0]] + b[1..];
    }
  }

  lemma NoMembers(a: seq<Text>)
    ensures a == [] <==> forall k :: k !in a
  {
    assert a != [] ==> a[0] in a;
  }

  lemma FirstIsLeast(a: seq<Text>, s: set<Text>, k: Text)
    requires IsKeyOrder(a, s) && a != [] && (k in s || k in a)
    ensures k == a[0] || Less(a[0], k)
  {
    var i :| 0 <= i < |a| && a[i] == k;
  }

  lemma RestIsOrdered(a: seq<Text>, s: set<Text>)
    requires IsKeyOrder(a, s) && a != []
    ensures IsKeyOrder(a[1..], s - {a[0]})
  {
    forall k
      ensures k in a[1..] <==> k in s - {a[0]}
    {
      if k in a[1..] {
        var i :| 0 <= i < |a[1..]| && a[1..][i] == k;
        LessAsymmetric(a[0], a[i + 1]);
      }
    }
  }

  /** `sorted` puts one more key in its place. */
  method Insert(keys: seq<Text>, k: Text) returns (r: seq<Text>)
    requires Ascending(keys) && k !in keys
    ensures Ascending(r) && forall x :: x in r <==> x in keys || x == k
  {
    var i := |keys|;
    while i > 0 && Less(k, keys[i - 1])
      invariant 0 <= i <= |keys|
      invariant forall j :: i <= j < |keys| ==> Less(k, keys[j])
    {
      i := i - 1;
    }
    if i > 0 {
      LessTotal(k, keys[i - 1]);
    }
    forall j | 0 <= j < i
      ensures Less(keys[j], k)
    {
      if j < i - 1 {
        LessTransitive(keys[j], keys[i - 1], k);
      }
    }
    r := keys[..i] + [k] + keys[i..];
    assert forall x :: x in keys <==> x in keys[..i] || x in keys[i..] by {
      assert keys == keys[..i] + keys[i..];
    }
  }

  method SortedKeys(entries: map<Text, Text>) returns (keys: seq<Text>)
    ensures IsKeyOrder(keys, entries.Keys)
  {
    var left := entries.Keys;
    keys := [];
    while left != {}
      invariant left <= entries.Keys && IsKeyOrder(keys, entries.Keys - left)
      decreases |left|
    {
      var k :| k in left;
      keys := Insert(keys, k);
      left := left - {k};
    }
  }

  // ---- The layout

  /** The strings one after another, each followed by a NUL. */
  function Stored(strings: seq<seq<Byte>>): seq<Byte> {
    if strings == [] then [] else Stored(strings[..|strings| - 1]) + strings[|strings| - 1] + [0]
  }

  /** Where string `i` starts among them. */
  function Start(strings: seq<seq<Byte>>, i: nat): nat
    requires i <= |strings|
  {
    |Stored(strings[..i])|
  }

  /** Length and offset of each string, when the first one lies at `base`. */
  function Index(strings: seq<seq<Byte>>, base: nat): (r: seq<int>)
    ensures |r| == 2 * |strings|
  {
    if strings == [] then []
    else
      var n := |strings| - 1;
      Index(strings[..n], base) + [|strings[n]|, base + Start(strings, n)]
  }

  /** Everything that is packed as a 32-bit word. */
  function Words(ids: seq<seq<Byte>>, strs: seq<seq<Byte>>): (r: seq<int>)
    ensures |r| == 7 + 2 * |ids| + 2 * |strs|
  {
    var n := |ids|;
    [MAGIC, 0, n, 28, 28 + 8 * n, 0, 0] + Index(ids, 28 + 16 * n) + Index(strs, 28 + 16 * n + |Stored(ids)|)
  }

  predicate Signed32(xs: seq<int>) {
    forall i :: 0 <= i < |xs| ==> 0 <= xs[i] < LIMIT
  }

  /** All words but the magic number are packed as signed integers. */
  predicate WordsFit(ids: seq<seq<Byte>>, strs: seq<seq<Byte>>) {
    Signed32(Words(ids, strs)[1..])
  }

  function Layout(ids: seq<seq<Byte>>, strs: seq<seq<Byte>>, big: bool): seq<Byte>
    requires WordsFit(ids, strs)
  {
    Packed(ids, strs, big) + Stored(ids) + Stored(strs)
  }

  /** The header and both tables. */
  function Packed(ids: seq<seq<Byte>>, strs: seq<seq<Byte>>, big: bool): (r: seq<Byte>)
    requires WordsFit(ids, strs)
    ensures |r| == 28 + 8 * |ids| + 8 * |strs|
  {
    FitsAreWords(ids, strs);
    PackAll(Words(ids, strs), big)
  }

  lemma FitsAreWords(ids: seq<seq<Byte>>, strs: seq<seq<Byte>>)
    requires WordsFit(ids, strs)
    ensures AllWords(Words(ids, strs))
  {
    var words := Words(ids, strs);
    assert forall i :: 1 <= i < |words| ==> words[i] == words[1..][i - 1];
  }

  /** The size of the whole file. */
  function FileSize(ids: seq<seq<Byte>>, strs: seq<seq<Byte>>): nat {
    28 + 16 * |ids| + |Stored(ids)| + |Stored(strs)|
  }

  /** The string `s` lies at `p` in the file, terminated. */
  predicate Holds(f: seq<Byte>, p: nat, s: seq<Byte>) {
    p + |s| < |f| && f[p..p + |s|] == s && f[p + |s|] == 0
  }

  lemma AtEnd(a: seq<Byte>, b: seq<Byte>, p: nat, s: seq<Byte>)
    requires Holds(b, p, s)
    ensures Holds(a + b, |a| + p, s)
  {
    assert (a + b)[|a| + p..|a| + p + |s|] == b[p..p + |s|];
  }

  lemma InMiddle(a: seq<Byte>, b: seq<Byte>, c: seq<Byte>, p: nat, s: seq<Byte>)
    requires Holds(b, p, s)
    ensures Holds(a + b + c, |a| + p, s)
  {
    AtEnd(a, b, p, s);
    HoldsLonger(a + b, c, |a| + p, s);
  }

  lemma HoldsLonger(b: seq<Byte>, c: seq<Byte>, p: nat, s: seq<Byte>)
    requires Holds(b, p, s)
    ensures Holds(b + c, p, s)
  {
    assert (b + c)[p..p + |s|] == b[p..p + |s|];
  }

  lemma HoldsNext(a: seq<Byte>, s: seq<Byte>)
    ensures Holds(a + (s + [0]), |a|, s)
  {
  }

  /** What comes after string `i` and its NUL. */
  lemma {:induction false} StoredSplits(strings: seq<seq<Byte>>, i: nat) returns (rest: seq<Byte>)
    requires i < |strings|
    ensures Stored(strings) == Stored(strings[..i]) + (strings[i] + [0]) + rest
  {
    var n := |strings| - 1;
    if i < n {
      var before := StoredSplits(strings[..n], i);
      assert strings[..n][..i] == strings[..i];
      rest := before + (strings[n] + [0]);
    } else {
      rest := [];
    }
  }

  lemma StartsWithin(strings: seq<seq<Byte>>, i: nat)
    requires i < |strings|
    ensures Holds(Stored(strings), Start(strings, i), strings[i])
  {
    var rest := StoredSplits(strings, i);
    HoldsNext(Stored(strings[..i]), strings[i]);
    HoldsLonger(Stored(strings[..i]) + (strings[i] + [0]), rest, Start(strings, i), strings[i]);
  }

  lemma {:induction false} IndexAt(strings: seq<seq<Byte>>, base: nat, i: nat)
    requires i < |strings|
    ensures Index(strings, base)[2 * i] == |strings[i]|
    ensures Index(strings, base)[2 * i + 1] == base + Start(strings, i)
  {
    var n := |strings| - 1;
    if i < n {
      IndexAt(strings[..n], base, i);
      assert strings[..n][..i] == strings[..i];
    }
  }

  lemma IndexIsSmall(strings: seq<seq<Byte>>, base: nat)
    requires base + |Stored(strings)| < LIMIT
    ensures Signed32(Index(strings, base))
  {
    forall i | 0 <= i < 2 * |strings|
      ensures 0 <= Index(strings, base)[i] < LIMIT
    {
      IndexAt(strings, base, i / 2);
      StartsWithin(strings, i / 2);
      assert i == 2 * (i / 2) || i == 2 * (i / 2) + 1;
    }
  }

  /** A file below two gigabytes always fits. */
  lemma SmallFilesFit(ids: seq<seq<Byte>>, strs: seq<seq<Byte>>)
    requires |ids| == |strs| && FileSize(ids, strs) < LIMIT
    ensures WordsFit(ids, strs)
  {
    var n := |ids|;
    IndexIsSmall(ids, 28 + 16 * n);
    IndexIsSmall(strs, 28 + 16 * n + |Stored(ids)|);
  }

  // ---- The compiler

  datatype Pieces = Pieces(ids: seq<Byte>, strs: seq<Byte>, offsets: seq<(nat, nat, nat, nat)>)

  function Values(keys: seq<Text>, entries: map<Text, Text>): (r: seq<Text>)
    requires forall i :: 0 <= i < |keys| ==> keys[i] in entries
    ensures |r| == |keys|
    ensures forall i :: 0 <= i < |keys| ==> r[i] == entries[keys[i]]
  {
    seq(|keys|, i requires 0 <= i < |keys| => entries[keys[i]])
  }

  function EncodeAll(texts: seq<Text>): (r: seq<seq<Byte>>)
    ensures |r| == |texts| && forall i :: 0 <= i < |texts| ==> r[i] == Encode(texts[i])
  {
    seq(|texts|, i requires 0 <= i < |texts| => Encode(texts[i]))
  }

  predicate Fits(keys: seq<Text>, values: seq<Text>) {
    WordsFit(EncodeAll(keys), EncodeAll(values))
  }

  function Compiled(keys: seq<Text>, values: seq<Text>, big: bool): seq<Byte>
    requires Fits(keys, values)
  {
    Layout(EncodeAll(keys), EncodeAll(values), big)
  }

  /** Where the two strings of entry `j` lie. */
  function Place(ids: seq<seq<Byte>>, strs: seq<seq<Byte>>, j: nat): (nat, nat, nat, nat)
    requires j < |ids| == |strs|
  {
    (Start(ids, j), |ids[j]|, Start(strs, j), |strs[j]|)
  }

  lemma StoredStep(strings: seq<seq<Byte>>, i: nat)
    requires i < |strings|
    ensures Stored(strings[..i + 1]) == Stored(strings[..i]) + strings[i] + [0]
    ensures Start(strings, i) == |Stored(strings[..i])|
  {
    assert strings[..i + 1][..i] == strings[..i];
  }

  ghost predicate ArePieces(pieces: Pieces, ids: seq<seq<Byte>>, strs: seq<seq<Byte>>) {
    && |pieces.offsets| == |ids| == |strs|
    && pieces.ids == Stored(ids) && pieces.strs == Stored(strs)
    && forall j :: 0 <= j < |ids| ==> pieces.offsets[j] == Place(ids, strs, j)
  }

  lemma MorePieces(pieces: Pieces, ids: seq<seq<Byte>>, strs: seq<seq<Byte>>, i: nat)
    requires i < |ids| == |strs| && ArePieces(pieces, ids[..i], strs[..i])
    ensures ArePieces(Pieces(pieces.ids + ids[i] + [0], pieces.strs + strs[i] + [0],
                             pieces.offsets + [(|pieces.ids|, |ids[i]|, |pieces.strs|, |strs[i]|)]),
                      ids[..i + 1], strs[..i + 1])
  {
    StoredStep(ids, i);
    StoredStep(strs, i);
    forall j | 0 <= j <= i
      ensures Place(ids[..i + 1], strs[..i + 1], j) == Place(ids, strs, j)
      ensures j < i ==> Place(ids[..i], strs[..i], j) == Place(ids, strs, j)
    {
      assert ids[..i + 1][..j] == ids[..j] && strs[..i + 1][..j] == strs[..j];
      assert j < i ==> ids[..i][..j] == ids[..j] && strs[..i][..j] == strs[..j];
    }
  }

  /** The first loop of the compiler: None if a string cannot be encoded. */
  method EncodeEntries(keys: seq<Text>, entries: map<Text, Text>) returns (r: Option<Pieces>)
    requires forall i :: 0 <= i < |keys| ==> keys[i] in entries
    ensures r.None? <==> exists i :: 0 <= i < |keys| && !(Encodable(keys[i]) && Encodable(entries[keys[i]]))
    ensures r.Some? ==> ArePieces(r.value, EncodeAll(keys), EncodeAll(Values(keys, entries)))
  {
    ghost var allIds, allStrs := EncodeAll(keys), EncodeAll(Values(keys, entries));
    var ids: seq<Byte>, strs: seq<Byte> := [], [];
    var offsets: seq<(nat, nat, nat, nat)> := [];
    for i := 0 to |keys|
      invariant forall j :: 0 <= j < i ==> Encodable(keys[j]) && Encodable(entries[keys[j]])
      invariant ArePieces(Pieces(ids, strs, offsets), allIds[..i], allStrs[..i])
    {
      var key := keys[i];
      if !Encodable(key) || !Encodable(entries[key]) {
        return None;
      }
      var encodedId, encodedStr := Encode(key), Encode(entries[key]);
      MorePieces(Pieces(ids, strs, offsets), allIds, allStrs, i);
      offsets := offsets + [(|ids|, |encodedId|, |strs|, |encodedStr|)];
      ids := ids + encodedId + [0];
      strs := strs + encodedStr + [0];
    }
    assert allIds[..|keys|] == allIds && allStrs[..|keys|] == allStrs;
    r := Some(Pieces(ids, strs, offsets));
  }

  /** The second loop: both tables of lengths and offsets. */
  method IndexTables(offsets: seq<(nat, nat, nat, nat)>, keyStart: nat, valueStart: nat,
                     ghost ids: seq<seq<Byte>>, ghost strs: seq<seq<Byte>>)
    returns (koffsets: seq<int>, voffsets: seq<int>)
    requires |offsets| == |ids| == |strs|
    requires forall j :: 0 <= j < |ids| ==> offsets[j] == Place(ids, strs, j)
    ensures koffsets == Index(ids, keyStart) && voffsets == Index(strs, valueStart)
  {
    koffsets, voffsets := [], [];
    for i := 0 to |offsets|
      invariant koffsets == Index(ids[..i], keyStart) && voffsets == Index(strs[..i], valueStart)
    {
      var (o1, l1, o2, l2) := offsets[i];
      koffsets := koffsets + [l1, o1 + keyStart];
      voffsets := voffsets + [l2, o2 + valueStart];
      assert ids[..i + 1][..i] == ids[..i] && strs[..i + 1][..i] == strs[..i];
    }
    assert ids[..|ids|] == ids && strs[..|ids|] == strs;
  }

  lemma SignedWords(ids: seq<seq<Byte>>, strs: seq<seq<Byte>>, signed: seq<int>)
    requires signed == [0, |ids|, 28, 28 + 8 * |ids|, 0, 0] + Index(ids, 28 + 16 * |ids|)
                       + Index(strs, 28 + 16 * |ids| + |Stored(ids)|)
    ensures Words(ids, strs) == [MAGIC] + signed
    ensures WordsFit(ids, strs) <==> Signed32(signed)
    ensures Signed32(signed) ==> AllWords([MAGIC] + signed)
  {
    assert Words(ids, strs) == [MAGIC] + signed;
    assert Words(ids, strs)[1..] == signed;
  }

  /** Header and tables in front of the strings. */
  method PackFile(count: nat, pieces: Pieces, big: bool, ghost ids: seq<seq<Byte>>, ghost strs: seq<seq<Byte>>)
    returns (r: Result<seq<Byte>, MoError>)
    requires count == |ids| && ArePieces(pieces, ids, strs)
    ensures r == if WordsFit(ids, strs) then Ok(Layout(ids, strs, big)) else Err(TooLarge)
  {
    var keyStart := 7 * 4 + 16 * count;
    var valueStart := keyStart + |pieces.ids|;
    var koffsets, voffsets := IndexTables(pieces.offsets, keyStart, valueStart, ids, strs);
    var signed := [0, count, 7 * 4, 7 * 4 + count * 8, 0, 0] + koffsets + voffsets;
    SignedWords(ids, strs, signed);
    if !Signed32(signed) {
      return Err(TooLarge);
    }
    r := Ok(PackAll([MAGIC] + signed, big) + pieces.ids + pieces.strs);
  }

  ghost predicate AllEncodable(entries: map<Text, Text>) {
    forall k :: k in entries ==> Encodable(k) && Encodable(entries[k])
  }

  /** Fails exactly if a surrogate occurs or a length or offset does not fit into 31 bits. */
  method BuildMo(entries: map<Text, Text>, big: bool) returns (keys: seq<Text>, r: Result<seq<Byte>, MoError>)
    ensures IsKeyOrder(keys, entries.Keys) && forall i :: 0 <= i < |keys| ==> keys[i] in entries
    ensures r == if !AllEncodable(entries) then Err(NotEncodable)
                 else if !Fits(keys, Values(keys, entries)) then Err(TooLarge)
                 else Ok(Compiled(keys, Values(keys, entries), big))
  {
    keys := SortedKeys(entries);
    assert forall i :: 0 <= i < |keys| ==> keys[i] in entries.Keys;
    assert forall k :: k in entries ==> k in keys;
    var pieces := EncodeEntries(keys, entries);
    if pieces.None? {
      return keys, Err(NotEncodable);
    }
    r := PackFile(|keys|, pieces.value, big, EncodeAll(keys), EncodeAll(Values(keys, entries)));
  }

  // ---- What is in the file

  lemma WordsAreInPlace(ids: seq<seq<Byte>>, strs: seq<seq<Byte>>, big: bool, j: nat)
    requires |ids| == |strs| && WordsFit(ids, strs) && j < |Words(ids, strs)|
    ensures 28 + 16 * |ids| + |Stored(ids)| + |Stored(strs)| == |Layout(ids, strs, big)|
    ensures Word(Layout(ids, strs, big), 4 * j, big) == Words(ids, strs)[j]
  {
    FitsAreWords(ids, strs);
    var words := Words(ids, strs);
    WordOfPackAll(words, big, j);
    assert Layout(ids, strs, big)[4 * j..4 * j + 4] == PackAll(words, big)[4 * j..4 * j + 4];
  }

  /** The file begins with these words. */
  ghost predicate BeginsWith(f: seq<Byte>, words: seq<int>, big: bool) {
    4 * |words| <= |f| && forall j, p :: 0 <= j < |words| && p == 4 * j ==> Word(f, p, big) == words[j]
  }

  predicate HeaderOf(words: seq<int>, n: nat) {
    |words| == 7 + 4 * n
    && words[0] == MAGIC && words[1] == 0 && words[2] == n && words[3] == 28 && words[4] == 28 + 8 * n
  }

  lemma HeaderReads(f: seq<Byte>, words: seq<int>, big: bool, n: nat)
    requires BeginsWith(f, words, big) && HeaderOf(words, n)
    ensures TablesInRange(f, big) && Count(f, big) == n
    ensures Table(f, big, false) == 28 && Table(f, big, true) == 28 + 8 * n
  {
  }

  /** Words `j` and `j + 1` are entry `i` of a table. */
  lemma EntryWords(f: seq<Byte>, words: seq<int>, big: bool, n: nat, translated: bool, i: nat, j: nat)
    requires BeginsWith(f, words, big) && HeaderOf(words, n) && i < n
    requires j == if translated then 7 + 2 * n + 2 * i else 7 + 2 * i
    ensures TablesInRange(f, big) && Count(f, big) == n
    ensures Length(f, big, translated, i) == words[j] && Offset(f, big, translated, i) == words[j + 1]
  {
    HeaderReads(f, words, big, n);
    var p := Table(f, big, translated) + 8 * i;
    assert p == 4 * j && p + 4 == 4 * (j + 1);
  }

  /** A table entry that points at a held string. */
  lemma EntryInPlace(f: seq<Byte>, words: seq<int>, big: bool, n: nat, translated: bool, i: nat, j: nat, s: seq<Byte>)
    requires BeginsWith(f, words, big) && HeaderOf(words, n) && i < n
    requires j == if translated then 7 + 2 * n + 2 * i else 7 + 2 * i
    requires words[j] == |s| && words[j + 1] >= 0 && Holds(f, words[j + 1], s)
    ensures TablesInRange(f, big) && Count(f, big) == n
    ensures StringOk(f, big, translated, i) && StringAt(f, big, translated, i) == s
  {
    EntryWords(f, words, big, n, translated, i, j);
  }

  lemma IdWords(ids: seq<seq<Byte>>, strs: seq<seq<Byte>>, i: nat)
    requires |ids| == |strs| && i < |ids|
    ensures Words(ids, strs)[7 + 2 * i] == |ids[i]|
    ensures Words(ids, strs)[8 + 2 * i] == 28 + 16 * |ids| + Start(ids, i)
  {
    IndexAt(ids, 28 + 16 * |ids|, i);
  }

  lemma StrWords(ids: seq<seq<Byte>>, strs: seq<seq<Byte>>, i: nat)
    requires |ids| == |strs| && i < |ids|
    ensures Words(ids, strs)[7 + 2 * |ids| + 2 * i] == |strs[i]|
    ensures Words(ids, strs)[8 + 2 * |ids| + 2 * i] == 28 + 16 * |ids| + |Stored(ids)| + Start(strs, i)
  {
    IndexAt(strs, 28 + 16 * |ids| + |Stored(ids)|, i);
  }

  lemma IdHeld(ids: seq<seq<Byte>>, strs: seq<seq<Byte>>, big: bool, i: nat)
    requires |ids| == |strs| && WordsFit(ids, strs) && i < |ids|
    ensures Holds(Layout(ids, strs, big), 28 + 16 * |ids| + Start(ids, i), ids[i])
  {
    var front := Packed(ids, strs, big);
    assert Holds(Stored(ids), Start(ids, i), ids[i]) by {
      StartsWithin(ids, i);
    }
    InMiddle(front, Stored(ids), Stored(strs), Start(ids, i), ids[i]);
  }

  lemma StrHeld(ids: seq<seq<Byte>>, strs: seq<seq<Byte>>, big: bool, i: nat)
    requires |ids| == |strs| && WordsFit(ids, strs) && i < |ids|
    ensures Holds(Layout(ids, strs, big), 28 + 16 * |ids| + |Stored(ids)| + Start(strs, i), strs[i])
  {
    StartsWithin(strs, i);
    AtEnd(Packed(ids, strs, big) + Stored(ids), Stored(strs), Start(strs, i), strs[i]);
  }

  lemma LayoutBegins(ids: seq<seq<Byte>>, strs: seq<seq<Byte>>, big: bool)
    requires |ids| == |strs| && WordsFit(ids, strs)
    ensures BeginsWith(Layout(ids, strs, big), Words(ids, strs), big) && HeaderOf(Words(ids, strs), |ids|)
  {
    forall j | 0 <= j < |Words(ids, strs)|
      ensures Word(Layout(ids, strs, big), 4 * j, big) == Words(ids, strs)[j]
    {
      WordsAreInPlace(ids, strs, big, j);
    }
  }

  lemma IdInPlace(ids: seq<seq<Byte>>, strs: seq<seq<Byte>>, big: bool, f: seq<Byte>, i: nat)
    requires |ids| == |strs| && WordsFit(ids, strs) && i < |ids| && f == Layout(ids, strs, big)
    ensures TablesInRange(f, big) && Count(f, big) == |ids|
    ensures StringOk(f, big, false, i) && StringAt(f, big, false, i) == ids[i]
  {
    LayoutBegins(ids, strs, big);
    IdWords(ids, strs, i);
    IdHeld(ids, strs, big, i);
    EntryInPlace(f, Words(ids, strs), big, |ids|, false, i, 7 + 2 * i, ids[i]);
  }

  lemma StrInPlace(ids: seq<seq<Byte>>, strs: seq<seq<Byte>>, big: bool, f: seq<Byte>, i: nat)
    requires |ids| == |strs| && WordsFit(ids, strs) && i < |ids| && f == Layout(ids, strs, big)
    ensures TablesInRange(f, big) && Count(f, big) == |ids|
    ensures StringOk(f, big, true, i) && StringAt(f, big, true, i) == strs[i]
  {
    LayoutBegins(ids, strs, big);
    StrWords(ids, strs, i);
    StrHeld(ids, strs, big, i);
    EntryInPlace(f, Words(ids, strs), big, |ids|, true, i, 7 + 2 * |ids| + 2 * i, strs[i]);
  }

  lemma LayoutHolds(ids: seq<seq<Byte>>, strs: seq<seq<Byte>>, big: bool)
    requires |ids| == |strs| && WordsFit(ids, strs)
    ensures var f := Layout(ids, strs, big);
            && StringsOk(f, big) && Count(f, big) == |ids|
            && forall i :: 0 <= i < |ids| ==>
                 StringAt(f, big, false, i) == ids[i] && StringAt(f, big, true, i) == strs[i]
  {
    var f := Layout(ids, strs, big);
    LayoutBegins(ids, strs, big);
    HeaderReads(f, Words(ids, strs), big, |ids|);
    forall i | 0 <= i < |ids|
      ensures StringOk(f, big, false, i) && StringAt(f, big, false, i) == ids[i]
      ensures StringOk(f, big, true, i) && StringAt(f, big, true, i) == strs[i]
    {
      IdInPlace(ids, strs, big, f, i);
      StrInPlace(ids, strs, big, f, i);
    }
  }

  /** The compiled file is well formed and holds the encoded entries in the byte order of their ids, although
    * the compiler sorts by code points.
    */
  lemma CompiledIsWellFormed(entries: map<Text, Text>, keys: seq<Text>, big: bool)
    requires IsKeyOrder(keys, entries.Keys) && forall i :: 0 <= i < |keys| ==> keys[i] in entries
    requires Fits(keys, Values(keys, entries))
    ensures var f := Compiled(keys, Values(keys, entries), big);
            && WellFormed(f, big) && Count(f, big) == |keys|
            && forall i :: 0 <= i < |keys| ==>
                 StringAt(f, big, false, i) == Encode(keys[i]) && StringAt(f, big, true, i) == Encode(entries[keys[i]])
  {
    var values := Values(keys, entries);
    var f := Compiled(keys, values, big);
    LayoutHolds(EncodeAll(keys), EncodeAll(values), big);
    forall i, j | 0 <= i < j < |keys|
      ensures Less(StringAt(f, big, false, i), StringAt(f, big, false, j))
    {
      EncodeKeepsOrder(keys[i], keys[j]);
    }
  }

  /** Binary search in the compiled file finds the string of every id of the catalogue, and nothing for any
    * other sequence of bytes.
    */
  lemma LookupIsTheCatalogue(entries: map<Text, Text>, keys: seq<Text>, big: bool, id: seq<Byte>)
    requires IsKeyOrder(keys, entries.Keys) && forall i :: 0 <= i < |keys| ==> keys[i] in entries
    requires Fits(keys, Values(keys, entries))
    ensures var f := Compiled(keys, Values(keys, entries), big);
            && WellFormed(f, big)
            && (forall k :: k in entries && Encode(k) == id ==> Lookup(f, big, id) == Some(Encode(entries[k])))
            && ((forall k :: k in entries ==> Encode(k) != id) ==> Lookup(f, big, id) == None)
  {
    var f := Compiled(keys, Values(keys, entries), big);
    CompiledIsWellFormed(entries, keys, big);
    var found := Search(f, big, id, 0, Count(f, big));
    forall k | k in entries && Encode(k) == id
      ensures Lookup(f, big, id) == Some(Encode(entries[k]))
    {
      assert k in keys;
      var i :| 0 <= i < |keys| && keys[i] == k;
      assert StringAt(f, big, false, i) == id;
      EncodeReflectsOrder(keys[found.value], k);
    }
    if found.Some? {
      assert keys[found.value] in entries;
    }
  }
}
