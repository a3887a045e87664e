/** The GNU MO format and its look-up by binary search (section 10.3 of the GNU gettext manual). */
module MoFile {
  import opened Wrappers
  import opened Bytes
  import opened Utf8

  const MAGIC := 0x950412DE

  // ---- 32-bit words in either byte order

  function FourBytes(b3: int, b2: int, b1: int, b0: int): int {
    0x100_0000 * b3 + 0x1_0000 * b2 + 0x100 * b1 + b0
  }

  function WordOf(b: seq<Byte>, big: bool): (n: nat)
    requires |b| == 4
    ensures n < 0x1_0000_0000
  {
    if big then FourBytes(b[0], b[1], b[2], b[3]) else FourBytes(b[3], b[2], b[1], b[0])
  }

  function Word(f: seq<Byte>, p: nat, big: bool): (n: nat)
    requires p + 4 <= |f|
    ensures n < 0x1_0000_0000
  {
    WordOf(f[p..p + 4], big)
  }

  function PackWord(n: nat, big: bool): (r: seq<Byte>)
    requires n < 0x1_0000_0000
    ensures |r| == 4
  {
    var b0, b1, b2, b3 := n % 0x100, n / 0x100 % 0x100, n / 0x1_0000 % 0x100, n / 0x100_0000;
    if big then [b3, b2, b1, b0] else [b0, b1, b2, b3]
  }

  lemma WordOfPackWord(n: nat, big: bool)
    requires n < 0x1_0000_0000
    ensures WordOf(PackWord(n, big), big) == n
  {
    assert n / 0x1_0000 == n / 0x100 / 0x100 && n / 0x100_0000 == n / 0x100 / 0x100 / 0x100;
  }

  predicate AllWords(xs: seq<int>) {
    forall i :: 0 <= i < |xs| ==> 0 <= xs[i] < 0x1_0000_0000
  }

  function PackAll(xs: seq<int>, big: bool): (r: seq<Byte>)
    requires AllWords(xs)
    ensures |r| == 4 * |xs|
  {
    if xs == [] then [] else PackAll(xs[..|xs| - 1], big) + PackWord(xs[|xs| - 1], big)
  }

  lemma {:induction false} WordOfPackAll(xs: seq<int>, big: bool, i: nat)
    requires AllWords(xs) && i < |xs|
    ensures Word(PackAll(xs, big), 4 * i, big) == xs[i]
  {
    var before := PackAll(xs[..|xs| - 1], big);
    if i < |xs| - 1 {
      WordOfPackAll(xs[..|xs| - 1], big, i);
      assert PackAll(xs, big)[4 * i..4 * i + 4] == before[4 * i..4 * i + 4];
    } else {
      WordOfPackWord(xs[i], big);
      assert PackAll(xs, big)[4 * i..4 * i + 4] == PackWord(xs[i], big);
    }
  }

  // ---- The parts of a file

  /** The byte order is recognised from the magic number. */
  predicate HasMagic(f: seq<Byte>, big: bool) {
    28 <= |f| && Word(f, 0, big) == MAGIC
  }

  function Count(f: seq<Byte>, big: bool): nat
    requires HasMagic(f, big)
  {
    Word(f, 8, big)
  }

  /** Where the table of originals, or of translations, starts. */
  function Table(f: seq<Byte>, big: bool, translated: bool): nat
    requires HasMagic(f, big)
  {
    Word(f, if translated then 16 else 12, big)
  }

  predicate TablesInRange(f: seq<Byte>, big: bool) {
    && HasMagic(f, big) && Word(f, 4, big) == 0
    && Table(f, big, false) + 8 * Count(f, big) <= |f| && Table(f, big, true) + 8 * Count(f, big) <= |f|
  }

  function Length(f: seq<Byte>, big: bool, translated: bool, i: nat): nat
    requires TablesInRange(f, big) && i < Count(f, big)
  {
    Word(f, Table(f, big, translated) + 8 * i, big)
  }

  function Offset(f: seq<Byte>, big: bool, translated: bool, i: nat): nat
    requires TablesInRange(f, big) && i < Count(f, big)
  {
    Word(f, Table(f, big, translated) + 8 * i + 4, big)
  }

  /** String `i` lies in the file and a NUL follows it. */
  predicate StringOk(f: seq<Byte>, big: bool, translated: bool, i: nat)
    requires TablesInRange(f, big) && i < Count(f, big)
  {
    var p := Offset(f, big, translated, i) + Length(f, big, translated, i);
    p < |f| && f[p] == 0
  }

  function StringAt(f: seq<Byte>, big: bool, translated: bool, i: nat): seq<Byte>
    requires TablesInRange(f, big) && i < Count(f, big) && StringOk(f, big, translated, i)
  {
    var p := Offset(f, big, translated, i);
    f[p..p + Length(f, big, translated, i)]
  }

  ghost predicate StringsOk(f: seq<Byte>, big: bool) {
    TablesInRange(f, big)
    && forall i :: 0 <= i < Count(f, big) ==> StringOk(f, big, false, i) && StringOk(f, big, true, i)
  }

  /** What the format asks of a file: every string in range and terminated, originals in ascending order. */
  ghost predicate WellFormed(f: seq<Byte>, big: bool) {
    && StringsOk(f, big)
    && forall i, j :: 0 <= i < j < Count(f, big) ==> Less(StringAt(f, big, false, i), StringAt(f, big, false, j))
  }

  // ---- Look-up

  /** Binary search among the originals `lo..hi`. */
  function Search(f: seq<Byte>, big: bool, id: seq<Byte>, lo: nat, hi: nat): (r: Option<nat>)
    requires WellFormed(f, big) && lo <= hi <= Count(f, big)
    ensures r.Some? ==> lo <= r.value < hi && StringAt(f, big, false, r.value) == id
    ensures r.None? ==> forall i :: lo <= i < hi ==> StringAt(f, big, false, i) != id
    decreases hi - lo
  {
    if lo == hi then None
    else
      var mid := (lo + hi) / 2;
      var found := StringAt(f, big, false, mid);
      if Less(id, found) then
        SkipAbove(f, big, id, mid);
        Search(f, big, id, lo, mid)
      else if Less(found, id) then
        SkipBelow(f, big, id, mid);
        Search(f, big, id, mid + 1, hi)
      else
        LessTotal(id, found);
        Some(mid)
  }

  lemma SkipAbove(f: seq<Byte>, big: bool, id: seq<Byte>, mid: nat)
    requires WellFormed(f, big) && mid < Count(f, big) && Less(id, StringAt(f, big, false, mid))
    ensures forall i :: mid <= i < Count(f, big) ==> StringAt(f, big, false, i) != id
  {
    LessAsymmetric(id, StringAt(f, big, false, mid));
  }

  lemma SkipBelow(f: seq<Byte>, big: bool, id: seq<Byte>, mid: nat)
    requires WellFormed(f, big) && mid < Count(f, big) && Less(StringAt(f, big, false, mid), id)
    ensures forall i :: 0 <= i <= mid ==> StringAt(f, big, false, i) != id
  {
    LessAsymmetric(StringAt(f, big, false, mid), id);
  }

  /** The translation a reader gets for an id. */
  function Lookup(f: seq<Byte>, big: bool, id: seq<Byte>): Option<seq<Byte>>
    requires WellFormed(f, big)
  {
    match Search(f, big, id, 0, Count(f, big))
    case None => None
    case Some(i) => Some(StringAt(f, big, true, i))
  }

  // ---- Readers that take strings up to their first NUL

  function UntilNul(b: seq<Byte>): seq<Byte> {
    if b == [] || b[0] == 0 then [] else [b[0]] + UntilNul(b[1..])
  }

  /** Such a reader sees a terminated string exactly if it contains no NUL itself, and else a beginning of
    * it.
    */
  lemma {:induction false} NulTerminatedReading(b: seq<Byte>, n: nat)
    requires n < |b| && b[n] == 0
    ensures UntilNul(b) <= b[..n]
    ensures UntilNul(b) == b[..n] <==> 0 !in b[..n]
  {
    if n == 0 {
      assert UntilNul(b) == [];
    } else if b[0] != 0 {
      NulTerminatedReading(b[1..], n - 1);
      assert b[..n] == [b[0]] + b[1..][..n - 1];
    } else {
      assert b[..n][0] == 0;
    }
  }
}
