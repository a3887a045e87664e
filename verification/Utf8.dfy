/** Text as code points, its UTF-8 encoding, and the order of both. */
module Utf8 {
  import opened Bytes

  type CodePoint = c: int | 0 <= c < 0x110000

  type Text = seq<CodePoint>

  predicate IsSurrogate(c: CodePoint) {
    0xD800 <= c < 0xE000
  }

  /** `str.encode("utf-8")` accepts it. */
  predicate Encodable(s: Text) {
    forall i :: 0 <= i < |s| ==> !IsSurrogate(s[i])
  }

  /** Section 3 of RFC 3629. */
  function EncodeChar(c: CodePoint): (r: seq<Byte>)
    ensures 1 <= |r| <= 4
  {
    if c < 0x80 then [c]
    else if c < 0x800 then [0xC0 + c / 0x40, 0x80 + c % 0x40]
    else if c < 0x10000 then [0xE0 + c / 0x1000, 0x80 + c / 0x40 % 0x40, 0x80 + c % 0x40]
    else [0xF0 + c / 0x40000, 0x80 + c / 0x1000 % 0x40, 0x80 + c / 0x40 % 0x40, 0x80 + c % 0x40]
  }

  function Encode(s: Text): seq<Byte> {
    if s == [] then [] else EncodeChar(s[0]) + Encode(s[1..])
  }

  /** The order of Python strings and of byte strings. */
  predicate Less(a: seq<int>, b: seq<int>) {
    b != [] && (a == [] || a[0] < b[0] || (a[0] == b[0] && Less(a[1..], b[1..])))
  }

  lemma {:induction false} LessIrreflexive(a: seq<int>)
    ensures !Less(a, a)
  {
    if a != [] {
      LessIrreflexive(a[1..]);
    }
  }

  lemma {:induction false} LessTransitive(a: seq<int>, b: seq<int>, c: seq<int>)
    requires Less(a, b) && Less(b, c)
    ensures Less(a, c)
  {
    if a != [] && a[0] == b[0] == c[0] {
      LessTransitive(a[1..], b[1..], c[1..]);
    }
  }

  lemma {:induction false} LessTotal(a: seq<int>, b: seq<int>)
    ensures Less(a, b) || a == b || Less(b, a)
  {
    if a != [] && b != [] && a[0] == b[0] {
      LessTotal(a[1..], b[1..]);
      assert a == [a[0]] + a[1..] && b == [b[0]] + b[1..];
    }
  }

  lemma LessAsymmetric(a: seq<int>, b: seq<int>)
    requires Less(a, b)
    ensures !Less(b, a) && a != b
  {
    LessIrreflexive(a);
    if Less(b, a) {
      LessTransitive(a, b, a);
    }
  }

  /** A common beginning does not matter. */
  lemma {:induction false} LessAfterPrefix(p: seq<int>, a: seq<int>, b: seq<int>)
    ensures Less(p + a, p + b) <==> Less(a, b)
  {
    if p == [] {
      assert p + a == a && p + b == b;
    } else {
      LessAfterPrefix(p[1..], a, b);
      assert (p + a)[1..] == p[1..] + a && (p + b)[1..] == p[1..] + b;
    }
  }

  /** The first difference decides. */
  lemma LessAtDifference(a: seq<int>, b: seq<int>, k: nat)
    requires k < |a| && k < |b| && a[..k] == b[..k] && a[k] < b[k]
    ensures Less(a, b)
  {
    assert a == a[..k] + a[k..] && b == a[..k] + b[k..];
    LessAfterPrefix(a[..k], a[k..], b[k..]);
  }

  /** The base-64 digits of a number, most significant first. */
  function Digits(c: nat): (r: (nat, nat, nat, nat))
    ensures r.1 < 0x40 && r.2 < 0x40 && r.3 < 0x40
    ensures c == 0x40000 * r.0 + 0x1000 * r.1 + 0x40 * r.2 + r.3
  {
    (c / 0x40 / 0x40 / 0x40, c / 0x40 / 0x40 % 0x40, c / 0x40 % 0x40, c % 0x40)
  }

  /** Each byte holds one digit. */
  lemma BytesAreDigits(c: CodePoint)
    ensures var (d3, d2, d1, d0) := Digits(c);
            EncodeChar(c)
              == if c < 0x80 then [0x40 * d1 + d0]
                 else if c < 0x800 then [0xC0 + d1, 0x80 + d0]
                 else if c < 0x10000 then [0xE0 + d2, 0x80 + d1, 0x80 + d0]
                 else [0xF0 + d3, 0x80 + d2, 0x80 + d1, 0x80 + d0]
  {
    assert c / 0x40 / 0x40 == c / 0x1000 && c / 0x1000 / 0x40 == c / 0x40000;
  }

  /** Numbers compare as their digits do. */
  lemma DigitsCompare(c: nat, d: nat)
    requires c < d
    ensures var ((c3, c2, c1, c0), (d3, d2, d1, d0)) := (Digits(c), Digits(d));
            c3 < d3 || (c3 == d3 && (c2 < d2 || (c2 == d2 && (c1 < d1 || (c1 == d1 && c0 < d0)))))
  {
  }

  /** Four digits or fewer, compared from the left. */
  predicate DigitsLess(x: seq<int>, y: seq<int>) {
    1 <= |x| == |y| <= 4
    && (|| x[0] < y[0]
        || (x[0] == y[0] && |x| > 1
            && (|| x[1] < y[1]
                || (x[1] == y[1] && |x| > 2
                    && (x[2] < y[2] || (x[2] == y[2] && |x| > 3 && x[3] < y[3]))))))
  }

  lemma FirstSmaller(x: seq<int>, y: seq<int>) returns (k: nat)
    requires DigitsLess(x, y)
    ensures k < |x| == |y| && x[..k] == y[..k] && x[k] < y[k]
  {
    k := if x[0] < y[0] then 0 else if x[1] < y[1] then 1 else if x[2] < y[2] then 2 else 3;
  }

  /** Two encodings of one length differ first where the digits of the characters do. */
  lemma FirstDifference(c: CodePoint, d: CodePoint) returns (k: nat)
    requires c < d && |EncodeChar(c)| == |EncodeChar(d)|
    ensures k < |EncodeChar(c)| && EncodeChar(c)[..k] == EncodeChar(d)[..k] && EncodeChar(c)[k] < EncodeChar(d)[k]
  {
    BytesAreDigits(c);
    BytesAreDigits(d);
    DigitsCompare(c, d);
    k := FirstSmaller(EncodeChar(c), EncodeChar(d));
  }

  lemma SmallerCharacterFirst(c: CodePoint, d: CodePoint, x: seq<Byte>, y: seq<Byte>)
    requires c < d
    ensures Less(EncodeChar(c) + x, EncodeChar(d) + y)
  {
    var a, b := EncodeChar(c) + x, EncodeChar(d) + y;
    if |EncodeChar(c)| < |EncodeChar(d)| {
      LessAtDifference(a, b, 0);
    } else {
      var k := FirstDifference(c, d);
      assert a[..k] == EncodeChar(c)[..k] && b[..k] == EncodeChar(d)[..k];
      LessAtDifference(a, b, k);
    }
  }

  /** Encoding keeps the order: sorting by code points is sorting by bytes. */
  lemma {:induction false} EncodeKeepsOrder(s: Text, t: Text)
    requires Less(s, t)
    ensures Less(Encode(s), Encode(t))
  {
    if s != [] {
      if s[0] < t[0] {
        SmallerCharacterFirst(s[0], t[0], Encode(s[1..]), Encode(t[1..]));
      } else {
        EncodeKeepsOrder(s[1..], t[1..]);
        LessAfterPrefix(EncodeChar(s[0]), Encode(s[1..]), Encode(t[1..]));
      }
    }
  }

  lemma EncodeReflectsOrder(s: Text, t: Text)
    ensures Less(s, t) <==> Less(Encode(s), Encode(t))
    ensures s == t <==> Encode(s) == Encode(t)
  {
    LessTotal(s, t);
    if Less(s, t) {
      EncodeKeepsOrder(s, t);
      LessAsymmetric(Encode(s), Encode(t));
    } else if s == t {
      LessIrreflexive(Encode(s));
      LessIrreflexive(s);
    } else {
      EncodeKeepsOrder(t, s);
      LessAsymmetric(Encode(t), Encode(s));
    }
  }

  /** Only the NUL character encodes to a zero byte. */
  lemma {:induction false} ZeroOnlyFromNul(s: Text)
    ensures 0 in Encode(s) <==> 0 in s
  {
    if s != [] {
      ZeroOnlyFromNul(s[1..]);
      assert s == [s[0]] + s[1..];
      assert 0 in EncodeChar(s[0]) <==> s[0] == 0;
    }
  }
}
