/** `django.utils.text.slugify` without Unicode slugs. */
module NameSlug {
  import opened Text

  /** The ASCII characters in the compatibility decomposition of a character: NFKD, then encoding to ASCII with
    * everything else ignored.
    */
  type Folding = char -> string

  predicate IsAscii(c: char) {
    c as int < 128
  }

  /** ASCII characters decompose to themselves. */
  ghost predicate KeepsAscii(fold: Folding) {
    forall c :: IsAscii(c) ==> fold(c) == [c]
  }

  function Fold(name: string, fold: Folding): string {
    if name == "" then "" else fold(name[0]) + Fold(name[1..], fold)
  }

  function LowerChar(c: char): char {
    if 'A' <= c <= 'Z' then (c as int + 32) as char else c
  }

  /** `\w` among ASCII characters. */
  predicate IsWord(c: char) {
    'a' <= c <= 'z' || 'A' <= c <= 'Z' || '0' <= c <= '9' || c == '_'
  }

  predicate IsDash(c: char) {
    c == '-' || IsSpace(c)
  }

  /** Lower case, and only word characters, spaces and dashes. */
  function Clean(s: string): string {
    if s == "" then ""
    else (if IsWord(s[0]) || IsDash(s[0]) then [LowerChar(s[0])] else "") + Clean(s[1..])
  }

  /** Every run of spaces and dashes becomes one dash. */
  function Dashed(s: string, inRun: bool): string {
    if s == "" then ""
    else if IsDash(s[0]) then (if inRun then "" else "-") + Dashed(s[1..], true)
    else [s[0]] + Dashed(s[1..], false)
  }

  function TrimLeft(s: string): string {
    if s != "" && s[0] in {'-', '_'} then TrimLeft(s[1..]) else s
  }

  function TrimRight(s: string): string {
    if s != "" && s[|s| - 1] in {'-', '_'} then TrimRight(s[..|s| - 1]) else s
  }

  function Slugify(name: string, fold: Folding): string {
    TrimRight(TrimLeft(Dashed(Clean(Fold(name, fold)), false)))
  }

  lemma {:induction false} CleanIsShorter(s: string)
    ensures |Clean(s)| <= |s|
  {
    if s != "" {
      CleanIsShorter(s[1..]);
    }
  }

  lemma {:induction false} DashedIsShorter(s: string, inRun: bool)
    ensures |Dashed(s, inRun)| <= |s|
  {
    if s != "" {
      DashedIsShorter(s[1..], IsDash(s[0]));
    }
  }

  lemma {:induction false} TrimLeftIsShorter(s: string)
    ensures |TrimLeft(s)| <= |s|
  {
    if s != "" {
      TrimLeftIsShorter(s[1..]);
    }
  }

  lemma {:induction false} TrimRightIsShorter(s: string)
    ensures |TrimRight(s)| <= |s|
  {
    if s != "" {
      TrimRightIsShorter(s[..|s| - 1]);
    }
  }

  lemma {:induction false} AsciiFoldsToItself(name: string, fold: Folding)
    requires KeepsAscii(fold) && forall i :: 0 <= i < |name| ==> IsAscii(name[i])
    ensures Fold(name, fold) == name
  {
    if name != "" {
      AsciiFoldsToItself(name[1..], fold);
      assert name == [name[0]] + name[1..];
    }
  }

  /** Only decomposing can make a slug longer than the name, so that of an ASCII name never is. */
  lemma SlugIsShorter(name: string, fold: Folding)
    ensures |Slugify(name, fold)| <= |Fold(name, fold)|
    ensures KeepsAscii(fold) && (forall i :: 0 <= i < |name| ==> IsAscii(name[i])) ==> |Slugify(name, fold)| <= |name|
  {
    var folded := Fold(name, fold);
    CleanIsShorter(folded);
    DashedIsShorter(Clean(folded), false);
    TrimLeftIsShorter(Dashed(Clean(folded), false));
    TrimRightIsShorter(TrimLeft(Dashed(Clean(folded), false)));
    if KeepsAscii(fold) && forall i :: 0 <= i < |name| ==> IsAscii(name[i]) {
      AsciiFoldsToItself(name, fold);
    }
  }

  // ---- A name whose slug is longer than the name

  /** U+FB03, the ligature of f, f and i. */
  const FFI: char := '\U{FB03}'

  /** `n` ligatures and "-2". */
  function Ligatures(n: nat): (r: string)
    ensures |r| == n + 2
  {
    if n == 0 then "-2" else [FFI] + Ligatures(n - 1)
  }

  function Letters(n: nat): (r: string)
    ensures |r| == 3 * n + 2 && r[3 * n..] == "-2" && (n > 0 ==> r[0] == 'f')
  {
    if n == 0 then "-2" else "ffi" + Letters(n - 1)
  }

  lemma {:induction false} LigaturesFold(n: nat, fold: Folding)
    requires fold(FFI) == "ffi" && KeepsAscii(fold)
    ensures Fold(Ligatures(n), fold) == Letters(n)
  {
    if n == 0 {
      AsciiFoldsToItself("-2", fold);
    } else {
      LigaturesFold(n - 1, fold);
      assert Ligatures(n)[1..] == Ligatures(n - 1);
    }
  }

  predicate Stays(s: string) {
    Clean(s) == s && Dashed(s, false) == s
  }

  lemma LetterStays(c: char, s: string)
    requires 'a' <= c <= 'z' && Stays(s)
    ensures Stays([c] + s)
  {
    assert ([c] + s)[1..] == s;
  }

  lemma {:induction false} LettersStay(n: nat)
    ensures Stays(Letters(n))
  {
    var s := Letters(n);
    if n == 0 {
      assert "-2"[1..] == "2" && "2"[1..] == "";
      assert Clean("2") == "2" && Dashed("2", false) == "2" && Dashed("2", true) == "2";
    } else {
      LettersStay(n - 1);
      LetterStays('i', Letters(n - 1));
      LetterStays('f', ['i'] + Letters(n - 1));
      LetterStays('f', ['f'] + (['i'] + Letters(n - 1)));
      assert s == ['f'] + (['f'] + (['i'] + Letters(n - 1)));
    }
  }

  /** The slug of `n` ligatures and "-2" spells them out. */
  lemma LigaturesSlug(n: nat, fold: Folding)
    requires n > 0 && fold(FFI) == "ffi" && KeepsAscii(fold)
    ensures Slugify(Ligatures(n), fold) == Letters(n)
  {
    LigaturesFold(n, fold);
    LettersStay(n);
    var s := Letters(n);
    assert s[|s| - 1] == s[3 * n..][1] == '2';
  }
}
