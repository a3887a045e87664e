/** What a slug looks like: its characters, the words it is made of, and the slugs tried for a name. */
module SlugFacts {
  import opened Text
  import opened Decimal
  import opened NameSlug
  import opened CategorySlug

  // ---- The characters of a slug

  predicate IsSlugChar(c: char) {
    'a' <= c <= 'z' || '0' <= c <= '9' || c == '_' || c == '-'
  }

  /** Small letters, digits, underlines and dashes, no two dashes together, no dash or underline at an end. */
  predicate IsSlug(s: string) {
    && (forall i :: 0 <= i < |s| ==> IsSlugChar(s[i]))
    && (forall i :: 0 <= i < |s| - 1 ==> !(s[i] == '-' && s[i + 1] == '-'))
    && (s != "" ==> s[0] != '-' && s[0] != '_' && s[|s| - 1] != '-' && s[|s| - 1] != '_')
  }

  predicate IsKept(c: char) {
    IsDash(c) || 'a' <= c <= 'z' || '0' <= c <= '9' || c == '_'
  }

  lemma {:induction false} CleanKeeps(s: string)
    ensures forall i :: 0 <= i < |Clean(s)| ==> IsKept(Clean(s)[i])
  {
    if s != "" {
      CleanKeeps(s[1..]);
    }
  }

  predicate IsDashed(s: string) {
    && (forall i :: 0 <= i < |s| ==> IsSlugChar(s[i]))
    && (forall i :: 0 <= i < |s| - 1 ==> !(s[i] == '-' && s[i + 1] == '-'))
  }

  lemma {:induction false} DashedHasNoRuns(s: string, inRun: bool)
    requires forall i :: 0 <= i < |s| ==> IsKept(s[i])
    ensures IsDashed(Dashed(s, inRun))
    ensures inRun && Dashed(s, inRun) != "" ==> Dashed(s, inRun)[0] != '-'
  {
    if s != "" {
      DashedHasNoRuns(s[1..], IsDash(s[0]));
    }
  }

  lemma {:induction false} TrimLeftIsSuffix(s: string) returns (n: nat)
    ensures n <= |s| && TrimLeft(s) == s[n..] && (n < |s| ==> s[n] != '-' && s[n] != '_')
  {
    n := 0;
    if s != "" && s[0] in {'-', '_'} {
      n := TrimLeftIsSuffix(s[1..]);
      n := n + 1;
      assert s[1..][n - 1..] == s[n..];
    }
  }

  lemma {:induction false} TrimRightIsPrefix(s: string) returns (n: nat)
    ensures n <= |s| && TrimRight(s) == s[..n] && (n > 0 ==> s[n - 1] != '-' && s[n - 1] != '_')
  {
    n := |s|;
    if s != "" && s[|s| - 1] in {'-', '_'} {
      n := TrimRightIsPrefix(s[..|s| - 1]);
      assert s[..|s| - 1][..n] == s[..n];
    }
  }

  lemma SliceIsDashed(s: string, i: nat, j: nat)
    requires IsDashed(s) && i <= j <= |s|
    ensures IsDashed(s[i..j])
  {
  }

  /** Whatever the name, in whatever script. */
  lemma SlugsAreSlugs(name: string, fold: Folding)
    ensures IsSlug(Slugify(name, fold))
  {
    var clean := Clean(Fold(name, fold));
    CleanKeeps(Fold(name, fold));
    DashedHasNoRuns(clean, false);
    var dashed := Dashed(clean, false);
    var i := TrimLeftIsSuffix(dashed);
    var j := TrimRightIsPrefix(dashed[i..]);
    assert dashed[i..][..j] == dashed[i..i + j];
    SliceIsDashed(dashed, i, i + j);
  }

  // ---- The words of a slug

  predicate IsLetter(c: char) {
    'a' <= c <= 'z' || 'A' <= c <= 'Z' || '0' <= c <= '9'
  }

  predicate IsPlainWord(w: string) {
    w != "" && forall i :: 0 <= i < |w| ==> IsLetter(w[i])
  }

  predicate IsBlank(c: char) {
    c == ' ' || c == '-' || c == '\t' || c == '\n'
  }

  /** Neither letter nor digit nor underline, nor white space of any kind, nor a dash. */
  predicate IsMark(c: char) {
    !IsLetter(c) && c != '_' && c != '-' && !IsSpace(c)
  }

  /** Blanks and marks alone. */
  predicate IsBetween(s: string) {
    forall i :: 0 <= i < |s| ==> IsBlank(s[i]) || IsMark(s[i])
  }

  predicate HasBlank(s: string) {
    exists i :: 0 <= i < |s| && IsBlank(s[i])
  }

  function Lower(w: string): (r: string)
    ensures |r| == |w|
    ensures forall i :: 0 <= i < |w| ==>
              r[i] == if 'A' <= w[i] <= 'Z' then (w[i] as int + 32) as char else w[i]
  {
    seq(|w|, i requires 0 <= i < |w| => if 'A' <= w[i] <= 'Z' then (w[i] as int + 32) as char else w[i])
  }

  /** The words in a text, each but the last with what follows it. */
  function TextOf(words: seq<string>, gaps: seq<string>): string
    requires |gaps| + 1 == |words|
  {
    if gaps == [] then words[0] else words[0] + (gaps[0] + TextOf(words[1..], gaps[1..]))
  }

  function Hyphened(words: seq<string>): string
    requires words != []
  {
    if |words| == 1 then Lower(words[0]) else Lower(words[0]) + ("-" + Hyphened(words[1..]))
  }

  lemma {:induction false} CleanConcat(a: string, b: string)
    ensures Clean(a + b) == Clean(a) + Clean(b)
  {
    if a == "" {
      assert a + b == b && Clean(a) + Clean(b) == Clean(b);
    } else {
      CleanConcat(a[1..], b);
      CleanStep(a[0], a[1..], b);
      assert a == [a[0]] + a[1..] && a + b == [a[0]] + (a[1..] + b);
    }
  }

  lemma {:induction false} CleanStep(c: char, a: string, b: string)
    requires Clean(a + b) == Clean(a) + Clean(b)
    ensures Clean([c] + (a + b)) == Clean([c] + a) + Clean(b)
  {
    var head := CleanHead(c, a);
    var same := CleanHead(c, a + b);
    assert head + (Clean(a) + Clean(b)) == (head + Clean(a)) + Clean(b);
  }

  /** What a character contributes does not depend on what follows. */
  lemma CleanHead(c: char, rest: string) returns (head: string)
    ensures head == if IsWord(c) || IsDash(c) then [LowerChar(c)] else ""
    ensures Clean([c] + rest) == head + Clean(rest)
  {
    head := if IsWord(c) || IsDash(c) then [LowerChar(c)] else "";
    assert ([c] + rest)[1..] == rest;
  }

  lemma {:induction false} CleanWord(w: string)
    requires forall i :: 0 <= i < |w| ==> IsLetter(w[i])
    ensures Clean(w) == Lower(w)
  {
    if w != "" {
      CleanWord(w[1..]);
      assert Lower(w) == [LowerChar(w[0])] + Lower(w[1..]);
    }
  }

  predicate AllDashes(s: string) {
    forall i :: 0 <= i < |s| ==> IsDash(s[i])
  }

  lemma {:induction false} CleanBetween(s: string)
    requires IsBetween(s)
    ensures AllDashes(Clean(s)) && (HasBlank(s) <==> Clean(s) != "")
  {
    if s != "" {
      CleanBetween(s[1..]);
      assert forall i :: 0 <= i < |s| - 1 ==> s[1..][i] == s[i + 1];
      if HasBlank(s) {
        var i :| 0 <= i < |s| && IsBlank(s[i]);
        assert i == 0 || IsBlank(s[1..][i - 1]);
      }
    }
  }

  lemma {:induction false} DashedRun(d: string, rest: string, inRun: bool)
    requires AllDashes(d) && d != ""
    ensures Dashed(d + rest, inRun) == (if inRun then "" else "-") + Dashed(rest, true)
  {
    assert (d + rest)[1..] == d[1..] + rest;
    if |d| > 1 {
      DashedRun(d[1..], rest, true);
      assert "" + Dashed(rest, true) == Dashed(rest, true);
    } else {
      assert d[1..] + rest == rest;
    }
  }

  lemma {:induction false} DashedWord(w: string, rest: string, inRun: bool)
    requires w != "" && forall i :: 0 <= i < |w| ==> !IsDash(w[i])
    ensures Dashed(w + rest, inRun) == w + Dashed(rest, false)
  {
    assert (w + rest)[1..] == w[1..] + rest;
    if |w| > 1 {
      DashedWord(w[1..], rest, false);
    } else {
      assert w[1..] + rest == rest;
    }
  }

  predicate AreWords(words: seq<string>, gaps: seq<string>) {
    && |gaps| + 1 == |words| && (forall i :: 0 <= i < |words| ==> IsPlainWord(words[i]))
    && forall i :: 0 <= i < |gaps| ==> IsBetween(gaps[i]) && HasBlank(gaps[i])
  }

  lemma LettersAreNoDashes(w: string)
    requires IsPlainWord(w)
    ensures Lower(w) != "" && forall i :: 0 <= i < |w| ==> IsLetter(Lower(w)[i]) && !IsDash(Lower(w)[i])
  {
  }

  lemma {:induction false} DashedText(words: seq<string>, gaps: seq<string>, rest: string, inRun: bool)
    requires AreWords(words, gaps)
    ensures Dashed(Clean(TextOf(words, gaps)) + rest, inRun) == Hyphened(words) + Dashed(rest, false)
    decreases |words|
  {
    var w := Lower(words[0]);
    LettersAreNoDashes(words[0]);
    CleanWord(words[0]);
    if gaps == [] {
      DashedWord(w, rest, inRun);
    } else {
      var more := TextOf(words[1..], gaps[1..]);
      CleanConcat(words[0], gaps[0] + more);
      CleanConcat(gaps[0], more);
      CleanBetween(gaps[0]);
      DashedText(words[1..], gaps[1..], rest, true);
      OneGap(w, Clean(gaps[0]), Clean(more), rest, Hyphened(words[1..]), inRun);
    }
  }

  /** A word, a gap and whatever comes then. */
  lemma OneGap(w: string, d: string, more: string, rest: string, slug: string, inRun: bool)
    requires w != "" && (forall i :: 0 <= i < |w| ==> !IsDash(w[i])) && d != "" && AllDashes(d)
    requires Dashed(more + rest, true) == slug + Dashed(rest, false)
    ensures Dashed((w + (d + more)) + rest, inRun) == (w + ("-" + slug)) + Dashed(rest, false)
  {
    assert (w + (d + more)) + rest == w + (d + (more + rest));
    DashedWord(w, d + (more + rest), inRun);
    DashedRun(d, more + rest, false);
    assert w + ("-" + (slug + Dashed(rest, false))) == (w + ("-" + slug)) + Dashed(rest, false);
  }

  lemma {:induction false} HyphenedEnds(words: seq<string>)
    requires words != [] && forall i :: 0 <= i < |words| ==> IsPlainWord(words[i])
    ensures Hyphened(words) != "" && IsLetter(Hyphened(words)[0]) && IsLetter(Hyphened(words)[|Hyphened(words)| - 1])
  {
    LettersAreNoDashes(words[0]);
    if |words| > 1 {
      HyphenedEnds(words[1..]);
    }
  }

  lemma {:induction false} TrimsLeft(lead: bool, s: string)
    requires s != "" && IsLetter(s[0])
    ensures TrimLeft((if lead then "-" else "") + s) == s
  {
    if lead {
      assert ("-" + s)[1..] == s;
    } else {
      assert "" + s == s;
    }
  }

  lemma {:induction false} TrimsRight(s: string, trail: bool)
    requires s != "" && IsLetter(s[|s| - 1])
    ensures TrimRight(s + (if trail then "-" else "")) == s
  {
    if trail {
      assert (s + "-")[..|s|] == s;
    } else {
      assert s + "" == s;
    }
  }

  lemma TrimsDashes(lead: bool, s: string, trail: bool)
    requires s != "" && IsLetter(s[0]) && IsLetter(s[|s| - 1])
    ensures TrimRight(TrimLeft((if lead then "-" else "") + s + (if trail then "-" else ""))) == s
  {
    var l, t := if lead then "-" else "", if trail then "-" else "";
    assert l + s + t == l + (s + t);
    TrimsLeft(lead, s + t);
    TrimsRight(s, trail);
  }

  /** Words of letters and digits, with blanks and any marks around and between them, become the words in small letters,
    * joined by single dashes.
    */
  lemma SlugOfWords(name: string, fold: Folding, lead: string, words: seq<string>, gaps: seq<string>, trail: string)
    requires AreWords(words, gaps) && IsBetween(lead) && IsBetween(trail)
    requires Fold(name, fold) == lead + (TextOf(words, gaps) + trail)
    ensures Slugify(name, fold) == Hyphened(words)
  {
    CleanConcat(lead, TextOf(words, gaps) + trail);
    CleanConcat(TextOf(words, gaps), trail);
    CleanBetween(lead);
    CleanBetween(trail);
    var l, text, t := Clean(lead), Clean(TextOf(words, gaps)), Clean(trail);
    LeadText(l, words, gaps, t);
    TrailText(t);
    HyphenedEnds(words);
    TrimsDashes(l != "", Hyphened(words), t != "");
  }

  lemma LeadText(l: string, words: seq<string>, gaps: seq<string>, t: string)
    requires AreWords(words, gaps) && AllDashes(l)
    ensures Dashed(l + (Clean(TextOf(words, gaps)) + t), false)
              == (if l != "" then "-" else "") + Hyphened(words) + Dashed(t, false)
  {
    var text := Clean(TextOf(words, gaps));
    if l != "" {
      DashedRun(l, text + t, false);
      DashedText(words, gaps, t, true);
    } else {
      assert l + (text + t) == text + t;
      DashedText(words, gaps, t, false);
      assert "" + Hyphened(words) == Hyphened(words);
    }
  }

  lemma TrailText(t: string)
    requires AllDashes(t)
    ensures Dashed(t, false) == if t != "" then "-" else ""
  {
    if t != "" {
      DashedRun(t, "", false);
      assert t + "" == t;
    }
  }

  lemma TwoWords(a: string, gap: string, b: string)
    requires IsPlainWord(a) && IsPlainWord(b) && IsBetween(gap) && HasBlank(gap)
    ensures AreWords([a, b], [gap])
    ensures TextOf([a, b], [gap]) == a + (gap + b) && Hyphened([a, b]) == Lower(a) + ("-" + Lower(b))
  {
    assert [a, b][1..] == [b] && [gap][1..] == [];
  }

  /** For example two words. */
  lemma SlugOfTwoWords(name: string, fold: Folding, lead: string, a: string, gap: string, b: string, trail: string)
    requires IsPlainWord(a) && IsPlainWord(b) && IsBetween(gap) && HasBlank(gap) && IsBetween(lead) && IsBetween(trail)
    requires Fold(name, fold) == lead + ((a + (gap + b)) + trail)
    ensures Slugify(name, fold) == Lower(a) + ("-" + Lower(b))
  {
    TwoWords(a, gap, b);
    SlugOfWords(name, fold, lead, [a, b], [gap], trail);
  }

  // ---- The slugs that are tried

  /** Slicing from the start takes the first characters, or leaves out the last if the bound is negative. */
  lemma SliceInCharacters(s: string, n: int)
    requires n > 0
    ensures Take(s, n) == if n <= |s| then s[..n] else s
    ensures Take(s, -n) == if n <= |s| then s[..|s| - n] else ""
  {
  }

  /** The ASCII characters are those up to DEL. */
  lemma AsciiInNumbers(c: char)
    ensures IsAscii(c) <==> c as int <= 127
  {
  }

  /** First the base itself, then the base with "-2", "-3" and so on, shortened so that the whole has at most 140
    * characters.
    */
  lemma TriedInCharacters(base: string, i: nat)
    requires |base| <= 140 && |Digits(i + 1)| <= 139
    ensures Probe(base, 0) == base
    ensures var room := 139 - |Digits(i + 1)|;
            i > 0 ==> Probe(base, i) == (if |base| <= room then base else base[..room]) + "-" + Digits(i + 1)
                      && |Probe(base, i)| <= 140
  {
  }

  /** The base is the slug of the name, cut at 140 characters. */
  lemma BaseInCharacters(name: string, fold: Folding)
    ensures var slug := Slugify(name, fold);
            Base(name, fold) == if |slug| <= 140 then slug else slug[..140]
  {
  }
}
