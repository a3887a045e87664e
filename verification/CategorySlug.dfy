/** Making a category slug unique by appending a counter. */
module CategorySlug {
  import opened Wrappers
  import opened Decimal
  import opened NameSlug

  const MAX_LENGTH := 140

  /** The length of the `name` column. */
  const NAME_LENGTH := 100

  /** `s[:n]` */
  function Take(s: string, n: int): string {
    if n >= 0 then s[..Min(n, |s|)] else s[..if |s| + n > 0 then |s| + n else 0]
  }

  function Base(name: string, fold: Folding): string {
    Take(Slugify(name, fold), MAX_LENGTH)
  }

  function Suffix(k: nat): string {
    "-" + Digits(k)
  }

  /** What the loop tries with the counter at `k`. */
  function Candidate(base: string, k: nat): string {
    Take(base, MAX_LENGTH - |Suffix(k)|) + Suffix(k)
  }

  /** The `i`-th slug that is tried. */
  function Probe(base: string, i: nat): string {
    if i == 0 then base else Candidate(base, i + 1)
  }

  // ---- Different counters give different slugs, truncated or not

  function TrailingDigits(s: string): string {
    if s != "" && IsDigit(s[|s| - 1]) then TrailingDigits(s[..|s| - 1]) + [s[|s| - 1]] else ""
  }

  lemma {:induction false} DigitsAfterDash(a: string, d: string)
    requires AllDigits(d)
    ensures TrailingDigits(a + ("-" + d)) == d
  {
    var s := a + ("-" + d);
    if d == "" {
      assert s[|s| - 1] == '-';
    } else {
      DigitsAfterDash(a, d[..|d| - 1]);
      assert s[..|s| - 1] == a + ("-" + d[..|d| - 1]) && s[|s| - 1] == d[|d| - 1];
    }
  }

  /** The counter can be read back from a candidate, so different counters give different candidates. */
  lemma CandidatesDiffer(base: string, j: nat, k: nat)
    ensures Candidate(base, j) == Candidate(base, k) ==> j == k
  {
    DigitsAfterDash(Take(base, MAX_LENGTH - |Suffix(j)|), Digits(j));
    DigitsAfterDash(Take(base, MAX_LENGTH - |Suffix(k)|), Digits(k));
    if Candidate(base, j) == Candidate(base, k) {
      DigitsInjective(j, k);
    }
  }

  lemma CandidateLength(base: string, k: nat)
    requires |base| <= MAX_LENGTH && k < Pow10(MAX_LENGTH - 1)
    ensures |Candidate(base, k)| <= MAX_LENGTH
  {
    DigitsLength(k, MAX_LENGTH - 1);
  }

  // ---- How many slugs are tried

  /** The candidates with counters 2 to `m`. */
  ghost function Candidates(base: string, m: nat): set<string> {
    if m < 2 then {} else Candidates(base, m - 1) + {Candidate(base, m)}
  }

  lemma {:induction false} LaterCandidateIsNew(base: string, m: nat, k: nat)
    requires k > m
    ensures Candidate(base, k) !in Candidates(base, m)
  {
    if m >= 2 {
      LaterCandidateIsNew(base, m - 1, k);
      CandidatesDiffer(base, m, k);
    }
  }

  lemma {:induction false} CandidatesAreMany(base: string, m: nat)
    requires m >= 1
    ensures |Candidates(base, m)| == m - 1
  {
    if m >= 2 {
      CandidatesAreMany(base, m - 1);
      LaterCandidateIsNew(base, m - 1, m);
    }
  }

  /** The set of candidates holds the candidates and nothing else. */
  lemma {:induction false} AmongCandidates(base: string, m: nat, c: string)
    ensures c in Candidates(base, m) <==> exists k: nat :: 2 <= k <= m && c == Candidate(base, k)
  {
    if m >= 2 {
      AmongCandidates(base, m - 1, c);
    }
  }

  lemma {:induction false} SubsetIsSmaller(a: set<string>, b: set<string>)
    requires a <= b
    ensures |a| <= |b|
  {
    if x :| x in a {
      SubsetIsSmaller(a - {x}, b - {x});
    }
  }

  /** The first `n` probes are taken. */
  ghost predicate AllTaken(base: string, existing: set<string>, n: nat) {
    forall i :: 0 <= i < n ==> Probe(base, i) in existing
  }

  /** The loop makes `n` probes: all are taken but the last. */
  ghost predicate StopsAfter(base: string, existing: set<string>, n: nat) {
    n > 0 && AllTaken(base, existing, n - 1) && Probe(base, n - 1) !in existing
  }

  lemma TakenBound(base: string, existing: set<string>, n: nat)
    requires AllTaken(base, existing, n)
    ensures n <= |existing| + 1
    ensures (forall k :: k >= 2 ==> Candidate(base, k) != base) ==> n <= |existing|
  {
    if n > 0 {
      CandidatesAreMany(base, n);
      forall c | c in Candidates(base, n)
        ensures c in existing
      {
        AmongCandidates(base, n, c);
        var k: nat :| 2 <= k <= n && c == Candidate(base, k);
        assert Probe(base, k - 1) == c;
      }
      SubsetIsSmaller(Candidates(base, n), existing);
      if forall k :: k >= 2 ==> Candidate(base, k) != base {
        AmongCandidates(base, n, base);
        assert Probe(base, 0) == base;
        SubsetIsSmaller(Candidates(base, n) + {base}, existing);
      }
    }
  }

  /** The base has full length and already ends in a counter, so that truncating it and appending that
    * counter gives the base itself.
    */
  predicate EndsInCounter(base: string, k: nat) {
    |base| == MAX_LENGTH && |Suffix(k)| <= |base| && base[|base| - |Suffix(k)|..] == Suffix(k)
  }

  lemma SelfCandidate(base: string, k: nat)
    requires |base| <= MAX_LENGTH && |Suffix(k)| <= MAX_LENGTH
    ensures Candidate(base, k) == base <==> EndsInCounter(base, k)
  {
    var n := |Suffix(k)|;
    if Candidate(base, k) == base {
      assert base[|base| - n..] == Suffix(k);
    }
    if EndsInCounter(base, k) {
      assert base == base[..|base| - n] + base[|base| - n..];
    }
  }

  lemma SelfCandidateIsShort(base: string, k: nat)
    requires Candidate(base, k) == base && |base| <= MAX_LENGTH
    ensures |Suffix(k)| <= MAX_LENGTH
  {
  }

  /** For a base that is its own candidate, the candidates up to it are a set that costs one probe more than
    * the number of existing slugs plus one.
    */
  lemma OneProbeMore(base: string, k: nat) returns (existing: set<string>)
    requires k >= 2 && Candidate(base, k) == base
    ensures AllTaken(base, existing, |existing| + 1)
    ensures StopsAfter(base, existing, |existing| + 2)
  {
    existing := Candidates(base, k);
    CandidatesAreMany(base, k);
    AmongCandidates(base, k, base);
    forall i | 0 <= i < k
      ensures Probe(base, i) in existing
    {
      if i > 0 {
        AmongCandidates(base, k, Candidate(base, i + 1));
      }
    }
    LaterCandidateIsNew(base, k, k + 1);
  }

  /** Where the base is its own first candidate and that one slug is taken, three probes are needed. */
  lemma ThreeProbes(base: string)
    requires Candidate(base, 2) == base && Candidate(base, 3) != base
    ensures StopsAfter(base, {base}, 3)
  {
    assert Probe(base, 0) == base && Probe(base, 1) == Candidate(base, 2) && Probe(base, 2) == Candidate(base, 3);
  }

  lemma SuffixOfTwo()
    ensures Suffix(2) == "-2"
  {
  }

  lemma TakeAll(s: string)
    requires |s| == MAX_LENGTH
    ensures Take(s, MAX_LENGTH) == s
  {
  }

  /** A base of full length that ends in "-2". */
  lemma FullLengthThreeProbes(base: string)
    requires |base| == MAX_LENGTH && base[MAX_LENGTH - 2..] == "-2"
    ensures StopsAfter(base, {base}, 3)
  {
    SuffixOfTwo();
    SelfCandidate(base, 2);
    CandidatesDiffer(base, 3, 2);
    ThreeProbes(base);
  }

  /** A name the column accepts, 46 ligatures and "-2": its slug has 140 characters and ends in a counter.  With
    * that one slug taken, the second probe is the base again and three are needed.
    */
  lemma OneSlugThreeProbes(fold: Folding)
    requires fold(FFI) == "ffi" && KeepsAscii(fold)
    ensures |Ligatures(46)| <= NAME_LENGTH
    ensures StopsAfter(Base(Ligatures(46), fold), {Base(Ligatures(46), fold)}, 3)
  {
    LigaturesSlug(46, fold);
    TakeAll(Letters(46));
    FullLengthThreeProbes(Letters(46));
  }

  /** One probe per existing slug and one more are enough, whatever slugs exist, exactly if the base is not a
    * full-length string that ends in a counter of its own.
    */
  lemma ProbesBound(base: string)
    requires |base| <= MAX_LENGTH
    ensures (forall existing, n: nat :: StopsAfter(base, existing, n) ==> n <= |existing| + 1)
              <==> (forall k :: k >= 2 ==> !EndsInCounter(base, k))
  {
    if forall k :: k >= 2 ==> !EndsInCounter(base, k) {
      forall k | k >= 2
        ensures Candidate(base, k) != base
      {
        if Candidate(base, k) == base {
          SelfCandidateIsShort(base, k);
          SelfCandidate(base, k);
        }
      }
      forall existing, n: nat | StopsAfter(base, existing, n)
        ensures n <= |existing| + 1
      {
        TakenBound(base, existing, n - 1);
      }
    } else {
      var k :| k >= 2 && EndsInCounter(base, k);
      SelfCandidate(base, k);
      var existing := OneProbeMore(base, k);
    }
  }

  /** A base of less than the full length, and so any name in ASCII, needs no more than one probe per existing
    * slug and one.
    */
  lemma ShortBasesMeetBound(base: string, existing: set<string>, n: nat)
    requires |base| < MAX_LENGTH && StopsAfter(base, existing, n)
    ensures n <= |existing| + 1
  {
    ProbesBound(base);
  }

  lemma AsciiNamesMeetBound(name: string, fold: Folding, existing: set<string>, n: nat)
    requires KeepsAscii(fold) && |name| <= NAME_LENGTH && forall i :: 0 <= i < |name| ==> IsAscii(name[i])
    requires StopsAfter(Base(name, fold), existing, n)
    ensures n <= |existing| + 1
  {
    SlugIsShorter(name, fold);
    ShortBasesMeetBound(Base(name, fold), existing, n);
  }

  /** `existing` are the slugs of the other categories. */
  method GenerateUniqueSlug(name: string, fold: Folding, existing: set<string>)
    returns (slug: string, ghost probes: nat)
    ensures StopsAfter(Base(name, fold), existing, probes) && slug == Probe(Base(name, fold), probes - 1)
    ensures slug !in existing && probes <= |existing| + 2
    ensures |existing| + 2 < Pow10(MAX_LENGTH - 1) ==> |slug| <= MAX_LENGTH
  {
    var base := Take(Slugify(name, fold), MAX_LENGTH);
    slug := base;
    var suffix := 2;
    probes := 1;
    while slug in existing
      invariant suffix >= 2 && probes == suffix - 1
      invariant slug == Probe(base, probes - 1) && AllTaken(base, existing, probes - 1)
      invariant probes <= |existing| + 2
      decreases |existing| + 2 - probes
    {
      assert AllTaken(base, existing, probes);
      TakenBound(base, existing, probes);
      var candidateSuffix := "-" + Digits(suffix);
      slug := Take(base, MAX_LENGTH - |candidateSuffix|) + candidateSuffix;
      suffix := suffix + 1;
      probes := probes + 1;
    }
    if |existing| + 2 < Pow10(MAX_LENGTH - 1) {
      CandidateLength(base, probes);
    }
  }
}
