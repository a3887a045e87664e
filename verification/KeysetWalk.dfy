/** Whole walks through a paginated list.
  *
  * A walk is the sequence of requests a client makes by sending every `next_cursor` back.  The rows
  * may be different at every request, and so may the page size.
  */
module KeysetWalk {
  import opened Wrappers
  import opened Keyset

  /** One request: the rows there were, the page size asked for, and the page answered. */
  datatype Request = Request(rows: set<Key>, limit: nat, page: seq<Key>)

  /** A page that is not full ends the walk; a full one is resumed after its last key. */
  predicate Full(r: Request) {
    0 < r.limit <= |r.page|
  }

  function LastKey(r: Request): Key
    requires r.page != []
  {
    r.page[|r.page| - 1]
  }

  ghost predicate Step(w: seq<Request>, i: nat)
    requires i < |w|
  {
    && w[i].limit > 0
    && (i > 0 ==> Full(w[i - 1]))
    && FirstAfter(w[i].page, w[i].rows, if i == 0 then None else Some(LastKey(w[i - 1])), w[i].limit)
  }

  ghost predicate IsWalk(w: seq<Request>) {
    forall i :: 0 <= i < |w| ==> Step(w, i)
  }

  lemma WalkPrefix(w: seq<Request>, n: nat)
    requires IsWalk(w) && n <= |w|
    ensures IsWalk(w[..n])
    ensures 0 < n < |w| ==> Full(w[..n][n - 1])
  {
    forall i | 0 <= i < n
      ensures Step(w[..n], i)
    {
      assert Step(w, i);
    }
    assert n < |w| ==> Step(w, n);
  }

  predicate Finished(w: seq<Request>) {
    w != [] && !Full(w[|w| - 1])
  }

  /** Everything the walk served, in order. */
  function Served(w: seq<Request>): seq<Key> {
    if w == [] then [] else Served(w[..|w| - 1]) + w[|w| - 1].page
  }

  /** Rows that are there at every request of the walk. */
  ghost predicate AlwaysThere(k: Key, w: seq<Request>) {
    forall i :: 0 <= i < |w| ==> k in w[i].rows
  }

  ghost predicate EndsWith(s: seq<Key>, k: Key) {
    s != [] && s[|s| - 1] == k
  }

  /** Whatever rows come and go between requests, the walk never serves a key twice: the served keys
    * are strictly descending across all pages.
    */
  lemma {:induction false} ServedDescends(w: seq<Request>)
    requires IsWalk(w)
    ensures Descending(Served(w))
    ensures w != [] && Full(w[|w| - 1]) ==> EndsWith(Served(w), LastKey(w[|w| - 1]))
  {
    if w != [] {
      var n := |w| - 1;
      var before, page := Served(w[..n]), w[n].page;
      WalkPrefix(w, n);
      ServedDescends(w[..n]);
      assert Step(w, n);
      var all := before + page;
      forall i, j | 0 <= i < j < |all|
        ensures Before(all[i], all[j])
      {
        if j >= |before| {
          assert page[j - |before|] in page;
          if i >= |before| {
            assert Before(page[i - |before|], page[j - |before|]);
          } else if i < |before| - 1 {
            assert Before(before[i], before[|before| - 1]);
          }
        }
      }
    }
  }

  /** A key that is there at every request was served, or is after everything served so far. */
  lemma {:induction false} ServedUnlessAfter(w: seq<Request>, k: Key)
    requires IsWalk(w) && w != [] && AlwaysThere(k, w)
    ensures k in Served(w) || (Full(w[|w| - 1]) && Before(LastKey(w[|w| - 1]), k))
  {
    var n := |w| - 1;
    assert Step(w, n) && k in w[n].rows;
    if n > 0 {
      WalkPrefix(w, n);
      ServedUnlessAfter(w[..n], k);
    }
  }

  /** A finished walk served every key that was there throughout. */
  lemma FinishedWalkServesAll(w: seq<Request>, k: Key)
    requires IsWalk(w) && Finished(w) && AlwaysThere(k, w)
    ensures k in Served(w)
  {
    ServedUnlessAfter(w, k);
  }

  lemma {:induction false} ServedWereThere(w: seq<Request>, rows: set<Key>)
    requires IsWalk(w) && forall i :: 0 <= i < |w| ==> w[i].rows <= rows
    ensures forall k :: k in Served(w) ==> k in rows
  {
    if w != [] {
      var n := |w| - 1;
      assert Step(w, n);
      WalkPrefix(w, n);
      ServedWereThere(w[..n], rows);
    }
  }

  /** On a fixed set of rows a finished walk is the complete ranking cut into pages. */
  lemma FixedRowsWalkIsRanking(w: seq<Request>, rows: set<Key>)
    requires IsWalk(w) && Finished(w) && forall i :: 0 <= i < |w| ==> w[i].rows == rows
    ensures Ranks(Served(w), rows)
  {
    ServedDescends(w);
    ServedWereThere(w, rows);
    forall k | k in rows
      ensures k in Served(w)
    {
      FinishedWalkServesAll(w, k);
    }
  }

  // ---- How long a walk takes

  /** On fixed rows a walk serves the ranking from its start, and all of it once a page is not full. */
  lemma {:induction false} ServedIsPrefix(w: seq<Request>, rows: set<Key>, all: seq<Key>)
    requires IsWalk(w) && Ranks(all, rows) && forall i :: 0 <= i < |w| ==> w[i].rows == rows
    ensures |Served(w)| <= |all| && Served(w) == all[..|Served(w)|]
    ensures Finished(w) ==> Served(w) == all
  {
    if w != [] {
      var n := |w| - 1;
      var before, page := Served(w[..n]), w[n].page;
      WalkPrefix(w, n);
      assert Step(w, n);
      ServedIsPrefix(w[..n], rows, all);
      LastServed(w, n);
      PageIsSliceOfRanking(all, rows, |before|, page, w[n].limit);
      assert all[..|before| + |page|] == all[..|before|] + all[|before|..|before| + |page|];
    }
  }

  /** Request `n` continues after the last key served before it. */
  lemma LastServed(w: seq<Request>, n: nat)
    requires IsWalk(w) && n < |w|
    ensures var before := Served(w[..n]);
            (n == 0 <==> before == []) && (n > 0 ==> Full(w[n - 1]) && before[|before| - 1] == LastKey(w[n - 1]))
  {
    WalkPrefix(w, n);
    assert Step(w, n);
    ServedDescends(w[..n]);
  }

  lemma {:induction false} FullPagesCount(w: seq<Request>, limit: nat)
    requires IsWalk(w) && (w != [] ==> Full(w[|w| - 1]))
    requires forall i :: 0 <= i < |w| ==> w[i].limit == limit
    ensures |Served(w)| == |w| * limit
  {
    if w != [] {
      var n := |w| - 1;
      assert Step(w, n);
      WalkPrefix(w, n);
      FullPagesCount(w[..n], limit);
      assert |w| * limit == n * limit + limit;
    }
  }

  /** Over `n` fixed rows and with a constant page size a walk never gets beyond `n / limit + 1` requests, and it
    * has finished exactly if it made that many.
    */
  lemma WalkLength(w: seq<Request>, rows: set<Key>, limit: nat)
    requires IsWalk(w) && w != [] && forall i :: 0 <= i < |w| ==> w[i].rows == rows && w[i].limit == limit
    ensures limit > 0 && |w| <= |rows| / limit + 1
    ensures Finished(w) <==> |w| == |rows| / limit + 1
  {
    var n := |w| - 1;
    var all := RankingOf(rows);
    assert Step(w, n);
    WalkPrefix(w, n);
    FullPagesCount(w[..n], limit);
    ServedIsPrefix(w, rows, all);
    assert |Served(w)| == n * limit + |w[n].page|;
    PagesFor(|all|, limit, n, |w[n].page|);
  }

  /** `q` full pages and one of `r`, which is all there is if it is not full. */
  lemma PagesFor(x: nat, p: nat, q: nat, r: nat)
    requires p > 0 && r <= p && q * p + r <= x
    requires r < p ==> x == q * p + r
    ensures q <= x / p
    ensures r < p <==> q == x / p
  {
    if r < p {
      QuotientIs(x, p, q, r);
    } else {
      assert q * p + p == (q + 1) * p;
      QuotientAtLeast(x, p, q + 1);
    }
  }

  lemma QuotientAtLeast(x: nat, p: nat, q: nat)
    requires p > 0 && q * p <= x
    ensures q <= x / p
  {
    var d := x / p - q;
    assert d <= -1 ==> d * p + p <= 0;
    assert d * p == (x / p) * p - q * p == x - x % p - q * p;
  }

  lemma QuotientIs(x: nat, p: nat, q: nat, r: nat)
    requires r < p && x == q * p + r
    ensures x / p == q
  {
    var d := x / p - q;
    assert d >= 1 ==> d * p >= p;
    assert d <= -1 ==> d * p + p <= 0;
    assert d * p == (x / p) * p - q * p == r - x % p;
  }

  // ---- Rows that keep their keys

  /** The two keys are of one row: `rank` tells the table. */
  predicate SameRow(a: Key, b: Key) {
    a.rank == b.rank && a.id == b.id
  }

  /** While a row exists its key does not change.  Rows come and go between requests. */
  ghost predicate Stable(w: seq<Request>) {
    forall i, j, a, b :: 0 <= i < |w| && 0 <= j < |w| && a in w[i].rows && b in w[j].rows && SameRow(a, b) ==> a == b
  }

  lemma {:induction false} ServedWasThere(w: seq<Request>, a: nat) returns (i: nat)
    requires IsWalk(w) && a < |Served(w)|
    ensures i < |w| && Served(w)[a] in w[i].rows
  {
    var n := |w| - 1;
    var before := Served(w[..n]);
    WalkPrefix(w, n);
    if a < |before| {
      i := ServedWasThere(w[..n], a);
    } else {
      i := n;
      assert Step(w, n) && w[n].page[a - |before|] in w[n].page;
    }
  }

  /** No row is served twice. */
  lemma NoRowTwice(w: seq<Request>, a: nat, b: nat)
    requires IsWalk(w) && Stable(w) && a < b < |Served(w)|
    ensures Before(Served(w)[a], Served(w)[b]) && !SameRow(Served(w)[a], Served(w)[b])
  {
    ServedDescends(w);
    assert Before(Served(w)[a], Served(w)[b]);
    var i := ServedWasThere(w, a);
    var j := ServedWasThere(w, b);
  }

  /** A row that is there at every request of a finished walk, under these keys, is served. */
  lemma NoRowMissed(w: seq<Request>, keys: seq<Key>) returns (a: nat)
    requires IsWalk(w) && Stable(w) && Finished(w) && |keys| == |w|
    requires forall i :: 0 <= i < |w| ==> keys[i] in w[i].rows && SameRow(keys[i], keys[0])
    ensures a < |Served(w)| && Served(w)[a] == keys[0]
  {
    assert keys[0] in w[0].rows;
    FinishedWalkServesAll(w, keys[0]);
    a :| 0 <= a < |Served(w)| && Served(w)[a] == keys[0];
  }
}
