/** Keyset pagination over two sources.
  *
  * The Home Feed, Discover and Search all order their items by one composite key, take at most
  * `limit` rows after a cursor from each of two tables, merge and cut.  This module states what the
  * answer has to be, independently of how it is computed, and proves that the two-source shortcut
  * computes it.
  */
module Keyset {
  import opened Wrappers

  /** `tier` is 1 for items of followed businesses and 0 for everything else, so that the two tiers of
    * the Home Feed form one order.  `secondary` is a creation instant or a search rank.
    */
  datatype Key = Key(tier: int, featured: bool, secondary: int, rank: int, id: int)

  /** `a` is served before `b`: the keys are compared component by component, all descending. */
  predicate Before(a: Key, b: Key) {
    || a.tier > b.tier
    || (a.tier == b.tier &&
        (|| (a.featured && !b.featured)
         || (a.featured == b.featured &&
             (|| a.secondary > b.secondary
              || (a.secondary == b.secondary &&
                  (|| a.rank > b.rank
                   || (a.rank == b.rank && a.id > b.id)))))))
  }

  predicate Past(after: Option<Key>, k: Key) {
    after.Some? ==> Before(after.value, k)
  }

  ghost predicate Descending(s: seq<Key>) {
    forall i, j :: 0 <= i < j < |s| ==> Before(s[i], s[j])
  }

  /** `page` is the first `limit` keys of `rows` that come after the cursor. */
  ghost predicate FirstAfter(page: seq<Key>, rows: set<Key>, after: Option<Key>, limit: nat) {
    && Descending(page)
    && |page| <= limit
    && (forall k :: k in page ==> k in rows && Past(after, k))
    && (forall k :: k in rows && Past(after, k) && k !in page ==>
          |page| == limit && (limit > 0 ==> Before(page[limit - 1], k)))
  }

  /** A page as answered: its items, and the token to send for the next one. */
  datatype Page<T> = Page(items: seq<T>, next: Option<string>)

  /** `s` lists exactly the keys of `rows`, in serving order. */
  ghost predicate Ranks(s: seq<Key>, rows: set<Key>) {
    Descending(s) && forall k :: k in s <==> k in rows
  }

  lemma {:induction false} FirstAfterUnique(p: seq<Key>, q: seq<Key>, rows: set<Key>, after: Option<Key>, limit: nat)
    requires FirstAfter(p, rows, after, limit) && FirstAfter(q, rows, after, limit)
    ensures p == q
  {
    if |p| <= |q| {
      AgreeUpTo(p, q, rows, after, limit, |p|);
      SameLength(p, q, rows, after, limit);
    } else {
      AgreeUpTo(q, p, rows, after, limit, |q|);
      SameLength(q, p, rows, after, limit);
    }
  }

  lemma {:induction false} AgreeUpTo(p: seq<Key>, q: seq<Key>, rows: set<Key>, after: Option<Key>, limit: nat, n: nat)
    requires FirstAfter(p, rows, after, limit) && FirstAfter(q, rows, after, limit)
    requires n <= |p| <= |q|
    ensures p[..n] == q[..n]
  {
    if n > 0 {
      var m := n - 1;
      AgreeUpTo(p, q, rows, after, limit, m);
      assert forall i :: 0 <= i < m ==> p[i] == p[..m][i] == q[i];
      NotLater(p, q, rows, after, limit, m);
      NotLater(q, p, rows, after, limit, m);
      assert p[..n] == p[..m] + [p[m]] && q[..n] == q[..m] + [q[m]];
    }
  }

  lemma NotLater(p: seq<Key>, q: seq<Key>, rows: set<Key>, after: Option<Key>, limit: nat, m: nat)
    requires FirstAfter(p, rows, after, limit) && FirstAfter(q, rows, after, limit)
    requires m < |p| && m < |q|
    requires forall i :: 0 <= i < m ==> p[i] == q[i]
    ensures !Before(p[m], q[m])
  {
    assert p[m] in p;
  }

  lemma SameLength(p: seq<Key>, q: seq<Key>, rows: set<Key>, after: Option<Key>, limit: nat)
    requires FirstAfter(p, rows, after, limit) && FirstAfter(q, rows, after, limit)
    requires |p| <= |q| && p == q[..|p|]
    ensures p == q
  {
    if |p| < limit {
      InjectionBound(q, p);
    }
  }

  /** Cutting the complete ranking at the cursor and keeping `limit` keys is the only possible page. */
  lemma {:induction false} PageIsSliceOfRanking(all: seq<Key>, rows: set<Key>, i: nat, page: seq<Key>, limit: nat)
    requires Ranks(all, rows) && i <= |all|
    requires FirstAfter(page, rows, if i == 0 then None else Some(all[i - 1]), limit)
    ensures page == all[i..Min(i + limit, |all|)]
  {
    var after := if i == 0 then None else Some(all[i - 1]);
    var e := Min(i + limit, |all|);
    var cut := all[i..e];
    forall k | k in cut
      ensures k in rows && Past(after, k)
    {
      var j :| 0 <= j < |cut| && cut[j] == k;
      assert all[i + j] == k;
    }
    forall k | k in rows && Past(after, k) && k !in cut
      ensures |cut| == limit && (limit > 0 ==> Before(cut[limit - 1], k))
    {
      var j :| 0 <= j < |all| && all[j] == k;
      assert j >= i;
      assert forall n :: i <= n < e ==> all[n] in cut;
      assert limit > 0 ==> cut[|cut| - 1] == all[e - 1];
    }
    FirstAfterUnique(page, cut, rows, after, limit);
  }

  lemma {:induction false} RankingUnique(s: seq<Key>, t: seq<Key>, rows: set<Key>)
    requires Ranks(s, rows) && Ranks(t, rows)
    ensures s == t
  {
    var limit := if |s| <= |t| then |t| else |s|;
    FirstAfterUnique(s, t, rows, None, limit);
  }

  // ---- Sorting decorated items

  /** An item together with its sort key. */
  datatype Keyed<T> = Keyed(key: Key, item: T)

  function KeysOf<T>(s: seq<Keyed<T>>): (keys: seq<Key>)
    ensures |keys| == |s|
    ensures forall i :: 0 <= i < |s| ==> keys[i] == s[i].key
  {
    seq(|s|, i requires 0 <= i < |s| => s[i].key)
  }

  function ItemsOf<T>(s: seq<Keyed<T>>): (items: seq<T>)
    ensures |items| == |s|
    ensures forall i :: 0 <= i < |s| ==> items[i] == s[i].item
  {
    seq(|s|, i requires 0 <= i < |s| => s[i].item)
  }

  ghost predicate DistinctKeys<T>(s: seq<Keyed<T>>) {
    forall i, j :: 0 <= i < j < |s| ==> s[i].key != s[j].key
  }

  function Insert<T>(x: Keyed<T>, s: seq<Keyed<T>>): seq<Keyed<T>> {
    if s == [] || !Before(s[0].key, x.key) then [x] + s else [s[0]] + Insert(x, s[1..])
  }

  /** Descending stable sort by key. */
  function SortDesc<T>(s: seq<Keyed<T>>): seq<Keyed<T>> {
    if s == [] then [] else Insert(s[0], SortDesc(s[1..]))
  }

  lemma {:induction false} InsertElements<T>(x: Keyed<T>, s: seq<Keyed<T>>)
    ensures multiset(Insert(x, s)) == multiset{x} + multiset(s)
  {
    if s == [] || !Before(s[0].key, x.key) {
    } else {
      InsertElements(x, s[1..]);
      assert s == [s[0]] + s[1..];
    }
  }

  lemma DescendingCons(k: Key, s: seq<Key>)
    requires Descending(s) && (s != [] ==> Before(k, s[0]))
    ensures Descending([k] + s)
  {
    var r := [k] + s;
    forall i, j | 0 <= i < j < |r|
      ensures Before(r[i], r[j])
    {
      assert r[j] == s[j - 1];
      assert i > 0 ==> r[i] == s[i - 1];
    }
  }

  lemma {:induction false} InsertKeepsOrder<T>(x: Keyed<T>, s: seq<Keyed<T>>)
    requires Descending(KeysOf(s)) && forall i :: 0 <= i < |s| ==> s[i].key != x.key
    ensures Descending(KeysOf(Insert(x, s)))
    ensures KeysOf(Insert(x, s))[0] in {x.key} + set i | 0 <= i < Min(1, |s|) :: s[i].key
  {
    var r := Insert(x, s);
    if s == [] || !Before(s[0].key, x.key) {
      DescendingCons(x.key, KeysOf(s));
      assert KeysOf(r) == [x.key] + KeysOf(s);
    } else {
      var t := s[1..];
      assert KeysOf(t) == KeysOf(s)[1..];
      InsertKeepsOrder(x, t);
      DescendingCons(s[0].key, KeysOf(Insert(x, t)));
      assert KeysOf(r) == [s[0].key] + KeysOf(Insert(x, t));
    }
  }

  lemma {:induction false} SortElements<T>(s: seq<Keyed<T>>)
    ensures multiset(SortDesc(s)) == multiset(s)
  {
    if s != [] {
      SortElements(s[1..]);
      InsertElements(s[0], SortDesc(s[1..]));
      assert s == [s[0]] + s[1..];
    }
  }

  // ---- One ordered query, and the merge of two

  /** `s` holds every row of `rows` once, in no particular order. */
  ghost predicate Lists<T>(s: seq<Keyed<T>>, rows: set<Key>) {
    DistinctKeys(s) && forall k :: k in rows <==> k in KeysOf(s)
  }

  /** "order by ... limit": what an ordered, limited query answers over the filtered rows `s`. */
  function OrderedLimit<T>(s: seq<Keyed<T>>, limit: nat): seq<Keyed<T>> {
    var sorted := SortDesc(s);
    sorted[..Min(limit, |sorted|)]
  }

  lemma {:induction false} InsertKeys<T>(x: Keyed<T>, s: seq<Keyed<T>>)
    ensures multiset(KeysOf(Insert(x, s))) == multiset{x.key} + multiset(KeysOf(s))
  {
    var r := Insert(x, s);
    if s == [] || !Before(s[0].key, x.key) {
      assert KeysOf(r) == [x.key] + KeysOf(s);
    } else {
      InsertKeys(x, s[1..]);
      assert KeysOf(r) == [s[0].key] + KeysOf(Insert(x, s[1..]));
      assert KeysOf(s) == [s[0].key] + KeysOf(s[1..]);
    }
  }

  lemma {:induction false} SortKeepsKeys<T>(s: seq<Keyed<T>>)
    ensures multiset(KeysOf(SortDesc(s))) == multiset(KeysOf(s))
  {
    if s != [] {
      SortKeepsKeys(s[1..]);
      InsertKeys(s[0], SortDesc(s[1..]));
      assert KeysOf(s) == [s[0].key] + KeysOf(s[1..]);
    }
  }

  lemma {:induction false} SortSorts<T>(s: seq<Keyed<T>>)
    requires DistinctKeys(s)
    ensures Descending(KeysOf(SortDesc(s)))
  {
    if s != [] {
      var rest := SortDesc(s[1..]);
      SortSorts(s[1..]);
      SortKeepsKeys(s[1..]);
      KeyIsNew(s, rest);
      InsertKeepsOrder(s[0], rest);
    }
  }

  lemma KeyIsNew<T>(s: seq<Keyed<T>>, rest: seq<Keyed<T>>)
    requires DistinctKeys(s) && s != [] && multiset(KeysOf(rest)) == multiset(KeysOf(s[1..]))
    ensures forall i :: 0 <= i < |rest| ==> rest[i].key != s[0].key
  {
    forall i | 0 <= i < |rest|
      ensures rest[i].key != s[0].key
    {
      assert KeysOf(rest)[i] in multiset(KeysOf(s[1..]));
      var j :| 0 <= j < |s| - 1 && KeysOf(s[1..])[j] == rest[i].key;
    }
  }

  lemma {:induction false} TakeIsFirst(all: seq<Key>, rows: set<Key>, limit: nat)
    requires Ranks(all, rows)
    ensures FirstAfter(all[..Min(limit, |all|)], rows, None, limit)
  {
    var page := all[..Min(limit, |all|)];
    forall k | k in rows && k !in page
      ensures |page| == limit && (limit > 0 ==> Before(page[limit - 1], k))
    {
      var i :| 0 <= i < |all| && all[i] == k;
      assert forall n :: 0 <= n < |page| ==> all[n] in page;
    }
  }

  lemma SameKeys(a: seq<Key>, b: seq<Key>)
    requires multiset(a) == multiset(b)
    ensures forall k :: k in a <==> k in b
  {
    assert forall k :: k in a <==> k in multiset(a);
    assert forall k :: k in b <==> k in multiset(b);
  }

  lemma SortRanks<T>(s: seq<Keyed<T>>, rows: set<Key>)
    requires Lists(s, rows)
    ensures Ranks(KeysOf(SortDesc(s)), rows)
  {
    SortSorts(s);
    SortKeepsKeys(s);
    SameKeys(KeysOf(SortDesc(s)), KeysOf(s));
  }

  lemma OrderedLimitIsFirst<T>(s: seq<Keyed<T>>, rows: set<Key>, limit: nat)
    requires Lists(s, rows)
    ensures FirstAfter(KeysOf(OrderedLimit(s, limit)), rows, None, limit)
  {
    SortRanks(s, rows);
    var all := KeysOf(SortDesc(s));
    TakeIsFirst(all, rows, limit);
    assert KeysOf(OrderedLimit(s, limit)) == all[..Min(limit, |all|)];
  }

  lemma OrderedLimitElements<T>(s: seq<Keyed<T>>, limit: nat)
    ensures forall i :: 0 <= i < |OrderedLimit(s, limit)| ==> OrderedLimit(s, limit)[i] in s
  {
    SortElements(s);
    var page := OrderedLimit(s, limit);
    forall i | 0 <= i < |page|
      ensures page[i] in s
    {
      assert page[i] == SortDesc(s)[i] && SortDesc(s)[i] in multiset(SortDesc(s));
    }
  }

  /** Restricting the rows to those after the cursor and asking for the first page is the same as
    * asking for the page after the cursor.
    */
  lemma PushDown(page: seq<Key>, rows: set<Key>, after: Option<Key>, limit: nat)
    ensures FirstAfter(page, (set k | k in rows && Past(after, k)), None, limit)
            <==> FirstAfter(page, rows, after, limit)
  {
  }

  ghost function KeySet<T>(s: seq<Keyed<T>>): set<Key> {
    set k | k in KeysOf(s)
  }

  /** The rows of a table that come after the cursor. */
  function PastOnly<T>(s: seq<Keyed<T>>, after: Option<Key>): seq<Keyed<T>> {
    if s == [] then []
    else (if Past(after, s[0].key) then [s[0]] else []) + PastOnly(s[1..], after)
  }

  lemma {:induction false} PastOnlyKeys<T>(s: seq<Keyed<T>>, after: Option<Key>)
    ensures forall k :: k in KeysOf(PastOnly(s, after)) <==> k in KeysOf(s) && Past(after, k)
  {
    if s != [] {
      PastOnlyKeys(s[1..], after);
      assert KeysOf(s) == [s[0].key] + KeysOf(s[1..]);
      var rest := PastOnly(s[1..], after);
      if Past(after, s[0].key) {
        assert KeysOf(PastOnly(s, after)) == [s[0].key] + KeysOf(rest);
      } else {
        assert PastOnly(s, after) == rest;
      }
    }
  }

  lemma {:induction false} PastOnlyDistinct<T>(s: seq<Keyed<T>>, after: Option<Key>)
    requires DistinctKeys(s)
    ensures DistinctKeys(PastOnly(s, after))
  {
    if s != [] {
      var tail := s[1..];
      PastOnlyDistinct(tail, after);
      PastOnlyKeys(tail, after);
      var rest := PastOnly(tail, after);
      forall i | 0 <= i < |rest|
        ensures rest[i].key != s[0].key
      {
        assert KeysOf(rest)[i] in KeysOf(tail);
        var j :| 0 <= j < |tail| && KeysOf(tail)[j] == rest[i].key;
        assert s[j + 1].key == rest[i].key;
      }
    }
  }

  lemma {:induction false} PastOnlyElements<T>(s: seq<Keyed<T>>, after: Option<Key>)
    ensures forall i :: 0 <= i < |PastOnly(s, after)| ==> PastOnly(s, after)[i] in s
  {
    if s != [] {
      PastOnlyElements(s[1..], after);
    }
  }

  /** One source's ordered, limited answer is the page after the cursor of all its rows. */
  lemma SourcePage<T>(s: seq<Keyed<T>>, after: Option<Key>, limit: nat)
    requires DistinctKeys(s)
    ensures FirstAfter(KeysOf(OrderedLimit(PastOnly(s, after), limit)), KeySet(s), after, limit)
    ensures forall i :: 0 <= i < |OrderedLimit(PastOnly(s, after), limit)| ==>
              OrderedLimit(PastOnly(s, after), limit)[i] in s
  {
    var p := PastOnly(s, after);
    var rows := set k | k in KeySet(s) && Past(after, k);
    PastOnlyKeys(s, after);
    PastOnlyDistinct(s, after);
    PastOnlyElements(s, after);
    OrderedLimitIsFirst(p, rows, limit);
    OrderedLimitElements(p, limit);
    PushDown(KeysOf(OrderedLimit(p, limit)), KeySet(s), after, limit);
  }

  // ---- A query on one table

  /** The rows of a table that a query keeps; `picks` has None for the others. */
  function Listed<T>(picks: seq<Option<Keyed<T>>>): seq<Keyed<T>> {
    if picks == [] then []
    else if picks[0].Some? then [picks[0].value] + Listed(picks[1..])
    else Listed(picks[1..])
  }

  /** `some` keeps what `all` keeps and the cursor is before. */
  ghost predicate PicksPast<T>(all: seq<Option<Keyed<T>>>, some: seq<Option<Keyed<T>>>, after: Option<Key>) {
    |some| == |all| && forall i :: 0 <= i < |all| ==>
      some[i] == if all[i].Some? && Past(after, all[i].value.key) then all[i] else None
  }

  lemma {:induction false} ListedPast<T>(all: seq<Option<Keyed<T>>>, some: seq<Option<Keyed<T>>>, after: Option<Key>)
    requires PicksPast(all, some, after)
    ensures Listed(some) == PastOnly(Listed(all), after)
  {
    if all != [] {
      ListedPast(all[1..], some[1..], after);
      assert some[0].Some? ==> all[0].Some?;
      if all[0].Some? {
        assert Listed(all)[1..] == Listed(all[1..]);
      }
    }
  }

  lemma {:induction false} ListedIsPicked<T>(picks: seq<Option<Keyed<T>>>)
    ensures forall n :: 0 <= n < |Listed(picks)| ==> Some(Listed(picks)[n]) in picks
  {
    if picks != [] {
      ListedIsPicked(picks[1..]);
      assert picks == [picks[0]] + picks[1..];
    }
  }

  ghost predicate PicksDistinct<T>(picks: seq<Option<Keyed<T>>>) {
    forall i, j :: 0 <= i < j < |picks| && picks[i].Some? && picks[j].Some? ==>
      picks[i].value.key != picks[j].value.key
  }

  lemma {:induction false} ListedIsDistinct<T>(picks: seq<Option<Keyed<T>>>)
    requires PicksDistinct(picks)
    ensures DistinctKeys(Listed(picks))
  {
    if picks != [] {
      var tail, rest := picks[1..], Listed(picks[1..]);
      assert forall i :: 0 <= i < |tail| ==> tail[i] == picks[i + 1];
      ListedIsDistinct(tail);
      ListedIsPicked(tail);
      forall n | 0 <= n < |rest| && picks[0].Some?
        ensures rest[n].key != picks[0].value.key
      {
        var i :| 0 <= i < |tail| && tail[i] == Some(rest[n]);
        assert picks[i + 1] == Some(rest[n]);
      }
    }
  }

  /** `keys` are the keys of the rows the query keeps. */
  ghost predicate PickedKeys<T>(picks: seq<Option<Keyed<T>>>, keys: set<Key>) {
    && (forall i :: 0 <= i < |picks| && picks[i].Some? ==> picks[i].value.key in keys)
    && (forall k :: k in keys ==> exists i :: 0 <= i < |picks| && picks[i].Some? && picks[i].value.key == k)
  }

  lemma {:induction false} ListedHasAll<T>(picks: seq<Option<Keyed<T>>>, i: nat)
    requires i < |picks| && picks[i].Some?
    ensures picks[i].value.key in KeySet(Listed(picks))
  {
    var s, key := Listed(picks), picks[i].value.key;
    if i == 0 {
      assert KeysOf(s)[0] == key;
    } else {
      ListedHasAll(picks[1..], i - 1);
      var rest := Listed(picks[1..]);
      var n :| 0 <= n < |rest| && KeysOf(rest)[n] == key;
      assert KeysOf(s)[|s| - |rest| + n] == key;
    }
  }

  /** Every row the query keeps is listed, and nothing else. */
  lemma ListedKeys<T>(picks: seq<Option<Keyed<T>>>, keys: set<Key>)
    requires PickedKeys(picks, keys)
    ensures KeySet(Listed(picks)) == keys
  {
    var s := Listed(picks);
    ListedIsPicked(picks);
    forall k | k in KeySet(s)
      ensures k in keys
    {
      var n :| 0 <= n < |s| && KeysOf(s)[n] == k;
      assert Some(s[n]) in picks;
    }
    forall k | k in keys
      ensures k in KeySet(s)
    {
      var i :| 0 <= i < |picks| && picks[i].Some? && picks[i].value.key == k;
      ListedHasAll(picks, i);
    }
  }

  /** One filtered, ordered and limited query on a table is the page after the cursor of all its rows. */
  lemma QueryPage<T>(all: seq<Option<Keyed<T>>>, some: seq<Option<Keyed<T>>>, keys: set<Key>, after: Option<Key>,
                     limit: nat)
    requires PicksDistinct(all) && PicksPast(all, some, after) && PickedKeys(all, keys)
    ensures var page := OrderedLimit(Listed(some), limit);
            && FirstAfter(KeysOf(page), keys, after, limit)
            && forall n :: 0 <= n < |page| ==> Some(page[n]) in all
  {
    ListedPast(all, some, after);
    ListedIsDistinct(all);
    ListedIsPicked(all);
    ListedKeys(all, keys);
    SourcePage(Listed(all), after, limit);
  }

  // ---- The merge of two tables

  lemma MergeIsDistinct<T>(a: seq<Keyed<T>>, b: seq<Keyed<T>>, A: set<Key>, B: set<Key>, after: Option<Key>, limit: nat)
    requires A !! B
    requires FirstAfter(KeysOf(a), A, after, limit) && FirstAfter(KeysOf(b), B, after, limit)
    ensures DistinctKeys(a + b)
  {
    var both := a + b;
    forall i, j | 0 <= i < j < |both|
      ensures both[i].key != both[j].key
    {
      if j < |a| {
        assert Before(KeysOf(a)[i], KeysOf(a)[j]);
      } else if i >= |a| {
        assert Before(KeysOf(b)[i - |a|], KeysOf(b)[j - |a|]);
      } else {
        assert KeysOf(a)[i] in A && KeysOf(b)[j - |a|] in B;
      }
    }
  }

  /** At most `limit` items are needed from each source: sorting the two fetched lists together and
    * keeping `limit` items gives the first `limit` of the whole union.
    */
  lemma {:induction false} MergeIsExact<T>(a: seq<Keyed<T>>, b: seq<Keyed<T>>, A: set<Key>, B: set<Key>,
                                           after: Option<Key>, limit: nat)
    requires A !! B
    requires FirstAfter(KeysOf(a), A, after, limit) && FirstAfter(KeysOf(b), B, after, limit)
    ensures FirstAfter(KeysOf(OrderedLimit(a + b, limit)), A + B, after, limit)
    ensures forall i :: 0 <= i < |OrderedLimit(a + b, limit)| ==>
              OrderedLimit(a + b, limit)[i] in a || OrderedLimit(a + b, limit)[i] in b
  {
    var both := a + b;
    var got := set k | k in KeysOf(a) + KeysOf(b);
    MergeIsDistinct(a, b, A, B, after, limit);
    assert KeysOf(both) == KeysOf(a) + KeysOf(b);
    OrderedLimitIsFirst(both, got, limit);
    OrderedLimitElements(both, limit);
    MergedKeys(KeysOf(OrderedLimit(both, limit)), got, KeysOf(a), KeysOf(b), A, B, after, limit);
  }

  lemma MergedKeys(page: seq<Key>, got: set<Key>, a: seq<Key>, b: seq<Key>, A: set<Key>, B: set<Key>,
                   after: Option<Key>, limit: nat)
    requires FirstAfter(a, A, after, limit) && FirstAfter(b, B, after, limit)
    requires FirstAfter(page, got, None, limit) && forall k :: k in got <==> k in a || k in b
    ensures FirstAfter(page, A + B, after, limit)
  {
    MissingIsLater(page, got, a, A, after, limit);
    MissingIsLater(page, got, b, B, after, limit);
  }

  /** A key left out of one source's `limit` rows is after `limit` keys that do compete. */
  lemma {:induction false} MissingIsLater(page: seq<Key>, got: set<Key>, a: seq<Key>, A: set<Key>,
                                          after: Option<Key>, limit: nat)
    requires FirstAfter(page, got, None, limit) && FirstAfter(a, A, after, limit)
    requires forall k :: k in a ==> k in got
    ensures forall k :: k in A && Past(after, k) && k !in page ==>
              |page| == limit && (limit > 0 ==> Before(page[limit - 1], k))
  {
    forall k | k in A && Past(after, k) && k !in page
      ensures |page| == limit && (limit > 0 ==> Before(page[limit - 1], k))
    {
      if k in a {
        assert k in got;
      } else if limit > 0 {
        PageFull(page, got, a, limit);
        assert a[limit - 1] in a && a[limit - 1] in got;
      }
    }
  }

  /** `limit` candidates are enough to fill a page, and its last key is no later than theirs. */
  lemma {:induction false} PageFull(page: seq<Key>, got: set<Key>, a: seq<Key>, limit: nat)
    requires FirstAfter(page, got, None, limit)
    requires Descending(a) && |a| == limit > 0 && forall k :: k in a ==> k in got
    ensures |page| == limit
    ensures page[limit - 1] == a[limit - 1] || Before(page[limit - 1], a[limit - 1])
  {
    if |page| < limit {
      assert forall k :: k in a ==> k in page;
      InjectionBound(a, page);
    }
    if a[limit - 1] in page {
      var i :| 0 <= i < |page| && page[i] == a[limit - 1];
      if i < limit - 1 {
        assert Before(page[i], page[limit - 1]);
        forall n | 0 <= n < limit
          ensures a[n] in page[..i + 1]
        {
          InPrefix(page, got, a, limit, i, n);
        }
        InjectionBound(a, page[..i + 1]);
      }
    } else {
      assert a[limit - 1] in a;
    }
  }

  /** A candidate no later than the key at `i` stands among the first `i + 1`. */
  lemma InPrefix(page: seq<Key>, got: set<Key>, a: seq<Key>, limit: nat, i: nat, n: nat)
    requires FirstAfter(page, got, None, limit) && Descending(a) && forall k :: k in a ==> k in got
    requires |a| == |page| == limit && i < limit - 1 && page[i] == a[limit - 1] && n < limit
    ensures a[n] in page[..i + 1]
  {
    assert a[n] in a && Before(page[i], page[limit - 1]);
    assert n < limit - 1 ==> Before(a[n], a[limit - 1]);
    assert a[n] in page;
    var j :| 0 <= j < |page| && page[j] == a[n];
    assert page[..i + 1][j] == a[n];
  }

  lemma {:induction false} InjectionBound(a: seq<Key>, p: seq<Key>)
    requires Descending(a) && forall k :: k in a ==> k in p
    ensures |a| <= |p|
  {
    if a != [] {
      var n := |a| - 1;
      var x := a[n];
      assert x in a;
      var i :| 0 <= i < |p| && p[i] == x;
      var q := p[..i] + p[i + 1..];
      forall k | k in a[..n]
        ensures k in q
      {
        var m :| 0 <= m < n && a[m] == k;
        assert Before(a[m], a[n]);
        assert a[m] in a;
        var j :| 0 <= j < |p| && p[j] == k;
        assert j < i ==> q[j] == k;
        assert j > i ==> q[j - 1] == k;
      }
      InjectionBound(a[..n], q);
    }
  }

  // ---- Every set of rows has a ranking

  lemma {:induction false} RowsAsList(rows: set<Key>) returns (s: seq<Keyed<Key>>)
    ensures Lists(s, rows) && |s| == |rows|
    decreases |rows|
  {
    if rows == {} {
      s := [];
    } else {
      var k :| k in rows;
      var rest := RowsAsList(rows - {k});
      s := [Keyed(k, k)] + rest;
      assert KeysOf(s) == [k] + KeysOf(rest);
      assert forall i :: 0 <= i < |rest| ==> rest[i].key == KeysOf(rest)[i];
    }
  }

  lemma RankingOf(rows: set<Key>) returns (all: seq<Key>)
    ensures Ranks(all, rows) && |all| == |rows|
  {
    var s := RowsAsList(rows);
    SortRanks(s, rows);
    SortElements(s);
    all := KeysOf(SortDesc(s));
    assert |multiset(SortDesc(s))| == |multiset(s)|;
  }

  // ---- Two tiers in one order

  /** A page of one tier that fills up, continued from the top of the next tier if it does not. */
  lemma {:induction false} PagesConcatenate(f: seq<Key>, b: seq<Key>, F: set<Key>, B: set<Key>, after: Option<Key>,
                                            limit: nat)
    requires forall k :: k in F ==> k.tier == 1
    requires forall k :: k in B ==> k.tier == 0
    requires after.Some? ==> after.value.tier == 1
    requires FirstAfter(f, F, after, limit) && FirstAfter(b, B, None, limit - |f|)
    ensures FirstAfter(f + b, F + B, after, limit)
  {
    var page := f + b;
    forall i, j | 0 <= i < j < |page|
      ensures Before(page[i], page[j])
    {
      assert i < |f| ==> f[i] in f;
      assert j >= |f| ==> b[j - |f|] in b;
    }
    assert forall k :: k in page <==> k in f || k in b;
    forall k | k in F + B && Past(after, k) && k !in page
      ensures |page| == limit && (limit > 0 ==> Before(page[limit - 1], k))
    {
      if k in F {
        assert |f| == limit;
      } else if |b| > 0 {
        assert page[|page| - 1] == b[|b| - 1];
      } else if |f| > 0 {
        assert f[|f| - 1] in f;
      }
    }
  }

  lemma SecondIgnoresFirst(b: seq<Key>, F: set<Key>, B: set<Key>, after: Key, limit: nat)
    requires forall k :: k in F ==> k.tier == 1
    requires after.tier == 0 && FirstAfter(b, B, Some(after), limit)
    ensures FirstAfter(b, F + B, Some(after), limit)
  {
  }
}
