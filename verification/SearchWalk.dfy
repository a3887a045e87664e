/** Whole walks through the search results, in both ordering modes. */
module SearchWalk {
  import opened Wrappers
  import opened Keyset
  import KeysetWalk
  import opened TokenWalk
  import opened SearchCursors
  import opened Search

  type SearchVisit = Visit<Database, SearchResult>

  /** The one order behind both tables. */
  ghost function OrderOf(r: SearchRequest): Order<Database, SearchResult> {
    Order(e => SortKey(e), db => ResultKeySet(db, r))
  }

  ghost predicate Answered(codec: Codec, r: SearchRequest, v: SearchVisit) {
    ValidDatabase(v.db) && Reply(codec, v.db, r, v.cursor, v.pageSize, Ok(v.page))
  }

  ghost predicate VisitAt(codec: Codec, r: SearchRequest, visits: seq<SearchVisit>, i: nat)
    requires i < |visits|
  {
    Answered(codec, r, visits[i]) && Linked(visits, i)
  }

  ghost predicate IsSearchWalk(codec: Codec, r: SearchRequest, visits: seq<SearchVisit>) {
    Lawful(codec, ModeOfRequest(r)) && forall i :: 0 <= i < |visits| ==> VisitAt(codec, r, visits, i)
  }

  lemma TokenResumesAfterLast(codec: Codec, r: SearchRequest, v: SearchVisit)
    requires Lawful(codec, ModeOfRequest(r)) && Answered(codec, r, v) && v.page.next.Some?
    ensures 0 < v.pageSize <= |v.page.items|
    ensures var start := StartOf(codec, v.page.next, ModeOfRequest(r));
            start.Ok? && start.value.Some? && CursorKey(start.value.value) == SortKey(v.page.items[|v.page.items| - 1])
  {
    TokenIsNext(codec, v.db, r, v.page.items, v.pageSize);
  }

  lemma FullUnlessEnd(codec: Codec, r: SearchRequest, v: SearchVisit)
    requires Answered(codec, r, v)
    ensures 0 < v.pageSize && (v.page.next.Some? <==> v.pageSize <= |v.page.items|)
  {
    if v.pageSize <= |v.page.items| {
      TokenIsNext(codec, v.db, r, v.page.items, v.pageSize);
    }
  }

  lemma AnsweredIsKeysetPage(codec: Codec, r: SearchRequest, v: SearchVisit, start: Option<ValidCursor>)
    requires Answered(codec, r, v) && StartOf(codec, v.cursor, ModeOfRequest(r)) == Ok(start)
    ensures v.pageSize > 0
    ensures FirstAfter(ResultKeys(v.page.items), ResultKeySet(v.db, r), AfterKey(start), v.pageSize)
  {
  }

  lemma KeysAgree(r: SearchRequest, items: seq<SearchResult>)
    ensures KeysIn(OrderOf(r), items) == ResultKeys(items)
  {
  }

  lemma AnsweredTurn(codec: Codec, r: SearchRequest, visits: seq<SearchVisit>, i: nat)
    requires i < |visits| && Lawful(codec, ModeOfRequest(r)) && VisitAt(codec, r, visits, i)
    requires i > 0 ==> VisitAt(codec, r, visits, i - 1)
    ensures TurnAt(OrderOf(r), visits, i)
  {
    var v := visits[i];
    KeysAgree(r, v.page.items);
    FullUnlessEnd(codec, r, v);
    if i > 0 {
      TokenResumesAfterLast(codec, r, visits[i - 1]);
      AnsweredIsKeysetPage(codec, r, v, StartOf(codec, v.cursor, ModeOfRequest(r)).value);
    } else {
      AnsweredIsKeysetPage(codec, r, v, None);
    }
  }

  /** Every search walk is a walk over one order, although two tables are involved. */
  lemma SearchWalkIsTokenWalk(codec: Codec, r: SearchRequest, visits: seq<SearchVisit>)
    requires IsSearchWalk(codec, r, visits)
    ensures IsTokenWalk(OrderOf(r), visits)
  {
    forall i | 0 <= i < |visits|
      ensures TurnAt(OrderOf(r), visits, i)
    {
      assert VisitAt(codec, r, visits, i);
      assert i > 0 ==> VisitAt(codec, r, visits, i - 1);
      AnsweredTurn(codec, r, visits, i);
    }
  }

  /** Whatever changes between requests, results are served in strictly descending order across pages,
    * so none is repeated with the same key.
    */
  lemma ResultsDescend(codec: Codec, r: SearchRequest, visits: seq<SearchVisit>)
    requires IsSearchWalk(codec, r, visits)
    ensures Descending(ResultKeys(ItemsServed(visits)))
  {
    SearchWalkIsTokenWalk(codec, r, visits);
    ItemsDescend(OrderOf(r), visits);
    KeysAgree(r, ItemsServed(visits));
  }

  // ---- Rows come and go

  /** What identifies a result to the client. */
  predicate SameResult(a: SearchResult, b: SearchResult) {
    a.contentType == b.contentType && IdOf(a.obj) == IdOf(b.obj)
  }

  /** While a row matches, its featured flag and its rank or creation time do not change.  Rows come and go, or
    * start and stop to match, between requests.
    */
  ghost predicate Stable(r: SearchRequest, visits: seq<SearchVisit>) {
    forall i, j, a, b :: 0 <= i < |visits| && 0 <= j < |visits| ==>
      (Genuine(visits[i].db, r, a) && Genuine(visits[j].db, r, b) && SameResult(a, b) ==> SortKey(a) == SortKey(b))
  }

  lemma MatchedKeys(db: Database, r: SearchRequest, e: SearchResult)
    requires Genuine(db, r, e)
    ensures SortKey(e) in ResultKeySet(db, r)
  {
    assert e == ResultOf(db, r, e.obj);
  }

  /** Every key of the search is the key of a row that matches. */
  lemma KeyIsMatched(db: Database, r: SearchRequest, k: Key) returns (e: SearchResult)
    requires k in ResultKeySet(db, r)
    ensures Genuine(db, r, e) && SortKey(e) == k
  {
    var ct := if k in TableKeys(db, r, Business) then Business else Product;
    var o :| o in ObjsOf(db, ct) && Matches(db, r, o) && SortKey(ResultOf(db, r, o)) == k;
    e := ResultOf(db, r, o);
  }

  /** A search has one key for each row that matches, so its keys count the matches. */
  lemma OneKeyPerMatch(db: Database, r: SearchRequest, a: SearchResult, b: SearchResult)
    requires ValidDatabase(db) && Genuine(db, r, a) && Genuine(db, r, b)
    ensures SortKey(a) == SortKey(b) <==> a == b
  {
    if SortKey(a) == SortKey(b) {
      OneObjPerId(db, a.contentType, a.obj, b.obj);
    }
  }

  lemma OneObjPerId(db: Database, ct: ContentType, a: Obj, b: Obj)
    requires ValidDatabase(db) && a in ObjsOf(db, ct) && b in ObjsOf(db, ct) && IdOf(a) == IdOf(b)
    ensures a == b
  {
    var objs := ObjsOf(db, ct);
    var i :| 0 <= i < |objs| && objs[i] == a;
    var j :| 0 <= j < |objs| && objs[j] == b;
  }

  lemma KeysAreStable(r: SearchRequest, visits: seq<SearchVisit>)
    requires Stable(r, visits)
    ensures KeysetWalk.Stable(Requests(OrderOf(r), visits))
  {
    var w := Requests(OrderOf(r), visits);
    forall i, j, k, l |
      0 <= i < |w| && 0 <= j < |w| && k in w[i].rows && l in w[j].rows && KeysetWalk.SameRow(k, l)
      ensures k == l
    {
      var a := KeyIsMatched(visits[i].db, r, k);
      var b := KeyIsMatched(visits[j].db, r, l);
      assert SameResult(a, b);
    }
  }

  /** No walk serves a result twice. */
  lemma NothingServedTwice(codec: Codec, r: SearchRequest, visits: seq<SearchVisit>, a: nat, b: nat)
    requires IsSearchWalk(codec, r, visits) && Stable(r, visits)
    requires a < b < |ItemsServed(visits)|
    ensures !SameResult(ItemsServed(visits)[a], ItemsServed(visits)[b])
    ensures Before(SortKey(ItemsServed(visits)[a]), SortKey(ItemsServed(visits)[b]))
  {
    SearchWalkIsTokenWalk(codec, r, visits);
    KeysAreStable(r, visits);
    NoItemTwice(OrderOf(r), visits, a, b);
  }

  /** A business or product that matches at every request of a walk that reached the end was served. */
  lemma NothingMissed(codec: Codec, r: SearchRequest, visits: seq<SearchVisit>, shown: seq<SearchResult>)
    returns (a: nat)
    requires IsSearchWalk(codec, r, visits) && Stable(r, visits) && Ended(visits)
    requires |shown| == |visits|
    requires forall i :: 0 <= i < |visits| ==> Genuine(visits[i].db, r, shown[i])
    requires forall i :: 0 <= i < |visits| ==> SameResult(shown[i], shown[0])
    ensures a < |ItemsServed(visits)| && SameResult(ItemsServed(visits)[a], shown[0])
  {
    var keys := ResultKeys(shown);
    SearchWalkIsTokenWalk(codec, r, visits);
    KeysAreStable(r, visits);
    forall i | 0 <= i < |visits|
      ensures keys[i] in ResultKeySet(visits[i].db, r) && KeysetWalk.SameRow(keys[i], keys[0])
    {
      MatchedKeys(visits[i].db, r, shown[i]);
      assert SameResult(shown[i], shown[0]);
    }
    a := NoItemMissed(OrderOf(r), visits, keys);
    KeyTellsResult(ItemsServed(visits)[a], shown[0]);
  }

  lemma KeyTellsResult(a: SearchResult, b: SearchResult)
    requires SortKey(a) == SortKey(b)
    ensures SameResult(a, b)
  {
  }

  // ---- A fixed database

  /** On a fixed database the pages together are the ranking of everything the search matches. */
  lemma AllMatchesOnce(codec: Codec, r: SearchRequest, visits: seq<SearchVisit>, db: Database)
    requires IsSearchWalk(codec, r, visits) && Ended(visits)
    requires forall i :: 0 <= i < |visits| ==> visits[i].db == db
    ensures Ranks(ResultKeys(ItemsServed(visits)), ResultKeySet(db, r))
  {
    SearchWalkIsTokenWalk(codec, r, visits);
    FixedDatabaseRanking(OrderOf(r), visits, db);
    KeysAgree(r, ItemsServed(visits));
  }

  /** On a fixed database every matching business or product is served. */
  lemma EveryMatchServed(codec: Codec, r: SearchRequest, visits: seq<SearchVisit>, db: Database, o: Obj)
    returns (a: nat)
    requires IsSearchWalk(codec, r, visits) && Ended(visits)
    requires forall i :: 0 <= i < |visits| ==> visits[i].db == db
    requires o in ObjsOf(db, ContentTypeOfObj(o)) && Matches(db, r, o)
    ensures a < |ItemsServed(visits)| && SameResult(ItemsServed(visits)[a], ResultOf(db, r, o))
  {
    var keys := ResultKeys(ItemsServed(visits));
    AllMatchesOnce(codec, r, visits, db);
    MatchedKeys(db, r, ResultOf(db, r, o));
    a :| 0 <= a < |keys| && keys[a] == SortKey(ResultOf(db, r, o));
    KeyTellsResult(ItemsServed(visits)[a], ResultOf(db, r, o));
  }

  /** On a fixed database with `n` matches and with pages of `p`: no walk gets beyond `n / p + 1` pages, and it
    * reaches the end exactly on that one.
    */
  lemma PagesNeeded(codec: Codec, r: SearchRequest, visits: seq<SearchVisit>, db: Database, p: nat)
    requires IsSearchWalk(codec, r, visits) && visits != []
    requires forall i :: 0 <= i < |visits| ==> visits[i].db == db && visits[i].pageSize == p
    ensures p > 0 && |visits| <= |ResultKeySet(db, r)| / p + 1
    ensures Ended(visits) <==> |visits| == |ResultKeySet(db, r)| / p + 1
  {
    SearchWalkIsTokenWalk(codec, r, visits);
    PageCount(OrderOf(r), visits, db, p);
  }
}
