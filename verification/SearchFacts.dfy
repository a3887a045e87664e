/** What a search finds, in which order, said in the fields of the rows alone. */
module SearchFacts {
  import opened Wrappers
  import opened Text
  import opened Keyset
  import opened IsoTime
  import opened SearchCursors
  import opened Search
  import opened TokenWalk
  import opened SearchWalk

  // ---- What is found

  /** A business of the table that is not deleted, passes every filter given and, if words are searched for, is hit by
    * them; marked if it is featured, with its rank or else its creation time.
    */
  predicate FindsBusiness(db: Database, f: SearchFilters, words: string, b: BusinessRow, e: SearchResult) {
    && b in db.businesses && !b.isDeleted
    && (f.categoryId.Some? ==> b.category == f.categoryId)
    && (f.country.Some? && f.country.value != "" ==> b.country == f.country.value)
    && (f.city.Some? && f.city.value != "" ==> b.city == f.city.value)
    && (f.businessType.Some? && f.businessType.value != "" ==> b.businessType == f.businessType.value)
    && (f.minRating.Some? ==> f.minRating.value <= b.averageRating) && (f.featuredOnly ==> b.isFeatured)
    && e.contentType == Business && e.isFeatured == b.isFeatured
    && if words == "" then e.secondary == Created(b.createdAt)
       else var hits := db.textSearch(words).businesses; b.id in hits && e.secondary == Rank(hits[b.id])
  }

  /** A product likewise, if it is active and its price in the bounds; country, city and featured flag are those of its
    * business.
    */
  predicate FindsProduct(db: Database, f: SearchFilters, words: string, p: ProductRow, e: SearchResult) {
    && p in db.products && !p.isDeleted && p.isActive
    && (f.categoryId.Some? ==> p.category == f.categoryId)
    && (f.country.Some? && f.country.value != "" ==> p.business.country == f.country.value)
    && (f.city.Some? && f.city.value != "" ==> p.business.city == f.city.value)
    && (f.minPrice.Some? ==> f.minPrice.value <= p.price) && (f.maxPrice.Some? ==> p.price <= f.maxPrice.value)
    && (f.featuredOnly ==> p.business.isFeatured)
    && e.contentType == Product && e.isFeatured == p.business.isFeatured
    && if words == "" then e.secondary == Created(p.createdAt)
       else var hits := db.textSearch(words).products; p.id in hits && e.secondary == Rank(hits[p.id])
  }

  predicate Finds(db: Database, f: SearchFilters, words: string, e: SearchResult) {
    match e.obj
    case OfBusiness(b) => FindsBusiness(db, f, words, b, e)
    case OfProduct(p) => FindsProduct(db, f, words, p, e)
  }

  lemma StoredInFields(db: Database, o: Obj)
    ensures o in ObjsOf(db, ContentTypeOfObj(o)) <==>
              match o case OfBusiness(b) => b in db.businesses case OfProduct(p) => p in db.products
  {
    var objs := ObjsOf(db, ContentTypeOfObj(o));
    match o {
      case OfBusiness(b) =>
        if b in db.businesses {
          var i :| 0 <= i < |db.businesses| && db.businesses[i] == b;
          assert objs[i] == o;
        }
      case OfProduct(p) =>
        if p in db.products {
          var i :| 0 <= i < |db.products| && db.products[i] == p;
          assert objs[i] == o;
        }
    }
  }

  lemma FoundInFields(db: Database, f: SearchFilters, words: string, e: SearchResult)
    ensures Genuine(db, SearchRequest(f, words), e) <==> Finds(db, f, words, e)
  {
    OfItsTable(db, e.contentType, e.obj);
    StoredInFields(db, e.obj);
  }

  lemma OfItsTable(db: Database, ct: ContentType, o: Obj)
    ensures o in ObjsOf(db, ct) ==> ct == ContentTypeOfObj(o)
  {
  }

  // ---- In which order

  function PrimaryKey(e: SearchResult): int {
    match e.obj case OfBusiness(b) => b.id case OfProduct(p) => p.id
  }

  /** A higher rank, or a later creation time. */
  predicate IsHigher(a: Secondary, b: Secondary) {
    match a
    case Rank(x) => b.Rank? && x > b.place
    case Created(at) => b.Created? && Earlier(b.at, at)
  }

  /** Featured first; then the higher rank or the newer; of equals products before businesses, then the higher id. */
  predicate IsAhead(a: SearchResult, b: SearchResult) {
    if a.isFeatured != b.isFeatured then a.isFeatured
    else
      || IsHigher(a.secondary, b.secondary)
      || (a.secondary == b.secondary &&
          (|| (a.contentType == Product && b.contentType == Business)
           || (a.contentType == b.contentType && PrimaryKey(a) > PrimaryKey(b))))
  }

  predicate IsBehind(c: SearchCursor, e: SearchResult) {
    if c.isFeatured != e.isFeatured then c.isFeatured
    else
      || IsHigher(c.secondary, e.secondary)
      || (c.secondary == e.secondary &&
          (|| (c.contentType == Product && e.contentType == Business)
           || (c.contentType == e.contentType && c.objectId > PrimaryKey(e))))
  }

  lemma SecondaryInFields(a: Secondary, b: Secondary)
    requires a.Rank? == b.Rank?
    ensures SecondaryValue(a) == SecondaryValue(b) <==> a == b
    ensures SecondaryValue(a) > SecondaryValue(b) <==> IsHigher(a, b)
  {
    if a.Created? {
      InstantOrder(b.at, a.at);
      if Instant(a.at) == Instant(b.at) {
        InstantInjective(a.at, b.at);
      }
    }
  }

  lemma OrderInFields(a: SearchResult, b: SearchResult)
    requires a.secondary.Rank? == b.secondary.Rank?
    ensures Before(SortKey(a), SortKey(b)) <==> IsAhead(a, b)
  {
    SecondaryInFields(a.secondary, b.secondary);
  }

  lemma BehindInFields(c: SearchCursor, e: SearchResult)
    requires c.secondary.Rank? == e.secondary.Rank?
    ensures Before(CursorKey(c), SortKey(e)) <==> IsBehind(c, e)
  {
    SecondaryInFields(c.secondary, e.secondary);
  }

  // ---- One request

  /** The query is stripped; with nothing left, results are ordered by recency. */
  lemma RequestInFields(filters: SearchFilters, q: Option<string>)
    ensures var words := if q == None then "" else Strip(q.value);
            RequestFor(filters, q) == SearchRequest(filters, words)
            && ModeOfRequest(RequestFor(filters, q)) == if words == "" then Recency else Relevance
  {
  }

  function ModeFor(words: string): Mode {
    if words == "" then Recency else Relevance
  }

  /** Where the token says to go on: at the top without one. */
  predicate StartsAt(codec: Codec, words: string, cursor: Option<string>, start: Option<ValidCursor>) {
    if cursor == None || cursor == Some("") then start == None
    else start.Some? && codec.decode(cursor.value, ModeFor(words)) == start && start.value.mode == ModeFor(words)
  }

  predicate IsLeft(start: Option<ValidCursor>, e: SearchResult) {
    start.Some? ==> IsBehind(start.value, e)
  }

  /** The requests that are refused, and no others. */
  lemma RefusedInFields(codec: Codec, db: Database, f: SearchFilters, words: string, cursor: Option<string>,
                        pageSize: int, reply: Result<Page<SearchResult>, SearchError>)
    requires Reply(codec, db, SearchRequest(f, words), cursor, pageSize, reply)
    ensures if pageSize < 1 || pageSize > 50 then reply == Err(BadPageSize)
            else if cursor == None || cursor == Some("") then reply.Ok?
            else if codec.decode(cursor.value, ModeFor(words)) == None then reply == Err(BadCursor)
            else reply.Ok?
  {
  }

  /** The token of a page is the cursor of its last result, in the mode of the search. */
  lemma TokenInFields(codec: Codec, db: Database, f: SearchFilters, words: string, cursor: Option<string>,
                      pageSize: int, page: Page<SearchResult>)
    requires ValidDatabase(db) && Reply(codec, db, SearchRequest(f, words), cursor, pageSize, Ok(page))
    ensures |page.items| <= pageSize && (page.next.Some? <==> |page.items| == pageSize)
    ensures page.next.Some? ==>
              var e := page.items[|page.items| - 1];
              var c := SearchCursor(ModeFor(words), e.isFeatured, e.secondary, e.contentType, PrimaryKey(e));
              WellFormed(c) && page.next == Some(codec.encode(c))
  {
    if |page.items| >= pageSize {
      TokenIsNext(codec, db, SearchRequest(f, words), page.items, pageSize);
    }
  }

  /** A page holds results in order, and no result left to show that is not on it is ahead of any that is, or missing
    * from a page with room.
    */
  ghost predicate IsPage(db: Database, f: SearchFilters, words: string, start: Option<ValidCursor>, pageSize: int,
                         items: seq<SearchResult>)
  {
    && (forall i :: 0 <= i < |items| ==> Finds(db, f, words, items[i]) && IsLeft(start, items[i]))
    && (forall i, j :: 0 <= i < j < |items| ==> IsAhead(items[i], items[j]))
    && (forall e :: Finds(db, f, words, e) && IsLeft(start, e) && e !in items ==>
          |items| == pageSize > 0 && IsAhead(items[pageSize - 1], e))
  }

  lemma ItemIsLeft(db: Database, f: SearchFilters, words: string, start: Option<ValidCursor>, e: SearchResult)
    requires Finds(db, f, words, e) && (start.Some? ==> start.value.mode == ModeFor(words))
    ensures Past(AfterKey(start), SortKey(e)) <==> IsLeft(start, e)
  {
    if start.Some? {
      BehindInFields(start.value, e);
    }
  }

  lemma ItemsAreFound(codec: Codec, db: Database, f: SearchFilters, words: string, cursor: Option<string>,
                      pageSize: int, page: Page<SearchResult>, start: Option<ValidCursor>)
    requires Reply(codec, db, SearchRequest(f, words), cursor, pageSize, Ok(page))
    requires StartsAt(codec, words, cursor, start)
    ensures forall i :: 0 <= i < |page.items| ==> Finds(db, f, words, page.items[i]) && IsLeft(start, page.items[i])
    ensures forall i, j :: 0 <= i < j < |page.items| ==> IsAhead(page.items[i], page.items[j])
  {
    var items, keys := page.items, ResultKeys(page.items);
    forall i | 0 <= i < |items|
      ensures Finds(db, f, words, items[i]) && IsLeft(start, items[i])
    {
      assert keys[i] in keys;
      FoundInFields(db, f, words, items[i]);
      ItemIsLeft(db, f, words, start, items[i]);
    }
    forall i, j | 0 <= i < j < |items|
      ensures IsAhead(items[i], items[j])
    {
      assert Before(keys[i], keys[j]);
      assert Finds(db, f, words, items[i]) && Finds(db, f, words, items[j]);
      OrderInFields(items[i], items[j]);
    }
  }

  lemma NotOnPage(db: Database, r: SearchRequest, items: seq<SearchResult>, e: SearchResult)
    requires ValidDatabase(db) && Genuine(db, r, e) && e !in items
    requires forall i :: 0 <= i < |items| ==> Genuine(db, r, items[i])
    ensures SortKey(e) !in ResultKeys(items)
  {
    forall i | 0 <= i < |items|
      ensures ResultKeys(items)[i] != SortKey(e)
    {
      OneKeyPerMatch(db, r, items[i], e);
    }
  }

  lemma LeftOut(codec: Codec, db: Database, f: SearchFilters, words: string, cursor: Option<string>, pageSize: int,
                page: Page<SearchResult>, start: Option<ValidCursor>, e: SearchResult)
    requires ValidDatabase(db) && Reply(codec, db, SearchRequest(f, words), cursor, pageSize, Ok(page))
    requires StartsAt(codec, words, cursor, start)
    requires Finds(db, f, words, e) && IsLeft(start, e) && e !in page.items
    ensures |page.items| == pageSize > 0 && IsAhead(page.items[pageSize - 1], e)
  {
    var r, items := SearchRequest(f, words), page.items;
    FoundInFields(db, f, words, e);
    MatchedKeys(db, r, e);
    ItemIsLeft(db, f, words, start, e);
    NotOnPage(db, r, items, e);
    FoundInFields(db, f, words, items[pageSize - 1]);
    OrderInFields(items[pageSize - 1], e);
  }

  /** What every answered search gives, from the top or from the cursor sent. */
  lemma PageInFields(codec: Codec, db: Database, f: SearchFilters, words: string, cursor: Option<string>,
                     pageSize: int, page: Page<SearchResult>, start: Option<ValidCursor>)
    requires ValidDatabase(db) && Reply(codec, db, SearchRequest(f, words), cursor, pageSize, Ok(page))
    requires StartsAt(codec, words, cursor, start)
    ensures 1 <= pageSize <= 50 && |page.items| <= pageSize && IsPage(db, f, words, start, pageSize, page.items)
  {
    ItemsAreFound(codec, db, f, words, cursor, pageSize, page, start);
    forall e | Finds(db, f, words, e) && IsLeft(start, e) && e !in page.items
      ensures |page.items| == pageSize > 0 && IsAhead(page.items[pageSize - 1], e)
    {
      LeftOut(codec, db, f, words, cursor, pageSize, page, start, e);
    }
  }

  // ---- Whole walks

  lemma AnsweredIsFound(codec: Codec, f: SearchFilters, words: string, visits: seq<SearchVisit>, n: nat, k: nat)
    requires n < |visits| && VisitAt(codec, SearchRequest(f, words), visits, n) && k < |visits[n].page.items|
    ensures Finds(visits[n].db, f, words, visits[n].page.items[k])
  {
    FoundInFields(visits[n].db, f, words, visits[n].page.items[k]);
  }

  lemma ServedAreFound(codec: Codec, f: SearchFilters, words: string, visits: seq<SearchVisit>, db: Database, a: nat)
    requires IsSearchWalk(codec, SearchRequest(f, words), visits) && a < |ItemsServed(visits)|
    requires forall i :: 0 <= i < |visits| ==> visits[i].db == db
    ensures Finds(db, f, words, ItemsServed(visits)[a])
  {
    var i, k := ServedOnPage(visits, a);
    AnsweredIsFound(codec, f, words, visits, i, k);
  }

  /** On a fixed database a finished walk serves exactly what the search finds, each result once, in order. */
  lemma FixedWalkInFields(codec: Codec, f: SearchFilters, words: string, visits: seq<SearchVisit>, db: Database)
    requires IsSearchWalk(codec, SearchRequest(f, words), visits) && Ended(visits)
    requires forall i :: 0 <= i < |visits| ==> visits[i].db == db
    ensures forall e :: e in ItemsServed(visits) <==> Finds(db, f, words, e)
    ensures forall a, b :: 0 <= a < b < |ItemsServed(visits)| ==>
              IsAhead(ItemsServed(visits)[a], ItemsServed(visits)[b])
  {
    var r, items := SearchRequest(f, words), ItemsServed(visits);
    AllMatchesOnce(codec, r, visits, db);
    var keys := ResultKeys(items);
    assert VisitAt(codec, r, visits, 0);
    forall a, b | 0 <= a < b < |items|
      ensures IsAhead(items[a], items[b])
    {
      assert Before(keys[a], keys[b]);
      ServedAreFound(codec, f, words, visits, db, a);
      ServedAreFound(codec, f, words, visits, db, b);
      OrderInFields(items[a], items[b]);
    }
    forall e
      ensures e in items <==> Finds(db, f, words, e)
    {
      if a: nat :| a < |items| && items[a] == e {
        ServedAreFound(codec, f, words, visits, db, a);
      }
      if Finds(db, f, words, e) {
        FoundInFields(db, f, words, e);
        MatchedKeys(db, r, e);
        var a :| 0 <= a < |keys| && keys[a] == SortKey(e);
        ServedAreFound(codec, f, words, visits, db, a);
        FoundInFields(db, f, words, items[a]);
        OneKeyPerMatch(db, r, items[a], e);
      }
    }
  }

  predicate SameObject(a: SearchResult, b: SearchResult) {
    a.contentType == b.contentType && PrimaryKey(a) == PrimaryKey(b)
  }

  predicate SamePlace(a: SearchResult, b: SearchResult) {
    a.isFeatured == b.isFeatured && a.secondary == b.secondary
  }

  /** While a row is found, its featured flag and its rank or creation time stay. */
  ghost predicate KeepsPlace(f: SearchFilters, words: string, visits: seq<SearchVisit>) {
    forall i, j, a, b :: 0 <= i < |visits| && 0 <= j < |visits| ==>
      (Finds(visits[i].db, f, words, a) && Finds(visits[j].db, f, words, b) && SameObject(a, b) ==> SamePlace(a, b))
  }

  lemma PlaceIsStable(f: SearchFilters, words: string, visits: seq<SearchVisit>)
    requires KeepsPlace(f, words, visits)
    ensures Stable(SearchRequest(f, words), visits)
  {
    var r := SearchRequest(f, words);
    forall i, j, a, b |
      0 <= i < |visits| && 0 <= j < |visits|
      && Genuine(visits[i].db, r, a) && Genuine(visits[j].db, r, b) && SameResult(a, b)
      ensures SortKey(a) == SortKey(b)
    {
      FoundInFields(visits[i].db, f, words, a);
      FoundInFields(visits[j].db, f, words, b);
      assert SameObject(a, b);
      assert SamePlace(a, b);
    }
  }

  /** Rows may come and go, or start and stop to match, between the requests of a walk: nothing is served twice. */
  lemma ChangingWalkInFields(codec: Codec, f: SearchFilters, words: string, visits: seq<SearchVisit>)
    requires IsSearchWalk(codec, SearchRequest(f, words), visits) && KeepsPlace(f, words, visits)
    ensures forall a, b :: 0 <= a < b < |ItemsServed(visits)| ==>
              !SameObject(ItemsServed(visits)[a], ItemsServed(visits)[b])
  {
    PlaceIsStable(f, words, visits);
    forall a, b | 0 <= a < b < |ItemsServed(visits)|
      ensures !SameObject(ItemsServed(visits)[a], ItemsServed(visits)[b])
    {
      NothingServedTwice(codec, SearchRequest(f, words), visits, a, b);
      assert !SameResult(ItemsServed(visits)[a], ItemsServed(visits)[b]);
    }
  }

  /** And what is found at every request of a finished walk is served. */
  lemma AlwaysFoundIsServed(codec: Codec, f: SearchFilters, words: string, visits: seq<SearchVisit>,
                            found: seq<SearchResult>) returns (a: nat)
    requires IsSearchWalk(codec, SearchRequest(f, words), visits) && KeepsPlace(f, words, visits) && Ended(visits)
    requires |found| == |visits|
    requires forall i :: 0 <= i < |visits| ==> Finds(visits[i].db, f, words, found[i])
    requires forall i :: 0 <= i < |visits| ==> SameObject(found[i], found[0])
    ensures a < |ItemsServed(visits)| && SameObject(ItemsServed(visits)[a], found[0])
  {
    var r := SearchRequest(f, words);
    PlaceIsStable(f, words, visits);
    forall i | 0 <= i < |visits|
      ensures Genuine(visits[i].db, r, found[i]) && SameResult(found[i], found[0])
    {
      FoundInFields(visits[i].db, f, words, found[i]);
      assert SameObject(found[i], found[0]);
    }
    a := NothingMissed(codec, r, visits, found);
  }
}
