/** Search: businesses and products merged in one order, by relevance or by recency. */
module Search {
  import opened Wrappers
  import opened Keyset
  import opened IsoTime
  import opened FlatJson
  import opened SearchCursors
  import opened Text

  const MAX_PAGE_SIZE: nat := 50

  datatype BusinessRow = BusinessRow(
    id: int, createdAt: DateTime, isDeleted: bool, isFeatured: bool, category: Option<int>, country: string,
    city: string, businessType: string, averageRating: real)

  datatype ProductRow = ProductRow(
    id: int, createdAt: DateTime, isDeleted: bool, isActive: bool, category: Option<int>, price: real,
    business: BusinessRow)

  datatype Obj = OfBusiness(b: BusinessRow) | OfProduct(p: ProductRow)

  /** What the text search makes of a query: the matching rows of each table and their ranks. */
  datatype Hits = Hits(businesses: map<int, Float>, products: map<int, Float>)

  datatype Database = Database(businesses: seq<BusinessRow>, products: seq<ProductRow>, textSearch: string -> Hits)

  ghost predicate ValidDatabase(db: Database) {
    && (forall i :: 0 <= i < |db.businesses| ==> 0 < db.businesses[i].id < 0x8000_0000_0000_0000)
    && (forall i :: 0 <= i < |db.products| ==> 0 < db.products[i].id < 0x8000_0000_0000_0000)
    && (forall i, j :: 0 <= i < j < |db.businesses| ==> db.businesses[i].id != db.businesses[j].id)
    && (forall i, j :: 0 <= i < j < |db.products| ==> db.products[i].id != db.products[j].id)
  }

  function ContentTypeOfObj(o: Obj): ContentType {
    match o case OfBusiness(_) => Business case OfProduct(_) => Product
  }

  function IdOf(o: Obj): int {
    match o case OfBusiness(b) => b.id case OfProduct(p) => p.id
  }

  function CreatedAt(o: Obj): DateTime {
    match o case OfBusiness(b) => b.createdAt case OfProduct(p) => p.createdAt
  }

  function Featured(o: Obj): bool {
    match o case OfBusiness(b) => b.isFeatured case OfProduct(p) => p.business.isFeatured
  }

  function ObjsOf(db: Database, ct: ContentType): (objs: seq<Obj>)
    ensures forall i :: 0 <= i < |objs| ==> ContentTypeOfObj(objs[i]) == ct
  {
    match ct
    case Business => seq(|db.businesses|, i requires 0 <= i < |db.businesses| => OfBusiness(db.businesses[i]))
    case Product => seq(|db.products|, i requires 0 <= i < |db.products| => OfProduct(db.products[i]))
  }

  // ---- Filters

  datatype SearchFilters = SearchFilters(
    categoryId: Option<int>, country: Option<string>, city: Option<string>, businessType: Option<string>,
    minRating: Option<real>, featuredOnly: bool, minPrice: Option<real>, maxPrice: Option<real>)

  /** An empty text filter is no filter. */
  predicate Agrees(filter: Option<string>, value: string) {
    filter.None? || filter.value == "" || value == filter.value
  }

  predicate BusinessPasses(f: SearchFilters, b: BusinessRow) {
    && !b.isDeleted
    && (f.categoryId.Some? ==> b.category == f.categoryId)
    && Agrees(f.country, b.country) && Agrees(f.city, b.city) && Agrees(f.businessType, b.businessType)
    && (f.minRating.Some? ==> b.averageRating >= f.minRating.value)
    && (f.featuredOnly ==> b.isFeatured)
  }

  predicate ProductPasses(f: SearchFilters, p: ProductRow) {
    && !p.isDeleted && p.isActive
    && (f.categoryId.Some? ==> p.category == f.categoryId)
    && Agrees(f.country, p.business.country) && Agrees(f.city, p.business.city)
    && (f.minPrice.Some? ==> p.price >= f.minPrice.value)
    && (f.maxPrice.Some? ==> p.price <= f.maxPrice.value)
    && (f.featuredOnly ==> p.business.isFeatured)
  }

  /** One search: the parsed filters and the stripped query, empty in recency mode. */
  datatype SearchRequest = SearchRequest(filters: SearchFilters, query: string)

  function ModeOfRequest(r: SearchRequest): Mode {
    if r.query != "" then Relevance else Recency
  }

  function RankOf(db: Database, r: SearchRequest, o: Obj): Option<Float> {
    var hits := db.textSearch(r.query);
    match o
    case OfBusiness(b) => if b.id in hits.businesses then Some(hits.businesses[b.id]) else None
    case OfProduct(p) => if p.id in hits.products then Some(hits.products[p.id]) else None
  }

  predicate Matches(db: Database, r: SearchRequest, o: Obj) {
    && (match o case OfBusiness(b) => BusinessPasses(r.filters, b) case OfProduct(p) => ProductPasses(r.filters, p))
    && (ModeOfRequest(r).Relevance? ==> RankOf(db, r, o).Some?)
  }

  // ---- Results, sort key and the "rows after" filter

  datatype SearchResult = SearchResult(contentType: ContentType, obj: Obj, isFeatured: bool, secondary: Secondary)

  function TypeRank(ct: ContentType): int {
    match ct case Business => 0 case Product => 1
  }

  function SecondaryValue(s: Secondary): int {
    match s case Rank(x) => x case Created(at) => Instant(at)
  }

  function SortKey(e: SearchResult): Key {
    Key(0, e.isFeatured, SecondaryValue(e.secondary), TypeRank(e.contentType), IdOf(e.obj))
  }

  function CursorKey(c: SearchCursor): Key {
    Key(0, c.isFeatured, SecondaryValue(c.secondary), TypeRank(c.contentType), c.objectId)
  }

  function SecondaryFor(db: Database, r: SearchRequest, o: Obj): Secondary
    requires Matches(db, r, o)
  {
    if ModeOfRequest(r).Relevance? then Rank(RankOf(db, r, o).value) else Created(CreatedAt(o))
  }

  function ResultOf(db: Database, r: SearchRequest, o: Obj): SearchResult
    requires Matches(db, r, o)
  {
    SearchResult(ContentTypeOfObj(o), o, Featured(o), SecondaryFor(db, r, o))
  }

  predicate RowsAfter(ct: ContentType, c: SearchCursor, featured: bool, secondary: Secondary, id: int) {
    var rank, cursorRank := TypeRank(ct), TypeRank(c.contentType);
    var value, cursorValue := SecondaryValue(secondary), SecondaryValue(c.secondary);
    var sameFeatured :=
      if rank < cursorRank then value <= cursorValue
      else if rank > cursorRank then value < cursorValue
      else value < cursorValue || (value == cursorValue && id < c.objectId);
    if c.isFeatured then !featured || (featured && sameFeatured) else !featured && sameFeatured
  }

  /** The pushed-down filter is exactly the key order. */
  lemma RowsAfterIsKeyOrder(e: SearchResult, c: SearchCursor)
    ensures RowsAfter(e.contentType, c, e.isFeatured, e.secondary, IdOf(e.obj))
            <==> Before(CursorKey(c), SortKey(e))
  {
  }

  // ---- One table

  /** The simple reading: the sort keys of all matching rows of a table. */
  ghost function TableKeys(db: Database, r: SearchRequest, ct: ContentType): set<Key> {
    set o | o in ObjsOf(db, ct) && Matches(db, r, o) :: SortKey(ResultOf(db, r, o))
  }

  /** What a search makes of a row: a result and its sort key, if the row matches. */
  function Pick(db: Database, r: SearchRequest, o: Obj): Option<Keyed<SearchResult>> {
    if Matches(db, r, o) then Some(Keyed(SortKey(ResultOf(db, r, o)), ResultOf(db, r, o))) else None
  }

  function Picks(db: Database, r: SearchRequest, ct: ContentType): (picks: seq<Option<Keyed<SearchResult>>>)
    ensures |picks| == |ObjsOf(db, ct)|
    ensures forall i :: 0 <= i < |picks| ==> picks[i] == Pick(db, r, ObjsOf(db, ct)[i])
  {
    var objs := ObjsOf(db, ct);
    seq(|objs|, i requires 0 <= i < |objs| => Pick(db, r, objs[i]))
  }

  predicate RowAfter(db: Database, r: SearchRequest, after: Option<ValidCursor>, o: Obj)
    requires Matches(db, r, o)
  {
    after.Some? ==> RowsAfter(ContentTypeOfObj(o), after.value, Featured(o), SecondaryFor(db, r, o), IdOf(o))
  }

  function PickAfter(db: Database, r: SearchRequest, after: Option<ValidCursor>, o: Obj): Option<Keyed<SearchResult>> {
    if Matches(db, r, o) && RowAfter(db, r, after, o)
    then Some(Keyed(SortKey(ResultOf(db, r, o)), ResultOf(db, r, o))) else None
  }

  function PicksAfter(db: Database, r: SearchRequest, after: Option<ValidCursor>, ct: ContentType)
    : (picks: seq<Option<Keyed<SearchResult>>>)
    ensures |picks| == |ObjsOf(db, ct)|
    ensures forall i :: 0 <= i < |picks| ==> picks[i] == PickAfter(db, r, after, ObjsOf(db, ct)[i])
  {
    var objs := ObjsOf(db, ct);
    seq(|objs|, i requires 0 <= i < |objs| => PickAfter(db, r, after, objs[i]))
  }

  /** The query on one table, with the cursor's filter pushed down. */
  function Select(db: Database, r: SearchRequest, after: Option<ValidCursor>, ct: ContentType)
    : seq<Keyed<SearchResult>>
  {
    Listed(PicksAfter(db, r, after, ct))
  }

  function AfterKey(after: Option<ValidCursor>): Option<Key> {
    if after.None? then None else Some(CursorKey(after.value))
  }

  /** The pushed-down filter keeps exactly the rows whose key is past the cursor. */
  lemma PicksArePast(db: Database, r: SearchRequest, after: Option<ValidCursor>, ct: ContentType)
    ensures PicksPast(Picks(db, r, ct), PicksAfter(db, r, after, ct), AfterKey(after))
  {
    var objs := ObjsOf(db, ct);
    forall i | 0 <= i < |objs| && Matches(db, r, objs[i])
      ensures RowAfter(db, r, after, objs[i]) <==> Past(AfterKey(after), SortKey(ResultOf(db, r, objs[i])))
    {
      if after.Some? {
        RowsAfterIsKeyOrder(ResultOf(db, r, objs[i]), after.value);
      }
    }
  }

  ghost predicate Genuine(db: Database, r: SearchRequest, e: SearchResult) {
    e.obj in ObjsOf(db, e.contentType) && Matches(db, r, e.obj) && e == ResultOf(db, r, e.obj)
  }

  ghost predicate Decorated(db: Database, r: SearchRequest, s: seq<Keyed<SearchResult>>) {
    forall i :: 0 <= i < |s| ==> Genuine(db, r, s[i].item) && s[i].key == SortKey(s[i].item)
  }

  lemma PickedTableKeys(db: Database, r: SearchRequest, ct: ContentType)
    ensures PickedKeys(Picks(db, r, ct), TableKeys(db, r, ct))
  {
    var objs, picks := ObjsOf(db, ct), Picks(db, r, ct);
    forall k | k in TableKeys(db, r, ct)
      ensures exists i :: 0 <= i < |picks| && picks[i].Some? && picks[i].value.key == k
    {
      var o :| o in objs && Matches(db, r, o) && SortKey(ResultOf(db, r, o)) == k;
      var i :| 0 <= i < |objs| && objs[i] == o;
      assert picks[i] == Pick(db, r, o);
    }
  }

  lemma PickedIsDecorated(db: Database, r: SearchRequest, ct: ContentType, s: seq<Keyed<SearchResult>>)
    requires forall n :: 0 <= n < |s| ==> Some(s[n]) in Picks(db, r, ct)
    ensures Decorated(db, r, s)
  {
  }

  lemma TablePage(db: Database, r: SearchRequest, ct: ContentType, after: Option<ValidCursor>, limit: nat)
    requires ValidDatabase(db)
    ensures var page := OrderedLimit(Select(db, r, after, ct), limit);
            Decorated(db, r, page) && FirstAfter(KeysOf(page), TableKeys(db, r, ct), AfterKey(after), limit)
  {
    PicksArePast(db, r, after, ct);
    PickedTableKeys(db, r, ct);
    assert PicksDistinct(Picks(db, r, ct));
    QueryPage(Picks(db, r, ct), PicksAfter(db, r, after, ct), TableKeys(db, r, ct), AfterKey(after), limit);
    PickedIsDecorated(db, r, ct, OrderedLimit(Select(db, r, after, ct), limit));
  }

  // ---- The service

  /** Everything a search matches, as one set of keys. */
  ghost function ResultKeySet(db: Database, r: SearchRequest): set<Key> {
    TableKeys(db, r, Business) + TableKeys(db, r, Product)
  }

  function ResultKeys(items: seq<SearchResult>): (keys: seq<Key>)
    ensures |keys| == |items|
    ensures forall i :: 0 <= i < |items| ==> keys[i] == SortKey(items[i])
  {
    seq(|items|, i requires 0 <= i < |items| => SortKey(items[i]))
  }

  datatype SearchError = BadPageSize | BadCursor

  function RequestFor(filters: SearchFilters, q: Option<string>): SearchRequest {
    SearchRequest(filters, if q.Some? then Strip(q.value) else "")
  }

  function StartOf(codec: Codec, cursor: Option<string>, mode: Mode): Result<Option<ValidCursor>, SearchError> {
    if cursor.None? || cursor.value == "" then Ok(None)
    else
      match codec.decode(cursor.value, mode)
      case None => Err(BadCursor)
      case Some(c) => Ok(Some(c))
  }

  function ToCursor(e: SearchResult, mode: Mode): SearchCursor {
    SearchCursor(mode, e.isFeatured, e.secondary, e.contentType, IdOf(e.obj))
  }

  function NextToken(codec: Codec, mode: Mode, items: seq<SearchResult>, pageSize: int): Option<string> {
    if 0 < pageSize <= |items| && WellFormed(ToCursor(items[|items| - 1], mode))
    then Some(codec.encode(ToCursor(items[|items| - 1], mode))) else None
  }

  /** What the service owes: the first `pageSize` of everything that matches after the cursor, and a
    * token for the last item if the page is full.
    */
  ghost predicate Reply(codec: Codec, db: Database, r: SearchRequest, cursor: Option<string>, pageSize: int,
                        reply: Result<Page<SearchResult>, SearchError>)
  {
    if pageSize <= 0 || pageSize > MAX_PAGE_SIZE then reply == Err(BadPageSize)
    else
      match StartOf(codec, cursor, ModeOfRequest(r))
      case Err(e) => reply == Err(e)
      case Ok(start) =>
        && reply.Ok?
        && FirstAfter(ResultKeys(reply.value.items), ResultKeySet(db, r), AfterKey(start), pageSize)
        && (forall i :: 0 <= i < |reply.value.items| ==> Genuine(db, r, reply.value.items[i]))
        && reply.value.next == NextToken(codec, ModeOfRequest(r), reply.value.items, pageSize)
  }

  lemma MergedPage(db: Database, r: SearchRequest, after: Option<ValidCursor>, limit: nat)
    requires ValidDatabase(db)
    ensures var businesses := OrderedLimit(Select(db, r, after, Business), limit);
            var products := OrderedLimit(Select(db, r, after, Product), limit);
            var items := ItemsOf(OrderedLimit(businesses + products, limit));
            && FirstAfter(ResultKeys(items), ResultKeySet(db, r), AfterKey(after), limit)
            && forall i :: 0 <= i < |items| ==> Genuine(db, r, items[i])
  {
    var businesses := OrderedLimit(Select(db, r, after, Business), limit);
    var products := OrderedLimit(Select(db, r, after, Product), limit);
    TablePage(db, r, Business, after, limit);
    TablePage(db, r, Product, after, limit);
    MergeIsExact(businesses, products, TableKeys(db, r, Business), TableKeys(db, r, Product),
                 AfterKey(after), limit);
    var merged := OrderedLimit(businesses + products, limit);
    assert Decorated(db, r, merged);
    assert ResultKeys(ItemsOf(merged)) == KeysOf(merged);
  }

  /** The token a full page carries belongs to its last item and is never missing. */
  lemma {:induction false} TokenIsNext(codec: Codec, db: Database, r: SearchRequest, items: seq<SearchResult>,
                                       pageSize: int)
    requires ValidDatabase(db) && 0 < pageSize <= |items|
    requires forall i :: 0 <= i < |items| ==> Genuine(db, r, items[i])
    ensures var c := ToCursor(items[|items| - 1], ModeOfRequest(r));
            && WellFormed(c) && 0 < c.objectId < 0x8000_0000_0000_0000
            && NextToken(codec, ModeOfRequest(r), items, pageSize) == Some(codec.encode(c))
  {
    var e := items[|items| - 1];
    assert Genuine(db, r, e);
    var objs := ObjsOf(db, e.contentType);
    var i :| 0 <= i < |objs| && objs[i] == e.obj;
  }

  function Decorate(items: seq<SearchResult>): (s: seq<Keyed<SearchResult>>)
    ensures |s| == |items|
    ensures forall i :: 0 <= i < |items| ==> s[i] == Keyed(SortKey(items[i]), items[i])
  {
    seq(|items|, i requires 0 <= i < |items| => Keyed(SortKey(items[i]), items[i]))
  }

  lemma DecorateAppend(a: seq<SearchResult>, b: seq<SearchResult>)
    ensures Decorate(a + b) == Decorate(a) + Decorate(b)
  {
  }

  /** The rows one table contributes: at most `limit` after the cursor, turned into results one by one. */
  method FetchEntries(db: Database, r: SearchRequest, ct: ContentType, after: Option<ValidCursor>, limit: int)
    returns (entries: seq<SearchResult>)
    requires ValidDatabase(db)
    ensures Decorate(entries) == OrderedLimit(Select(db, r, after, ct), if limit < 0 then 0 else limit)
  {
    if limit <= 0 {
      return [];
    }
    var found := OrderedLimit(Select(db, r, after, ct), limit);
    entries := [];
    for i := 0 to |found|
      invariant |entries| == i && Decorate(entries) == found[..i]
    {
      var obj := found[i].item.obj;
      OfThisTable(db, r, ct, after, limit, i);
      var e := SearchResult(ct, obj, Featured(obj), SecondaryFor(db, r, obj));
      DecorateAppend(entries, [e]);
      entries := entries + [e];
    }
  }

  lemma OfThisTable(db: Database, r: SearchRequest, ct: ContentType, after: Option<ValidCursor>, limit: nat, i: nat)
    requires ValidDatabase(db)
    requires i < |OrderedLimit(Select(db, r, after, ct), limit)|
    ensures var found := OrderedLimit(Select(db, r, after, ct), limit)[i];
            && Matches(db, r, found.item.obj) && found.key == SortKey(found.item)
            && var obj := found.item.obj;
            found.item == SearchResult(ct, obj, Featured(obj), SecondaryFor(db, r, obj))
  {
    var page := OrderedLimit(Select(db, r, after, ct), limit);
    TablePage(db, r, ct, after, limit);
    assert KeysOf(page)[i] in TableKeys(db, r, ct);
    assert Genuine(db, r, page[i].item);
  }

  /** Both tables' results, merged, sorted and cut. */
  method MergedItems(db: Database, r: SearchRequest, after: Option<ValidCursor>,
                     limit: nat) returns (items: seq<SearchResult>)
    requires ValidDatabase(db)
    ensures FirstAfter(ResultKeys(items), ResultKeySet(db, r), AfterKey(after), limit)
    ensures forall i :: 0 <= i < |items| ==> Genuine(db, r, items[i])
  {
    var businesses := FetchEntries(db, r, Business, after, limit);
    var products := FetchEntries(db, r, Product, after, limit);
    var merged := SortDesc(Decorate(businesses + products));
    DecorateAppend(businesses, products);
    items := ItemsOf(merged[..Min(limit, |merged|)]);
    MergedPage(db, r, after, limit);
  }

  method GetSearchResults(codec: Codec, db: Database, filters: SearchFilters, q: Option<string>,
                          cursor: Option<string>, pageSize: int)
    returns (reply: Result<Page<SearchResult>, SearchError>)
    requires ValidDatabase(db)
    ensures Reply(codec, db, RequestFor(filters, q), cursor, pageSize, reply)
  {
    if pageSize <= 0 || pageSize > MAX_PAGE_SIZE {
      return Err(BadPageSize);
    }
    var r := RequestFor(filters, q);
    var mode := ModeOfRequest(r);
    var start := StartOf(codec, cursor, mode);
    if start.Err? {
      return Err(start.error);
    }
    var items := MergedItems(db, r, start.value, pageSize);
    var next: Option<string> := None;
    if |items| >= pageSize {
      TokenIsNext(codec, db, r, items, pageSize);
      next := Some(codec.encode(ToCursor(items[|items| - 1], mode)));
    }
    reply := Ok(Page(items, next));
  }
}
