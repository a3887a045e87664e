/** The Home Feed and Discover queries: two tiers, each merged from two tables, behind one cursor. */
module Feed {
  import opened Wrappers
  import opened Keyset
  import opened IsoTime
  import opened FeedCursors
  import opened Publication

  const MAX_PAGE_SIZE: nat := 50

  // ---- Stored rows and their visibility

  /** A Post or a Reel; `processing` means something for reels only. */
  datatype Row = Row(id: int, business: int, createdAt: DateTime, status: Status, isDeleted: bool,
                     processing: ProcessingStatus)

  /** `featured` holds the businesses whose `is_featured` is set. */
  datatype Database = Database(posts: seq<Row>, reels: seq<Row>, featured: set<int>)

  function Table(db: Database, ct: ContentType): seq<Row> {
    match ct case Post => db.posts case Reel => db.reels
  }

  /** Primary keys are positive 63-bit numbers and unique within a table. */
  ghost predicate ValidTable(rows: seq<Row>) {
    && (forall i :: 0 <= i < |rows| ==> 0 < rows[i].id < 0x8000_0000_0000_0000)
    && (forall i, j :: 0 <= i < j < |rows| ==> rows[i].id != rows[j].id)
  }

  ghost predicate ValidDatabase(db: Database) {
    ValidTable(db.posts) && ValidTable(db.reels)
  }

  /** The `published_objects` managers. */
  predicate Visible(ct: ContentType, row: Row) {
    Public(row.status, row.isDeleted, ct.Reel?, row.processing)
  }

  // ---- Entries, sort keys and "rows after" filters

  function TypeRank(ct: ContentType): int {
    match ct case Post => 0 case Reel => 1
  }

  datatype FeedEntry = FeedEntry(contentType: ContentType, obj: Row, isFeatured: bool)

  /** The sort key of a tier; following items all sort before backfill items. */
  function TierKey(phase: Phase, e: FeedEntry): Key {
    match phase
    case Following => Key(1, false, Instant(e.obj.createdAt), TypeRank(e.contentType), e.obj.id)
    case Backfill => Key(0, e.isFeatured, Instant(e.obj.createdAt), TypeRank(e.contentType), e.obj.id)
  }

  function CursorKey(c: FeedCursor): Key
    requires WellFormed(c)
  {
    match c.phase
    case Following => Key(1, false, Instant(c.createdAt), TypeRank(c.contentType), c.objectId)
    case Backfill => Key(0, c.isFeatured.value, Instant(c.createdAt), TypeRank(c.contentType), c.objectId)
  }

  function ToCursor(e: FeedEntry, phase: Phase): FeedCursor {
    FeedCursor(phase, e.obj.createdAt, e.contentType, e.obj.id, if phase.Following? then None else Some(e.isFeatured))
  }

  predicate FollowingRowsAfter(ct: ContentType, c: FeedCursor, row: Row) {
    var rank, cursorRank := TypeRank(ct), TypeRank(c.contentType);
    if rank < cursorRank then Instant(row.createdAt) <= Instant(c.createdAt)
    else if rank > cursorRank then Instant(row.createdAt) < Instant(c.createdAt)
    else Instant(row.createdAt) < Instant(c.createdAt)
         || (row.createdAt == c.createdAt && row.id < c.objectId)
  }

  predicate BackfillRowsAfter(ct: ContentType, c: FeedCursor, row: Row, featured: bool)
    requires c.isFeatured.Some?
  {
    if c.isFeatured.value then !featured || (featured && FollowingRowsAfter(ct, c, row))
    else !featured && FollowingRowsAfter(ct, c, row)
  }

  /** The pushed-down filter of the following tier is exactly the key order. */
  lemma FollowingFilterIsKeyOrder(ct: ContentType, c: FeedCursor, row: Row, featured: bool)
    requires WellFormed(c) && c.phase.Following?
    ensures FollowingRowsAfter(ct, c, row) <==> Before(CursorKey(c), TierKey(Following, FeedEntry(ct, row, featured)))
  {
    if Instant(row.createdAt) == Instant(c.createdAt) {
      InstantInjective(row.createdAt, c.createdAt);
    }
  }

  /** The pushed-down filter of the backfill tier is exactly the key order. */
  lemma BackfillFilterIsKeyOrder(ct: ContentType, c: FeedCursor, row: Row, featured: bool)
    requires WellFormed(c) && c.phase.Backfill?
    ensures BackfillRowsAfter(ct, c, row, featured)
            <==> Before(CursorKey(c), TierKey(Backfill, FeedEntry(ct, row, featured)))
  {
    if Instant(row.createdAt) == Instant(c.createdAt) {
      InstantInjective(row.createdAt, c.createdAt);
    }
  }

  // ---- One tier

  datatype Tier = FollowingTier(followed: seq<int>) | BackfillTier(excluded: set<int>)

  function PhaseOfTier(tier: Tier): Phase {
    match tier case FollowingTier(_) => Following case BackfillTier(_) => Backfill
  }

  predicate InTier(tier: Tier, ct: ContentType, row: Row) {
    Visible(ct, row) && match tier {
      case FollowingTier(ids) => row.business in ids
      case BackfillTier(excluded) => row.business !in excluded
    }
  }

  function EntryOf(db: Database, tier: Tier, ct: ContentType, row: Row): FeedEntry {
    FeedEntry(ct, row, tier.BackfillTier? && row.business in db.featured)
  }

  function KeyOf(db: Database, tier: Tier, ct: ContentType, row: Row): Key {
    TierKey(PhaseOfTier(tier), EntryOf(db, tier, ct, row))
  }

  /** The simple reading of a tier: the sort keys of all its rows in one table. */
  ghost function TableKeys(db: Database, tier: Tier, ct: ContentType): set<Key> {
    set row | row in Table(db, ct) && InTier(tier, ct, row) :: KeyOf(db, tier, ct, row)
  }

  ghost function TierKeys(db: Database, tier: Tier): set<Key> {
    TableKeys(db, tier, Post) + TableKeys(db, tier, Reel)
  }

  predicate ForTier(tier: Tier, after: Option<ValidCursor>) {
    after.Some? ==> after.value.phase == PhaseOfTier(tier)
  }

  function AfterKey(after: Option<ValidCursor>): Option<Key>
  {
    if after.None? then None else Some(CursorKey(after.value))
  }

  predicate RowAfter(db: Database, tier: Tier, ct: ContentType, after: Option<ValidCursor>, row: Row)
    requires ForTier(tier, after)
  {
    after.None? || match tier {
      case FollowingTier(_) => FollowingRowsAfter(ct, after.value, row)
      case BackfillTier(_) => BackfillRowsAfter(ct, after.value, row, row.business in db.featured)
    }
  }

  lemma RowAfterIsPast(db: Database, tier: Tier, ct: ContentType, after: Option<ValidCursor>, row: Row)
    requires ForTier(tier, after)
    ensures RowAfter(db, tier, ct, after, row) <==> Past(AfterKey(after), KeyOf(db, tier, ct, row))
  {
    if after.Some? {
      match tier {
        case FollowingTier(_) => FollowingFilterIsKeyOrder(ct, after.value, row, false);
        case BackfillTier(_) => BackfillFilterIsKeyOrder(ct, after.value, row, row.business in db.featured);
      }
    }
  }

  /** What a tier makes of a row of one table: an entry and its sort key, if the row is in the tier. */
  function Pick(db: Database, tier: Tier, ct: ContentType, row: Row): Option<Keyed<FeedEntry>> {
    if InTier(tier, ct, row) then Some(Keyed(KeyOf(db, tier, ct, row), EntryOf(db, tier, ct, row))) else None
  }

  function Picks(db: Database, tier: Tier, ct: ContentType): (picks: seq<Option<Keyed<FeedEntry>>>)
    ensures |picks| == |Table(db, ct)|
    ensures forall i :: 0 <= i < |picks| ==> picks[i] == Pick(db, tier, ct, Table(db, ct)[i])
  {
    var rows := Table(db, ct);
    seq(|rows|, i requires 0 <= i < |rows| => Pick(db, tier, ct, rows[i]))
  }

  function PickAfter(db: Database, tier: Tier, ct: ContentType, after: Option<ValidCursor>, row: Row)
    : Option<Keyed<FeedEntry>>
    requires ForTier(tier, after)
  {
    if InTier(tier, ct, row) && RowAfter(db, tier, ct, after, row)
    then Some(Keyed(KeyOf(db, tier, ct, row), EntryOf(db, tier, ct, row))) else None
  }

  function PicksAfter(db: Database, tier: Tier, ct: ContentType, after: Option<ValidCursor>)
    : (picks: seq<Option<Keyed<FeedEntry>>>)
    requires ForTier(tier, after)
    ensures |picks| == |Table(db, ct)|
    ensures forall i :: 0 <= i < |picks| ==> picks[i] == PickAfter(db, tier, ct, after, Table(db, ct)[i])
  {
    var rows := Table(db, ct);
    seq(|rows|, i requires 0 <= i < |rows| => PickAfter(db, tier, ct, after, rows[i]))
  }

  /** The query on one table with the cursor's filter pushed down, each row with its sort key. */
  function Select(db: Database, tier: Tier, ct: ContentType, after: Option<ValidCursor>): seq<Keyed<FeedEntry>>
    requires ForTier(tier, after)
  {
    Listed(PicksAfter(db, tier, ct, after))
  }

  /** An entry the tier really contains. */
  ghost predicate Genuine(db: Database, tier: Tier, e: FeedEntry) {
    e.obj in Table(db, e.contentType) && InTier(tier, e.contentType, e.obj)
    && e == EntryOf(db, tier, e.contentType, e.obj)
  }

  ghost predicate Decorated(db: Database, tier: Tier, s: seq<Keyed<FeedEntry>>) {
    forall i :: 0 <= i < |s| ==> Genuine(db, tier, s[i].item) && s[i].key == TierKey(PhaseOfTier(tier), s[i].item)
  }

  lemma PicksArePast(db: Database, tier: Tier, ct: ContentType, after: Option<ValidCursor>)
    requires ForTier(tier, after)
    ensures PicksPast(Picks(db, tier, ct), PicksAfter(db, tier, ct, after), AfterKey(after))
  {
    var rows := Table(db, ct);
    forall i | 0 <= i < |rows|
      ensures RowAfter(db, tier, ct, after, rows[i]) <==> Past(AfterKey(after), KeyOf(db, tier, ct, rows[i]))
    {
      RowAfterIsPast(db, tier, ct, after, rows[i]);
    }
  }

  /** The pushed-down filter keeps exactly the rows whose key is past the cursor. */
  lemma SelectIsPastOnly(db: Database, tier: Tier, ct: ContentType, after: Option<ValidCursor>)
    requires ForTier(tier, after)
    ensures Select(db, tier, ct, after) == PastOnly(Listed(Picks(db, tier, ct)), AfterKey(after))
  {
    PicksArePast(db, tier, ct, after);
    ListedPast(Picks(db, tier, ct), PicksAfter(db, tier, ct, after), AfterKey(after));
  }

  lemma PickedIsDecorated(db: Database, tier: Tier, ct: ContentType, s: seq<Keyed<FeedEntry>>)
    requires forall n :: 0 <= n < |s| ==> Some(s[n]) in Picks(db, tier, ct)
    ensures Decorated(db, tier, s)
  {
  }

  lemma PickedTableKeys(db: Database, tier: Tier, ct: ContentType)
    ensures PickedKeys(Picks(db, tier, ct), TableKeys(db, tier, ct))
  {
    var rows, keys, picks := Table(db, ct), TableKeys(db, tier, ct), Picks(db, tier, ct);
    forall k | k in keys
      ensures exists i :: 0 <= i < |picks| && picks[i].Some? && picks[i].value.key == k
    {
      var row :| row in rows && InTier(tier, ct, row) && KeyOf(db, tier, ct, row) == k;
      var i :| 0 <= i < |rows| && rows[i] == row;
      assert picks[i] == Pick(db, tier, ct, row);
    }
  }

  function EntryKeys(phase: Phase, entries: seq<FeedEntry>): (keys: seq<Key>)
    ensures |keys| == |entries|
    ensures forall i :: 0 <= i < |entries| ==> keys[i] == TierKey(phase, entries[i])
  {
    seq(|entries|, i requires 0 <= i < |entries| => TierKey(phase, entries[i]))
  }

  /** The answer a tier owes: the first `limit` of all its rows after the cursor. */
  ghost predicate TierPage(db: Database, tier: Tier, after: Option<ValidCursor>, limit: nat, entries: seq<FeedEntry>)
    requires ForTier(tier, after)
  {
    && FirstAfter(EntryKeys(PhaseOfTier(tier), entries), TierKeys(db, tier), AfterKey(after), limit)
    && AllGenuine(db, tier, entries)
  }

  ghost predicate AllGenuine(db: Database, tier: Tier, entries: seq<FeedEntry>) {
    forall i :: 0 <= i < |entries| ==> Genuine(db, tier, entries[i])
  }

  /** What one table contributes: its ordered, limited rows after the cursor. */
  function Fetched(db: Database, tier: Tier, after: Option<ValidCursor>, limit: nat, ct: ContentType)
    : seq<Keyed<FeedEntry>>
    requires ForTier(tier, after)
  {
    OrderedLimit(Select(db, tier, ct, after), limit)
  }

  /** The rows one table contributes: at most `limit` after the cursor, turned into entries one by one. */
  method FetchTable(db: Database, tier: Tier, ct: ContentType, after: Option<ValidCursor>, limit: nat,
                    before: seq<Keyed<FeedEntry>>) returns (entries: seq<Keyed<FeedEntry>>)
    requires ValidDatabase(db) && ForTier(tier, after)
    ensures entries == before + Fetched(db, tier, after, limit, ct)
  {
    var found := OrderedLimit(Select(db, tier, ct, after), limit);
    entries := before;
    for i := 0 to |found|
      invariant entries == before + found[..i]
    {
      var e := EntryOf(db, tier, ct, found[i].item.obj);
      OfThisTable(db, tier, ct, after, limit, i);
      entries := entries + [Keyed(TierKey(PhaseOfTier(tier), e), e)];
    }
  }

  lemma OfThisTable(db: Database, tier: Tier, ct: ContentType, after: Option<ValidCursor>, limit: nat, i: nat)
    requires ValidDatabase(db) && ForTier(tier, after)
    requires i < |OrderedLimit(Select(db, tier, ct, after), limit)|
    ensures var found := OrderedLimit(Select(db, tier, ct, after), limit)[i];
            var e := EntryOf(db, tier, ct, found.item.obj);
            found == Keyed(TierKey(PhaseOfTier(tier), e), e)
  {
    var page := OrderedLimit(Select(db, tier, ct, after), limit);
    TablePage(db, tier, ct, after, limit);
    assert KeysOf(page)[i] in TableKeys(db, tier, ct);
    EntryIsOwn(db, tier, ct, page[i].item);
  }

  lemma EntryIsOwn(db: Database, tier: Tier, ct: ContentType, e: FeedEntry)
    requires Genuine(db, tier, e) && TypeRank(e.contentType) == TypeRank(ct)
    ensures e == EntryOf(db, tier, ct, e.obj)
  {
  }

  /** At most `limit` rows per table. */
  method FetchTables(db: Database, tier: Tier, after: Option<ValidCursor>, limit: nat)
    returns (entries: seq<Keyed<FeedEntry>>)
    requires ValidDatabase(db) && ForTier(tier, after)
    ensures entries == Fetched(db, tier, after, limit, Post) + Fetched(db, tier, after, limit, Reel)
  {
    entries := [];
    var sources := [Post, Reel];
    ghost var posts, reels := Fetched(db, tier, after, limit, Post), Fetched(db, tier, after, limit, Reel);
    ghost var parts := [[], posts, posts + reels];
    for n := 0 to |sources|
      invariant entries == parts[n]
    {
      entries := FetchTable(db, tier, sources[n], after, limit, entries);
    }
  }

  /** The rows of both tables merged, sorted and cut. */
  method FetchTier(db: Database, tier: Tier, after: Option<ValidCursor>, limit: nat) returns (result: seq<FeedEntry>)
    requires ValidDatabase(db) && ForTier(tier, after)
    ensures TierPage(db, tier, after, limit, result)
  {
    var entries := FetchTables(db, tier, after, limit);
    MergedTier(db, tier, after, limit, entries);
    entries := SortDesc(entries);
    result := ItemsOf(entries[..Min(limit, |entries|)]);
  }

  lemma MergedTier(db: Database, tier: Tier, after: Option<ValidCursor>, limit: nat, entries: seq<Keyed<FeedEntry>>)
    requires ValidDatabase(db) && ForTier(tier, after)
    requires entries == Fetched(db, tier, after, limit, Post) + Fetched(db, tier, after, limit, Reel)
    ensures TierPage(db, tier, after, limit, ItemsOf(OrderedLimit(entries, limit)))
  {
    var posts := OrderedLimit(Select(db, tier, Post, after), limit);
    var reels := OrderedLimit(Select(db, tier, Reel, after), limit);
    TablePage(db, tier, Post, after, limit);
    TablePage(db, tier, Reel, after, limit);
    MergeIsExact(posts, reels, TableKeys(db, tier, Post), TableKeys(db, tier, Reel), AfterKey(after), limit);
    var merged := OrderedLimit(posts + reels, limit);
    assert Decorated(db, tier, merged);
    assert EntryKeys(PhaseOfTier(tier), ItemsOf(merged)) == KeysOf(merged);
  }

  lemma TablePage(db: Database, tier: Tier, ct: ContentType, after: Option<ValidCursor>, limit: nat)
    requires ValidDatabase(db) && ForTier(tier, after)
    ensures var page := OrderedLimit(Select(db, tier, ct, after), limit);
            Decorated(db, tier, page) && FirstAfter(KeysOf(page), TableKeys(db, tier, ct), AfterKey(after), limit)
  {
    PicksArePast(db, tier, ct, after);
    PickedTableKeys(db, tier, ct);
    QueryPage(Picks(db, tier, ct), PicksAfter(db, tier, ct, after), TableKeys(db, tier, ct), AfterKey(after), limit);
    PickedIsDecorated(db, tier, ct, OrderedLimit(Select(db, tier, ct, after), limit));
  }

  // ---- The two services

  datatype FeedError = WrongPhase | BadPageSize | BadCursor

  method FetchFollowingTier(db: Database, followed: seq<int>, after: Option<ValidCursor>, limit: int)
    returns (result: Result<seq<FeedEntry>, FeedError>)
    requires ValidDatabase(db)
    ensures after.Some? && !after.value.phase.Following? ==> result == Err(WrongPhase)
    ensures after.None? || after.value.phase.Following? ==>
              result.Ok? && TierPage(db, FollowingTier(followed), after, if limit < 0 then 0 else limit, result.value)
  {
    if after.Some? && !after.value.phase.Following? {
      return Err(WrongPhase);
    }
    if limit <= 0 || followed == [] {
      assert followed == [] ==> TierKeys(db, FollowingTier(followed)) == {};
      return Ok([]);
    }
    var entries := FetchTier(db, FollowingTier(followed), after, limit);
    result := Ok(entries);
  }

  method FetchBackfillTier(db: Database, excluded: set<int>, after: Option<ValidCursor>, limit: int)
    returns (result: Result<seq<FeedEntry>, FeedError>)
    requires ValidDatabase(db)
    ensures after.Some? && !after.value.phase.Backfill? ==> result == Err(WrongPhase)
    ensures after.None? || after.value.phase.Backfill? ==>
              result.Ok? && TierPage(db, BackfillTier(excluded), after, if limit < 0 then 0 else limit, result.value)
  {
    if after.Some? && !after.value.phase.Backfill? {
      return Err(WrongPhase);
    }
    if limit <= 0 {
      return Ok([]);
    }
    var entries := FetchTier(db, BackfillTier(excluded), after, limit);
    result := Ok(entries);
  }

  /** The caller's follows and own business, as looked up at the start of a request. */
  datatype Viewer = Viewer(followed: seq<int>, own: Option<int>)

  function Excluded(viewer: Viewer): set<int> {
    (set b | b in viewer.followed) + (if viewer.own.Some? then {viewer.own.value} else {})
  }

  datatype Screen = Home | Discover

  /** Everything a screen can ever show, as one set of keys: followed items first, then the rest. */
  ghost function ScreenKeys(db: Database, viewer: Viewer, screen: Screen): set<Key> {
    (if screen.Home? then TierKeys(db, FollowingTier(viewer.followed)) else {})
    + TierKeys(db, BackfillTier(Excluded(viewer)))
  }

  function PhaseFor(viewer: Viewer, e: FeedEntry): Phase {
    if e.obj.business in viewer.followed then Following else Backfill
  }

  function ItemKey(viewer: Viewer, e: FeedEntry): Key {
    TierKey(PhaseFor(viewer, e), e)
  }

  function ItemKeys(viewer: Viewer, items: seq<FeedEntry>): (keys: seq<Key>)
    ensures |keys| == |items|
    ensures forall i :: 0 <= i < |items| ==> keys[i] == ItemKey(viewer, items[i])
  {
    seq(|items|, i requires 0 <= i < |items| => ItemKey(viewer, items[i]))
  }

  ghost predicate Shown(db: Database, viewer: Viewer, screen: Screen, e: FeedEntry) {
    || (screen.Home? && Genuine(db, FollowingTier(viewer.followed), e))
    || Genuine(db, BackfillTier(Excluded(viewer)), e)
  }

  /** A missing or empty token starts from the top; anything else has to decode. */
  function StartOf(codec: Codec, cursor: Option<string>): Result<Option<ValidCursor>, FeedError> {
    if cursor.None? || cursor.value == "" then Ok(None)
    else
      match codec.decode(cursor.value)
      case None => Err(BadCursor)
      case Some(c) => Ok(Some(c))
  }

  /** What a screen owes for a request, with all tiers, tables and limits gone: the first `pageSize` of
    * everything it shows after the cursor, and a token for the last item if the page is full.
    */
  ghost predicate Reply(screen: Screen, codec: Codec, db: Database, viewer: Viewer, cursor: Option<string>,
                        pageSize: int, reply: Result<Page<FeedEntry>, FeedError>)
  {
    if pageSize <= 0 || pageSize > MAX_PAGE_SIZE then reply == Err(BadPageSize)
    else
      match StartOf(codec, cursor)
      case Err(e) => reply == Err(e)
      case Ok(start) =>
        if screen.Discover? && start.Some? && !start.value.phase.Backfill? then reply == Err(WrongPhase)
        else
          && reply.Ok?
          && FirstAfter(ItemKeys(viewer, reply.value.items), ScreenKeys(db, viewer, screen), AfterKey(start), pageSize)
          && (forall i :: 0 <= i < |reply.value.items| ==> Shown(db, viewer, screen, reply.value.items[i]))
          && reply.value.next == NextToken(codec, viewer, reply.value.items, pageSize)
  }

  function NextToken(codec: Codec, viewer: Viewer, items: seq<FeedEntry>, pageSize: int): Option<string> {
    if 0 < pageSize <= |items| then
      var e := items[|items| - 1];
      if WellFormed(ToCursor(e, PhaseFor(viewer, e)))
      then Some(codec.encode(ToCursor(e, PhaseFor(viewer, e)))) else None
    else None
  }

  lemma FollowingBeforeBackfill(db: Database, viewer: Viewer)
    ensures forall k :: k in TierKeys(db, FollowingTier(viewer.followed)) ==> k.tier == 1
    ensures forall k :: k in TierKeys(db, BackfillTier(Excluded(viewer))) ==> k.tier == 0
  {
  }

  lemma PhasesAgree(db: Database, viewer: Viewer, items: seq<FeedEntry>, tier: Tier)
    requires tier == FollowingTier(viewer.followed) || tier == BackfillTier(Excluded(viewer))
    requires AllGenuine(db, tier, items)
    ensures ItemKeys(viewer, items) == EntryKeys(PhaseOfTier(tier), items)
    ensures forall i :: 0 <= i < |items| ==> PhaseFor(viewer, items[i]) == PhaseOfTier(tier)
  {
  }

  lemma ItemKeysAppend(viewer: Viewer, a: seq<FeedEntry>, b: seq<FeedEntry>)
    ensures ItemKeys(viewer, a + b) == ItemKeys(viewer, a) + ItemKeys(viewer, b)
  {
  }

  /** Items of the two tiers are items of the screen, and their tier can be told from the item. */
  lemma TiersAreShown(db: Database, viewer: Viewer, following: seq<FeedEntry>, backfill: seq<FeedEntry>)
    requires AllGenuine(db, FollowingTier(viewer.followed), following)
    requires AllGenuine(db, BackfillTier(Excluded(viewer)), backfill)
    ensures forall i :: 0 <= i < |following + backfill| ==> Shown(db, viewer, Home, (following + backfill)[i])
    ensures forall i :: 0 <= i < |following| ==> PhaseFor(viewer, following[i]).Following?
    ensures forall i :: 0 <= i < |backfill| ==> PhaseFor(viewer, backfill[i]).Backfill?
  {
    PhasesAgree(db, viewer, following, FollowingTier(viewer.followed));
    PhasesAgree(db, viewer, backfill, BackfillTier(Excluded(viewer)));
    forall i | 0 <= i < |following + backfill|
      ensures Shown(db, viewer, Home, (following + backfill)[i])
    {
      if i < |following| {
        assert Genuine(db, FollowingTier(viewer.followed), following[i]);
      } else {
        assert Genuine(db, BackfillTier(Excluded(viewer)), backfill[i - |following|]);
      }
    }
  }

  /** The answer of one tier, in keys that are told from the items alone. */
  ghost predicate TierItems(db: Database, viewer: Viewer, tier: Tier, after: Option<ValidCursor>, limit: nat,
                            items: seq<FeedEntry>)
  {
    && FirstAfter(ItemKeys(viewer, items), TierKeys(db, tier), AfterKey(after), limit)
    && AllGenuine(db, tier, items)
  }

  lemma TierPageItems(db: Database, viewer: Viewer, tier: Tier, after: Option<ValidCursor>, limit: nat,
                      items: seq<FeedEntry>)
    requires tier == FollowingTier(viewer.followed) || tier == BackfillTier(Excluded(viewer))
    requires ForTier(tier, after) && TierPage(db, tier, after, limit, items)
    ensures TierItems(db, viewer, tier, after, limit, items)
  {
    PhasesAgree(db, viewer, items, tier);
  }

  /** The items one request takes from the two tiers. */
  ghost predicate TwoTiers(db: Database, viewer: Viewer, start: Option<ValidCursor>, pageSize: nat,
                           following: seq<FeedEntry>, backfill: seq<FeedEntry>)
  {
    if start.None? || start.value.phase.Following? then
      && |following| <= pageSize
      && TierItems(db, viewer, FollowingTier(viewer.followed), start, pageSize, following)
      && TierItems(db, viewer, BackfillTier(Excluded(viewer)), None, pageSize - |following|, backfill)
    else
      following == [] && TierItems(db, viewer, BackfillTier(Excluded(viewer)), start, pageSize, backfill)
  }

  lemma KeysFromTheTop(db: Database, viewer: Viewer, start: Option<ValidCursor>, pageSize: nat, left: nat,
                       f: seq<Key>, b: seq<Key>)
    requires (start.None? || start.value.phase.Following?) && left == pageSize - |f|
    requires FirstAfter(f, TierKeys(db, FollowingTier(viewer.followed)), AfterKey(start), pageSize)
    requires FirstAfter(b, TierKeys(db, BackfillTier(Excluded(viewer))), AfterKey(None), left)
    ensures FirstAfter(f + b, ScreenKeys(db, viewer, Home), AfterKey(start), pageSize)
  {
    FollowingBeforeBackfill(db, viewer);
    PagesConcatenate(f, b, TierKeys(db, FollowingTier(viewer.followed)), TierKeys(db, BackfillTier(Excluded(viewer))),
                     AfterKey(start), pageSize);
  }

  lemma KeysFromTheBackfill(db: Database, viewer: Viewer, start: ValidCursor, pageSize: nat, b: seq<Key>)
    requires start.phase.Backfill?
    requires FirstAfter(b, TierKeys(db, BackfillTier(Excluded(viewer))), AfterKey(Some(start)), pageSize)
    ensures FirstAfter(b, ScreenKeys(db, viewer, Home), AfterKey(Some(start)), pageSize)
  {
    FollowingBeforeBackfill(db, viewer);
    SecondIgnoresFirst(b, TierKeys(db, FollowingTier(viewer.followed)), TierKeys(db, BackfillTier(Excluded(viewer))),
                       CursorKey(start), pageSize);
  }

  lemma PageFromTheTop(db: Database, viewer: Viewer, start: Option<ValidCursor>, pageSize: nat,
                       following: seq<FeedEntry>, backfill: seq<FeedEntry>)
    requires (start.None? || start.value.phase.Following?) && |following| <= pageSize
    requires FirstAfter(ItemKeys(viewer, following), TierKeys(db, FollowingTier(viewer.followed)), AfterKey(start),
                        pageSize)
    requires FirstAfter(ItemKeys(viewer, backfill), TierKeys(db, BackfillTier(Excluded(viewer))), AfterKey(None),
                        pageSize - |following|)
    ensures FirstAfter(ItemKeys(viewer, following + backfill), ScreenKeys(db, viewer, Home), AfterKey(start), pageSize)
  {
    KeysFromTheTop(db, viewer, start, pageSize, pageSize - |following|,
                   ItemKeys(viewer, following), ItemKeys(viewer, backfill));
    ItemKeysAppend(viewer, following, backfill);
  }

  lemma PageFromTheBackfill(db: Database, viewer: Viewer, start: ValidCursor, pageSize: nat, backfill: seq<FeedEntry>)
    requires start.phase.Backfill?
    requires FirstAfter(ItemKeys(viewer, backfill), TierKeys(db, BackfillTier(Excluded(viewer))), AfterKey(Some(start)),
                        pageSize)
    ensures FirstAfter(ItemKeys(viewer, backfill), ScreenKeys(db, viewer, Home), AfterKey(Some(start)), pageSize)
  {
    KeysFromTheBackfill(db, viewer, start, pageSize, ItemKeys(viewer, backfill));
  }

  /** Two tiers in sequence are one page of the single order. */
  lemma {:induction false} TwoTiersAreOnePage(db: Database, viewer: Viewer, start: Option<ValidCursor>, pageSize: nat,
                           following: seq<FeedEntry>, backfill: seq<FeedEntry>)
    requires TwoTiers(db, viewer, start, pageSize, following, backfill)
    ensures FirstAfter(ItemKeys(viewer, following + backfill), ScreenKeys(db, viewer, Home), AfterKey(start), pageSize)
  {
    if start.None? || start.value.phase.Following? {
      PageFromTheTop(db, viewer, start, pageSize, following, backfill);
    } else {
      PageFromTheBackfill(db, viewer, start.value, pageSize, backfill);
      assert following + backfill == backfill;
    }
  }

  method HomeFollowing(db: Database, viewer: Viewer, start: Option<ValidCursor>, pageSize: nat)
    returns (following: seq<FeedEntry>)
    requires ValidDatabase(db) && (start.None? || start.value.phase.Following?)
    ensures |following| <= pageSize
    ensures TierItems(db, viewer, FollowingTier(viewer.followed), start, pageSize, following)
  {
    var tier := FetchFollowingTier(db, viewer.followed, start, pageSize);
    following := tier.value;
    TierPageItems(db, viewer, FollowingTier(viewer.followed), start, pageSize, following);
  }

  method HomeBackfill(db: Database, viewer: Viewer, start: Option<ValidCursor>, pageSize: nat)
    returns (backfill: seq<FeedEntry>)
    requires ValidDatabase(db) && (start.None? || start.value.phase.Backfill?)
    ensures TierItems(db, viewer, BackfillTier(Excluded(viewer)), start, pageSize, backfill)
  {
    backfill := [];
    if pageSize > 0 {
      var tier := FetchBackfillTier(db, Excluded(viewer), start, pageSize);
      backfill := tier.value;
      TierPageItems(db, viewer, BackfillTier(Excluded(viewer)), start, pageSize, backfill);
    }
  }

  /** The items of one Home Feed page, tier by tier. */
  method HomeItems(db: Database, viewer: Viewer, start: Option<ValidCursor>, pageSize: nat)
    returns (following: seq<FeedEntry>, backfill: seq<FeedEntry>)
    requires ValidDatabase(db)
    ensures TwoTiers(db, viewer, start, pageSize, following, backfill)
  {
    following, backfill := [], [];
    if start.None? || start.value.phase.Following? {
      following := HomeFollowing(db, viewer, start, pageSize);
      backfill := HomeBackfill(db, viewer, None, pageSize - |following|);
      FromTheTop(db, viewer, start, pageSize, following, backfill);
    } else {
      backfill := HomeBackfill(db, viewer, start, pageSize);
      FromTheBackfill(db, viewer, start, pageSize, backfill);
    }
  }

  lemma FromTheTop(db: Database, viewer: Viewer, start: Option<ValidCursor>, pageSize: nat,
                   following: seq<FeedEntry>, backfill: seq<FeedEntry>)
    requires start.None? || start.value.phase.Following?
    requires |following| <= pageSize
    requires TierItems(db, viewer, FollowingTier(viewer.followed), start, pageSize, following)
    requires TierItems(db, viewer, BackfillTier(Excluded(viewer)), None, pageSize - |following|, backfill)
    ensures TwoTiers(db, viewer, start, pageSize, following, backfill)
  {
  }

  lemma FromTheBackfill(db: Database, viewer: Viewer, start: Option<ValidCursor>, pageSize: nat,
                        backfill: seq<FeedEntry>)
    requires start.Some? && start.value.phase.Backfill?
    requires TierItems(db, viewer, BackfillTier(Excluded(viewer)), start, pageSize, backfill)
    ensures TwoTiers(db, viewer, start, pageSize, [], backfill)
  {
  }

  method GetHomeFeed(codec: Codec, db: Database, viewer: Viewer, cursor: Option<string>, pageSize: int)
    returns (reply: Result<Page<FeedEntry>, FeedError>)
    requires ValidDatabase(db)
    ensures Reply(Home, codec, db, viewer, cursor, pageSize, reply)
  {
    if pageSize <= 0 || pageSize > MAX_PAGE_SIZE {
      return Err(BadPageSize);
    }
    var start := StartOf(codec, cursor);
    if start.Err? {
      return Err(start.error);
    }
    var following, backfill := HomeItems(db, viewer, start.value, pageSize);
    TwoTiersAreOnePage(db, viewer, start.value, pageSize, following, backfill);
    TiersAreShown(db, viewer, following, backfill);
    var next := HomeNext(codec, db, viewer, following, backfill, pageSize);
    reply := Ok(Page(following + backfill, next));
  }

  /** The token of the last item served, in the phase of the tier that served it. */
  method HomeNext(codec: Codec, db: Database, viewer: Viewer, following: seq<FeedEntry>, backfill: seq<FeedEntry>,
                  pageSize: int) returns (next: Option<string>)
    requires ValidDatabase(db) && pageSize > 0
    requires forall i :: 0 <= i < |following + backfill| ==> Shown(db, viewer, Home, (following + backfill)[i])
    requires forall i :: 0 <= i < |following| ==> PhaseFor(viewer, following[i]).Following?
    requires forall i :: 0 <= i < |backfill| ==> PhaseFor(viewer, backfill[i]).Backfill?
    ensures next == NextToken(codec, viewer, following + backfill, pageSize)
  {
    next := None;
    var items := following + backfill;
    if |items| >= pageSize {
      TokenIsNext(codec, db, viewer, items, pageSize);
      if backfill != [] {
        assert items[|items| - 1] == backfill[|backfill| - 1];
        next := Some(codec.encode(ToCursor(backfill[|backfill| - 1], Backfill)));
      } else if following != [] {
        assert items[|items| - 1] == following[|following| - 1];
        next := Some(codec.encode(ToCursor(following[|following| - 1], Following)));
      }
    }
  }

  /** The token a full page carries belongs to its last item and is never missing. */
  lemma {:induction false} TokenIsNext(codec: Codec, db: Database, viewer: Viewer, items: seq<FeedEntry>, pageSize: int)
    requires ValidDatabase(db) && 0 < pageSize <= |items|
    requires forall i :: 0 <= i < |items| ==> Shown(db, viewer, Home, items[i])
    ensures var e := items[|items| - 1];
            && WellFormed(ToCursor(e, PhaseFor(viewer, e))) && 0 < e.obj.id < 0x8000_0000_0000_0000
            && NextToken(codec, viewer, items, pageSize) == Some(codec.encode(ToCursor(e, PhaseFor(viewer, e))))
  {
    var e := items[|items| - 1];
    assert Shown(db, viewer, Home, e);
    var rows := Table(db, e.contentType);
    var i :| 0 <= i < |rows| && rows[i] == e.obj;
  }

  /** Discover is the backfill tier alone. */
  lemma BackfillIsDiscover(db: Database, viewer: Viewer, start: Option<ValidCursor>, pageSize: nat,
                           items: seq<FeedEntry>)
    requires start.Some? ==> start.value.phase.Backfill?
    requires TierPage(db, BackfillTier(Excluded(viewer)), start, pageSize, items)
    ensures FirstAfter(ItemKeys(viewer, items), ScreenKeys(db, viewer, Discover), AfterKey(start), pageSize)
    ensures forall i :: 0 <= i < |items| ==> Shown(db, viewer, Discover, items[i]) && Shown(db, viewer, Home, items[i])
    ensures forall i :: 0 <= i < |items| ==> PhaseFor(viewer, items[i]).Backfill?
  {
    PhasesAgree(db, viewer, items, BackfillTier(Excluded(viewer)));
    TierPageItems(db, viewer, BackfillTier(Excluded(viewer)), start, pageSize, items);
    assert {} + TierKeys(db, BackfillTier(Excluded(viewer))) == TierKeys(db, BackfillTier(Excluded(viewer)));
  }

  method GetDiscoverFeed(codec: Codec, db: Database, viewer: Viewer, cursor: Option<string>, pageSize: int)
    returns (reply: Result<Page<FeedEntry>, FeedError>)
    requires ValidDatabase(db)
    ensures Reply(Discover, codec, db, viewer, cursor, pageSize, reply)
  {
    if pageSize <= 0 || pageSize > MAX_PAGE_SIZE {
      return Err(BadPageSize);
    }
    var start := StartOf(codec, cursor);
    if start.Err? {
      return Err(start.error);
    }
    var decoded := start.value;
    if decoded.Some? && !decoded.value.phase.Backfill? {
      return Err(WrongPhase);
    }
    var tier := FetchBackfillTier(db, Excluded(viewer), decoded, pageSize);
    var items := tier.value;
    BackfillIsDiscover(db, viewer, decoded, pageSize, items);
    var next: Option<string> := None;
    if |items| >= pageSize {
      TokenIsNext(codec, db, viewer, items, pageSize);
      next := Some(codec.encode(ToCursor(items[|items| - 1], Backfill)));
    }
    reply := Ok(Page(items, next));
  }
}
