/** What the Home Feed and Discover show, in which order, said in the fields of the rows alone. */
module FeedFacts {
  import opened Wrappers
  import opened Keyset
  import opened IsoTime
  import opened FeedCursors
  import opened Publication
  import opened Feed
  import opened TokenWalk
  import opened FeedWalk

  // ---- What is shown

  /** A post or reel of its table that has been published, is not deleted and, if a reel, is ready. */
  predicate IsPublished(db: Database, ct: ContentType, row: Row) {
    && (if ct == Post then row in db.posts else row in db.reels)
    && row.status == Published && !row.isDeleted && (ct == Reel ==> row.processing == Ready)
  }

  predicate IsFollowed(viewer: Viewer, e: FeedEntry) {
    e.obj.business in viewer.followed
  }

  /** Home shows what is published by the followed businesses, and both screens what is published by the others but
    * the viewer's own, marked if the business is featured.
    */
  predicate Shows(db: Database, viewer: Viewer, screen: Screen, e: FeedEntry) {
    IsPublished(db, e.contentType, e.obj) &&
    if IsFollowed(viewer, e) then screen == Home && !e.isFeatured
    else viewer.own != Some(e.obj.business) && (e.isFeatured <==> e.obj.business in db.featured)
  }

  lemma ShownInFields(db: Database, viewer: Viewer, screen: Screen, e: FeedEntry)
    ensures Shown(db, viewer, screen, e) <==> Shows(db, viewer, screen, e)
  {
    assert Table(db, e.contentType) == if e.contentType == Post then db.posts else db.reels;
    assert e.obj.business in Excluded(viewer) <==> IsFollowed(viewer, e) || viewer.own == Some(e.obj.business);
  }

  // ---- In which order

  /** Newer first; of one moment reels before posts, and then the higher id. */
  predicate IsNewer(a: FeedEntry, b: FeedEntry) {
    || Earlier(b.obj.createdAt, a.obj.createdAt)
    || (a.obj.createdAt == b.obj.createdAt &&
        (|| (a.contentType == Reel && b.contentType == Post)
         || (a.contentType == b.contentType && a.obj.id > b.obj.id)))
  }

  /** Followed businesses first, then featured ones, then the rest. */
  predicate IsAhead(viewer: Viewer, a: FeedEntry, b: FeedEntry) {
    if IsFollowed(viewer, a) then !IsFollowed(viewer, b) || IsNewer(a, b)
    else !IsFollowed(viewer, b) && if a.isFeatured then !b.isFeatured || IsNewer(a, b)
                                   else !b.isFeatured && IsNewer(a, b)
  }

  /** The item lies behind the one the cursor was made of. */
  predicate IsBehind(viewer: Viewer, c: FeedCursor, e: FeedEntry) {
    var at := FeedEntry(c.contentType, e.obj.(createdAt := c.createdAt, id := c.objectId), e.isFeatured);
    match c.phase
    case Following => !IsFollowed(viewer, e) || IsNewer(at, e)
    case Backfill =>
      !IsFollowed(viewer, e) && if c.isFeatured == Some(true) then !e.isFeatured || IsNewer(at, e)
                                else !e.isFeatured && IsNewer(at, e)
  }

  lemma SameMoment(a: DateTime, b: DateTime)
    ensures Instant(a) == Instant(b) <==> a == b
    ensures Instant(a) > Instant(b) <==> Earlier(b, a)
  {
    InstantOrder(b, a);
    if Instant(a) == Instant(b) {
      InstantInjective(a, b);
    }
  }

  lemma OrderInFields(viewer: Viewer, a: FeedEntry, b: FeedEntry)
    ensures Before(ItemKey(viewer, a), ItemKey(viewer, b)) <==> IsAhead(viewer, a, b)
  {
    SameMoment(a.obj.createdAt, b.obj.createdAt);
  }

  lemma BehindInFields(viewer: Viewer, c: FeedCursor, e: FeedEntry)
    requires WellFormed(c)
    ensures Before(CursorKey(c), ItemKey(viewer, e)) <==> IsBehind(viewer, c, e)
  {
    SameMoment(c.createdAt, e.obj.createdAt);
  }

  // ---- One request

  /** Where the token says to go on: at the top without one. */
  predicate StartsAt(codec: Codec, cursor: Option<string>, start: Option<ValidCursor>) {
    if cursor == None || cursor == Some("") then start == None else start.Some? && codec.decode(cursor.value) == start
  }

  predicate IsLeft(viewer: Viewer, start: Option<ValidCursor>, e: FeedEntry) {
    start.Some? ==> IsBehind(viewer, start.value, e)
  }

  /** The requests that are refused, and no others. */
  lemma RefusedInFields(screen: Screen, codec: Codec, db: Database, viewer: Viewer, cursor: Option<string>,
                        pageSize: int, reply: Result<Page<FeedEntry>, FeedError>)
    requires Reply(screen, codec, db, viewer, cursor, pageSize, reply)
    ensures if pageSize < 1 || pageSize > 50 then reply == Err(BadPageSize)
            else if cursor == None || cursor == Some("") then reply.Ok?
            else
              match codec.decode(cursor.value)
              case None => reply == Err(BadCursor)
              case Some(c) => if screen == Discover && c.phase == Following then reply == Err(WrongPhase) else reply.Ok?
  {
  }

  /** The token of a page is the cursor of its last item. */
  lemma TokenInFields(screen: Screen, codec: Codec, db: Database, viewer: Viewer, cursor: Option<string>,
                      pageSize: int, page: Page<FeedEntry>)
    requires ValidDatabase(db) && Reply(screen, codec, db, viewer, cursor, pageSize, Ok(page))
    ensures |page.items| <= pageSize && (page.next.Some? <==> |page.items| == pageSize)
    ensures page.next.Some? ==>
              var e := page.items[|page.items| - 1];
              var c :=
                if IsFollowed(viewer, e) then FeedCursor(Following, e.obj.createdAt, e.contentType, e.obj.id, None)
                else FeedCursor(Backfill, e.obj.createdAt, e.contentType, e.obj.id, Some(e.isFeatured));
              WellFormed(c) && page.next == Some(codec.encode(c))
  {
    if |page.items| >= pageSize {
      TokenIsNext(codec, db, viewer, page.items, pageSize);
    }
  }

  /** A page holds items the screen shows, in order, and no item left to show that is not on it is ahead of any that
    * is, or missing from a page with room.
    */
  ghost predicate IsPage(db: Database, viewer: Viewer, screen: Screen, start: Option<ValidCursor>, pageSize: int,
                         items: seq<FeedEntry>)
  {
    && (forall i :: 0 <= i < |items| ==> Shows(db, viewer, screen, items[i]) && IsLeft(viewer, start, items[i]))
    && (forall i, j :: 0 <= i < j < |items| ==> IsAhead(viewer, items[i], items[j]))
    && (forall e :: Shows(db, viewer, screen, e) && IsLeft(viewer, start, e) && e !in items ==>
          |items| == pageSize > 0 && IsAhead(viewer, items[pageSize - 1], e))
  }

  lemma ItemIsLeft(viewer: Viewer, start: Option<ValidCursor>, e: FeedEntry)
    ensures Past(AfterKey(start), ItemKey(viewer, e)) <==> IsLeft(viewer, start, e)
  {
    if start.Some? {
      BehindInFields(viewer, start.value, e);
    }
  }

  lemma ItemsAreShown(screen: Screen, codec: Codec, db: Database, viewer: Viewer, cursor: Option<string>,
                      pageSize: int, page: Page<FeedEntry>, start: Option<ValidCursor>)
    requires Reply(screen, codec, db, viewer, cursor, pageSize, Ok(page)) && StartsAt(codec, cursor, start)
    ensures forall i :: 0 <= i < |page.items| ==>
              Shows(db, viewer, screen, page.items[i]) && IsLeft(viewer, start, page.items[i])
    ensures forall i, j :: 0 <= i < j < |page.items| ==> IsAhead(viewer, page.items[i], page.items[j])
  {
    var items, keys := page.items, ItemKeys(viewer, page.items);
    forall i | 0 <= i < |items|
      ensures Shows(db, viewer, screen, items[i]) && IsLeft(viewer, start, items[i])
    {
      assert keys[i] in keys;
      ShownInFields(db, viewer, screen, items[i]);
      ItemIsLeft(viewer, start, items[i]);
    }
    forall i, j | 0 <= i < j < |items|
      ensures IsAhead(viewer, items[i], items[j])
    {
      assert Before(keys[i], keys[j]);
      OrderInFields(viewer, items[i], items[j]);
    }
  }

  lemma LeftOut(screen: Screen, codec: Codec, db: Database, viewer: Viewer, cursor: Option<string>, pageSize: int,
                page: Page<FeedEntry>, start: Option<ValidCursor>, e: FeedEntry)
    requires ValidDatabase(db)
    requires Reply(screen, codec, db, viewer, cursor, pageSize, Ok(page)) && StartsAt(codec, cursor, start)
    requires Shows(db, viewer, screen, e) && IsLeft(viewer, start, e) && e !in page.items
    ensures |page.items| == pageSize > 0 && IsAhead(viewer, page.items[pageSize - 1], e)
  {
    var items, keys := page.items, ItemKeys(viewer, page.items);
    ShownInFields(db, viewer, screen, e);
    ShownKeys(db, viewer, screen, e);
    ItemIsLeft(viewer, start, e);
    forall i | 0 <= i < |items|
      ensures keys[i] != ItemKey(viewer, e)
    {
      OneKeyPerItem(db, viewer, screen, items[i], e);
    }
    OrderInFields(viewer, items[pageSize - 1], e);
  }

  /** What every answered request gives, from the top or from the cursor sent. */
  lemma PageInFields(screen: Screen, codec: Codec, db: Database, viewer: Viewer, cursor: Option<string>,
                     pageSize: int, page: Page<FeedEntry>, start: Option<ValidCursor>)
    requires ValidDatabase(db)
    requires Reply(screen, codec, db, viewer, cursor, pageSize, Ok(page)) && StartsAt(codec, cursor, start)
    ensures 1 <= pageSize <= 50 && |page.items| <= pageSize && IsPage(db, viewer, screen, start, pageSize, page.items)
  {
    ItemsAreShown(screen, codec, db, viewer, cursor, pageSize, page, start);
    forall e | Shows(db, viewer, screen, e) && IsLeft(viewer, start, e) && e !in page.items
      ensures |page.items| == pageSize && IsAhead(viewer, page.items[pageSize - 1], e)
    {
      LeftOut(screen, codec, db, viewer, cursor, pageSize, page, start, e);
    }
  }

  // ---- Whole walks

  lemma AnsweredIsShown(screen: Screen, codec: Codec, viewer: Viewer, visits: seq<FeedVisit>, n: nat, k: nat)
    requires n < |visits| && VisitAt(screen, codec, viewer, visits, n) && k < |visits[n].page.items|
    ensures Shows(visits[n].db, viewer, screen, visits[n].page.items[k])
  {
    ShownInFields(visits[n].db, viewer, screen, visits[n].page.items[k]);
  }

  lemma ServedAreShown(screen: Screen, codec: Codec, viewer: Viewer, visits: seq<FeedVisit>, db: Database, a: nat)
    requires IsFeedWalk(screen, codec, viewer, visits) && a < |ItemsServed(visits)|
    requires forall i :: 0 <= i < |visits| ==> visits[i].db == db
    ensures Shows(db, viewer, screen, ItemsServed(visits)[a])
  {
    var i, k := ServedOnPage(visits, a);
    AnsweredIsShown(screen, codec, viewer, visits, i, k);
  }

  /** On a fixed database a finished walk serves exactly what the screen shows, each item once, in order. */
  lemma FixedWalkInFields(screen: Screen, codec: Codec, viewer: Viewer, visits: seq<FeedVisit>, db: Database)
    requires IsFeedWalk(screen, codec, viewer, visits) && Ended(visits)
    requires forall i :: 0 <= i < |visits| ==> visits[i].db == db
    ensures forall e :: e in ItemsServed(visits) <==> Shows(db, viewer, screen, e)
    ensures forall a, b :: 0 <= a < b < |ItemsServed(visits)| ==>
              IsAhead(viewer, ItemsServed(visits)[a], ItemsServed(visits)[b])
  {
    var items := ItemsServed(visits);
    FeedWalkIsTokenWalk(screen, codec, viewer, visits);
    FixedDatabaseRanking(OrderOf(screen, viewer), visits, db);
    KeysAgree(screen, viewer, items);
    var keys := ItemKeys(viewer, items);
    assert VisitAt(screen, codec, viewer, visits, 0);
    forall a, b | 0 <= a < b < |items|
      ensures IsAhead(viewer, items[a], items[b])
    {
      assert Before(keys[a], keys[b]);
      OrderInFields(viewer, items[a], items[b]);
    }
    forall e
      ensures e in items <==> Shows(db, viewer, screen, e)
    {
      if a: nat :| a < |items| && items[a] == e {
        ServedAreShown(screen, codec, viewer, visits, db, a);
      }
      if Shows(db, viewer, screen, e) {
        ShownInFields(db, viewer, screen, e);
        ShownKeys(db, viewer, screen, e);
        var a :| 0 <= a < |keys| && keys[a] == ItemKey(viewer, e);
        ServedAreShown(screen, codec, viewer, visits, db, a);
        ShownInFields(db, viewer, screen, items[a]);
        OneKeyPerItem(db, viewer, screen, items[a], e);
      }
    }
  }

  predicate SamePost(a: FeedEntry, b: FeedEntry) {
    a.contentType == b.contentType && a.obj.id == b.obj.id
  }

  /** While an item is shown, its creation time, its business's featured flag, and whether that is followed stay. */
  ghost predicate KeepsPlace(screen: Screen, viewer: Viewer, visits: seq<FeedVisit>) {
    forall i, j, a, b :: 0 <= i < |visits| && 0 <= j < |visits| ==>
      (Shows(visits[i].db, viewer, screen, a) && Shows(visits[j].db, viewer, screen, b) && SamePost(a, b) ==>
         SamePlace(viewer, a, b))
  }

  predicate SamePlace(viewer: Viewer, a: FeedEntry, b: FeedEntry) {
    a.obj.createdAt == b.obj.createdAt && a.isFeatured == b.isFeatured && IsFollowed(viewer, a) == IsFollowed(viewer, b)
  }

  lemma PlaceIsStable(screen: Screen, viewer: Viewer, visits: seq<FeedVisit>)
    requires KeepsPlace(screen, viewer, visits)
    ensures Stable(screen, viewer, visits)
  {
    forall i, j, a, b |
      0 <= i < |visits| && 0 <= j < |visits|
      && Shown(visits[i].db, viewer, screen, a) && Shown(visits[j].db, viewer, screen, b) && SameItem(a, b)
      ensures ItemKey(viewer, a) == ItemKey(viewer, b)
    {
      ShownInFields(visits[i].db, viewer, screen, a);
      ShownInFields(visits[j].db, viewer, screen, b);
      assert SamePost(a, b);
      assert SamePlace(viewer, a, b);
    }
  }

  /** Rows may come and go between the requests of a walk: nothing is served twice, and what is shown at every request
    * of a finished walk is served.
    */
  lemma ChangingWalkInFields(screen: Screen, codec: Codec, viewer: Viewer, visits: seq<FeedVisit>)
    requires IsFeedWalk(screen, codec, viewer, visits) && KeepsPlace(screen, viewer, visits)
    ensures forall a, b :: 0 <= a < b < |ItemsServed(visits)| ==>
              !SamePost(ItemsServed(visits)[a], ItemsServed(visits)[b])
              && IsAhead(viewer, ItemsServed(visits)[a], ItemsServed(visits)[b])
  {
    PlaceIsStable(screen, viewer, visits);
    forall a, b | 0 <= a < b < |ItemsServed(visits)|
      ensures !SamePost(ItemsServed(visits)[a], ItemsServed(visits)[b])
              && IsAhead(viewer, ItemsServed(visits)[a], ItemsServed(visits)[b])
    {
      NothingServedTwice(screen, codec, viewer, visits, a, b);
      OrderInFields(viewer, ItemsServed(visits)[a], ItemsServed(visits)[b]);
    }
  }

  lemma AlwaysShownIsServed(screen: Screen, codec: Codec, viewer: Viewer, visits: seq<FeedVisit>,
                            shown: seq<FeedEntry>) returns (a: nat)
    requires IsFeedWalk(screen, codec, viewer, visits) && KeepsPlace(screen, viewer, visits) && Ended(visits)
    requires |shown| == |visits|
    requires forall i :: 0 <= i < |visits| ==> Shows(visits[i].db, viewer, screen, shown[i])
    requires forall i :: 0 <= i < |visits| ==> SamePost(shown[i], shown[0])
    ensures a < |ItemsServed(visits)| && SamePost(ItemsServed(visits)[a], shown[0])
  {
    PlaceIsStable(screen, viewer, visits);
    forall i | 0 <= i < |visits|
      ensures Shown(visits[i].db, viewer, screen, shown[i]) && SameItem(shown[i], shown[0])
    {
      ShownInFields(visits[i].db, viewer, screen, shown[i]);
      assert SamePost(shown[i], shown[0]);
    }
    a := NothingMissed(screen, codec, viewer, visits, shown);
  }
}
