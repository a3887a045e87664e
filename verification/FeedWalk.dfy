/** Whole walks through the Home Feed and Discover, with rows appearing and disappearing on the way. */
module FeedWalk {
  import opened Wrappers
  import opened Keyset
  import KeysetWalk
  import opened TokenWalk
  import opened FeedCursors
  import opened Feed

  type FeedVisit = Visit<Database, FeedEntry>

  /** The one order behind both tiers and both tables. */
  ghost function OrderOf(screen: Screen, viewer: Viewer): Order<Database, FeedEntry> {
    Order(e => ItemKey(viewer, e), db => ScreenKeys(db, viewer, screen))
  }

  /** A request the service answered. */
  ghost predicate Answered(screen: Screen, codec: Codec, viewer: Viewer, v: FeedVisit) {
    ValidDatabase(v.db) && Reply(screen, codec, v.db, viewer, v.cursor, v.pageSize, Ok(v.page))
  }

  ghost predicate VisitAt(screen: Screen, codec: Codec, viewer: Viewer, visits: seq<FeedVisit>, i: nat)
    requires i < |visits|
  {
    Answered(screen, codec, viewer, visits[i]) && Linked(visits, i)
  }

  ghost predicate IsFeedWalk(screen: Screen, codec: Codec, viewer: Viewer, visits: seq<FeedVisit>) {
    Lawful(codec) && forall i :: 0 <= i < |visits| ==> VisitAt(screen, codec, viewer, visits, i)
  }

  /** A full page is resumed exactly after its last item: the token survives its round trip. */
  lemma TokenResumesAfterLast(screen: Screen, codec: Codec, viewer: Viewer, v: FeedVisit)
    requires Lawful(codec) && Answered(screen, codec, viewer, v)
    requires v.page.next.Some?
    ensures 0 < v.pageSize <= |v.page.items|
    ensures var k := ItemKey(viewer, v.page.items[|v.page.items| - 1]);
            var start := StartOf(codec, v.page.next);
            start.Ok? && start.value.Some? && CursorKey(start.value.value) == k
  {
    var items := v.page.items;
    var e := items[|items| - 1];
    TokenIsNext(codec, v.db, viewer, items, v.pageSize);
    assert Shown(v.db, viewer, screen, e);
  }

  lemma FullUnlessEnd(screen: Screen, codec: Codec, viewer: Viewer, v: FeedVisit)
    requires Answered(screen, codec, viewer, v)
    ensures 0 < v.pageSize <= MAX_PAGE_SIZE
    ensures v.page.next.Some? <==> v.pageSize <= |v.page.items|
  {
    if v.pageSize <= |v.page.items| {
      TokenIsNext(codec, v.db, viewer, v.page.items, v.pageSize);
    }
  }

  /** One answered request is one keyset page, resumed where its cursor says. */
  lemma AnsweredIsKeysetPage(screen: Screen, codec: Codec, viewer: Viewer, v: FeedVisit, start: Option<ValidCursor>)
    requires Answered(screen, codec, viewer, v) && StartOf(codec, v.cursor) == Ok(start)
    ensures 0 < v.pageSize <= MAX_PAGE_SIZE
    ensures FirstAfter(ItemKeys(viewer, v.page.items), ScreenKeys(v.db, viewer, screen), AfterKey(start), v.pageSize)
  {
  }

  lemma KeysAgree(screen: Screen, viewer: Viewer, items: seq<FeedEntry>)
    ensures KeysIn(OrderOf(screen, viewer), items) == ItemKeys(viewer, items)
  {
  }

  lemma AnsweredTurn(screen: Screen, codec: Codec, viewer: Viewer, visits: seq<FeedVisit>, i: nat)
    requires i < |visits| && Lawful(codec) && VisitAt(screen, codec, viewer, visits, i)
    requires i > 0 ==> VisitAt(screen, codec, viewer, visits, i - 1)
    ensures TurnAt(OrderOf(screen, viewer), visits, i)
  {
    var v := visits[i];
    KeysAgree(screen, viewer, v.page.items);
    FullUnlessEnd(screen, codec, viewer, v);
    if i > 0 {
      TokenResumesAfterLast(screen, codec, viewer, visits[i - 1]);
      AnsweredIsKeysetPage(screen, codec, viewer, v, StartOf(codec, v.cursor).value);
    } else {
      AnsweredIsKeysetPage(screen, codec, viewer, v, None);
    }
  }

  /** Every feed walk is a walk over one order, although two tiers and two tables are involved. */
  lemma FeedWalkIsTokenWalk(screen: Screen, codec: Codec, viewer: Viewer, visits: seq<FeedVisit>)
    requires IsFeedWalk(screen, codec, viewer, visits)
    ensures IsTokenWalk(OrderOf(screen, viewer), visits)
  {
    forall i | 0 <= i < |visits|
      ensures TurnAt(OrderOf(screen, viewer), visits, i)
    {
      assert VisitAt(screen, codec, viewer, visits, i);
      assert i > 0 ==> VisitAt(screen, codec, viewer, visits, i - 1);
      AnsweredTurn(screen, codec, viewer, visits, i);
    }
  }

  // ---- Rows come and go

  /** What identifies an item to the client. */
  predicate SameItem(a: FeedEntry, b: FeedEntry) {
    a.contentType == b.contentType && a.obj.id == b.obj.id
  }

  /** While an item exists, its business, its creation time and its business's featured flag do not
    * change.  Everything else about the databases is free: rows come and go between requests.
    */
  ghost predicate Stable(screen: Screen, viewer: Viewer, visits: seq<FeedVisit>) {
    forall i, j, a, b :: 0 <= i < |visits| && 0 <= j < |visits| ==>
      (Shown(visits[i].db, viewer, screen, a) && Shown(visits[j].db, viewer, screen, b) && SameItem(a, b) ==>
         ItemKey(viewer, a) == ItemKey(viewer, b))
  }

  lemma ShownKeys(db: Database, viewer: Viewer, screen: Screen, e: FeedEntry)
    requires Shown(db, viewer, screen, e)
    ensures ItemKey(viewer, e) in ScreenKeys(db, viewer, screen)
  {
    if screen.Home? && Genuine(db, FollowingTier(viewer.followed), e) {
      assert KeyOf(db, FollowingTier(viewer.followed), e.contentType, e.obj) == ItemKey(viewer, e);
    } else {
      assert KeyOf(db, BackfillTier(Excluded(viewer)), e.contentType, e.obj) == ItemKey(viewer, e);
    }
  }

  /** Every key of the screen is the key of an item it shows. */
  lemma KeyIsShown(db: Database, viewer: Viewer, screen: Screen, k: Key) returns (e: FeedEntry)
    requires k in ScreenKeys(db, viewer, screen)
    ensures Shown(db, viewer, screen, e) && ItemKey(viewer, e) == k
  {
    var tier :=
      if screen.Home? && k in TierKeys(db, FollowingTier(viewer.followed)) then FollowingTier(viewer.followed)
      else BackfillTier(Excluded(viewer));
    var ct := if k in TableKeys(db, tier, Post) then Post else Reel;
    var row :| row in Table(db, ct) && InTier(tier, ct, row) && KeyOf(db, tier, ct, row) == k;
    e := EntryOf(db, tier, ct, row);
  }

  /** The screen has one key for each item it shows, so its keys count its items. */
  lemma OneKeyPerItem(db: Database, viewer: Viewer, screen: Screen, a: FeedEntry, b: FeedEntry)
    requires ValidDatabase(db) && Shown(db, viewer, screen, a) && Shown(db, viewer, screen, b)
    ensures ItemKey(viewer, a) == ItemKey(viewer, b) <==> a == b
  {
    if ItemKey(viewer, a) == ItemKey(viewer, b) {
      var rows := Table(db, a.contentType);
      var i :| 0 <= i < |rows| && rows[i] == a.obj;
      var j :| 0 <= j < |rows| && rows[j] == b.obj;
      assert a.obj == b.obj;
    }
  }

  lemma KeysAreStable(screen: Screen, viewer: Viewer, visits: seq<FeedVisit>)
    requires Stable(screen, viewer, visits)
    ensures KeysetWalk.Stable(Requests(OrderOf(screen, viewer), visits))
  {
    var w := Requests(OrderOf(screen, viewer), visits);
    forall i, j, k, l |
      0 <= i < |w| && 0 <= j < |w| && k in w[i].rows && l in w[j].rows && KeysetWalk.SameRow(k, l)
      ensures k == l
    {
      var a := KeyIsShown(visits[i].db, viewer, screen, k);
      var b := KeyIsShown(visits[j].db, viewer, screen, l);
      assert SameItem(a, b);
    }
  }

  /** No walk serves an item twice. */
  lemma NothingServedTwice(screen: Screen, codec: Codec, viewer: Viewer, visits: seq<FeedVisit>, a: nat, b: nat)
    requires IsFeedWalk(screen, codec, viewer, visits) && Stable(screen, viewer, visits)
    requires a < b < |ItemsServed(visits)|
    ensures !SameItem(ItemsServed(visits)[a], ItemsServed(visits)[b])
    ensures Before(ItemKey(viewer, ItemsServed(visits)[a]), ItemKey(viewer, ItemsServed(visits)[b]))
  {
    FeedWalkIsTokenWalk(screen, codec, viewer, visits);
    KeysAreStable(screen, viewer, visits);
    NoItemTwice(OrderOf(screen, viewer), visits, a, b);
  }

  /** An item that is visible at every request of a walk that reached the end was served. */
  lemma NothingMissed(screen: Screen, codec: Codec, viewer: Viewer, visits: seq<FeedVisit>, shown: seq<FeedEntry>)
    returns (a: nat)
    requires IsFeedWalk(screen, codec, viewer, visits) && Stable(screen, viewer, visits) && Ended(visits)
    requires |shown| == |visits|
    requires forall i :: 0 <= i < |visits| ==> Shown(visits[i].db, viewer, screen, shown[i])
    requires forall i :: 0 <= i < |visits| ==> SameItem(shown[i], shown[0])
    ensures a < |ItemsServed(visits)| && SameItem(ItemsServed(visits)[a], shown[0])
  {
    var keys := ItemKeys(viewer, shown);
    FeedWalkIsTokenWalk(screen, codec, viewer, visits);
    KeysAreStable(screen, viewer, visits);
    forall i | 0 <= i < |visits|
      ensures keys[i] in ScreenKeys(visits[i].db, viewer, screen) && KeysetWalk.SameRow(keys[i], keys[0])
    {
      ShownKeys(visits[i].db, viewer, screen, shown[i]);
      assert SameItem(shown[i], shown[0]);
    }
    a := NoItemMissed(OrderOf(screen, viewer), visits, keys);
    KeyTellsItem(viewer, ItemsServed(visits)[a], shown[0]);
  }

  lemma KeyTellsItem(viewer: Viewer, a: FeedEntry, b: FeedEntry)
    requires ItemKey(viewer, a) == ItemKey(viewer, b)
    ensures SameItem(a, b)
  {
  }

  // ---- A fixed database

  /** The rankings of both tiers, one after the other, are the ranking of the screen. */
  lemma TiersRankScreen(db: Database, viewer: Viewer, screen: Screen, f: seq<Key>, b: seq<Key>)
    requires Ranks(f, if screen.Home? then TierKeys(db, FollowingTier(viewer.followed)) else {})
    requires Ranks(b, TierKeys(db, BackfillTier(Excluded(viewer))))
    ensures Ranks(f + b, ScreenKeys(db, viewer, screen))
  {
    FollowingBeforeBackfill(db, viewer);
    assert forall k :: k in f + b <==> k in f || k in b;
    forall i, j | 0 <= i < j < |f + b|
      ensures Before((f + b)[i], (f + b)[j])
    {
      assert i < |f| ==> f[i] in f;
      assert j >= |f| ==> b[j - |f|] in b;
    }
  }

  /** On a fixed database a finished walk serves exactly the ranking of everything the screen shows:
    * the followed items newest first, then the rest Featured-first.
    */
  lemma FixedDatabaseWalk(screen: Screen, codec: Codec, viewer: Viewer, visits: seq<FeedVisit>, db: Database,
                          f: seq<Key>, b: seq<Key>)
    requires IsFeedWalk(screen, codec, viewer, visits) && Ended(visits)
    requires forall i :: 0 <= i < |visits| ==> visits[i].db == db
    requires Ranks(f, if screen.Home? then TierKeys(db, FollowingTier(viewer.followed)) else {})
    requires Ranks(b, TierKeys(db, BackfillTier(Excluded(viewer))))
    ensures ItemKeys(viewer, ItemsServed(visits)) == f + b
  {
    FeedWalkIsTokenWalk(screen, codec, viewer, visits);
    FixedDatabaseRanking(OrderOf(screen, viewer), visits, db);
    KeysAgree(screen, viewer, ItemsServed(visits));
    TiersRankScreen(db, viewer, screen, f, b);
    RankingUnique(ItemKeys(viewer, ItemsServed(visits)), f + b, ScreenKeys(db, viewer, screen));
  }

  /** On a fixed database where the screen shows `n` items, with pages of `p`: no walk gets beyond `n / p + 1`
    * pages, and it reaches the end exactly on that one.
    */
  lemma PagesNeeded(screen: Screen, codec: Codec, viewer: Viewer, visits: seq<FeedVisit>, db: Database, p: nat)
    requires IsFeedWalk(screen, codec, viewer, visits) && visits != []
    requires forall i :: 0 <= i < |visits| ==> visits[i].db == db && visits[i].pageSize == p
    ensures p > 0 && |visits| <= |ScreenKeys(db, viewer, screen)| / p + 1
    ensures Ended(visits) <==> |visits| == |ScreenKeys(db, viewer, screen)| / p + 1
  {
    FeedWalkIsTokenWalk(screen, codec, viewer, visits);
    PageCount(OrderOf(screen, viewer), visits, db, p);
  }
}
