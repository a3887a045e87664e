/** Featured subscriptions and the flag that mirrors them, one service call at a time. */
module Subscriptions {
  import opened Wrappers

  const SECONDS_PER_DAY := 86400

  /** Times are seconds. */
  datatype Sub = Sub(business: int, plan: int, startsAt: int, expiresAt: int, active: bool)

  /** The subscription rows by primary key, and `is_featured` of every business. */
  datatype Db = Db(subs: map<nat, Sub>, featured: map<int, bool>)

  // ---- What every committed state satisfies

  predicate ActiveRow(db: Db, k: nat, b: int) {
    k in db.subs && db.subs[k].business == b && db.subs[k].active
  }

  predicate HasActive(subs: map<nat, Sub>, b: int) {
    exists k :: k in subs && subs[k].business == b && subs[k].active
  }

  /** The constraint uniq_active_featured_per_biz. */
  ghost predicate OneActive(db: Db) {
    forall i, j, b :: ActiveRow(db, i, b) && ActiveRow(db, j, b) ==> i == j
  }

  ghost predicate Newest(subs: map<nat, Sub>, i: nat) {
    i in subs && forall j :: j in subs && subs[j].business == subs[i].business ==> j <= i
  }

  ghost predicate ActiveIsNewest(subs: map<nat, Sub>) {
    forall i :: i in subs && subs[i].active ==> Newest(subs, i)
  }

  ghost predicate FlagsMirror(db: Db) {
    && (forall k :: k in db.subs ==> db.subs[k].business in db.featured)
    && (forall b :: b in db.featured ==> (db.featured[b] <==> HasActive(db.subs, b)))
  }

  ghost predicate Consistent(db: Db) {
    ActiveIsNewest(db.subs) && FlagsMirror(db)
  }

  lemma {:induction false} ConsistentHasOneActive(db: Db)
    requires Consistent(db)
    ensures OneActive(db)
  {
    forall i, j, b | ActiveRow(db, i, b) && ActiveRow(db, j, b)
      ensures i == j
    {
      assert Newest(db.subs, i) && Newest(db.subs, j);
    }
  }

  /** A row keeps everything except that it may be deactivated. */
  predicate RowKept(a: Sub, b: Sub) {
    b == a || (a.active && b == a.(active := false))
  }

  ghost predicate NoRowLost(db: Db, db': Db) {
    forall k :: k in db.subs ==> k in db'.subs && RowKept(db.subs[k], db'.subs[k])
  }

  // ---- The two services

  function Deactivated(subs: map<nat, Sub>, ids: set<nat>): map<nat, Sub> {
    map k | k in subs && k in ids && subs[k].active :: subs[k].(active := false)
  }

  function WithDeactivated(subs: map<nat, Sub>, ids: set<nat>): (r: map<nat, Sub>)
    ensures r.Keys == subs.Keys
    ensures forall k :: k in subs ==> r[k] == if k in ids then subs[k].(active := false) else subs[k]
  {
    subs + Deactivated(subs, ids)
  }

  function ActiveOf(subs: map<nat, Sub>, b: int): set<nat> {
    set k | k in subs && subs[k].business == b && subs[k].active
  }

  /** The row `FeaturedSubscription.save()` stores on creation. */
  function NewSub(b: int, plan: int, days: nat, now: int): Sub {
    Sub(b, plan, now, now + days * SECONDS_PER_DAY, true)
  }

  /** The flags of the businesses `bs`, recomputed from the rows. */
  function Mirrored(db: Db, bs: set<int>): map<int, bool> {
    map b | b in bs && b in db.featured :: HasActive(db.subs, b)
  }

  function Synced(db: Db, bs: set<int>): Db {
    Db(db.subs, db.featured + Mirrored(db, bs))
  }

  /** Setting the flags of one part of the businesses and clearing those of the rest. */
  lemma TwoUpdates(db: Db, bs: set<int>, featuredIds: set<int>)
    requires featuredIds <= bs && forall b :: b in bs ==> (b in featuredIds <==> HasActive(db.subs, b))
    ensures var set1 := db.featured + map b | b in featuredIds && b in db.featured :: true;
            set1 + (map b | b in bs - featuredIds && b in set1 :: false) == db.featured + Mirrored(db, bs)
  {
  }

  function BusinessesOf(subs: map<nat, Sub>, ids: set<nat>): set<int> {
    set k | k in ids && k in subs :: subs[k].business
  }

  /** A new purchase replaces the active one. */
  function Activate(db: Db, b: int, plan: int, days: nat, now: int, pk: nat): Db {
    Synced(Db(WithDeactivated(db.subs, ActiveOf(db.subs, b))[pk := NewSub(b, plan, days, now)], db.featured), {b})
  }

  /** The active rows among `ids` are deactivated. */
  function Deactivate(db: Db, ids: set<nat>): Db {
    Synced(Db(WithDeactivated(db.subs, ids), db.featured),
           BusinessesOf(db.subs, Deactivated(db.subs, ids).Keys))
  }

  /** The rows of other businesses do not count. */
  lemma SameActive(subs: map<nat, Sub>, subs': map<nat, Sub>, b: int)
    requires forall k :: k in subs && subs[k].business == b ==> k in subs' && subs'[k] == subs[k]
    requires forall k :: k in subs' && subs'[k].business == b ==> k in subs && subs'[k] == subs[k]
    ensures HasActive(subs, b) == HasActive(subs', b)
  {
    if HasActive(subs, b) {
      var k :| k in subs && subs[k].business == b && subs[k].active;
      assert subs'[k].active;
    }
    if HasActive(subs', b) {
      var k :| k in subs' && subs'[k].business == b && subs'[k].active;
      assert subs[k].active;
    }
  }

  /** Recomputing the flags of every business whose rows changed makes all flags right. */
  lemma {:induction false} SyncRepairsFlags(db: Db, subs': map<nat, Sub>, bs: set<int>)
    requires FlagsMirror(db) && forall k :: k in subs' ==> subs'[k].business in db.featured
    requires forall k :: k in db.subs && db.subs[k].business !in bs ==> k in subs' && subs'[k] == db.subs[k]
    requires forall k :: k in subs' && subs'[k].business !in bs ==> k in db.subs && subs'[k] == db.subs[k]
    ensures FlagsMirror(Synced(Db(subs', db.featured), bs))
  {
    forall b | b in db.featured && b !in bs
      ensures HasActive(db.subs, b) == HasActive(subs', b)
    {
      SameActive(db.subs, subs', b);
    }
  }

  /** Activation keeps the tables consistent, loses no row, and leaves the new row active. */
  lemma {:induction false} ActivateKeepsConsistent(db: Db, b: int, plan: int, days: nat, now: int, pk: nat)
    requires Consistent(db) && b in db.featured && pk !in db.subs
    requires forall k :: k in db.subs && db.subs[k].business == b ==> k < pk
    ensures Consistent(Activate(db, b, plan, days, now, pk)) && NoRowLost(db, Activate(db, b, plan, days, now, pk))
    ensures ActiveRow(Activate(db, b, plan, days, now, pk), pk, b) && Activate(db, b, plan, days, now, pk).featured[b]
  {
    var subs' := Activate(db, b, plan, days, now, pk).subs;
    assert HasActive(subs', b) by {
      assert subs'[pk].active;
    }
    forall i | i in subs' && subs'[i].active
      ensures Newest(subs', i)
    {
      assert i != pk ==> Newest(db.subs, i);
    }
    SyncRepairsFlags(db, subs', {b});
  }

  lemma DeactivatedKeepsNewest(subs: map<nat, Sub>, ids: set<nat>)
    requires ActiveIsNewest(subs)
    ensures ActiveIsNewest(WithDeactivated(subs, ids))
  {
    var r := WithDeactivated(subs, ids);
    forall i | i in r && r[i].active
      ensures Newest(r, i)
    {
      assert Newest(subs, i);
      assert forall j :: j in r ==> r[j].business == subs[j].business;
    }
  }

  lemma DeactivatedElsewhere(subs: map<nat, Sub>, ids: set<nat>, k: nat)
    requires k in subs && subs[k].business !in BusinessesOf(subs, Deactivated(subs, ids).Keys)
    ensures WithDeactivated(subs, ids)[k] == subs[k]
  {
    assert k !in Deactivated(subs, ids).Keys;
  }

  /** Deactivation keeps the tables consistent, loses no row, and deactivates exactly the rows asked for. */
  lemma {:induction false} DeactivateKeepsConsistent(db: Db, ids: set<nat>)
    requires Consistent(db)
    ensures Consistent(Deactivate(db, ids)) && NoRowLost(db, Deactivate(db, ids))
    ensures Deactivate(db, ids).subs.Keys == db.subs.Keys
    ensures forall k :: k in db.subs ==>
              Deactivate(db, ids).subs[k] == if k in ids then db.subs[k].(active := false) else db.subs[k]
  {
    var r, bs := WithDeactivated(db.subs, ids), BusinessesOf(db.subs, Deactivated(db.subs, ids).Keys);
    DeactivatedKeepsNewest(db.subs, ids);
    forall k | k in db.subs && db.subs[k].business !in bs
      ensures r[k] == db.subs[k]
    {
      DeactivatedElsewhere(db.subs, ids, k);
    }
    SyncRepairsFlags(db, r, bs);
  }

  lemma NothingToDeactivate(db: Db, ids: set<nat>)
    requires Deactivated(db.subs, ids).Keys == {}
    ensures Deactivate(db, ids) == db
  {
    assert Deactivated(db.subs, ids) == map[];
    assert BusinessesOf(db.subs, {}) == {};
    assert Mirrored(db, {}) == map[];
  }

  /** The rows the daily expiry job hands over. */
  function ExpiredRows(db: Db, now: int): set<nat> {
    set k | k in db.subs && db.subs[k].active && db.subs[k].expiresAt <= now
  }

  /** After the expiry job no active row has expired, the others are as they were, and running it again
    * finds nothing.
    */
  lemma {:induction false} ExpiryIsExact(db: Db, now: int)
    requires Consistent(db)
    ensures var db' := Deactivate(db, ExpiredRows(db, now));
            && Consistent(db') && NoRowLost(db, db')
            && (forall k :: k in db.subs && (db.subs[k].expiresAt > now || !db.subs[k].active) ==>
                  db'.subs[k] == db.subs[k])
            && ExpiredRows(db', now) == {} && Deactivate(db', ExpiredRows(db', now)) == db'
  {
    var db' := Deactivate(db, ExpiredRows(db, now));
    DeactivateKeepsConsistent(db, ExpiredRows(db, now));
    assert ExpiredRows(db', now) == {};
    assert Deactivated(db'.subs, {}) == map[];
    NothingToDeactivate(db', {});
  }

  // ---- The services as they run, undisturbed

  /** The instance a caller passes in. */
  class Business {
    const pk: int
    var isFeatured: bool

    constructor (pk: int, isFeatured: bool)
      ensures this.pk == pk && this.isFeatured == isFeatured
    {
      this.pk, this.isFeatured := pk, isFeatured;
    }
  }

  class SubscriptionStore {
    var subs: map<nat, Sub>
    var featured: map<int, bool>
    var nextPk: nat

    ghost function Contents(): Db
      reads this
    {
      Db(subs, featured)
    }

    constructor ()
      ensures Contents() == Db(map[], map[]) && nextPk == 0
    {
      subs, featured, nextPk := map[], map[], 0;
    }

    /** `_sync_business_featured_flag` */
    method SyncBusinessFeaturedFlag(bs: set<int>)
      modifies this`featured
      ensures Contents() == Synced(old(Contents()), bs)
    {
      ghost var before := Contents();
      if bs == {} {
        assert Mirrored(before, bs) == map[];
        return;
      }
      var featuredIds := set k | k in subs && subs[k].business in bs && subs[k].active :: subs[k].business;
      featured := featured + map b | b in featuredIds && b in featured :: true;
      featured := featured + map b | b in bs - featuredIds && b in featured :: false;
      assert forall b :: b in bs ==> (b in featuredIds <==> HasActive(subs, b));
      assert featured == before.featured + Mirrored(before, bs) by {
        TwoUpdates(before, bs, featuredIds);
      }
    }

    /** None if the business does not exist; else the primary key of the new row. */
    method ActivateSubscription(business: Business, plan: int, days: nat, now: int) returns (pk: Option<nat>)
      modifies this, business
      ensures pk == if business.pk in old(featured) then Some(old(nextPk)) else None
      ensures pk.Some? ==> Contents() == Activate(old(Contents()), business.pk, plan, days, now, pk.value)
                           && nextPk == pk.value + 1 && business.isFeatured
      ensures pk.None? ==> unchanged(this) && unchanged(business)
    {
      if business.pk !in featured {
        return None;
      }
      subs := subs + Deactivated(subs, ActiveOf(subs, business.pk));
      pk := Some(nextPk);
      subs := subs[nextPk := NewSub(business.pk, plan, days, now)];
      nextPk := nextPk + 1;
      SyncBusinessFeaturedFlag({business.pk});
      business.isFeatured := true;
    }

    /** Returns how many rows were deactivated. */
    method DeactivateSubscriptions(matching: set<nat>) returns (updated: nat)
      modifies this`subs, this`featured
      ensures Contents() == Deactivate(old(Contents()), matching)
      ensures updated == |set k | k in old(subs) && k in matching && old(subs)[k].active|
    {
      var ids := set k | k in subs && k in matching && subs[k].active;
      assert ids == Deactivated(subs, matching).Keys;
      assert ids == set k | k in old(subs) && k in matching && old(subs)[k].active;
      if ids == {} {
        NothingToDeactivate(Contents(), matching);
        return 0;
      }
      var bs := BusinessesOf(subs, ids);
      assert Deactivated(subs, ids) == Deactivated(subs, matching);
      updated := |Deactivated(subs, ids)|;
      assert |Deactivated(subs, ids)| == |Deactivated(subs, ids).Keys| == |ids|;
      subs := subs + Deactivated(subs, ids);
      SyncBusinessFeaturedFlag(bs);
    }

    /** The daily expiry job. */
    method ExpireFeaturedSubscriptions(now: int) returns (updated: nat)
      modifies this`subs, this`featured
      ensures Contents() == Deactivate(old(Contents()), ExpiredRows(old(Contents()), now))
      ensures updated == |ExpiredRows(old(Contents()), now)|
    {
      var expired := ExpiredRows(Db(subs, featured), now);
      assert expired == set k | k in subs && k in expired && subs[k].active;
      updated := DeactivateSubscriptions(expired);
    }
  }
}
