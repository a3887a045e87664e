/** What the subscription services do, said in the fields of the rows and the flags alone. */
module SubscriptionFacts {
  import opened Subscriptions
  import opened SubscriptionRuns

  // ---- Consistent tables

  ghost predicate IsFeatured(subs: map<nat, Sub>, b: int) {
    exists k :: k in subs && subs[k].business == b && subs[k].active
  }

  /** Every row's business exists, and a business is flagged exactly if it has an active row. */
  ghost predicate FlagsAreRight(db: Db) {
    && (forall k :: k in db.subs ==> db.subs[k].business in db.featured)
    && (forall b :: b in db.featured ==> (db.featured[b] <==> IsFeatured(db.subs, b)))
  }

  /** Of the rows of one business only the newest can be active. */
  ghost predicate OnlyNewestActive(db: Db) {
    forall i, j :: i in db.subs && j in db.subs && db.subs[i].business == db.subs[j].business && i < j ==>
      !db.subs[i].active
  }

  lemma ConsistentInFields(db: Db)
    ensures Consistent(db) <==> FlagsAreRight(db) && OnlyNewestActive(db)
  {
    if Consistent(db) {
      forall i, j | i in db.subs && j in db.subs && db.subs[i].business == db.subs[j].business && i < j
        ensures !db.subs[i].active
      {
        assert db.subs[i].active ==> Newest(db.subs, i);
      }
    }
    assert forall b :: HasActive(db.subs, b) <==> IsFeatured(db.subs, b);
  }

  /** After every interleaving. */
  lemma RunsInFields(steps: seq<Step>)
    requires Run(steps).Some?
    ensures FlagsAreRight(Run(steps).value.db) && OnlyNewestActive(Run(steps).value.db)
  {
    RunsAreConsistent(steps);
    ConsistentInFields(Run(steps).value.db);
  }

  /** A row committed at some point of a run is there for good, with its business, plan and dates, and never becomes
    * active again.
    */
  lemma RowsStay(steps: seq<Step>, n: nat, k: nat)
    requires n <= |steps| && Run(steps).Some? && Run(steps[..n]).Some? && k in Run(steps[..n]).value.db.subs
    ensures k in Run(steps).value.db.subs
    ensures var before, after := Run(steps[..n]).value.db.subs[k], Run(steps).value.db.subs[k];
            after == Sub(before.business, before.plan, before.startsAt, before.expiresAt, after.active)
            && (after.active ==> before.active)
  {
    RunsLoseNothing(steps, n);
  }

  // ---- One call

  /** A purchase of `days` days at `now`: the new row with its dates, no other active row of the business, the flag, and
    * nothing else.
    */
  lemma ActivationInFields(db: Db, b: int, plan: int, days: nat, now: int, pk: nat)
    requires b in db.featured && pk !in db.subs
    ensures var db' := Activate(db, b, plan, days, now, pk);
            && db'.subs.Keys == db.subs.Keys + {pk}
            && db'.subs[pk] == Sub(b, plan, now, now + 86400 * days, true)
            && (forall k :: k in db.subs ==>
                  db'.subs[k] == if db.subs[k].business == b then db.subs[k].(active := false) else db.subs[k])
            && db'.featured == db.featured[b := true]
  {
    var db' := Activate(db, b, plan, days, now, pk);
    assert db'.subs[pk].active;
    assert HasActive(db'.subs, b);
  }

  lemma DeactivationInFields(db: Db, ids: set<nat>)
    requires FlagsAreRight(db) && OnlyNewestActive(db)
    ensures var db' := Deactivate(db, ids);
            && db'.subs.Keys == db.subs.Keys && db'.featured.Keys == db.featured.Keys
            && (forall k :: k in db.subs ==>
                  db'.subs[k] == if k in ids then db.subs[k].(active := false) else db.subs[k])
            && (forall b :: b in db.featured ==>
                  (db'.featured[b] <==>
                     exists k :: k in db.subs && db.subs[k].business == b && db.subs[k].active && k !in ids))
  {
    var db' := Deactivate(db, ids);
    ConsistentInFields(db);
    DeactivateKeepsConsistent(db, ids);
    ConsistentInFields(db');
    TouchesOnly(db, ids);
    forall b | b in db.featured
      ensures db'.featured[b] <==>
                exists k :: k in db.subs && db.subs[k].business == b && db.subs[k].active && k !in ids
    {
      if db'.featured[b] {
        var k :| k in db'.subs && db'.subs[k].business == b && db'.subs[k].active;
        assert k in db.subs && db.subs[k].business == b && db.subs[k].active && k !in ids;
      }
      if k :| k in db.subs && db.subs[k].business == b && db.subs[k].active && k !in ids {
        assert db'.subs[k].business == b && db'.subs[k].active;
      }
    }
  }

  /** The expiry job at `now` ends exactly the rows that expire by then, and leaves a business flagged exactly if it
    * has an active row that does not.
    */
  lemma ExpiryInFields(db: Db, now: int)
    requires FlagsAreRight(db) && OnlyNewestActive(db)
    ensures var db' := Deactivate(db, ExpiredRows(db, now));
            && db'.subs.Keys == db.subs.Keys && db'.featured.Keys == db.featured.Keys
            && (forall k :: k in db.subs ==>
                  var row := db.subs[k];
                  db'.subs[k] == Sub(row.business, row.plan, row.startsAt, row.expiresAt,
                                     row.active && now < row.expiresAt))
            && (forall b :: b in db.featured ==>
                  (db'.featured[b] <==>
                     exists k :: k in db.subs && db.subs[k].business == b && db.subs[k].active
                                 && now < db.subs[k].expiresAt))
  {
    var ids := ExpiredRows(db, now);
    DeactivationInFields(db, ids);
    assert forall k :: k in db.subs && db.subs[k].active ==> (k !in ids <==> now < db.subs[k].expiresAt);
  }

  lemma OnlyRow(subs: map<nat, Sub>, b: int, pk: nat, t: int)
    requires pk in subs && subs[pk].business == b && subs[pk].active
    requires forall k :: k in subs && k != pk && subs[k].business == b ==> !subs[k].active
    ensures (exists k :: k in subs && subs[k].business == b && subs[k].active && t < subs[k].expiresAt)
            <==> t < subs[pk].expiresAt
  {
  }

  /** Whatever the tables were, a purchase of `days` days at `now` is active and shown up to, and not from, the last of
    * its days on, as the expiry job finds it at any time `t`.
    */
  lemma PurchaseLastsItsDays(db: Db, b: int, plan: int, days: nat, now: int, pk: nat, t: int)
    requires FlagsAreRight(db) && OnlyNewestActive(db) && b in db.featured && pk !in db.subs
    requires forall k :: k in db.subs && db.subs[k].business == b ==> k < pk
    ensures var bought := Activate(db, b, plan, days, now, pk);
            var db' := Deactivate(bought, ExpiredRows(bought, t));
            && pk in db'.subs && b in db'.featured
            && db'.subs[pk] == Sub(b, plan, now, now + 86400 * days, t < now + 86400 * days)
            && (db'.featured[b] <==> t < now + 86400 * days)
  {
    var bought := Activate(db, b, plan, days, now, pk);
    ConsistentInFields(db);
    ActivateKeepsConsistent(db, b, plan, days, now, pk);
    ConsistentInFields(bought);
    ActivationInFields(db, b, plan, days, now, pk);
    OnlyRow(bought.subs, b, pk, t);
    ExpiryInFields(bought, t);
  }

  // ---- Calls that nobody disturbs can always be finished

  /** The steps can be taken one after another, and lead from `w` to `w'`. */
  ghost predicate Leads(w: World, steps: seq<Step>, w': World)
    decreases |steps|
  {
    if steps == [] then w' == w else Enabled(w, steps[0]) && Leads(Do(w, steps[0]), steps[1..], w')
  }

  lemma {:induction false} LeadsOn(w: World, steps: seq<Step>, w': World, step: Step)
    requires Leads(w, steps, w') && Enabled(w', step)
    ensures Leads(w, steps + [step], Do(w', step))
    decreases |steps|
  {
    if steps == [] {
      assert [step][1..] == [];
      assert Leads(Do(w, step), [], Do(w', step));
    } else {
      LeadsOn(Do(w, steps[0]), steps[1..], w', step);
      assert (steps + [step])[1..] == steps[1..] + [step];
    }
  }

  /** Up to now only transaction `id` is not as in `w`, and nothing has been committed. */
  ghost predicate OnlyOwn(w: World, id: nat, v: World) {
    WorldOk(v) && id !in w.txns && id in v.txns && v.txns - {id} == w.txns && v.db == w.db
  }

  lemma PutIsOwn(w: World, id: nat, v: World, t: Txn)
    requires id !in w.txns && v.txns - {id} == w.txns
    ensures Put(v, id, t).txns - {id} == w.txns
  {
    assert v.txns[id := t] - {id} == v.txns - {id};
  }

  /** One more step of transaction `id`. */
  lemma OwnStepOn(w: World, steps: seq<Step>, id: nat, v: World, step: Step, t: Txn)
    requires WorldOk(w) && OnlyOwn(w, id, v) && Leads(w, steps, v) && Enabled(v, step)
    requires Do(v, step).txns == Put(v, id, t).txns && !step.Commit? && !step.AddBusiness?
    ensures OnlyOwn(w, id, Do(v, step)) && Leads(w, steps + [step], Do(v, step))
  {
    StepKeepsWorldOk(v, step);
    PutIsOwn(w, id, v, t);
    LeadsOn(w, steps, v, step);
  }

  /** A transaction that may read its flags can commit, and the commit is the whole call. */
  lemma FlagsThenCommit(w: World, steps: seq<Step>, id: nat, v: World) returns (all: seq<Step>, w': World)
    requires WorldOk(w) && OnlyOwn(w, id, v) && Leads(w, steps, v) && Enabled(v, ReadFlags(id))
    ensures Leads(w, all, w') && w'.db == AtOnce(w.db, v.txns[id]) && w'.txns == w.txns && w'.nextPk == v.nextPk
  {
    var read := Do(v, ReadFlags(id));
    OwnStepOn(w, steps, id, v, ReadFlags(id), read.txns[id]);
    var written := Do(read, WriteFlags(id));
    OwnStepOn(w, steps + [ReadFlags(id)], id, read, WriteFlags(id), written.txns[id]);
    CommitIsAtomic(written, id);
    w' := Do(written, Commit(id));
    all := steps + [ReadFlags(id)] + [WriteFlags(id)] + [Commit(id)];
    LeadsOn(w, steps + [ReadFlags(id)] + [WriteFlags(id)], written, Commit(id));
  }

  /** No open transaction has locked the business. */
  predicate Unlocked(w: World, b: int) {
    forall id :: id in w.txns ==> b !in w.txns[id].held
  }

  lemma LockedPurchase(w: World, id: nat, b: int, plan: int, days: nat) returns (v: World)
    requires WorldOk(w) && id !in w.txns && b in w.db.featured && Unlocked(w, b)
    ensures OnlyOwn(w, id, v) && v.nextPk == w.nextPk && Leads(w, [Begin(id, Purchase(b, plan, days)), Lock(id, b)], v)
    ensures v.txns[id].phase == Locked && v.txns[id].job == Purchase(b, plan, days)
  {
    var begun := Do(w, Begin(id, Purchase(b, plan, days)));
    StepKeepsWorldOk(w, Begin(id, Purchase(b, plan, days)));
    PutIsOwn(w, id, w, begun.txns[id]);
    LeadsOn(w, [], w, Begin(id, Purchase(b, plan, days)));
    v := Do(begun, Lock(id, b));
    OwnStepOn(w, [] + [Begin(id, Purchase(b, plan, days))], id, begun, Lock(id, b), v.txns[id]);
    assert [] + [Begin(id, Purchase(b, plan, days))] + [Lock(id, b)]
        == [Begin(id, Purchase(b, plan, days)), Lock(id, b)];
  }

  /** Begun on a business nobody has locked, a purchase can be taken to its commit, which adds the row under the next
    * key, retires the other rows of the business, sets its flag, and changes nothing else.
    */
  lemma UndisturbedPurchase(w: World, id: nat, b: int, plan: int, days: nat, now: int)
    returns (steps: seq<Step>, w': World)
    requires WorldOk(w) && id !in w.txns && b in w.db.featured && Unlocked(w, b)
    ensures Leads(w, steps, w') && w'.txns == w.txns && w'.nextPk == w.nextPk + 1
    ensures w'.db.subs.Keys == w.db.subs.Keys + {w.nextPk}
    ensures w'.db.subs[w.nextPk] == Sub(b, plan, now, now + 86400 * days, true)
    ensures forall k :: k in w.db.subs ==>
              w'.db.subs[k] == if w.db.subs[k].business == b then w.db.subs[k].(active := false) else w.db.subs[k]
    ensures w'.db.featured == w.db.featured[b := true]
  {
    steps := [Begin(id, Purchase(b, plan, days)), Lock(id, b)];
    var locked := LockedPurchase(w, id, b, plan, days);
    var retired := Do(locked, RetireRows(id));
    OwnStepOn(w, steps, id, locked, RetireRows(id), retired.txns[id]);
    ConstraintNeverFires(retired, id, now);
    var created := Do(retired, CreateRow(id, now));
    OwnStepOn(w, steps + [RetireRows(id)], id, retired, CreateRow(id, now), created.txns[id]);
    steps, w' := FlagsThenCommit(w, steps + [RetireRows(id)] + [CreateRow(id, now)], id, created);
    ActivationInFields(w.db, b, plan, days, now, w.nextPk);
  }

  /** Taking all the locks of a deactivation, in ascending order. */
  lemma {:induction false} TakeLocks(w: World, steps: seq<Step>, id: nat, v: World) returns (all: seq<Step>, v': World)
    requires WorldOk(w) && OnlyOwn(w, id, v) && Leads(w, steps, v)
    requires v.txns[id].phase == Locking && v.txns[id].job == Retirement
    requires forall b :: b in v.txns[id].need ==> Unlocked(w, b)
    ensures OnlyOwn(w, id, v') && Leads(w, all, v') && v'.nextPk == v.nextPk
    ensures v'.txns[id].phase == Locked && v'.txns[id].job == Retirement && v'.txns[id].ids == v.txns[id].ids
    decreases v.txns[id].need - v.txns[id].held
  {
    var t := v.txns[id];
    assert TxnOk(v.db, v.nextPk, t);
    var c: int :| c in t.need && c !in t.held;
    var b := LeastExists(t.need - t.held, c);
    forall other | other in v.txns
      ensures b !in v.txns[other].held
    {
      assert other != id ==> other in v.txns - {id};
    }
    v' := Do(v, Lock(id, b));
    OwnStepOn(w, steps, id, v, Lock(id, b), v'.txns[id]);
    all := steps + [Lock(id, b)];
    if v'.txns[id].phase == Locking {
      all, v' := TakeLocks(w, all, id, v');
    }
  }

  /** A deactivation collects the active rows among those asked for, and locks their businesses; if there are none it
    * is over.
    */
  lemma CollectInFields(w: World, id: nat, matching: set<nat>)
    requires id in w.txns && w.txns[id].phase == Collecting
    ensures Enabled(w, Collect(id, matching))
    ensures var w' := Do(w, Collect(id, matching));
            var ids := set k | k in w.db.subs && k in matching && w.db.subs[k].active;
            && w'.db == w.db && w'.nextPk == w.nextPk
            && if ids == {} then w'.txns == w.txns - {id}
               else && id in w'.txns && w'.txns - {id} == w.txns - {id} && w'.txns[id].phase == Locking
                    && w'.txns[id].ids == ids
                    && w'.txns[id].need == set k | k in ids && k in w.db.subs :: w.db.subs[k].business
  {
    var t := Do(w, Collect(id, matching));
    if id in t.txns {
      assert w.txns[id := t.txns[id]] - {id} == w.txns - {id};
    }
  }

  lemma CollectedRetirement(w: World, id: nat, matching: set<nat>) returns (steps: seq<Step>, v: World)
    requires WorldOk(w) && id !in w.txns
    ensures Leads(w, steps, v) && v.db == w.db && v.nextPk == w.nextPk
    ensures if Collected(w.db, matching) == {} then v.txns == w.txns
            else && OnlyOwn(w, id, v) && v.txns[id].phase == Locking && v.txns[id].job == Retirement
                 && v.txns[id].ids == Collected(w.db, matching)
                 && v.txns[id].need == BusinessesOf(w.db.subs, v.txns[id].ids)
  {
    var begun := Do(w, Begin(id, Retirement));
    StepKeepsWorldOk(w, Begin(id, Retirement));
    PutIsOwn(w, id, w, begun.txns[id]);
    LeadsOn(w, [], w, Begin(id, Retirement));
    steps := [] + [Begin(id, Retirement)];
    v := Do(begun, Collect(id, matching));
    if id in v.txns {
      OwnStepOn(w, steps, id, begun, Collect(id, matching), v.txns[id]);
    } else {
      LeadsOn(w, steps, begun, Collect(id, matching));
    }
    steps := steps + [Collect(id, matching)];
  }

  lemma FinishedRetirement(w: World, steps: seq<Step>, id: nat, v: World) returns (all: seq<Step>, w': World)
    requires WorldOk(w) && OnlyOwn(w, id, v) && Leads(w, steps, v) && v.nextPk == w.nextPk
    requires v.txns[id].phase == Locking && v.txns[id].job == Retirement
    requires forall b :: b in v.txns[id].need ==> Unlocked(w, b)
    ensures Leads(w, all, w') && w'.txns == w.txns && w'.nextPk == w.nextPk
    ensures w'.db == Deactivate(w.db, v.txns[id].ids)
  {
    var locked;
    all, locked := TakeLocks(w, steps, id, v);
    var retired := Do(locked, RetireRows(id));
    OwnStepOn(w, all, id, locked, RetireRows(id), retired.txns[id]);
    all, w' := FlagsThenCommit(w, all + [RetireRows(id)], id, retired);
  }

  /** Begun while nobody has locked their businesses, a deactivation of some rows can be taken to its commit, which
    * deactivates exactly those rows and leaves a business flagged exactly if it has another active row.
    */
  lemma UndisturbedRetirement(w: World, id: nat, matching: set<nat>) returns (steps: seq<Step>, w': World)
    requires WorldOk(w) && id !in w.txns
    requires forall k :: k in w.db.subs && k in matching ==> Unlocked(w, w.db.subs[k].business)
    ensures Leads(w, steps, w') && w'.txns == w.txns && w'.nextPk == w.nextPk
    ensures w'.db.subs.Keys == w.db.subs.Keys && w'.db.featured.Keys == w.db.featured.Keys
    ensures forall k :: k in w.db.subs ==>
              w'.db.subs[k] == if k in matching then w.db.subs[k].(active := false) else w.db.subs[k]
    ensures forall b :: b in w.db.featured ==>
              (w'.db.featured[b] <==>
                 exists k :: k in w.db.subs && w.db.subs[k].business == b && w.db.subs[k].active && k !in matching)
  {
    var v;
    steps, v := CollectedRetirement(w, id, matching);
    if Collected(w.db, matching) == {} {
      w' := v;
      assert Deactivated(w.db.subs, matching).Keys == Collected(w.db, matching);
      NothingToDeactivate(w.db, matching);
    } else {
      steps, w' := FinishedRetirement(w, steps, id, v);
      SameDeactivation(w.db, matching, Collected(w.db, matching));
    }
    ConsistentInFields(w.db);
    DeactivationInFields(w.db, matching);
  }

  /** Rows that are not active are not asked for in vain. */
  lemma SameDeactivation(db: Db, ids: set<nat>, some: set<nat>)
    requires forall k :: k in db.subs && db.subs[k].active ==> (k in ids <==> k in some)
    ensures Deactivate(db, ids) == Deactivate(db, some)
  {
    assert Deactivated(db.subs, ids) == Deactivated(db.subs, some);
  }
}
