/** Activations and deactivations running at the same time: transactions of several statements, row locks
  * on businesses, and READ COMMITTED reads.
  */
module SubscriptionRuns {
  import opened Wrappers
  import opened Subscriptions

  datatype Job = Purchase(b: int, plan: int, days: nat) | Retirement

  datatype Phase = Collecting | Locking | Locked | Retired | Created | FlagsRead | FlagsWritten

  /** `ids` are the rows to deactivate, `need` the businesses to lock and `held` those locked so far; `rows`
    * and `flags` are what the transaction has written but not committed.
    */
  datatype Txn = Txn(job: Job, phase: Phase, ids: set<nat>, need: set<int>, held: set<int>, rows: map<nat, Sub>,
                     pk: nat, row: Sub, featuredIds: set<int>, flags: map<int, bool>)

  /** The committed tables, the primary key sequence and the open transactions. */
  datatype World = World(db: Db, nextPk: nat, txns: map<nat, Txn>)

  const NO_SUB := Sub(0, 0, 0, 0, false)

  const EMPTY: World := World(Db(map[], map[]), 0, map[])

  datatype Step =
    | AddBusiness(b: int)
    | Begin(id: nat, job: Job)
    | Collect(id: nat, matching: set<nat>)
    | Lock(id: nat, b: int)
    | RetireRows(id: nat)
    | CreateRow(id: nat, now: int)
    | ReadFlags(id: nat)
    | WriteFlags(id: nat)
    | Commit(id: nat)
    | Abort(id: nat)

  /** What a statement of the transaction reads: the committed rows and its own writes. */
  function View(db: Db, t: Txn): Db {
    Db(db.subs + t.rows, db.featured + t.flags)
  }

  predicate Free(w: World, b: int) {
    forall id :: id in w.txns ==> b !in w.txns[id].held
  }

  predicate NextToLock(t: Txn, b: int) {
    b in t.need - t.held && forall c :: c in t.need - t.held ==> b <= c
  }

  predicate Enabled(w: World, step: Step) {
    match step
    case AddBusiness(b) => b !in w.db.featured
    case Begin(id, _) => id !in w.txns
    case Collect(id, _) => id in w.txns && w.txns[id].phase.Collecting?
    case Lock(id, b) => id in w.txns && w.txns[id].phase.Locking? && NextToLock(w.txns[id], b) && Free(w, b)
    case RetireRows(id) => id in w.txns && w.txns[id].phase.Locked?
    case CreateRow(id, _) => id in w.txns && w.txns[id].phase.Retired? && w.txns[id].job.Purchase?
    case ReadFlags(id) =>
      id in w.txns && (w.txns[id].phase.Created? || (w.txns[id].phase.Retired? && w.txns[id].job.Retirement?))
    case WriteFlags(id) => id in w.txns && w.txns[id].phase.FlagsRead?
    case Commit(id) => id in w.txns && w.txns[id].phase.FlagsWritten?
    case Abort(id) => id in w.txns
  }

  function Started(job: Job): Txn {
    Txn(job, if job.Purchase? then Locking else Collecting, {}, if job.Purchase? then {job.b} else {}, {}, map[],
        0, NO_SUB, {}, map[])
  }

  /** The rows a deactivation collects before it takes its locks. */
  function Collected(db: Db, matching: set<nat>): set<nat> {
    set k | k in db.subs && k in matching && db.subs[k].active
  }

  function Ended(w: World, id: nat): World {
    w.(txns := w.txns - {id})
  }

  function Put(w: World, id: nat, t: Txn): World {
    w.(txns := w.txns[id := t])
  }

  function Do(w: World, step: Step): World
    requires Enabled(w, step)
  {
    match step
    case AddBusiness(b) => w.(db := Db(w.db.subs, w.db.featured[b := false]))
    case Begin(id, job) => Put(w, id, Started(job))
    case Collect(id, matching) =>
      var ids := Collected(w.db, matching);
      if ids == {} then Ended(w, id)
      else Put(w, id, w.txns[id].(phase := Locking, ids := ids, need := BusinessesOf(w.db.subs, ids)))
    case Lock(id, b) =>
      var t := w.txns[id];
      if t.job.Purchase? && b !in w.db.featured then Ended(w, id)
      else Put(w, id, t.(held := t.held + {b}, phase := if t.held + {b} == t.need then Locked else Locking))
    case RetireRows(id) =>
      var t := w.txns[id];
      var view := View(w.db, t);
      var ids := if t.job.Purchase? then ActiveOf(view.subs, t.job.b) else t.ids;
      Put(w, id, t.(phase := Retired, ids := ids, rows := t.rows + Deactivated(view.subs, ids)))
    case CreateRow(id, now) =>
      var t := w.txns[id];
      if HasActive(View(w.db, t).subs, t.job.b) then Ended(w, id).(nextPk := w.nextPk + 1)
      else
        var row := NewSub(t.job.b, t.job.plan, t.job.days, now);
        Put(w, id, t.(phase := Created, pk := w.nextPk, row := row, rows := t.rows[w.nextPk := row]))
        .(nextPk := w.nextPk + 1)
    case ReadFlags(id) =>
      var t := w.txns[id];
      Put(w, id, t.(phase := FlagsRead, featuredIds := set b | b in t.need && HasActive(View(w.db, t).subs, b)))
    case WriteFlags(id) =>
      var t := w.txns[id];
      Put(w, id, t.(phase := FlagsWritten, flags := map b | b in t.need && b in w.db.featured :: b in t.featuredIds))
    case Commit(id) => Ended(w, id).(db := View(w.db, w.txns[id]))
    case Abort(id) => Ended(w, id)
  }

  // ---- What holds of an open transaction

  predicate HasRetired(t: Txn) {
    t.phase.Retired? || t.phase.Created? || t.phase.FlagsRead? || t.phase.FlagsWritten?
  }

  predicate HasCreated(t: Txn) {
    t.job.Purchase? && (t.phase.Created? || t.phase.FlagsRead? || t.phase.FlagsWritten?)
  }

  /** The uncommitted rows, as a function of the committed rows of now. */
  function Written(db: Db, t: Txn): map<nat, Sub> {
    if !HasRetired(t) then map[]
    else if HasCreated(t) then Deactivated(db.subs, t.ids)[t.pk := t.row]
    else Deactivated(db.subs, t.ids)
  }

  ghost predicate LocksOk(db: Db, t: Txn) {
    && t.held <= t.need
    && (t.phase.Collecting? ==> t.job.Retirement? && t.need == {})
    && (t.phase.Locking? ==> t.need != t.held)
    && (!t.phase.Collecting? && !t.phase.Locking? ==> t.held == t.need && t.need <= db.featured.Keys)
    && (t.phase.Created? ==> t.job.Purchase?)
  }

  ghost predicate TargetsOk(db: Db, t: Txn) {
    && (t.job.Purchase? ==> t.need == {t.job.b})
    && (t.job.Retirement? ==> t.ids <= db.subs.Keys && t.need == BusinessesOf(db.subs, t.ids))
    && (t.job.Purchase? && HasRetired(t) ==> t.ids == ActiveOf(db.subs, t.job.b))
  }

  ghost predicate NewRowOk(db: Db, nextPk: nat, t: Txn) {
    HasCreated(t) ==>
      && t.pk < nextPk && t.pk !in db.subs && t.row == NewSub(t.job.b, t.job.plan, t.job.days, t.row.startsAt)
      && forall k :: k in db.subs && db.subs[k].business == t.job.b ==> k < t.pk
  }

  ghost predicate FlagsOk(db: Db, t: Txn) {
    && (t.phase.FlagsRead? || t.phase.FlagsWritten? ==>
          forall b :: b in t.need ==> (b in t.featuredIds <==> HasActive(db.subs + t.rows, b)))
    && t.flags == if t.phase.FlagsWritten? then map b | b in t.need :: b in t.featuredIds else map[]
  }

  ghost predicate TxnOk(db: Db, nextPk: nat, t: Txn) {
    LocksOk(db, t) && TargetsOk(db, t) && NewRowOk(db, nextPk, t) && t.rows == Written(db, t) && FlagsOk(db, t)
  }

  ghost predicate LocksDisjoint(w: World) {
    forall i, j :: i in w.txns && j in w.txns && i != j ==> w.txns[i].held !! w.txns[j].held
  }

  ghost predicate NewRowsDistinct(w: World) {
    forall i, j :: i in w.txns && j in w.txns && i != j && HasCreated(w.txns[i]) && HasCreated(w.txns[j]) ==>
      w.txns[i].pk != w.txns[j].pk
  }

  /** Locks are taken in ascending order. */
  ghost predicate Ascending(t: Txn) {
    forall b, c :: b in t.held && c in t.need - t.held ==> b < c
  }

  ghost predicate WorldOk(w: World) {
    && Consistent(w.db)
    && (forall k :: k in w.db.subs ==> k < w.nextPk)
    && (forall id :: id in w.txns ==> TxnOk(w.db, w.nextPk, w.txns[id]))
    && LocksDisjoint(w) && NewRowsDistinct(w)
    && (forall id :: id in w.txns ==> Ascending(w.txns[id]))
  }

  // ---- Other transactions' commits do not disturb it

  /** Nothing about the businesses `bs` changed. */
  ghost predicate SameOn(db: Db, db': Db, bs: set<int>) {
    && NoRowLost(db, db') && db.featured.Keys <= db'.featured.Keys
    && (forall k :: k in db.subs && db.subs[k].business in bs ==> db'.subs[k] == db.subs[k])
    && (forall k :: k in db'.subs && db'.subs[k].business in bs ==> k in db.subs)
  }

  lemma TargetsStable(db: Db, db': Db, t: Txn)
    requires LocksOk(db, t) && TargetsOk(db, t) && SameOn(db, db', t.held)
    ensures TargetsOk(db', t) && LocksOk(db', t)
    ensures HasRetired(t) ==> Deactivated(db'.subs, t.ids) == Deactivated(db.subs, t.ids)
  {
    if t.job.Retirement? {
      assert BusinessesOf(db'.subs, t.ids) == BusinessesOf(db.subs, t.ids);
      if HasRetired(t) {
        forall k | k in t.ids
          ensures db'.subs[k] == db.subs[k]
        {
          assert db.subs[k].business in BusinessesOf(db.subs, t.ids);
        }
      }
    } else if HasRetired(t) {
      assert ActiveOf(db'.subs, t.job.b) == ActiveOf(db.subs, t.job.b);
    }
  }

  lemma TxnStable(db: Db, db': Db, nextPk: nat, nextPk': nat, t: Txn)
    requires TxnOk(db, nextPk, t) && SameOn(db, db', t.held) && nextPk <= nextPk'
    requires HasCreated(t) ==> t.pk !in db'.subs
    ensures TxnOk(db', nextPk', t)
  {
    TargetsStable(db, db', t);
    if t.phase.FlagsRead? || t.phase.FlagsWritten? {
      forall b | b in t.need
        ensures HasActive(db.subs + t.rows, b) == HasActive(db'.subs + t.rows, b)
      {
        SameActive(db.subs + t.rows, db'.subs + t.rows, b);
      }
    }
  }

  // ---- A commit is the service run at once

  /** The service call a transaction stands for, run in one piece on `db`. */
  function AtOnce(db: Db, t: Txn): Db {
    match t.job
    case Purchase(b, plan, days) => Activate(db, b, plan, days, t.row.startsAt, t.pk)
    case Retirement => Deactivate(db, t.ids)
  }

  /** Businesses whose collected rows were all inactive by the time of the lock keep their flag. */
  lemma NoOpFlags(db: Db, t: Txn, b: int)
    requires Consistent(db) && TxnOk(db, 0, t) && t.job.Retirement? && t.phase.FlagsWritten?
    requires b in t.need && b !in BusinessesOf(db.subs, Deactivated(db.subs, t.ids).Keys)
    ensures t.flags[b] == db.featured[b]
  {
    forall k | k in db.subs && db.subs[k].business == b
      ensures (db.subs + t.rows)[k] == db.subs[k]
    {
      DeactivatedElsewhere(db.subs, t.ids, k);
    }
    SameActive(db.subs, db.subs + t.rows, b);
  }

  lemma FlagAgrees(db: Db, t: Txn, b: int)
    requires Consistent(db) && TxnOk(db, 0, t) && t.job.Retirement? && t.phase.FlagsWritten? && b in t.need
    ensures t.flags[b] == Deactivate(db, t.ids).featured[b]
  {
    var bs := BusinessesOf(db.subs, Deactivated(db.subs, t.ids).Keys);
    if b !in bs {
      NoOpFlags(db, t, b);
    } else {
      assert db.subs + t.rows == WithDeactivated(db.subs, t.ids);
    }
  }

  lemma RetirementFlags(db: Db, t: Txn)
    requires Consistent(db) && TxnOk(db, 0, t) && t.job.Retirement? && t.phase.FlagsWritten?
    ensures View(db, t).featured == Deactivate(db, t.ids).featured
  {
    forall b | b in t.need
      ensures t.flags[b] == Deactivate(db, t.ids).featured[b]
    {
      FlagAgrees(db, t, b);
    }
    TouchesOnly(db, t.ids);
  }

  lemma RetirementCommitsAtOnce(db: Db, t: Txn)
    requires Consistent(db) && TxnOk(db, 0, t) && t.job.Retirement? && t.phase.FlagsWritten?
    ensures View(db, t) == Deactivate(db, t.ids)
  {
    RetirementFlags(db, t);
    assert View(db, t).subs == WithDeactivated(db.subs, t.ids);
  }

  lemma TouchesOnly(db: Db, ids: set<nat>)
    ensures Deactivate(db, ids).featured.Keys == db.featured.Keys
    ensures forall b :: b in db.featured && b !in BusinessesOf(db.subs, ids) ==>
              Deactivate(db, ids).featured[b] == db.featured[b]
  {
    var bs := BusinessesOf(db.subs, Deactivated(db.subs, ids).Keys);
    assert bs <= BusinessesOf(db.subs, ids);
    assert Mirrored(Db(WithDeactivated(db.subs, ids), db.featured), bs).Keys <= bs * db.featured.Keys;
  }

  lemma PurchaseCommitsAtOnce(db: Db, nextPk: nat, t: Txn)
    requires Consistent(db) && TxnOk(db, nextPk, t) && t.job.Purchase? && t.phase.FlagsWritten?
    ensures View(db, t) == Activate(db, t.job.b, t.job.plan, t.job.days, t.row.startsAt, t.pk)
  {
    PurchaseRows(db, nextPk, t);
    PurchaseFlags(db, nextPk, t);
  }

  lemma PurchaseRows(db: Db, nextPk: nat, t: Txn)
    requires Consistent(db) && TxnOk(db, nextPk, t) && t.job.Purchase? && t.phase.FlagsWritten?
    ensures View(db, t).subs == Activate(db, t.job.b, t.job.plan, t.job.days, t.row.startsAt, t.pk).subs
  {
    assert View(db, t).subs == WithDeactivated(db.subs, t.ids)[t.pk := t.row];
  }

  lemma PurchaseFlags(db: Db, nextPk: nat, t: Txn)
    requires Consistent(db) && TxnOk(db, nextPk, t) && t.job.Purchase? && t.phase.FlagsWritten?
    ensures View(db, t).featured == Activate(db, t.job.b, t.job.plan, t.job.days, t.row.startsAt, t.pk).featured
  {
    PurchaseRows(db, nextPk, t);
  }

  /** Whatever ran in between, a commit changes the committed tables exactly as the whole service call run at
    * that moment would.
    */
  lemma {:induction false} CommitIsAtomic(w: World, id: nat)
    requires WorldOk(w) && Enabled(w, Commit(id))
    ensures Do(w, Commit(id)).db == AtOnce(w.db, w.txns[id])
  {
    var t := w.txns[id];
    if t.job.Purchase? {
      PurchaseCommitsAtOnce(w.db, w.nextPk, t);
    } else {
      assert TxnOk(w.db, 0, t);
      RetirementCommitsAtOnce(w.db, t);
    }
  }

  /** It leaves the businesses it has not locked alone. */
  lemma CommitIsLocal(db: Db, nextPk: nat, t: Txn, bs: set<int>)
    requires Consistent(db) && TxnOk(db, nextPk, t) && t.phase.FlagsWritten? && bs !! t.held
    ensures SameOn(db, View(db, t), bs)
  {
    forall k | k in t.rows
      ensures t.rows[k].business in t.held && (k in db.subs ==> RowKept(db.subs[k], t.rows[k]))
    {
      WritesItsOwn(db, nextPk, t, k);
    }
    RowsElsewhere(db, View(db, t), t.rows, t.held, bs);
  }

  /** Writing rows of the businesses `held` alone. */
  lemma RowsElsewhere(db: Db, db': Db, rows: map<nat, Sub>, held: set<int>, bs: set<int>)
    requires db'.subs == db.subs + rows && db.featured.Keys <= db'.featured.Keys && bs !! held
    requires forall k :: k in rows ==> rows[k].business in held && (k in db.subs ==> RowKept(db.subs[k], rows[k]))
    ensures SameOn(db, db', bs)
  {
  }

  /** Every row it writes belongs to a business it has locked. */
  lemma WritesItsOwn(db: Db, nextPk: nat, t: Txn, k: nat)
    requires TxnOk(db, nextPk, t) && t.phase.FlagsWritten? && k in t.rows
    ensures t.rows[k].business in t.held && (k in db.subs ==> RowKept(db.subs[k], t.rows[k]))
  {
    if t.job.Retirement? {
      assert k in t.ids;
    }
  }

  lemma CommitKeepsWorldOk(w: World, id: nat)
    requires WorldOk(w) && Enabled(w, Commit(id))
    ensures WorldOk(Do(w, Commit(id))) && NoRowLost(w.db, Do(w, Commit(id)).db)
  {
    var t, w' := w.txns[id], Do(w, Commit(id));
    CommitIsAtomic(w, id);
    if t.job.Purchase? {
      ActivateKeepsConsistent(w.db, t.job.b, t.job.plan, t.job.days, t.row.startsAt, t.pk);
    } else {
      DeactivateKeepsConsistent(w.db, t.ids);
    }
    forall other | other in w'.txns
      ensures TxnOk(w'.db, w'.nextPk, w'.txns[other])
    {
      CommitIsLocal(w.db, w.nextPk, t, w.txns[other].held);
      TxnStable(w.db, w'.db, w.nextPk, w'.nextPk, w.txns[other]);
    }
  }

  // ---- Every step keeps the invariant

  lemma PutKeepsWorldOk(w: World, id: nat, t: Txn, nextPk: nat)
    requires WorldOk(w) && w.nextPk <= nextPk && TxnOk(w.db, nextPk, t) && Ascending(t)
    requires forall other :: other in w.txns && other != id ==> t.held !! w.txns[other].held
    requires HasCreated(t) ==>
               forall other :: other in w.txns && other != id && HasCreated(w.txns[other]) ==> t.pk != w.txns[other].pk
    ensures WorldOk(Put(w, id, t).(nextPk := nextPk))
  {
    forall other | other in w.txns && other != id
      ensures TxnOk(w.db, nextPk, w.txns[other])
    {
      assert TxnOk(w.db, w.nextPk, w.txns[other]);
    }
  }

  lemma EndKeepsWorldOk(w: World, id: nat, nextPk: nat)
    requires WorldOk(w) && w.nextPk <= nextPk
    ensures WorldOk(Ended(w, id).(nextPk := nextPk))
  {
    forall other | other in w.txns
      ensures TxnOk(w.db, nextPk, w.txns[other])
    {
      assert TxnOk(w.db, w.nextPk, w.txns[other]);
    }
  }

  lemma AddBusinessKeepsWorldOk(w: World, b: int)
    requires WorldOk(w) && Enabled(w, AddBusiness(b))
    ensures WorldOk(Do(w, AddBusiness(b)))
  {
    var w' := Do(w, AddBusiness(b));
    forall id | id in w.txns
      ensures TxnOk(w'.db, w.nextPk, w.txns[id])
    {
      TxnStable(w.db, w'.db, w.nextPk, w.nextPk, w.txns[id]);
    }
    assert !HasActive(w.db.subs, b);
  }

  lemma CollectKeepsWorldOk(w: World, id: nat, matching: set<nat>)
    requires WorldOk(w) && Enabled(w, Collect(id, matching))
    ensures WorldOk(Do(w, Collect(id, matching)))
  {
    var ids, t := Collected(w.db, matching), w.txns[id];
    if ids == {} {
      EndKeepsWorldOk(w, id, w.nextPk);
    } else {
      var k :| k in ids;
      assert w.db.subs[k].business in BusinessesOf(w.db.subs, ids);
      PutKeepsWorldOk(w, id, t.(phase := Locking, ids := ids, need := BusinessesOf(w.db.subs, ids)), w.nextPk);
    }
  }

  lemma LockKeepsWorldOk(w: World, id: nat, b: int)
    requires WorldOk(w) && Enabled(w, Lock(id, b))
    ensures WorldOk(Do(w, Lock(id, b)))
  {
    var t := w.txns[id];
    if t.job.Purchase? && b !in w.db.featured {
      EndKeepsWorldOk(w, id, w.nextPk);
    } else {
      var t' := t.(held := t.held + {b}, phase := if t.held + {b} == t.need then Locked else Locking);
      assert t.need <= w.db.featured.Keys;
      forall c, d | c in t'.held && d in t'.need - t'.held
        ensures c < d
      {
        assert d in t.need - t.held && d != b;
        assert c == b || c in t.held;
      }
      PutKeepsWorldOk(w, id, t', w.nextPk);
    }
  }

  lemma RetiredIsOk(db: Db, nextPk: nat, t: Txn) returns (t': Txn)
    requires TxnOk(db, nextPk, t) && t.phase.Locked?
    ensures var view := View(db, t);
            var ids := if t.job.Purchase? then ActiveOf(view.subs, t.job.b) else t.ids;
            t' == t.(phase := Retired, ids := ids, rows := t.rows + Deactivated(view.subs, ids))
    ensures TxnOk(db, nextPk, t')
  {
    assert View(db, t).subs == db.subs;
    var ids := if t.job.Purchase? then ActiveOf(db.subs, t.job.b) else t.ids;
    t' := t.(phase := Retired, ids := ids, rows := t.rows + Deactivated(db.subs, ids));
  }

  lemma RetireKeepsWorldOk(w: World, id: nat)
    requires WorldOk(w) && Enabled(w, RetireRows(id))
    ensures WorldOk(Do(w, RetireRows(id)))
  {
    var t := w.txns[id];
    var t' := RetiredIsOk(w.db, w.nextPk, t);
    PutKeepsWorldOk(w, id, t', w.nextPk);
  }

  /** With the business locked and its rows retired, the insertion never meets another active row: the
    * unique constraint is never violated.
    */
  lemma {:induction false} ConstraintNeverFires(w: World, id: nat, now: int)
    requires WorldOk(w) && Enabled(w, CreateRow(id, now))
    ensures !HasActive(View(w.db, w.txns[id]).subs, w.txns[id].job.b)
    ensures forall other, k :: other in w.txns && other != id && k in w.txns[other].rows ==>
              w.txns[other].rows[k].business != w.txns[id].job.b
  {
    var t := w.txns[id];
    assert View(w.db, t).subs == WithDeactivated(w.db.subs, t.ids);
    forall other, k | other in w.txns && other != id && k in w.txns[other].rows
      ensures w.txns[other].rows[k].business in w.txns[other].held
    {
      assert TxnOk(w.db, w.nextPk, w.txns[other]);
    }
  }

  lemma CreateKeepsWorldOk(w: World, id: nat, now: int)
    requires WorldOk(w) && Enabled(w, CreateRow(id, now))
    ensures WorldOk(Do(w, CreateRow(id, now)))
  {
    var t := w.txns[id];
    ConstraintNeverFires(w, id, now);
    var row := NewSub(t.job.b, t.job.plan, t.job.days, now);
    var t' := t.(phase := Created, pk := w.nextPk, row := row, rows := t.rows[w.nextPk := row]);
    assert Deactivated(w.db.subs, t'.ids)[w.nextPk := row] == t'.rows;
    forall other | other in w.txns && other != id && HasCreated(w.txns[other])
      ensures t'.pk != w.txns[other].pk
    {
      assert TxnOk(w.db, w.nextPk, w.txns[other]);
    }
    PutKeepsWorldOk(w, id, t', w.nextPk + 1);
  }

  lemma FlagStepsKeepWorldOk(w: World, id: nat, step: Step)
    requires WorldOk(w) && Enabled(w, step) && (step == ReadFlags(id) || step == WriteFlags(id))
    ensures WorldOk(Do(w, step))
  {
    var t := w.txns[id];
    if step.ReadFlags? {
      PutKeepsWorldOk(w, id, t.(phase := FlagsRead,
                                featuredIds := set b | b in t.need && HasActive(View(w.db, t).subs, b)), w.nextPk);
    } else {
      var flags := map b | b in t.need && b in w.db.featured :: b in t.featuredIds;
      assert flags == map b | b in t.need :: b in t.featuredIds;
      PutKeepsWorldOk(w, id, t.(phase := FlagsWritten, flags := flags), w.nextPk);
    }
  }

  /** Every step of every transaction keeps the invariant and loses no row; only commits and new businesses
    * change what is committed.
    */
  lemma {:induction false} StepKeepsWorldOk(w: World, step: Step)
    requires WorldOk(w) && Enabled(w, step)
    ensures WorldOk(Do(w, step)) && NoRowLost(w.db, Do(w, step).db)
    ensures !step.Commit? && !step.AddBusiness? ==> Do(w, step).db == w.db
  {
    match step {
      case AddBusiness(b) => AddBusinessKeepsWorldOk(w, b);
      case Begin(id, job) => PutKeepsWorldOk(w, id, Started(job), w.nextPk);
      case Collect(id, matching) => CollectKeepsWorldOk(w, id, matching);
      case Lock(id, b) => LockKeepsWorldOk(w, id, b);
      case RetireRows(id) => RetireKeepsWorldOk(w, id);
      case CreateRow(id, now) => CreateKeepsWorldOk(w, id, now);
      case ReadFlags(id) => FlagStepsKeepWorldOk(w, id, step);
      case WriteFlags(id) => FlagStepsKeepWorldOk(w, id, step);
      case Commit(id) => CommitKeepsWorldOk(w, id);
      case Abort(id) => EndKeepsWorldOk(w, id, w.nextPk);
    }
  }

  // ---- Runs

  /** The world after a run, or None if some step was not enabled. */
  function Run(steps: seq<Step>): Option<World> {
    if steps == [] then Some(EMPTY)
    else
      match Run(steps[..|steps| - 1])
      case None => None
      case Some(w) => if Enabled(w, steps[|steps| - 1]) then Some(Do(w, steps[|steps| - 1])) else None
  }

  /** After every interleaving the committed tables are consistent. */
  lemma {:induction false} RunsAreConsistent(steps: seq<Step>)
    requires Run(steps).Some?
    ensures WorldOk(Run(steps).value)
    ensures Consistent(Run(steps).value.db) && OneActive(Run(steps).value.db)
  {
    if steps != [] {
      RunsAreConsistent(steps[..|steps| - 1]);
      StepKeepsWorldOk(Run(steps[..|steps| - 1]).value, steps[|steps| - 1]);
    }
    ConsistentHasOneActive(Run(steps).value.db);
  }

  /** No row committed at any point of a run is ever lost, changed otherwise than by deactivation, or
    * reactivated.
    */
  lemma {:induction false} RunsLoseNothing(steps: seq<Step>, n: nat)
    requires n <= |steps| && Run(steps).Some?
    ensures Run(steps[..n]).Some? && NoRowLost(Run(steps[..n]).value.db, Run(steps).value.db)
  {
    if n < |steps| {
      var before := steps[..|steps| - 1];
      assert before[..n] == steps[..n];
      RunsLoseNothing(before, n);
      RunsAreConsistent(before);
      StepKeepsWorldOk(Run(before).value, steps[|steps| - 1]);
    } else {
      assert steps[..n] == steps;
    }
  }

  /** A service call run in one piece. */
  datatype Call =
    | NewBusiness(b: int)
    | ActivateCall(b: int, plan: int, days: nat, now: int, pk: nat)
    | DeactivateCall(ids: set<nat>)

  function Serve(db: Db, call: Call): Db {
    match call
    case NewBusiness(b) => Db(db.subs, db.featured[b := false])
    case ActivateCall(b, plan, days, now, pk) => Activate(db, b, plan, days, now, pk)
    case DeactivateCall(ids) => Deactivate(db, ids)
  }

  function ServeAll(calls: seq<Call>): Db {
    if calls == [] then EMPTY.db else Serve(ServeAll(calls[..|calls| - 1]), calls[|calls| - 1])
  }

  function CallOf(t: Txn): Call {
    match t.job
    case Purchase(b, plan, days) => ActivateCall(b, plan, days, t.row.startsAt, t.pk)
    case Retirement => DeactivateCall(t.ids)
  }

  /** The committed calls of a run, in the order of their commits. */
  function Committed(steps: seq<Step>): seq<Call>
    requires Run(steps).Some?
  {
    if steps == [] then []
    else
      var before, step := steps[..|steps| - 1], steps[|steps| - 1];
      Committed(before) + CallsOf(Run(before).value, step)
  }

  /** What one step adds to the committed calls. */
  function CallsOf(w: World, step: Step): seq<Call>
    requires Enabled(w, step)
  {
    if step.AddBusiness? then [NewBusiness(step.b)]
    else if step.Commit? then [CallOf(w.txns[step.id])]
    else []
  }

  lemma StepServes(w: World, step: Step, calls: seq<Call>)
    requires WorldOk(w) && Enabled(w, step) && w.db == ServeAll(calls)
    ensures Do(w, step).db == ServeAll(calls + CallsOf(w, step))
  {
    StepKeepsWorldOk(w, step);
    if step.Commit? {
      CommitIsAtomic(w, step.id);
    }
    if CallsOf(w, step) == [] {
      assert calls + [] == calls;
    } else {
      assert (calls + CallsOf(w, step))[..|calls|] == calls;
    }
  }

  /** Every interleaving leaves the tables as the committed calls would, run one after another. */
  lemma {:induction false} RunsAreSerializable(steps: seq<Step>)
    requires Run(steps).Some?
    ensures Run(steps).value.db == ServeAll(Committed(steps))
  {
    if steps != [] {
      var before, step := steps[..|steps| - 1], steps[|steps| - 1];
      RunsAreSerializable(before);
      RunsAreConsistent(before);
      StepServes(Run(before).value, step, Committed(before));
    }
  }

  // ---- No deadlock

  lemma {:induction false} LeastExists(s: set<int>, x: int) returns (b: int)
    requires x in s
    ensures b in s && forall c :: c in s ==> b <= c
  {
    b := x;
    if y: int :| y in s && y < x {
      b := LeastExists(s - {x}, y);
      assert forall c :: c in s ==> c == x || c in s - {x};
    }
  }

  predicate Waits(w: World, id: nat, b: int) {
    id in w.txns && w.txns[id].phase.Locking? && NextToLock(w.txns[id], b) && !Free(w, b)
  }

  /** A step that carries transaction `id` on, unless it waits for a lock. */
  lemma OwnStep(w: World, id: nat) returns (step: Step, b: int)
    requires WorldOk(w) && id in w.txns
    ensures Waits(w, id, b) || (Enabled(w, step) && !step.Abort? && !step.AddBusiness? && !step.Begin?)
    ensures !w.txns[id].phase.Locking? ==> !Waits(w, id, b)
  {
    var t := w.txns[id];
    b := 0;
    match t.phase {
      case Collecting => step := Collect(id, {});
      case Locking =>
        var c: int :| c in t.need && c !in t.held;
        b := LeastExists(t.need - t.held, c);
        step := Lock(id, b);
      case Locked => step := RetireRows(id);
      case Retired => step := if t.job.Purchase? then CreateRow(id, 0) else ReadFlags(id);
      case Created => step := ReadFlags(id);
      case FlagsRead => step := WriteFlags(id);
      case FlagsWritten => step := Commit(id);
    }
  }

  /** The holder of what the transaction waits for has locked only smaller businesses than it waits for
    * itself, so a chain of waits climbs and ends.
    */
  lemma {:induction false} WaitEnds(w: World, id: nat, b: int, waiting: set<nat>) returns (step: Step)
    requires WorldOk(w) && Waits(w, id, b) && waiting <= w.txns.Keys && id !in waiting
    requires forall i :: i in waiting ==> forall c :: c in w.txns[i].held ==> c < b
    ensures Enabled(w, step) && !step.Abort? && !step.AddBusiness? && !step.Begin?
    decreases w.txns.Keys - waiting
  {
    var holder :| holder in w.txns && b in w.txns[holder].held;
    var c;
    step, c := OwnStep(w, holder);
    if Waits(w, holder, c) {
      assert forall d :: d in w.txns[id].held ==> d < b;
      step := WaitEnds(w, holder, c, waiting + {id});
    }
  }

  /** While any transaction is open, some open transaction can take its next step: locking in ascending
    * order excludes deadlock.
    */
  lemma NoDeadlock(w: World, id: nat) returns (step: Step)
    requires WorldOk(w) && id in w.txns
    ensures Enabled(w, step) && !step.Abort? && !step.AddBusiness? && !step.Begin?
  {
    var b;
    step, b := OwnStep(w, id);
    if Waits(w, id, b) {
      step := WaitEnds(w, id, b, {});
    }
  }
}
