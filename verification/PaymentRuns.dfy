/** What every run of initiations and gateway events keeps. */
module PaymentRuns {
  import opened Wrappers
  import opened Payments

  // ---- The invariant

  ghost predicate Untouched(l: Ledger, s: nat, t: nat) {
    t < |l.txns| && Open(l.txns[t], s) && forall i :: 0 <= i < |l.txns| && i != t ==> l.txns[i].payment != s
  }

  /** A pending transaction has no id and is the only one of a payment that is not COMPLETED.  The payment is
    * PENDING, or FAILED between the two saves that mark an initiation failed.
    */
  ghost predicate TxnsOk(l: Ledger) {
    && (forall i :: 0 <= i < |l.txns| ==> l.txns[i].payment < |l.payments|)
    && (forall i :: 0 <= i < |l.txns| && l.txns[i].status.Pending? ==>
          l.txns[i].transactionId.None? && !l.payments[l.txns[i].payment].status.Completed?)
    && (forall i, j :: 0 <= i < |l.txns| && 0 <= j < |l.txns| && i != j && l.txns[i].status.Pending? ==>
          l.txns[j].payment != l.txns[i].payment)
    && (forall i :: 0 <= i < |l.txns| && l.txns[i].status.Completed? ==>
          l.txns[i].transactionId.Some? && l.payments[l.txns[i].payment].status.Completed?)
  }

  ghost predicate IdsUnique(l: Ledger) {
    forall i, j :: 0 <= i < j < |l.txns| && l.txns[i].transactionId.Some? ==>
      l.txns[i].transactionId != l.txns[j].transactionId
  }

  /** At most one completed transaction per payment. */
  ghost predicate OneCompleted(l: Ledger) {
    forall i, j :: 0 <= i < j < |l.txns| && l.txns[i].payment == l.txns[j].payment ==>
      !(l.txns[i].status.Completed? && l.txns[j].status.Completed?)
  }

  /** All transactions of a payment carry one price and currency. */
  ghost predicate OneSnapshot(l: Ledger) {
    forall i, j :: 0 <= i < |l.txns| && 0 <= j < |l.txns| && l.txns[i].payment == l.txns[j].payment ==>
      l.txns[i].amount == l.txns[j].amount && l.txns[i].currency == l.txns[j].currency
  }

  ghost predicate HasCompleted(l: Ledger, s: nat) {
    exists i :: 0 <= i < |l.txns| && l.txns[i].payment == s && l.txns[i].status.Completed?
  }

  ghost predicate HasTxn(l: Ledger, s: nat) {
    exists i :: 0 <= i < |l.txns| && l.txns[i].payment == s
  }

  ghost predicate PaymentOk(l: Ledger, s: nat)
    requires s < |l.payments|
  {
    && HasTxn(l, s)
    && (l.payments[s].status.Completed? <==> s in l.activations)
    && (l.payments[s].status.Completed? ==> HasCompleted(l, s))
    && (l.payments[s].status.Pending? ==> exists t :: Untouched(l, s, t))
  }

  ghost predicate PaymentsOk(l: Ledger) {
    forall s :: 0 <= s < |l.payments| ==> PaymentOk(l, s)
  }

  ghost predicate ActivationsOk(l: Ledger) {
    && (forall a :: 0 <= a < |l.activations| ==> l.activations[a] < |l.payments|)
    && (forall a, b :: 0 <= a < b < |l.activations| ==> l.activations[a] != l.activations[b])
  }

  ghost predicate Inv(l: Ledger) {
    TxnsOk(l) && IdsUnique(l) && OneCompleted(l) && OneSnapshot(l) && PaymentsOk(l) && ActivationsOk(l)
  }

  // ---- What the invariant says in the terms of the records

  /** The payment has been marked failed after its initiation and its transaction has not yet. */
  ghost predicate HalfMarked(l: Ledger, s: nat) {
    s < |l.payments| && l.payments[s].status.Failed? && exists t :: Untouched(l, s, t)
  }

  /** Outside the two saves of `_mark_failed` a payment is PENDING exactly if its only transaction is the
    * untouched row of its initiation.
    */
  lemma PendingIffUntouched(l: Ledger, s: nat)
    requires Inv(l) && s < |l.payments| && !HalfMarked(l, s)
    ensures l.payments[s].status.Pending? <==> exists t :: Untouched(l, s, t)
  {
    assert PaymentOk(l, s);
  }

  ghost function CompletedTxns(l: Ledger, s: nat): set<nat> {
    set i | 0 <= i < |l.txns| && l.txns[i].payment == s && l.txns[i].status.Completed?
  }

  /** A COMPLETED payment has exactly one completed transaction and was activated exactly once; any
    * other payment has none and was never activated.
    */
  lemma CompletedMeansPaidOnce(l: Ledger, s: nat)
    requires Inv(l) && s < |l.payments|
    ensures |CompletedTxns(l, s)| == multiset(l.activations)[s] == if l.payments[s].status.Completed? then 1 else 0
  {
    assert PaymentOk(l, s);
    DistinctCount(l.activations, s);
    if l.payments[s].status.Completed? {
      var i :| 0 <= i < |l.txns| && l.txns[i].payment == s && l.txns[i].status.Completed?;
      assert CompletedTxns(l, s) == {i};
    } else {
      assert CompletedTxns(l, s) == {};
    }
  }

  lemma {:induction false} DistinctCount(a: seq<nat>, s: nat)
    requires forall i, j :: 0 <= i < j < |a| ==> a[i] != a[j]
    ensures multiset(a)[s] == if s in a then 1 else 0
  {
    if a != [] {
      DistinctCount(a[1..], s);
      assert a == [a[0]] + a[1..];
    }
  }

  // ---- Every step keeps it

  /** The rows `RowFor` finds. */
  lemma RowForFits(l: Ledger, s: nat, e: Event, now: int)
    requires Inv(l) && s < |l.payments|
    requires FindId(l.txns, e.transactionId).Some? ==> l.txns[FindId(l.txns, e.transactionId).value].payment == s
    ensures var r := RowFor(l, s, e, now);
            && r.Some? && r.value.1.payment == s
            && (exists i :: 0 <= i < |l.txns| && l.txns[i].payment == s
                            && l.txns[i].amount == r.value.1.amount && l.txns[i].currency == r.value.1.currency)
            && (forall i :: 0 <= i < |l.txns| && i != r.value.0 ==> l.txns[i].transactionId != Some(e.transactionId))
            && (forall i :: 0 <= i < |l.txns| && i != r.value.0 && l.txns[i].payment == s ==>
                  !l.txns[i].status.Pending?)
            && (FindId(l.txns, e.transactionId).None? && r.value.0 < |l.txns| ==>
                  l.txns[r.value.0].status.Pending?)
  {
    assert PaymentOk(l, s);
    var i :| 0 <= i < |l.txns| && l.txns[i].payment == s;
  }

  /** Saving a final row for payment `s` whose payment is set to match. */
  lemma SaveKeepsTxnsOk(l: Ledger, s: nat, t: nat, row: Txn, status: Status, activations: seq<nat>)
    requires TxnsOk(l) && s < |l.payments| && t <= |l.txns|
    requires row.payment == s && row.transactionId.Some? && !row.status.Pending?
    requires t < |l.txns| ==> l.txns[t].payment == s
    requires forall i :: 0 <= i < |l.txns| && i != t && l.txns[i].payment == s ==> !l.txns[i].status.Pending?
    requires row.status.Completed? ==> status.Completed?
    requires l.payments[s].status.Completed? ==> status.Completed?
    ensures TxnsOk(Ledger(l.payments[s := l.payments[s].(status := status)], SaveTxn(l.txns, t, row), activations))
  {
    var txns := SaveTxn(l.txns, t, row);
    assert txns[t] == row && forall i :: 0 <= i < |txns| && i != t ==> txns[i] == l.txns[i];
  }

  lemma SaveKeepsRows(l: Ledger, s: nat, t: nat, row: Txn, status: Status, activations: seq<nat>)
    requires TxnsOk(l) && IdsUnique(l) && OneCompleted(l) && OneSnapshot(l) && s < |l.payments| && t <= |l.txns|
    requires row.payment == s && row.transactionId.Some?
    requires forall i :: 0 <= i < |l.txns| && i != t ==> l.txns[i].transactionId != row.transactionId
    requires exists i :: 0 <= i < |l.txns| && l.txns[i].payment == s
                         && l.txns[i].amount == row.amount && l.txns[i].currency == row.currency
    requires row.status.Completed? ==> !l.payments[s].status.Completed?
    ensures var l' := Ledger(l.payments[s := l.payments[s].(status := status)], SaveTxn(l.txns, t, row), activations);
            IdsUnique(l') && OneCompleted(l') && OneSnapshot(l')
  {
    var txns := SaveTxn(l.txns, t, row);
    assert txns[t] == row && forall i :: 0 <= i < |txns| && i != t ==> txns[i] == l.txns[i];
  }

  lemma SaveKeepsPayments(l: Ledger, s: nat, t: nat, row: Txn, status: Status, activations: seq<nat>)
    requires Inv(l) && s < |l.payments| && t <= |l.txns|
    requires row.payment == s && !row.status.Pending? && !status.Pending?
    requires t < |l.txns| ==> l.txns[t].payment == s
    requires row.status.Completed? ==> status.Completed? && activations == l.activations + [s]
    requires row.status.Failed? ==>
               status == (if l.payments[s].status.Pending? then Failed else l.payments[s].status)
               && activations == l.activations && (t < |l.txns| ==> !l.txns[t].status.Completed?)
    ensures PaymentsOk(Ledger(l.payments[s := l.payments[s].(status := status)], SaveTxn(l.txns, t, row), activations))
  {
    var txns := SaveTxn(l.txns, t, row);
    var l' := Ledger(l.payments[s := l.payments[s].(status := status)], txns, activations);
    assert txns[t] == row;
    assert forall i :: 0 <= i < |txns| && i != t ==> txns[i] == l.txns[i];
    forall p | 0 <= p < |l.payments|
      ensures PaymentOk(l', p)
    {
      assert PaymentOk(l, p);
      if p == s {
        if row.status.Failed? && status.Completed? {
          var i :| 0 <= i < |l.txns| && l.txns[i].payment == s && l.txns[i].status.Completed?;
          assert txns[i] == l.txns[i];
        }
      } else {
        OtherPaymentKept(l, l', p, t);
      }
    }
  }

  /** A change to one row of another payment leaves payment `p` as it was. */
  lemma OtherPaymentKept(l: Ledger, l': Ledger, p: nat, t: nat)
    requires p < |l.payments| == |l'.payments| && PaymentOk(l, p) && l'.payments[p] == l.payments[p]
    requires |l.txns| <= |l'.txns| && t < |l'.txns| && l'.txns[t].payment != p
    requires forall i :: 0 <= i < |l'.txns| && i != t ==> i < |l.txns| && l'.txns[i] == l.txns[i]
    requires t < |l.txns| ==> l.txns[t].payment != p
    requires p in l'.activations <==> p in l.activations
    ensures PaymentOk(l', p)
  {
    var i :| 0 <= i < |l.txns| && l.txns[i].payment == p;
    assert l'.txns[i] == l.txns[i];
    if l.payments[p].status.Completed? {
      var c :| 0 <= c < |l.txns| && l.txns[c].payment == p && l.txns[c].status.Completed?;
      assert l'.txns[c] == l.txns[c];
    }
    if l.payments[p].status.Pending? {
      var u: nat :| Untouched(l, p, u);
      assert Untouched(l', p, u);
    }
  }

  lemma RecordKeepsInv(l: Ledger, s: nat, t: nat, row: Txn, status: Status, activations: seq<nat>)
    requires Inv(l) && s < |l.payments| && t <= |l.txns|
    requires row.payment == s && row.transactionId.Some? && !row.status.Pending?
    requires t < |l.txns| ==> l.txns[t].payment == s && !l.txns[t].status.Completed?
    requires forall i :: 0 <= i < |l.txns| && i != t ==> l.txns[i].transactionId != row.transactionId
    requires exists i :: 0 <= i < |l.txns| && l.txns[i].payment == s
                         && l.txns[i].amount == row.amount && l.txns[i].currency == row.currency
    requires forall i :: 0 <= i < |l.txns| && i != t && l.txns[i].payment == s ==> !l.txns[i].status.Pending?
    requires row.status.Completed? ==>
               status.Completed? && !l.payments[s].status.Completed? && activations == l.activations + [s]
    requires row.status.Failed? ==>
               status == (if l.payments[s].status.Pending? then Failed else l.payments[s].status)
               && activations == l.activations
    ensures Inv(Ledger(l.payments[s := l.payments[s].(status := status)], SaveTxn(l.txns, t, row), activations))
  {
    assert PaymentOk(l, s);
    SaveKeepsTxnsOk(l, s, t, row, status, activations);
    SaveKeepsRows(l, s, t, row, status, activations);
    SaveKeepsPayments(l, s, t, row, status, activations);
  }

  /** The event processor keeps the invariant. */
  lemma ProcessKeepsInv(l: Ledger, e: Event, now: int, fault: bool)
    requires Inv(l)
    ensures Inv(Process(l, e, now, fault).ledger)
  {
    if Final(e) && Resolve(l, e).Some? && Resolve(l, e).value < |l.payments| {
      ApplyKeepsInv(l, Resolve(l, e).value, e, now, fault);
    }
  }

  lemma ApplyKeepsInv(l: Ledger, s: nat, e: Event, now: int, fault: bool)
    requires Inv(l) && s < |l.payments|
    ensures Inv(Apply(l, s, e, now, fault).ledger)
  {
    var known := FindId(l.txns, e.transactionId);
    if known.None? || (!l.txns[known.value].status.Completed? && l.txns[known.value].payment == s) {
      RowForFits(l, s, e, now);
      var (t, row) := RowFor(l, s, e, now).value;
      var status := l.payments[s].status;
      if e.success && AmountMatches(e, row.amount, row.currency) && !status.Completed? && !fault {
        RecordKeepsInv(l, s, t, row.(transactionId := Some(e.transactionId), status := Completed), Completed,
                       l.activations + [s]);
      } else if !e.success {
        RecordKeepsInv(l, s, t, row.(transactionId := Some(e.transactionId), status := Failed),
                       if status.Pending? then Failed else status, l.activations);
      }
    }
  }

  lemma CreateKeepsInv(l: Ledger, business: int, plan: int, price: real, currency: string, now: int)
    requires Inv(l)
    ensures Inv(Create(l, business, plan, price, currency, now))
    ensures Untouched(Create(l, business, plan, price, currency, now), |l.payments|, |l.txns|)
  {
    var l' := Create(l, business, plan, price, currency, now);
    assert forall i :: 0 <= i < |l.txns| ==> l'.txns[i] == l.txns[i];
    assert Untouched(l', |l.payments|, |l.txns|);
    CreateKeepsRows(l, l');
    CreateKeepsPayments(l, l');
  }

  lemma CreateKeepsRows(l: Ledger, l': Ledger)
    requires TxnsOk(l) && IdsUnique(l) && OneCompleted(l) && OneSnapshot(l)
    requires |l'.payments| == |l.payments| + 1 && forall s :: 0 <= s < |l.payments| ==> l'.payments[s] == l.payments[s]
    requires |l'.txns| == |l.txns| + 1 && forall i :: 0 <= i < |l.txns| ==> l'.txns[i] == l.txns[i]
    requires Untouched(l', |l.payments|, |l.txns|) && l'.payments[|l.payments|].status.Pending?
    ensures TxnsOk(l') && IdsUnique(l') && OneCompleted(l') && OneSnapshot(l')
  {
  }

  lemma CreateKeepsPayments(l: Ledger, l': Ledger)
    requires PaymentsOk(l) && ActivationsOk(l) && l'.activations == l.activations
    requires |l'.payments| == |l.payments| + 1 && forall s :: 0 <= s < |l.payments| ==> l'.payments[s] == l.payments[s]
    requires |l'.txns| == |l.txns| + 1 && forall i :: 0 <= i < |l.txns| ==> l'.txns[i] == l.txns[i]
    requires Untouched(l', |l.payments|, |l.txns|) && l'.payments[|l.payments|].status.Pending?
    ensures PaymentsOk(l')
  {
    forall s | 0 <= s < |l'.payments|
      ensures PaymentOk(l', s)
    {
      if s < |l.payments| {
        assert PaymentOk(l, s);
        CreateKeepsPayment(l, l', s);
      } else {
        assert l'.txns[|l.txns|].payment == s;
      }
    }
  }

  lemma CreateKeepsPayment(l: Ledger, l': Ledger, s: nat)
    requires s < |l.payments| && PaymentOk(l, s) && l'.activations == l.activations
    requires |l'.payments| == |l.payments| + 1 && l'.payments[s] == l.payments[s]
    requires |l'.txns| == |l.txns| + 1 && l'.txns[|l.txns|].payment == |l.payments|
    requires forall i :: 0 <= i < |l.txns| ==> l'.txns[i] == l.txns[i]
    ensures PaymentOk(l', s)
  {
    var i :| 0 <= i < |l.txns| && l.txns[i].payment == s;
    assert l'.txns[i].payment == s;
    if l.payments[s].status.Completed? {
      var c :| 0 <= c < |l.txns| && l.txns[c].payment == s && l.txns[c].status.Completed?;
      assert l'.txns[c] == l.txns[c];
    }
    if l.payments[s].status.Pending? {
      var u: nat :| Untouched(l, s, u);
      assert Untouched(l', s, u);
    }
  }

  lemma RecordReferenceKeepsInv(l: Ledger, s: nat, reference: string)
    requires Inv(l) && s < |l.payments|
    ensures Inv(RecordReference(l, s, reference))
  {
    var l' := RecordReference(l, s, reference);
    forall p | 0 <= p < |l.payments|
      ensures PaymentOk(l', p)
    {
      assert PaymentOk(l, p);
      StatusDecidesPayment(l, l', p);
    }
  }

  lemma StatusDecidesPayment(l: Ledger, l': Ledger, p: nat)
    requires p < |l.payments| == |l'.payments| && PaymentOk(l, p)
    requires l'.txns == l.txns && l'.activations == l.activations && l'.payments[p].status == l.payments[p].status
    ensures PaymentOk(l', p)
  {
    assert HasTxn(l', p) == HasTxn(l, p);
    assert HasCompleted(l', p) == HasCompleted(l, p);
    if l.payments[p].status.Pending? {
      var u: nat :| Untouched(l, p, u);
      assert Untouched(l', p, u);
    }
  }

  /** The first save of a failure marking keeps the invariant exactly if no event completed the payment in
    * the meantime.
    */
  lemma MarkPaymentFailedKeepsInvIff(l: Ledger, s: nat)
    requires Inv(l) && s < |l.payments|
    ensures Inv(MarkPaymentFailed(l, s)) <==> !l.payments[s].status.Completed?
  {
    var l' := MarkPaymentFailed(l, s);
    assert PaymentOk(l, s);
    if l.payments[s].status.Completed? {
      assert !PaymentOk(l', s);
    } else {
      forall p | 0 <= p < |l.payments|
        ensures PaymentOk(l', p)
      {
        assert PaymentOk(l, p);
        if p == s {
          assert HasTxn(l', p) == HasTxn(l, p);
        } else {
          StatusDecidesPayment(l, l', p);
        }
      }
    }
  }

  /** The second save, on a payment that is not PENDING any more, keeps it exactly if no event completed the
    * transaction in the meantime.
    */
  lemma MarkTxnFailedKeepsInvIff(l: Ledger, t: nat)
    requires Inv(l) && t < |l.txns| && !l.payments[l.txns[t].payment].status.Pending?
    ensures Inv(MarkTxnFailed(l, t)) <==> !l.txns[t].status.Completed?
  {
    var l', s := MarkTxnFailed(l, t), l.txns[t].payment;
    assert PaymentOk(l, s);
    if l.txns[t].status.Completed? {
      assert !HasCompleted(l', s);
      assert !PaymentOk(l', s);
    } else {
      forall p | 0 <= p < |l.payments|
        ensures PaymentOk(l', p)
      {
        assert PaymentOk(l, p);
        MarkTxnKeepsPayment(l, t, p);
      }
    }
  }

  lemma MarkTxnKeepsPayment(l: Ledger, t: nat, p: nat)
    requires TxnsOk(l) && t < |l.txns| && p < |l.payments| && PaymentOk(l, p)
    requires !l.txns[t].status.Completed? && !l.payments[l.txns[t].payment].status.Pending?
    ensures PaymentOk(MarkTxnFailed(l, t), p)
  {
    var l' := MarkTxnFailed(l, t);
    var i :| 0 <= i < |l.txns| && l.txns[i].payment == p;
    assert l'.txns[i].payment == p;
    if l.payments[p].status.Completed? {
      var c :| 0 <= c < |l.txns| && l.txns[c].payment == p && l.txns[c].status.Completed?;
      assert l'.txns[c] == l.txns[c];
    }
    if l.payments[p].status.Pending? {
      var u: nat :| Untouched(l, p, u);
      assert Untouched(l', p, u);
    }
  }

  /** With no event in between, the two saves end the marking: the payment and its row are FAILED. */
  lemma MarkedInFull(l: Ledger, s: nat, t: nat)
    requires Inv(l) && t < |l.txns| && l.txns[t].payment == s && !l.payments[s].status.Completed?
    ensures var l' := MarkTxnFailed(MarkPaymentFailed(l, s), t);
            Inv(l') && l'.payments[s].status.Failed? && l'.txns[t].status.Failed? && !HalfMarked(l', s)
  {
    MarkPaymentFailedKeepsInvIff(l, s);
    MarkTxnFailedKeepsInvIff(MarkPaymentFailed(l, s), t);
  }
}
