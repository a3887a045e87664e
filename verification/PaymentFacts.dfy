/** What events do to the payment records, said in the fields of events and rows alone. */
module PaymentFacts {
  import opened Wrappers
  import opened Decimal
  import opened Money
  import opened Payments
  import opened PaymentRuns
  import opened PaymentHistory
  import opened Reconcile

  // ---- An exact payment

  /** `cents` is the price in minor units, rounded to the nearest with halves away from zero. */
  predicate IsCents(cents: int, price: real) {
    if price >= 0.0 then cents as real - 0.5 <= price * 100.0 < cents as real + 0.5
    else cents as real - 0.5 < price * 100.0 <= cents as real + 0.5
  }

  predicate SameLetter(a: char, b: char) {
    || a == b
    || ('a' <= a <= 'z' && b as int + 32 == a as int)
    || ('a' <= b <= 'z' && a as int + 32 == b as int)
  }

  /** The currency codes agree up to the case of their letters. */
  predicate SameCurrency(a: string, b: string) {
    |a| == |b| && forall i :: 0 <= i < |a| ==> SameLetter(a[i], b[i])
  }

  /** A final success over exactly this price in this currency. */
  predicate PaysExactly(e: Event, price: real, currency: string) {
    && !e.pending && !e.isVoided && !e.isRefunded && e.success
    && e.amountCents.Some? && IsCents(e.amountCents.value, price) && SameCurrency(e.currency, currency)
  }

  lemma CentsInNumbers(cents: int, price: real)
    ensures ToCents(price) == cents <==> IsCents(cents, price)
  {
    var x := price * 100.0;
    if IsCents(cents, price) {
      assert -1.0 < (ToCents(price) as real) - (cents as real) < 1.0 || ToCents(price) == cents;
    }
  }

  /** For prices with two decimals nothing is rounded. */
  lemma TwoDecimalsAreExact(cents: int, price: real, n: int)
    requires IsCents(cents, price) && price * 100.0 == n as real
    ensures cents == n
  {
    var d := cents - n;
    assert d as real == cents as real - n as real;
    assert -1.0 < d as real < 1.0;
  }

  lemma UpperInLetters(a: string, b: string)
    ensures Upper(a) == Upper(b) <==> SameCurrency(a, b)
  {
    if Upper(a) == Upper(b) {
      forall i | 0 <= i < |a|
        ensures SameLetter(a[i], b[i])
      {
        assert Upper(a)[i] == Upper(b)[i];
      }
    }
    if SameCurrency(a, b) {
      assert forall i :: 0 <= i < |a| ==> SameLetter(a[i], b[i]) && Upper(a)[i] == Upper(b)[i];
    }
  }

  lemma MatchInFields(e: Event, price: real, currency: string)
    ensures AmountMatches(e, price, currency)
            <==> e.amountCents.Some? && IsCents(e.amountCents.value, price) && SameCurrency(e.currency, currency)
  {
    UpperInLetters(e.currency, currency);
    if e.amountCents.Some? {
      CentsInNumbers(e.amountCents.value, price);
    }
  }

  // ---- The payment an event names

  predicate IsKnown(l: Ledger, id: string) {
    exists i :: 0 <= i < |l.txns| && l.txns[i].transactionId == Some(id)
  }

  predicate KnownFor(l: Ledger, id: string, s: nat) {
    exists i :: 0 <= i < |l.txns| && l.txns[i].transactionId == Some(id) && l.txns[i].payment == s
  }

  predicate IsReferenced(l: Ledger, reference: string) {
    exists p :: 0 <= p < |l.payments| && l.payments[p].reference == reference
  }

  predicate NewestWith(l: Ledger, reference: string, s: nat) {
    s < |l.payments| && l.payments[s].reference == reference
    && forall p :: s < p < |l.payments| ==> l.payments[p].reference != reference
  }

  predicate IsMerchantReference(reference: string, s: nat) {
    && |reference| > 13 && reference[..13] == "payments-sub-"
    && AllDigits(reference[13..]) && NumberOf(reference[13..]) == s + 1
  }

  /** The event is about payment `s`: its transaction is on record for it; or, if it is on no record, the gateway's
    * order is the newest with that reference; or, if no payment has that reference, the merchant's reference
    * is the primary key of the payment.
    */
  predicate Names(l: Ledger, e: Event, s: nat) {
    s < |l.payments| &&
    if IsKnown(l, e.transactionId) then KnownFor(l, e.transactionId, s)
    else if e.orderId != "" && IsReferenced(l, e.orderId) then NewestWith(l, e.orderId, s)
    else IsMerchantReference(e.merchantOrderId, s)
  }

  lemma MerchantInFields(payments: seq<Payment>, reference: string, s: nat)
    ensures ByMerchant(payments, reference) == Some(s) <==> s < |payments| && IsMerchantReference(reference, s)
  {
    assert |MERCHANT_PREFIX| == 13;
  }

  lemma ReferencesInFields(l: Ledger, e: Event, s: nat)
    requires !IsKnown(l, e.transactionId)
    ensures ByReferences(l.payments, e) == Some(s) <==> Names(l, e, s)
  {
    var found := LastByReference(l.payments, e.orderId);
    MerchantInFields(l.payments, e.merchantOrderId, s);
    assert found.Some? ==> IsReferenced(l, e.orderId);
    if found.Some? && NewestWith(l, e.orderId, s) {
      assert s == found.value;
    }
  }

  lemma ResolveInFields(l: Ledger, e: Event, s: nat)
    requires Inv(l)
    ensures Resolve(l, e) == Some(s) <==> Names(l, e, s)
  {
    var known := FindId(l.txns, e.transactionId);
    if known.None? {
      ReferencesInFields(l, e, s);
    } else {
      assert IsKnown(l, e.transactionId);
      if KnownFor(l, e.transactionId, s) {
        var i :| 0 <= i < |l.txns| && l.txns[i].transactionId == Some(e.transactionId) && l.txns[i].payment == s;
        assert i == known.value;
      }
    }
  }

  // ---- What one event does

  /** `txns'` is `txns` with the event's result on one row of payment `s`: the row with the event's id; or, if there
    * is none, the first row no event has touched; or, if there is none either, a new row of the same price.
    */
  ghost predicate RecordedAt(txns: seq<Txn>, txns': seq<Txn>, s: nat, id: string, status: Status, now: int, t: nat) {
    && t < |txns'| && |txns| <= |txns'|
    && (forall i :: 0 <= i < |txns'| && i != t ==> i < |txns| && txns'[i] == txns[i])
    && txns'[t].payment == s && txns'[t].transactionId == Some(id) && txns'[t].status == status
    && (forall i :: 0 <= i < |txns| && txns[i].payment == s ==>
          txns[i].amount == txns'[t].amount && txns[i].currency == txns'[t].currency)
    && (forall i :: 0 <= i < |txns| && txns[i].transactionId == Some(id) ==> i == t)
    && (t < |txns| ==>
          && txns'[t].createdAt == txns[t].createdAt && txns[t].payment == s
          && (txns[t].transactionId == Some(id) || (txns[t].transactionId == None && txns[t].status == Pending))
          && (txns[t].transactionId == None ==>
                forall i :: 0 <= i < t ==> !(txns[i].payment == s && txns[i].transactionId == None
                                             && txns[i].status == Pending)))
    && (t == |txns| ==>
          && txns'[t].createdAt == now
          && forall i :: 0 <= i < |txns| && txns[i].payment == s ==> txns[i].status != Pending)
  }

  ghost predicate Recorded(txns: seq<Txn>, txns': seq<Txn>, s: nat, id: string, status: Status, now: int) {
    exists t: nat :: RecordedAt(txns, txns', s, id, status, now, t)
  }

  predicate KnownCompleted(l: Ledger, id: string) {
    exists i :: 0 <= i < |l.txns| && l.txns[i].transactionId == Some(id) && l.txns[i].status == Completed
  }

  /** The row `i` of payment `s` carries the price the event pays. */
  predicate PaysRow(l: Ledger, e: Event, s: nat, i: nat) {
    i < |l.txns| && l.txns[i].payment == s && PaysExactly(e, l.txns[i].amount, l.txns[i].currency)
  }

  lemma PaysInFields(e: Event, price: real, currency: string)
    ensures Pays(e, price, currency) <==> PaysExactly(e, price, currency)
  {
    MatchInFields(e, price, currency);
  }

  /** An event that is pending, voided or refunded changes nothing. */
  lemma UnfinishedChangesNothing(l: Ledger, e: Event, now: int, fault: bool)
    requires e.pending || e.isVoided || e.isRefunded
    ensures Process(l, e, now, fault) == Processed(l, Ignored)
  {
  }

  /** Nor does one that names no payment. */
  lemma UnnamedChangesNothing(l: Ledger, e: Event, now: int, fault: bool)
    requires Inv(l) && !e.pending && !e.isVoided && !e.isRefunded && forall s: nat :: !Names(l, e, s)
    ensures Process(l, e, now, fault) == Processed(l, Unmatched)
  {
    if Resolve(l, e).Some? {
      ResolveInFields(l, e, Resolve(l, e).value);
    }
  }

  lemma NamedIsApplied(l: Ledger, e: Event, now: int, fault: bool, s: nat)
    requires Inv(l) && !e.pending && !e.isVoided && !e.isRefunded && Names(l, e, s)
    ensures Process(l, e, now, fault) == Apply(l, s, e, now, fault)
    ensures var known := FindId(l.txns, e.transactionId);
            && (known.Some? ==> l.txns[known.value].payment == s)
            && (KnownCompleted(l, e.transactionId) <==> known.Some? && l.txns[known.value].status == Completed)
  {
    ResolveInFields(l, e, s);
    var known := FindId(l.txns, e.transactionId);
    if known.Some? {
      assert IsKnown(l, e.transactionId);
      if KnownCompleted(l, e.transactionId) {
        var i :| 0 <= i < |l.txns| && l.txns[i].transactionId == Some(e.transactionId) && l.txns[i].status == Completed;
        assert i == known.value;
      }
    }
  }

  /** Nor does one whose transaction is already completed. */
  lemma DuplicateChangesNothing(l: Ledger, e: Event, now: int, fault: bool, s: nat)
    requires Inv(l) && !e.pending && !e.isVoided && !e.isRefunded && Names(l, e, s)
    requires KnownCompleted(l, e.transactionId)
    ensures Process(l, e, now, fault) == Processed(l, Duplicate)
  {
    NamedIsApplied(l, e, now, fault, s);
  }

  lemma RowCarriesPrice(l: Ledger, s: nat, e: Event, now: int, i: nat)
    requires Inv(l) && s < |l.payments| && i < |l.txns| && l.txns[i].payment == s
    requires FindId(l.txns, e.transactionId).Some? ==> l.txns[FindId(l.txns, e.transactionId).value].payment == s
    ensures RowFor(l, s, e, now).Some?
    ensures RowFor(l, s, e, now).value.1.amount == l.txns[i].amount
    ensures RowFor(l, s, e, now).value.1.currency == l.txns[i].currency
  {
    RowForFits(l, s, e, now);
  }

  /** A final success over other cents or another currency than the payment's changes nothing. */
  lemma MismatchChangesNothing(l: Ledger, e: Event, now: int, fault: bool, s: nat, i: nat)
    requires Inv(l) && !e.pending && !e.isVoided && !e.isRefunded && e.success && Names(l, e, s)
    requires i < |l.txns| && l.txns[i].payment == s && !PaysRow(l, e, s, i)
    ensures Process(l, e, now, fault).ledger == l
    ensures Process(l, e, now, fault).outcome == if KnownCompleted(l, e.transactionId) then Duplicate else Rejected
  {
    NamedIsApplied(l, e, now, fault, s);
    RowCarriesPrice(l, s, e, now, i);
    MatchInFields(e, l.txns[i].amount, l.txns[i].currency);
  }

  lemma SavedIsRecorded(l: Ledger, e: Event, s: nat, now: int, status: Status)
    requires Inv(l) && s < |l.payments|
    requires FindId(l.txns, e.transactionId).Some? ==> l.txns[FindId(l.txns, e.transactionId).value].payment == s
    ensures RowFor(l, s, e, now).Some?
    ensures var (t, row) := RowFor(l, s, e, now).value;
            Recorded(l.txns, SaveTxn(l.txns, t, row.(transactionId := Some(e.transactionId), status := status)), s,
                     e.transactionId, status, now)
  {
    RowForFits(l, s, e, now);
    var (t, row) := RowFor(l, s, e, now).value;
    var txns' := SaveTxn(l.txns, t, row.(transactionId := Some(e.transactionId), status := status));
    forall i | 0 <= i < |l.txns| && l.txns[i].payment == s
      ensures l.txns[i].amount == txns'[t].amount && l.txns[i].currency == txns'[t].currency
    {
      RowCarriesPrice(l, s, e, now, i);
    }
    assert RecordedAt(l.txns, txns', s, e.transactionId, status, now, t);
  }

  /** A final success over the exact price activates once: the event is recorded on one row, the payment becomes
    * COMPLETED, and the rest stays.  It is ignored on a COMPLETED payment, and a failing activation undoes all.
    */
  lemma ExactSuccessActivates(l: Ledger, e: Event, now: int, fault: bool, s: nat, i: nat)
    requires Inv(l) && Names(l, e, s) && PaysRow(l, e, s, i) && !KnownCompleted(l, e.transactionId)
    ensures var done := Process(l, e, now, fault);
            if l.payments[s].status == Completed then done == Processed(l, Ignored)
            else if fault then done == Processed(l, Raised)
            else
              && done.outcome == Activated && done.ledger.activations == l.activations + [s]
              && done.ledger.payments == l.payments[s := l.payments[s].(status := Completed)]
              && Recorded(l.txns, done.ledger.txns, s, e.transactionId, Completed, now)
  {
    NamedIsApplied(l, e, now, fault, s);
    RowCarriesPrice(l, s, e, now, i);
    MatchInFields(e, l.txns[i].amount, l.txns[i].currency);
    SavedIsRecorded(l, e, s, now, Completed);
  }

  /** A final failure is recorded on one row, fails a PENDING payment and activates nothing. */
  lemma FailureIsRecorded(l: Ledger, e: Event, now: int, fault: bool, s: nat)
    requires Inv(l) && !e.pending && !e.isVoided && !e.isRefunded && !e.success && Names(l, e, s)
    requires !KnownCompleted(l, e.transactionId)
    ensures var done := Process(l, e, now, fault);
            && done.outcome == FailureRecorded && done.ledger.activations == l.activations
            && done.ledger.payments
                 == l.payments[s := if l.payments[s].status == Pending then l.payments[s].(status := Failed)
                                    else l.payments[s]]
            && Recorded(l.txns, done.ledger.txns, s, e.transactionId, Failed, now)
  {
    NamedIsApplied(l, e, now, fault, s);
    SavedIsRecorded(l, e, s, now, Failed);
  }

  // ---- Whole runs

  /** Every activation of a run goes back to a delivered final success over exactly the price and the currency of the
    * payment's initiation, to the cent.
    */
  lemma EveryActivationWasPaid(steps: seq<Step>, a: nat) returns (k: nat)
    requires Possible(steps) && a < |After(steps).activations|
    ensures k < |steps| && steps[k].Deliver?
    ensures var s := After(steps).activations[a];
            && s < |Initiations(steps)|
            && PaysExactly(steps[k].e, Initiations(steps)[s].price, Initiations(steps)[s].currency)
            && forall c: int :: Initiations(steps)[s].price * 100.0 == c as real ==> steps[k].e.amountCents == Some(c)
  {
    k := ActivationsAreBacked(steps, a);
    var s := After(steps).activations[a];
    var price := Initiations(steps)[s].price;
    MatchInFields(steps[k].e, price, Initiations(steps)[s].currency);
    forall c: int | price * 100.0 == c as real
      ensures steps[k].e.amountCents == Some(c)
    {
      TwoDecimalsAreExact(steps[k].e.amountCents.value, price, c);
    }
  }

  predicate NamesUnknown(l: Ledger, e: Event, s: nat) {
    !IsKnown(l, e.transactionId) && Names(l, e, s)
  }

  /** New events about one payment, in any order and with any repetition: it ends COMPLETED exactly if it was or one of
    * them is a final success over its exact price, else FAILED exactly if it was or one is a final failure.
    */
  lemma EventsDecide(l: Ledger, events: seq<Delivery>, s: nat, i: nat)
    requires Inv(l) && i < |l.txns| && l.txns[i].payment == s && s < |l.payments|
    requires forall k :: 0 <= k < |events| ==> NamesUnknown(l, events[k].e, s)
    ensures var l', before := DeliverAll(l, events), l.payments[s].status;
            && s < |l'.payments|
            && (l'.payments[s].status == Completed <==>
                  before == Completed || exists k :: 0 <= k < |events| && PaysRow(l, events[k].e, s, i))
            && (l'.payments[s].status == Pending <==>
                  && before == Pending
                  && forall k :: 0 <= k < |events| ==>
                       || events[k].e.pending || events[k].e.isVoided || events[k].e.isRefunded
                       || (events[k].e.success && !PaysRow(l, events[k].e, s, i)))
            && l'.activations
                 == if l'.payments[s].status == Completed && before != Completed then l.activations + [s]
                    else l.activations
  {
    forall k | 0 <= k < |events|
      ensures ForPayment(l, events[k].e, s)
    {
      assert NamesUnknown(l, events[k].e, s);
      ReferencesInFields(l, events[k].e, s);
    }
    DeliveryVerdict(l, events, s, i);
    forall k | 0 <= k < |events|
      ensures Pays(events[k].e, l.txns[i].amount, l.txns[i].currency) <==> PaysRow(l, events[k].e, s, i)
    {
      PaysInFields(events[k].e, l.txns[i].amount, l.txns[i].currency);
    }
    assert l.activations + [] == l.activations;
  }

  // ---- When a failure marking is under way

  predicate EndsMarking(steps: seq<Step>, j: nat, s: nat)
    requires Possible(steps) && j < |steps|
  {
    steps[j].FailTxn? && Possible(steps[..j]) && steps[j].t < |After(steps[..j]).txns|
    && After(steps[..j]).txns[steps[j].t].payment == s
  }

  /** Step `k` marks the payment failed, and no later one marks a transaction of it. */
  predicate MarkedAt(steps: seq<Step>, k: nat, s: nat)
    requires Possible(steps)
  {
    k < |steps| && steps[k] == FailPayment(s) && forall j: nat :: k < j < |steps| ==> !EndsMarking(steps, j, s)
  }

  lemma MarkedBefore(steps: seq<Step>, k: nat, s: nat)
    requires Possible(steps) && steps != [] && Possible(steps[..|steps| - 1]) && k < |steps| - 1
    ensures MarkedAt(steps, k, s) <==> MarkedAt(steps[..|steps| - 1], k, s) && !EndsMarking(steps, |steps| - 1, s)
  {
    var before := steps[..|steps| - 1];
    forall j: nat | j < |before|
      ensures EndsMarking(steps, j, s) <==> EndsMarking(before, j, s)
    {
      assert before[..j] == steps[..j];
    }
  }

  lemma {:induction false} UnderwayInSteps(steps: seq<Step>, s: nat)
    requires Possible(steps)
    ensures MarkingUnderway(steps, s) <==> exists k: nat :: MarkedAt(steps, k, s)
  {
    if steps != [] {
      var n := |steps| - 1;
      UnderwayInSteps(steps[..n], s);
      forall k: nat | k < n
        ensures MarkedAt(steps, k, s) <==> MarkedAt(steps[..n], k, s) && !EndsMarking(steps, n, s)
      {
        MarkedBefore(steps, k, s);
      }
      assert MarkedAt(steps, n, s) <==> steps[n] == FailPayment(s);
      if k: nat :| MarkedAt(steps[..n], k, s) {
        assert k < n;
      }
    }
  }

  // ---- When a payment was made

  /** Rows without an event still carry the time of their payment's initiation. */
  ghost predicate TimesOf(l: Ledger, made: seq<Step>)
    requires forall i :: 0 <= i < |made| ==> made[i].Initiate?
  {
    forall t :: 0 <= t < |l.txns| && l.txns[t].transactionId == None ==>
      l.txns[t].payment < |made| && l.txns[t].createdAt == made[l.txns[t].payment].now
  }

  /** An event leaves the rows that carry no id after it as they were. */
  lemma EventTouchesOneRow(l: Ledger, e: Event, now: int, fault: bool, t: nat)
    ensures var txns := Process(l, e, now, fault).ledger.txns;
            t < |txns| && txns[t].transactionId == None ==> t < |l.txns| && txns[t] == l.txns[t]
  {
  }

  lemma StepKeepsTimes(l: Ledger, step: Step, made: seq<Step>)
    requires forall i :: 0 <= i < |made| ==> made[i].Initiate?
    requires Enabled(l, step) && !step.Initiate? && TimesOf(l, made)
    ensures TimesOf(Do(l, step), made)
  {
    if step.Deliver? {
      forall t | 0 <= t < |Do(l, step).txns|
        ensures Do(l, step).txns[t].transactionId == None ==> t < |l.txns| && Do(l, step).txns[t] == l.txns[t]
      {
        EventTouchesOneRow(l, step.e, step.at, step.fault, t);
      }
    }
  }

  lemma {:induction false} UntouchedKeepsItsTime(steps: seq<Step>)
    requires Possible(steps)
    ensures TimesOf(After(steps), Initiations(steps))
  {
    if steps != [] {
      var before, step := steps[..|steps| - 1], steps[|steps| - 1];
      UntouchedKeepsItsTime(before);
      SnapshotsAreKept(before);
      if !step.Initiate? {
        StepKeepsTimes(After(before), step, Initiations(before));
      }
    }
  }

  /** In every run the job asks about exactly the PENDING payments initiated up to the cutoff, in the order in which
    * they were initiated.
    */
  lemma AskedByAge(steps: seq<Step>, cutoff: int, asked: seq<nat>, s: nat)
    requires Possible(steps) && AsksEachOnceOldestFirst(After(steps), cutoff, asked)
    ensures s in asked <==>
              && s < |After(steps).payments| && s < |Initiations(steps)|
              && After(steps).payments[s].status == Pending && Initiations(steps)[s].now <= cutoff
  {
    var l := After(steps);
    RunKeepsInv(steps);
    UntouchedKeepsItsTime(steps);
    SnapshotsAreKept(steps);
    AskedArePending(l, cutoff, asked, s);
    if s < |l.payments| && l.payments[s].status == Pending {
      assert PaymentOk(l, s);
      var t: nat :| Untouched(l, s, t);
      assert l.txns[t].createdAt == Initiations(steps)[s].now;
    }
  }

  lemma AskedInOrder(steps: seq<Step>, cutoff: int, asked: seq<nat>, i: nat, j: nat)
    requires Possible(steps) && AsksEachOnceOldestFirst(After(steps), cutoff, asked) && i < j < |asked|
    ensures asked[i] < |Initiations(steps)| && asked[j] < |Initiations(steps)|
    ensures asked[i] != asked[j] && Initiations(steps)[asked[i]].now <= Initiations(steps)[asked[j]].now
  {
    var l := After(steps);
    RunKeepsInv(steps);
    UntouchedKeepsItsTime(steps);
    assert HasStuck(l, asked[i], cutoff) && HasStuck(l, asked[j], cutoff);
    var t: nat :| StuckSince(l, asked[i], cutoff, t);
    var u: nat :| StuckSince(l, asked[j], cutoff, u);
    assert Older(l.txns, t, u);
  }

  /** An answer is pending unless it is final, and then a completion or a failure as it succeeded or not. */
  lemma StatusInFields(e: Event)
    ensures AnswerStatus(e) == Completed <==> !e.pending && !e.isVoided && !e.isRefunded && e.success
    ensures AnswerStatus(e) == Failed <==> !e.pending && !e.isVoided && !e.isRefunded && !e.success
  {
  }

  /** The answer leaves its payment alone: it names no transaction, or one that is not final. */
  predicate IsInconclusive(a: Answer) {
    a.NoTransaction? || (a.Found? && (a.e.pending || a.e.isVoided || a.e.isRefunded))
  }

  ghost function LeftAt(asked: seq<nat>, gateway: nat -> Answer): set<nat> {
    set i | 0 <= i < |asked| && IsInconclusive(gateway(asked[i]))
  }

  ghost function LostAt(asked: seq<nat>, gateway: nat -> Answer): set<nat> {
    set i | 0 <= i < |asked| && gateway(asked[i]).Unreachable?
  }

  /** Two of the counters: the payments that were left alone, and those the gateway was not reached for. */
  lemma CountersInFields(asked: seq<nat>, gateway: nat -> Answer)
    ensures LeftAlone(asked, gateway) == |LeftAt(asked, gateway)|
    ensures NotReached(asked, gateway) == |LostAt(asked, gateway)|
  {
    LeftIsCounted(asked, gateway);
    LostIsCounted(asked, gateway);
  }

  lemma {:induction false} LeftIsCounted(asked: seq<nat>, gateway: nat -> Answer)
    ensures LeftAlone(asked, gateway) == |LeftAt(asked, gateway)|
  {
    if asked != [] {
      var n := |asked| - 1;
      LeftIsCounted(asked[..n], gateway);
      var left := LeftAt(asked[..n], gateway);
      assert LeftAt(asked, gateway) == if IsInconclusive(gateway(asked[n])) then left + {n} else left;
    }
  }

  lemma {:induction false} LostIsCounted(asked: seq<nat>, gateway: nat -> Answer)
    ensures NotReached(asked, gateway) == |LostAt(asked, gateway)|
  {
    if asked != [] {
      var n := |asked| - 1;
      LostIsCounted(asked[..n], gateway);
      var lost := LostAt(asked[..n], gateway);
      assert LostAt(asked, gateway) == if gateway(asked[n]).Unreachable? then lost + {n} else lost;
    }
  }

  /** After the job each payment it asked about is COMPLETED exactly if it was or its own answer is a final success over
    * its exact price, and still PENDING exactly if it was and that answer is neither.
    */
  lemma AnswersDecide(l: Ledger, asked: seq<nat>, gateway: nat -> Answer, at: nat -> int, j: nat, i: nat)
    requires Inv(l) && AnswersBelong(l, asked, gateway) && j < |asked|
    requires i < |l.txns| && l.txns[i].payment == asked[j]
    ensures var l', s := Webhooks(l, FinalAnswers(asked, gateway, at, NoFault)), asked[j];
            && s < |l'.payments|
            && (l'.payments[s].status == Completed <==>
                  || l.payments[s].status == Completed
                  || (gateway(s).Found? && PaysRow(l, gateway(s).e, s, i)))
            && (l'.payments[s].status == Pending <==>
                  && l.payments[s].status == Pending
                  && (gateway(s).Found? ==>
                        var e := gateway(s).e;
                        || e.pending || e.isVoided || e.isRefunded
                        || (e.success && !PaysRow(l, e, s, i))))
  {
    assert asked[..|asked|] == asked;
    SweepSettles(l, asked, |asked|, gateway, at, j, i);
    if gateway(asked[j]).Found? {
      PaysInFields(gateway(asked[j]).e, l.txns[i].amount, l.txns[i].currency);
    }
  }

  /** A merchant reference is the prefix and the primary key in decimal. */
  lemma MerchantReferenceText()
    ensures MerchantReference(119) == "payments-sub-120"
  {
    assert Digits(1) == "1" && Digits(12) == "12" && Digits(120) == "120";
  }
}
