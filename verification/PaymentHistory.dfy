/** Whole runs: initiations, gateway answers and event deliveries in any order. */
module PaymentHistory {
  import opened Wrappers
  import opened Money
  import opened Payments
  import opened PaymentRuns

  datatype Step =
    | Initiate(business: int, plan: int, price: real, currency: string, now: int)
    | SetReference(s: nat, reference: string)
    | FailPayment(s: nat)
    | FailTxn(t: nat)
    | Deliver(e: Event, at: int, fault: bool)

  /** The two saves of a failure marking are steps of their own.  A gateway that failed an initiation has not
    * completed the payment before the first, nor its transaction before the second.
    */
  predicate Enabled(l: Ledger, step: Step) {
    match step
    case Initiate(_, _, _, _, _) => true
    case SetReference(s, _) => s < |l.payments|
    case FailPayment(s) => s < |l.payments| && !l.payments[s].status.Completed?
    case FailTxn(t) =>
      && t < |l.txns| && !l.txns[t].status.Completed?
      && l.txns[t].payment < |l.payments| && !l.payments[l.txns[t].payment].status.Pending?
    case Deliver(_, _, _) => true
  }

  function Do(l: Ledger, step: Step): Ledger
    requires Enabled(l, step)
  {
    match step
    case Initiate(business, plan, price, currency, now) => Create(l, business, plan, price, currency, now)
    case SetReference(s, reference) => RecordReference(l, s, reference)
    case FailPayment(s) => MarkPaymentFailed(l, s)
    case FailTxn(t) => MarkTxnFailed(l, t)
    case Deliver(e, at, fault) => Process(l, e, at, fault).ledger
  }

  const EMPTY: Ledger := Ledger([], [], [])

  /** The records after a run, or None if some step was not enabled. */
  function Run(steps: seq<Step>): Option<Ledger> {
    if steps == [] then Some(EMPTY)
    else
      match Run(steps[..|steps| - 1])
      case None => None
      case Some(l) => if Enabled(l, steps[|steps| - 1]) then Some(Do(l, steps[|steps| - 1])) else None
  }

  predicate Possible(steps: seq<Step>) {
    Run(steps).Some?
  }

  function After(steps: seq<Step>): Ledger
    requires Possible(steps)
  {
    Run(steps).value
  }

  /** The invariant holds after every run. */
  lemma {:induction false} RunKeepsInv(steps: seq<Step>)
    requires Possible(steps)
    ensures Inv(After(steps))
  {
    if steps != [] {
      var l, step := After(steps[..|steps| - 1]), steps[|steps| - 1];
      RunKeepsInv(steps[..|steps| - 1]);
      match step {
        case Initiate(business, plan, price, currency, now) =>
          CreateKeepsInv(l, business, plan, price, currency, now);
        case SetReference(s, reference) => RecordReferenceKeepsInv(l, s, reference);
        case FailPayment(s) => MarkPaymentFailedKeepsInvIff(l, s);
        case FailTxn(t) => MarkTxnFailedKeepsInvIff(l, t);
        case Deliver(e, at, fault) => ProcessKeepsInv(l, e, at, fault);
      }
    }
  }

  // ---- What one event can change

  /** Row `i` carries the payment and the snapshot of row `j`. */
  predicate SameSnapshot(a: Txn, b: Txn) {
    a.payment == b.payment && a.amount == b.amount && a.currency == b.currency
  }

  predicate CopyOfSome(txns: seq<Txn>, t: Txn) {
    exists j :: 0 <= j < |txns| && SameSnapshot(t, txns[j])
  }

  ghost predicate RowsKept(txns: seq<Txn>, txns': seq<Txn>) {
    && |txns| <= |txns'|
    && (forall i :: 0 <= i < |txns| ==> SameSnapshot(txns'[i], txns[i]))
    && (forall i :: |txns| <= i < |txns'| ==> CopyOfSome(txns, txns'[i]))
  }

  ghost predicate SnapshotsKept(l: Ledger, l': Ledger) {
    RowsKept(l.txns, l'.txns)
  }

  /** The event is a final success for exactly the cents and currency of payment `s`. */
  predicate BacksActivation(l: Ledger, e: Event, s: nat) {
    exists j :: 0 <= j < |l.txns| && l.txns[j].payment == s && Pays(e, l.txns[j].amount, l.txns[j].currency)
  }

  predicate Pays(e: Event, amount: real, currency: string) {
    Final(e) && e.success && AmountMatches(e, amount, currency)
  }

  predicate Fails(e: Event) {
    Final(e) && !e.success
  }

  /** An event never changes a snapshot. */
  lemma EventKeepsSnapshots(l: Ledger, e: Event, now: int, fault: bool)
    requires Inv(l)
    ensures SnapshotsKept(l, Process(l, e, now, fault).ledger)
  {
    var l' := Process(l, e, now, fault).ledger;
    if l'.txns != l.txns {
      var s := Resolve(l, e).value;
      RowIsCopy(l, s, e, now);
      var (t, row) := RowFor(l, s, e, now).value;
      var status := if e.success then Completed else Failed;
      SaveKeepsSnapshots(l.txns, t, row.(transactionId := Some(e.transactionId), status := status), l'.txns);
    }
  }

  lemma RowIsCopy(l: Ledger, s: nat, e: Event, now: int)
    requires Inv(l) && s < |l.payments| && Resolve(l, e) == Some(s)
    ensures RowFor(l, s, e, now).Some?
    ensures CopyOfSome(l.txns, RowFor(l, s, e, now).value.1)
  {
    RowForFits(l, s, e, now);
    var row := RowFor(l, s, e, now).value.1;
    var j :| 0 <= j < |l.txns| && l.txns[j].payment == s && l.txns[j].amount == row.amount
             && l.txns[j].currency == row.currency;
    assert SameSnapshot(row, l.txns[j]);
  }

  lemma SaveKeepsSnapshots(txns: seq<Txn>, t: nat, row: Txn, txns': seq<Txn>)
    requires t <= |txns| && CopyOfSome(txns, row) && txns' == SaveTxn(txns, t, row)
    requires t < |txns| ==> SameSnapshot(row, txns[t])
    ensures RowsKept(txns, txns')
  {
  }

  /** Each event completes at most one payment, the one it belongs to, exactly if it pays for it. */
  lemma EventCompletes(l: Ledger, e: Event, now: int, fault: bool)
    requires Inv(l)
    ensures var l' := Process(l, e, now, fault).ledger;
            && |l'.payments| == |l.payments|
            && forall p :: 0 <= p < |l.payments| ==>
                 && l'.payments[p].reference == l.payments[p].reference
                 && (l'.payments[p].status.Completed? <==>
                       l.payments[p].status.Completed?
                       || (Resolve(l, e) == Some(p) && BacksActivation(l, e, p) && !fault))
  {
    if Final(e) && Resolve(l, e).Some? && Resolve(l, e).value < |l.payments| {
      ApplyCompletes(l, Resolve(l, e).value, e, now, fault);
    }
  }

  lemma ApplyCompletes(l: Ledger, s: nat, e: Event, now: int, fault: bool)
    requires Inv(l) && Final(e) && s < |l.payments| && Resolve(l, e) == Some(s)
    ensures var l' := Apply(l, s, e, now, fault).ledger;
            && |l'.payments| == |l.payments|
            && l'.payments[s].reference == l.payments[s].reference
            && (forall p :: 0 <= p < |l.payments| && p != s ==> l'.payments[p] == l.payments[p])
            && (l'.payments[s].status.Completed? <==>
                  l.payments[s].status.Completed? || (BacksActivation(l, e, s) && !fault))
  {
    RowForFits(l, s, e, now);
    RowDecides(l, s, RowFor(l, s, e, now).value.1, e);
  }

  /** It adds at most one activation, backed by the event. */
  lemma EventActivates(l: Ledger, e: Event, now: int, fault: bool)
    requires Inv(l)
    ensures var l' := Process(l, e, now, fault).ledger;
            || l'.activations == l.activations
            || (Resolve(l, e).Some? && l'.activations == l.activations + [Resolve(l, e).value]
                && BacksActivation(l, e, Resolve(l, e).value))
  {
    if Process(l, e, now, fault).ledger.activations != l.activations {
      var s := Resolve(l, e).value;
      RowForFits(l, s, e, now);
      RowDecides(l, s, RowFor(l, s, e, now).value.1, e);
    }
  }

  /** All rows of a payment carry one snapshot, so any of them decides whether an event pays it. */
  lemma RowDecides(l: Ledger, s: nat, row: Txn, e: Event)
    requires OneSnapshot(l)
    requires exists i :: 0 <= i < |l.txns| && l.txns[i].payment == s
                         && l.txns[i].amount == row.amount && l.txns[i].currency == row.currency
    ensures BacksActivation(l, e, s) <==> Pays(e, row.amount, row.currency)
  {
    var i :| 0 <= i < |l.txns| && l.txns[i].payment == s && l.txns[i].amount == row.amount
             && l.txns[i].currency == row.currency;
    if BacksActivation(l, e, s) {
      var j :| 0 <= j < |l.txns| && l.txns[j].payment == s && Pays(e, l.txns[j].amount, l.txns[j].currency);
      assert l.txns[j].amount == l.txns[i].amount && l.txns[j].currency == l.txns[i].currency;
    }
  }

  // ---- Snapshots and activations

  function Initiations(steps: seq<Step>): (r: seq<Step>)
    ensures forall i :: 0 <= i < |r| ==> r[i].Initiate?
  {
    if steps == [] then []
    else
      Initiations(steps[..|steps| - 1])
      + (if steps[|steps| - 1].Initiate? then [steps[|steps| - 1]] else [])
  }

  /** Every transaction carries the price and currency of its payment's initiation. */
  ghost predicate SnapshotsOf(l: Ledger, made: seq<Step>)
    requires forall i :: 0 <= i < |made| ==> made[i].Initiate?
  {
    && |l.payments| == |made|
    && forall i :: 0 <= i < |l.txns| ==>
         l.txns[i].payment < |made| && l.txns[i].amount == made[l.txns[i].payment].price
         && l.txns[i].currency == made[l.txns[i].payment].currency
  }

  lemma DeliveryKeepsSnapshots(l: Ledger, e: Event, at: int, fault: bool, made: seq<Step>)
    requires forall i :: 0 <= i < |made| ==> made[i].Initiate?
    requires Inv(l) && SnapshotsOf(l, made)
    ensures SnapshotsOf(Process(l, e, at, fault).ledger, made)
  {
    var l' := Process(l, e, at, fault).ledger;
    EventKeepsSnapshots(l, e, at, fault);
    EventCompletes(l, e, at, fault);
    forall i | |l.txns| <= i < |l'.txns|
      ensures exists j :: 0 <= j < |l.txns| && SameSnapshot(l'.txns[i], l.txns[j])
    {
      assert CopyOfSome(l.txns, l'.txns[i]);
    }
  }

  /** Payment `i` is the one the `i`-th initiation created, and every transaction it ever gets carries the
    * price and currency of that moment.
    */
  lemma {:induction false} SnapshotsAreKept(steps: seq<Step>)
    requires Possible(steps)
    ensures SnapshotsOf(After(steps), Initiations(steps))
  {
    if steps != [] {
      var before, step := steps[..|steps| - 1], steps[|steps| - 1];
      SnapshotsAreKept(before);
      if step.Deliver? {
        RunKeepsInv(before);
        DeliveryKeepsSnapshots(After(before), step.e, step.at, step.fault, Initiations(before));
      }
    }
  }

  /** Every activation goes back to the delivery of a final success for exactly the cents and the currency
    * of the payment's initiation.
    */
  lemma {:induction false} ActivationsAreBacked(steps: seq<Step>, a: nat) returns (k: nat)
    requires Possible(steps) && a < |After(steps).activations|
    ensures k < |steps| && steps[k].Deliver? && Final(steps[k].e) && steps[k].e.success
    ensures var s := After(steps).activations[a];
            s < |Initiations(steps)|
            && AmountMatches(steps[k].e, Initiations(steps)[s].price, Initiations(steps)[s].currency)
  {
    var before, step := steps[..|steps| - 1], steps[|steps| - 1];
    RunKeepsInv(before);
    SnapshotsAreKept(before);
    if a < |After(before).activations| {
      if step.Deliver? {
        EventActivates(After(before), step.e, step.at, step.fault);
      }
      k := ActivationsAreBacked(before, a);
      assert steps[k] == before[k];
    } else {
      EventActivates(After(before), step.e, step.at, step.fault);
      k := |steps| - 1;
    }
  }

  /** COMPLETED is never left. */
  lemma {:induction false} CompletedForever(steps: seq<Step>, n: nat, s: nat)
    requires Possible(steps) && n <= |steps| && Possible(steps[..n])
    requires s < |After(steps[..n]).payments| && After(steps[..n]).payments[s].status.Completed?
    ensures s < |After(steps).payments| && After(steps).payments[s].status.Completed?
  {
    if n < |steps| {
      var before, step := steps[..|steps| - 1], steps[|steps| - 1];
      assert before[..n] == steps[..n];
      CompletedForever(before, n, s);
      RunKeepsInv(before);
      if step.Deliver? {
        EventCompletes(After(before), step.e, step.at, step.fault);
      }
    } else {
      assert steps[..n] == steps;
    }
  }

  /** The step delivers an event that pays for payment `s`. */
  predicate PayingStep(l: Ledger, step: Step, s: nat) {
    step.Deliver? && !step.fault && Resolve(l, step.e) == Some(s) && BacksActivation(l, step.e, s)
  }

  predicate PaidAt(steps: seq<Step>, k: nat, s: nat) {
    k < |steps| && Possible(steps[..k]) && PayingStep(After(steps[..k]), steps[k], s)
  }

  predicate IsCompleted(l: Ledger, s: nat) {
    s < |l.payments| && l.payments[s].status.Completed?
  }

  /** Only a paying delivery completes a payment, and nothing un-completes one. */
  lemma StepCompletes(l: Ledger, step: Step, s: nat)
    requires Inv(l) && Enabled(l, step)
    ensures IsCompleted(Do(l, step), s) <==> (IsCompleted(l, s) || PayingStep(l, step, s))
  {
    if step.Deliver? {
      EventCompletes(l, step.e, step.at, step.fault);
    }
  }

  /** Over whole runs, whatever happens to other payments in between: a payment is COMPLETED exactly if
    * some delivery of the run was a final success for its exact amount and currency.
    */
  lemma {:induction false} CompletedIffPaid(steps: seq<Step>, s: nat)
    requires Possible(steps)
    ensures IsCompleted(After(steps), s) <==> (exists k: nat :: PaidAt(steps, k, s))
  {
    if steps != [] {
      var n := |steps| - 1;
      RunKeepsInv(steps[..n]);
      StepCompletes(After(steps[..n]), steps[n], s);
      CompletedIffPaid(steps[..n], s);
      PaidBeforeOrLast(steps, s);
    }
  }

  lemma PaidBeforeOrLast(steps: seq<Step>, s: nat)
    requires Possible(steps) && steps != []
    ensures var n := |steps| - 1;
            var before := steps[..n];
            (exists k: nat :: PaidAt(steps, k, s))
              <==> ((exists k: nat :: PaidAt(before, k, s)) || PayingStep(After(before), steps[n], s))
  {
    var n := |steps| - 1;
    forall k: nat | k < n
      ensures PaidAt(steps[..n], k, s) <==> PaidAt(steps, k, s)
    {
      assert steps[..n][..k] == steps[..k];
    }
    assert PaidAt(steps, n, s) <==> PayingStep(After(steps[..n]), steps[n], s);
    if exists k: nat :: PaidAt(steps[..n], k, s) {
      var k: nat :| PaidAt(steps[..n], k, s);
      assert PaidAt(steps, k, s);
    }
  }

  // ---- Initiations that fail

  /** Payment `s` has been marked failed and no transaction of it since. */
  predicate MarkingUnderway(steps: seq<Step>, s: nat)
    requires Possible(steps)
  {
    if steps == [] then false
    else
      var before, step := steps[..|steps| - 1], steps[|steps| - 1];
      if step == FailPayment(s) then true
      else MarkingUnderway(before, s) && !(step.FailTxn? && After(before).txns[step.t].payment == s)
  }

  /** In every run, a payment whose failure marking is not between its two saves is PENDING exactly if its only
    * transaction is the untouched row of its initiation.
    */
  lemma PendingIffUntouchedInRuns(steps: seq<Step>, s: nat)
    requires Possible(steps) && s < |After(steps).payments| && !MarkingUnderway(steps, s)
    ensures After(steps).payments[s].status.Pending? <==> exists t :: Untouched(After(steps), s, t)
  {
    RunKeepsInv(steps);
    HalfMarkedIsUnderway(steps, s);
    PendingIffUntouched(After(steps), s);
  }

  lemma {:induction false} HalfMarkedIsUnderway(steps: seq<Step>, s: nat)
    requires Possible(steps)
    ensures HalfMarked(After(steps), s) ==> MarkingUnderway(steps, s)
  {
    if steps != [] {
      var before, step := steps[..|steps| - 1], steps[|steps| - 1];
      HalfMarkedIsUnderway(before, s);
      RunKeepsInv(before);
      if HalfMarked(After(steps), s) && step != FailPayment(s) {
        StaysHalfMarked(After(before), step, s);
      }
    }
  }

  /** Only the first save of its own marking leaves a payment half marked. */
  lemma StaysHalfMarked(l: Ledger, step: Step, s: nat)
    requires Inv(l) && Enabled(l, step) && step != FailPayment(s) && HalfMarked(Do(l, step), s)
    ensures HalfMarked(l, s) && !(step.FailTxn? && l.txns[step.t].payment == s)
  {
    var l' := Do(l, step);
    var t: nat :| Untouched(l', s, t);
    match step {
      case Initiate(_, _, _, _, _) => assert Untouched(l, s, t);
      case SetReference(_, _) => assert Untouched(l, s, t);
      case FailPayment(_) => assert Untouched(l, s, t);
      case FailTxn(u) => assert Untouched(l, s, t);
      case Deliver(e, at, fault) => DeliveryStaysHalfMarked(l, e, at, fault, s, t);
    }
  }

  lemma DeliveryStaysHalfMarked(l: Ledger, e: Event, at: int, fault: bool, s: nat, t: nat)
    requires Inv(l) && s < |l.payments| && Process(l, e, at, fault).ledger.payments[s].status.Failed?
    requires Untouched(Process(l, e, at, fault).ledger, s, t)
    ensures HalfMarked(l, s)
  {
    var l' := Process(l, e, at, fault).ledger;
    if l' != l {
      var p := Resolve(l, e).value;
      RowForFits(l, p, e, at);
      assert Untouched(l, s, t);
    }
  }

  /** The success of payment 0 that the gateway sends for its first price. */
  const SUCCESS: Event := Event("T", "", MerchantReference(0), true, false, false, false, Some(100), "EGP")

  const STARTED: Ledger := Create(EMPTY, 1, 1, 1.0, "EGP", 0)

  lemma SuccessActivates(l: Ledger)
    requires l.txns == STARTED.txns && l.activations == [] && |l.payments| == 1 && l.payments[0].reference == ""
    requires !l.payments[0].status.Completed?
    ensures Process(l, SUCCESS, 1, false)
              == Processed(Ledger([l.payments[0].(status := Completed)],
                                  [Txn(0, Some("T"), 1.0, "EGP", Completed, 0)], [0]), Activated)
  {
    MerchantReferenceComesBack(l.payments, 0);
    assert ToCents(1.0) == 100;
    assert FirstOpen(l.txns, 0) == Some(0);
  }

  lemma Extend(before: seq<Step>, step: Step)
    requires Possible(before) && Enabled(After(before), step)
    ensures Possible(before + [step]) && After(before + [step]) == Do(After(before), step)
  {
    assert (before + [step])[..|before|] == before;
  }

  /** One initiation, and the one that is already half marked. */
  const INITIATED: seq<Step> := [Initiate(1, 1, 1.0, "EGP", 0)]
  const HALF_MARKED: seq<Step> := INITIATED + [FailPayment(0)]

  lemma ShortRuns()
    ensures Possible(INITIATED) && After(INITIATED) == STARTED
    ensures Possible(HALF_MARKED) && After(HALF_MARKED) == MarkPaymentFailed(STARTED, 0)
  {
    assert Run([]) == Some(EMPTY);
    Extend([], INITIATED[0]);
    assert [] + [INITIATED[0]] == INITIATED;
    Extend(INITIATED, FailPayment(0));
  }

  /** Without the assumption on the first save, COMPLETED is left: a run of an initiation and its success, and
    * then the failure marking, ends with a FAILED payment that was activated.
    */
  lemma LateFailureLosesCompletion()
    ensures var steps := INITIATED + [Deliver(SUCCESS, 1, false)];
            && Possible(steps) && Inv(After(steps)) && IsCompleted(After(steps), 0)
            && var l := MarkPaymentFailed(After(steps), 0);
            && l.payments[0].status.Failed? && l.activations == [0] && !Inv(l)
  {
    var steps := INITIATED + [Deliver(SUCCESS, 1, false)];
    ShortRuns();
    SuccessActivates(STARTED);
    Extend(INITIATED, Deliver(SUCCESS, 1, false));
    RunKeepsInv(steps);
    MarkPaymentFailedKeepsInvIff(After(steps), 0);
  }

  /** Nor without the assumption on the second: if the success arrives between the two saves, the payment ends
    * COMPLETED and activated with no completed transaction.
    */
  lemma SuccessBetweenSavesLosesTransaction()
    ensures var steps := HALF_MARKED + [Deliver(SUCCESS, 1, false)];
            && Possible(steps) && Inv(After(steps)) && |After(steps).txns| == 1
            && var l := MarkTxnFailed(After(steps), 0);
            && IsCompleted(l, 0) && l.activations == [0] && CompletedTxns(l, 0) == {} && !Inv(l)
  {
    var steps := HALF_MARKED + [Deliver(SUCCESS, 1, false)];
    ShortRuns();
    SuccessActivates(MarkPaymentFailed(STARTED, 0));
    Extend(HALF_MARKED, Deliver(SUCCESS, 1, false));
    RunKeepsInv(steps);
    MarkTxnFailedKeepsInvIff(After(steps), 0);
  }

  // ---- Events of one payment, in any order

  /** The event belongs to payment `s` by its references, and its id is not another payment's. */
  ghost predicate ForPayment(l: Ledger, e: Event, s: nat) {
    && s < |l.payments| && ByReferences(l.payments, e) == Some(s)
    && forall i :: 0 <= i < |l.txns| && l.txns[i].transactionId == Some(e.transactionId) ==> l.txns[i].payment == s
  }

  function Verdict(before: Status, pays: bool, fails: bool): Status {
    if before.Completed? || pays then Completed else if before.Failed? || fails then Failed else Pending
  }

  /** What one delivery does to the status of its payment and to the activations. */
  lemma DeliverSettles(l: Ledger, e: Event, now: int, s: nat, i: nat)
    requires Inv(l) && ForPayment(l, e, s) && i < |l.txns| && l.txns[i].payment == s
    ensures var l', before := Process(l, e, now, false).ledger, l.payments[s].status;
            && |l'.payments| == |l.payments|
            && l'.payments[s].status == Verdict(before, Pays(e, l.txns[i].amount, l.txns[i].currency), Fails(e))
            && l'.activations == l.activations
                                + (if l'.payments[s].status.Completed? && !before.Completed? then [s] else [])
  {
    if Final(e) {
      assert Resolve(l, e) == Some(s);
      RowForFits(l, s, e, now);
      RowDecides(l, s, l.txns[i], e);
      RowDecides(l, s, RowFor(l, s, e, now).value.1, e);
      assert PaymentOk(l, s);
    }
  }

  /** What one delivery leaves alone. */
  lemma DeliverFrame(l: Ledger, e: Event, now: int, s: nat, i: nat)
    requires Inv(l) && ForPayment(l, e, s) && i < |l.txns| && l.txns[i].payment == s
    ensures var l' := Process(l, e, now, false).ledger;
            && |l'.payments| == |l.payments| && |l.txns| <= |l'.txns|
            && (forall p :: 0 <= p < |l.payments| && p != s ==> l'.payments[p] == l.payments[p])
            && l'.payments[s].reference == l.payments[s].reference
            && SameSnapshot(l'.txns[i], l.txns[i])
            && (forall n :: 0 <= n < |l'.txns| ==>
                  (n < |l.txns| && l'.txns[n] == l.txns[n])
                  || (l'.txns[n].payment == s && l'.txns[n].transactionId == Some(e.transactionId)))
  {
    if Final(e) {
      assert Resolve(l, e) == Some(s);
      RowForFits(l, s, e, now);
      ApplyFrame(l, e, now, s);
    }
  }

  lemma ApplyFrame(l: Ledger, e: Event, now: int, s: nat)
    requires s < |l.payments|
    requires RowFor(l, s, e, now).Some? ==> RowFor(l, s, e, now).value.1.payment == s
    ensures var l' := Apply(l, s, e, now, false).ledger;
            && |l'.payments| == |l.payments| && |l.txns| <= |l'.txns|
            && (forall p :: 0 <= p < |l.payments| && p != s ==> l'.payments[p] == l.payments[p])
            && l'.payments[s].reference == l.payments[s].reference
            && (forall n :: 0 <= n < |l.txns| ==> SameSnapshot(l'.txns[n], l.txns[n]))
            && (forall n :: 0 <= n < |l'.txns| ==>
                  (n < |l.txns| && l'.txns[n] == l.txns[n])
                  || (l'.txns[n].payment == s && l'.txns[n].transactionId == Some(e.transactionId)))
  {
  }

  /** Other events of the payment stay its events. */
  lemma StaysForPayment(l: Ledger, e: Event, now: int, s: nat, i: nat, f: Event)
    requires Inv(l) && ForPayment(l, e, s) && i < |l.txns| && l.txns[i].payment == s && ForPayment(l, f, s)
    ensures ForPayment(Process(l, e, now, false).ledger, f, s)
  {
    var l' := Process(l, e, now, false).ledger;
    DeliverFrame(l, e, now, s, i);
    SameReferences(l.payments, l'.payments, f);
  }

  lemma {:induction false} SameReferences(a: seq<Payment>, b: seq<Payment>, f: Event)
    requires |a| == |b| && forall p :: 0 <= p < |a| ==> a[p].reference == b[p].reference
    ensures ByReferences(a, f) == ByReferences(b, f)
  {
    SameLast(a, b, f.orderId);
  }

  lemma {:induction false} SameLast(a: seq<Payment>, b: seq<Payment>, reference: string)
    requires |a| == |b| && forall p :: 0 <= p < |a| ==> a[p].reference == b[p].reference
    ensures LastByReference(a, reference) == LastByReference(b, reference)
  {
    if a != [] {
      SameLast(a[..|a| - 1], b[..|a| - 1], reference);
    }
  }

  datatype Delivery = Delivery(e: Event, at: int)

  /** All events delivered one after another. */
  function DeliverAll(l: Ledger, events: seq<Delivery>): Ledger
    decreases events
  {
    if events == [] then l else DeliverAll(Process(l, events[0].e, events[0].at, false).ledger, events[1..])
  }

  ghost predicate SomePays(events: seq<Delivery>, amount: real, currency: string) {
    exists k :: 0 <= k < |events| && Pays(events[k].e, amount, currency)
  }

  ghost predicate SomeFails(events: seq<Delivery>) {
    exists k :: 0 <= k < |events| && Fails(events[k].e)
  }

  ghost predicate AllForPayment(l: Ledger, events: seq<Delivery>, s: nat) {
    forall k :: 0 <= k < |events| ==> ForPayment(l, events[k].e, s)
  }

  /** Whatever the order and however often events are repeated, the payment ends COMPLETED exactly if it
    * was or some event is a final success for the exact amount and currency; otherwise FAILED exactly if
    * it was or some event is a final failure; and it is activated exactly when it becomes COMPLETED.
    */
  lemma {:induction false} DeliveryVerdict(l: Ledger, events: seq<Delivery>, s: nat, i: nat)
    requires Inv(l) && i < |l.txns| && l.txns[i].payment == s && s < |l.payments|
    requires AllForPayment(l, events, s)
    ensures var l', before := DeliverAll(l, events), l.payments[s].status;
            && s < |l'.payments|
            && l'.payments[s].status
                 == Verdict(before, SomePays(events, l.txns[i].amount, l.txns[i].currency), SomeFails(events))
            && l'.activations == l.activations
                                + (if l'.payments[s].status.Completed? && !before.Completed? then [s] else [])
    decreases events
  {
    if events != [] {
      var rest, l1 := events[1..], Process(l, events[0].e, events[0].at, false).ledger;
      ProcessKeepsInv(l, events[0].e, events[0].at, false);
      DeliverSettles(l, events[0].e, events[0].at, s, i);
      DeliverFrame(l, events[0].e, events[0].at, s, i);
      StayForPayment(l, events, s, i);
      DeliveryVerdict(l1, rest, s, i);
      HeadOrRest(events, l.txns[i].amount, l.txns[i].currency);
    }
  }

  lemma StayForPayment(l: Ledger, events: seq<Delivery>, s: nat, i: nat)
    requires Inv(l) && i < |l.txns| && l.txns[i].payment == s && s < |l.payments|
    requires events != [] && AllForPayment(l, events, s)
    ensures AllForPayment(Process(l, events[0].e, events[0].at, false).ledger, events[1..], s)
  {
    forall k | 0 <= k < |events| - 1
      ensures ForPayment(Process(l, events[0].e, events[0].at, false).ledger, events[1..][k].e, s)
    {
      assert ForPayment(l, events[k + 1].e, s);
      StaysForPayment(l, events[0].e, events[0].at, s, i, events[k + 1].e);
    }
  }

  lemma HeadOrRest(events: seq<Delivery>, amount: real, currency: string)
    requires events != []
    ensures SomePays(events, amount, currency) <==>
              Pays(events[0].e, amount, currency) || SomePays(events[1..], amount, currency)
    ensures SomeFails(events) <==> Fails(events[0].e) || SomeFails(events[1..])
  {
    var rest := events[1..];
    assert forall k :: 0 <= k < |rest| ==> rest[k] == events[k + 1];
    assert forall k :: 1 <= k < |events| ==> events[k] == rest[k - 1];
  }

  ghost function EventsOf(events: seq<Delivery>): set<Event> {
    set k | 0 <= k < |events| :: events[k].e
  }

  /** The final status and the activations do not depend on order, time or repetition. */
  lemma {:induction false} OrderDoesNotMatter(l: Ledger, a: seq<Delivery>, b: seq<Delivery>, s: nat, i: nat)
    requires Inv(l) && i < |l.txns| && l.txns[i].payment == s && s < |l.payments|
    requires AllForPayment(l, a, s) && EventsOf(a) == EventsOf(b)
    ensures DeliverAll(l, a).activations == DeliverAll(l, b).activations
    ensures s < |DeliverAll(l, a).payments| && s < |DeliverAll(l, b).payments|
    ensures DeliverAll(l, a).payments[s].status == DeliverAll(l, b).payments[s].status
  {
    SameEvents(l, a, b, s, l.txns[i].amount, l.txns[i].currency);
    DeliveryVerdict(l, a, s, i);
    DeliveryVerdict(l, b, s, i);
  }

  lemma SameEvents(l: Ledger, a: seq<Delivery>, b: seq<Delivery>, s: nat, amount: real, currency: string)
    requires EventsOf(a) == EventsOf(b) && AllForPayment(l, a, s)
    ensures AllForPayment(l, b, s)
    ensures SomePays(a, amount, currency) == SomePays(b, amount, currency)
    ensures SomeFails(a) == SomeFails(b)
  {
    InSet(l, a, s, amount, currency);
    InSet(l, b, s, amount, currency);
  }

  lemma InSet(l: Ledger, a: seq<Delivery>, s: nat, amount: real, currency: string)
    ensures AllForPayment(l, a, s) <==> forall e :: e in EventsOf(a) ==> ForPayment(l, e, s)
    ensures SomePays(a, amount, currency) <==> exists e :: e in EventsOf(a) && Pays(e, amount, currency)
    ensures SomeFails(a) <==> exists e :: e in EventsOf(a) && Fails(e)
  {
    assert forall k :: 0 <= k < |a| ==> a[k].e in EventsOf(a);
  }

  /** Processing an event a second time changes nothing and activates nothing. */
  lemma ProcessIsIdempotent(l: Ledger, e: Event, now: int, later: int, fault: bool)
    requires Inv(l)
    ensures var once := Process(l, e, now, false).ledger;
            Process(once, e, later, fault).ledger == once && !Process(once, e, later, fault).outcome.Activated?
  {
    var first := Process(l, e, now, false);
    if first.outcome.Activated? || first.outcome.FailureRecorded? {
      var t, s := OnRecord(l, e, now);
      ProcessKeepsInv(l, e, now, false);
      RecordedOnce(first.ledger, e, t, s, later, fault);
    } else {
      UnchangedAgain(l, e, now, later, fault);
    }
  }

  lemma OnRecord(l: Ledger, e: Event, now: int) returns (t: nat, s: nat)
    requires Inv(l)
    requires Process(l, e, now, false).outcome.Activated? || Process(l, e, now, false).outcome.FailureRecorded?
    ensures var once := Process(l, e, now, false).ledger;
            && Final(e) && t < |once.txns| && s < |once.payments|
            && once.txns[t].transactionId == Some(e.transactionId) && once.txns[t].payment == s
            && once.txns[t].status == (if e.success then Completed else Failed)
            && !once.payments[s].status.Pending?
  {
    s := Resolve(l, e).value;
    RowForFits(l, s, e, now);
    t := RowFor(l, s, e, now).value.0;
  }

  /** Once an event is on record with its own result, delivering it again changes nothing. */
  lemma RecordedOnce(l: Ledger, e: Event, t: nat, s: nat, now: int, fault: bool)
    requires Inv(l) && Final(e) && t < |l.txns| && s < |l.payments|
    requires l.txns[t].transactionId == Some(e.transactionId) && l.txns[t].payment == s
    requires l.txns[t].status == (if e.success then Completed else Failed)
    requires !l.payments[s].status.Pending?
    ensures Process(l, e, now, fault).ledger == l && !Process(l, e, now, fault).outcome.Activated?
  {
    assert FindId(l.txns, e.transactionId) == Some(t);
    if !e.success {
      var row := l.txns[t];
      assert RowFor(l, s, e, now) == Some((t, row));
      assert SaveTxn(l.txns, t, row.(transactionId := Some(e.transactionId), status := Failed)) == l.txns;
    }
  }

  lemma UnchangedAgain(l: Ledger, e: Event, now: int, later: int, fault: bool)
    requires Inv(l)
    requires !Process(l, e, now, false).outcome.Activated? && !Process(l, e, now, false).outcome.FailureRecorded?
    ensures Process(l, e, now, false).ledger == l
    ensures Process(l, e, later, fault).ledger == l && !Process(l, e, later, fault).outcome.Activated?
  {
    if Final(e) && Resolve(l, e).Some? && Resolve(l, e).value < |l.payments| {
      UnappliedAgain(l, Resolve(l, e).value, e, now, later, fault);
    }
  }

  lemma UnappliedAgain(l: Ledger, s: nat, e: Event, now: int, later: int, fault: bool)
    requires s < |l.payments|
    requires !Apply(l, s, e, now, false).outcome.Activated? && !Apply(l, s, e, now, false).outcome.FailureRecorded?
    ensures Apply(l, s, e, now, false).ledger == l
    ensures Apply(l, s, e, later, fault).ledger == l && !Apply(l, s, e, later, fault).outcome.Activated?
  {
    assert RowFor(l, s, e, now).Some? <==> RowFor(l, s, e, later).Some?;
  }
}
