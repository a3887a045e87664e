/** Payment records, gateway events, and the one function that applies an event to the records. */
module Payments {
  import opened Wrappers
  import opened Decimal
  import opened Money
  import opened Text

  datatype Status = Pending | Completed | Failed

  /** One purchase attempt.  Payments and transactions are never deleted; the primary key of the payment
    * at index `i` is `i + 1`.
    */
  datatype Payment = Payment(business: int, plan: int, status: Status, reference: string)

  datatype Txn = Txn(payment: nat, transactionId: Option<string>, amount: real, currency: string, status: Status,
                     createdAt: int)

  /** `activations` lists the payments for which a Featured subscription was activated, in order. */
  datatype Ledger = Ledger(payments: seq<Payment>, txns: seq<Txn>, activations: seq<nat>)

  datatype Event = Event(
    transactionId: string, orderId: string, merchantOrderId: string, success: bool, pending: bool,
    isVoided: bool, isRefunded: bool, amountCents: Option<int>, currency: string)

  datatype Outcome = Activated | Duplicate | FailureRecorded | Ignored | Unmatched | Rejected | Raised

  predicate Final(e: Event) {
    !e.pending && !e.isVoided && !e.isRefunded
  }

  predicate AmountMatches(e: Event, amount: real, currency: string) {
    e.amountCents == Some(ToCents(amount)) && Upper(e.currency) == Upper(currency)
  }

  /** An event pays for at most one price in a currency, the one whose cents were sent to the gateway. */
  lemma OnePriceIsPaid(e: Event, sent: real, other: real, currency: string)
    requires TwoDecimals(sent) && TwoDecimals(other) && e.amountCents == Some(ToCents(sent)) && e.currency == currency
    ensures AmountMatches(e, sent, currency)
    ensures AmountMatches(e, other, currency) <==> other == sent
  {
    if other != sent {
      DistinctPricesDistinctCents(sent, other);
    }
  }

  // ---- Look-ups

  /** The transaction with this gateway id. */
  function FindId(txns: seq<Txn>, id: string): (r: Option<nat>)
    ensures r.None? ==> forall i :: 0 <= i < |txns| ==> txns[i].transactionId != Some(id)
    ensures r.Some? ==> r.value < |txns| && txns[r.value].transactionId == Some(id)
  {
    if txns == [] then None
    else if txns[|txns| - 1].transactionId == Some(id) && FindId(txns[..|txns| - 1], id).None? then Some(|txns| - 1)
    else FindId(txns[..|txns| - 1], id)
  }

  predicate Open(t: Txn, s: nat) {
    t.payment == s && t.transactionId.None? && t.status.Pending?
  }

  /** The first transaction of payment `s` that no event has touched. */
  function FirstOpen(txns: seq<Txn>, s: nat): (r: Option<nat>)
    ensures r.None? ==> forall i :: 0 <= i < |txns| ==> !Open(txns[i], s)
    ensures r.Some? ==> r.value < |txns| && Open(txns[r.value], s)
    ensures r.Some? ==> forall i :: 0 <= i < r.value ==> !Open(txns[i], s)
  {
    if txns == [] then None
    else if FirstOpen(txns[..|txns| - 1], s).Some? then FirstOpen(txns[..|txns| - 1], s)
    else if Open(txns[|txns| - 1], s) then Some(|txns| - 1)
    else None
  }

  /** The newest transaction of payment `s`. */
  function LastOf(txns: seq<Txn>, s: nat): (r: Option<nat>)
    ensures r.None? ==> forall i :: 0 <= i < |txns| ==> txns[i].payment != s
    ensures r.Some? ==> r.value < |txns| && txns[r.value].payment == s
  {
    if txns == [] then None
    else if txns[|txns| - 1].payment == s then Some(|txns| - 1)
    else LastOf(txns[..|txns| - 1], s)
  }

  /** The newest payment with this gateway reference. */
  function LastByReference(payments: seq<Payment>, reference: string): (r: Option<nat>)
    ensures r.None? ==> forall i :: 0 <= i < |payments| ==> payments[i].reference != reference
    ensures r.Some? ==> r.value < |payments| && payments[r.value].reference == reference
    ensures r.Some? ==> forall i :: r.value < i < |payments| ==> payments[i].reference != reference
  {
    if payments == [] then None
    else if payments[|payments| - 1].reference == reference then Some(|payments| - 1)
    else LastByReference(payments[..|payments| - 1], reference)
  }

  const MERCHANT_PREFIX: string := "payments-sub-"

  /** The reference sent to the gateway for payment `s`. */
  function MerchantReference(s: nat): string {
    MERCHANT_PREFIX + Digits(s + 1)
  }

  /** The primary key in a merchant reference. */
  function MerchantKey(reference: string): Option<nat> {
    if StartsWith(reference, MERCHANT_PREFIX) && |reference| > |MERCHANT_PREFIX|
       && AllDigits(reference[|MERCHANT_PREFIX|..])
    then Some(NumberOf(reference[|MERCHANT_PREFIX|..])) else None
  }

  function ByMerchant(payments: seq<Payment>, reference: string): (r: Option<nat>)
    ensures r.Some? ==> r.value < |payments|
  {
    match MerchantKey(reference)
    case None => None
    case Some(pk) => if 0 < pk <= |payments| then Some(pk - 1) else None
  }

  function ByReferences(payments: seq<Payment>, e: Event): (r: Option<nat>)
    ensures r.Some? ==> r.value < |payments|
  {
    if e.orderId != "" && LastByReference(payments, e.orderId).Some? then LastByReference(payments, e.orderId)
    else ByMerchant(payments, e.merchantOrderId)
  }

  /** The payment an event belongs to: by gateway transaction id, else by the references. */
  function Resolve(l: Ledger, e: Event): Option<nat> {
    match FindId(l.txns, e.transactionId)
    case Some(t) => Some(l.txns[t].payment)
    case None => ByReferences(l.payments, e)
  }

  /** A reference sent to the gateway is recognised when it comes back. */
  lemma MerchantReferenceComesBack(payments: seq<Payment>, s: nat)
    requires s < |payments|
    ensures ByMerchant(payments, MerchantReference(s)) == Some(s)
  {
    var reference := MerchantReference(s);
    assert reference[..|MERCHANT_PREFIX|] == MERCHANT_PREFIX;
    assert reference[|MERCHANT_PREFIX|..] == Digits(s + 1);
    NumberOfDigits(s + 1);
  }

  // ---- Applying one event

  datatype Processed = Processed(ledger: Ledger, outcome: Outcome)

  /** The row an event is recorded on: its own, else the untouched one, else a copy of the newest. */
  function RowFor(l: Ledger, s: nat, e: Event, now: int): (r: Option<(nat, Txn)>)
    ensures r.Some? ==> r.value.0 <= |l.txns| && (r.value.0 < |l.txns| ==> r.value.1 == l.txns[r.value.0])
  {
    if FindId(l.txns, e.transactionId).Some? then
      var t := FindId(l.txns, e.transactionId).value; Some((t, l.txns[t]))
    else if FirstOpen(l.txns, s).Some? then
      var t := FirstOpen(l.txns, s).value; Some((t, l.txns[t]))
    else if LastOf(l.txns, s).Some? then
      var template := l.txns[LastOf(l.txns, s).value];
      Some((|l.txns|, Txn(s, None, template.amount, template.currency, Pending, now)))
    else None
  }

  function SaveTxn(txns: seq<Txn>, t: nat, row: Txn): seq<Txn>
    requires t <= |txns|
  {
    if t < |txns| then txns[t := row] else txns + [row]
  }

  /** One verified event, as one transaction.  `fault` says that the activation raises; everything is
    * rolled back then.
    */
  function Process(l: Ledger, e: Event, now: int, fault: bool): Processed {
    if !Final(e) then Processed(l, Ignored)
    else
      match Resolve(l, e)
      case None => Processed(l, Unmatched)
      case Some(s) => if s < |l.payments| then Apply(l, s, e, now, fault) else Processed(l, Unmatched)
  }

  function Apply(l: Ledger, s: nat, e: Event, now: int, fault: bool): Processed
    requires s < |l.payments|
  {
    var known := FindId(l.txns, e.transactionId);
    if known.Some? && l.txns[known.value].status.Completed? then Processed(l, Duplicate)
    else if known.Some? && l.txns[known.value].payment != s then Processed(l, Unmatched)
    else
      match RowFor(l, s, e, now)
      case None => Processed(l, Unmatched)
      case Some(found) =>
        var (t, row) := found;
        var payment := l.payments[s];
        if e.success then
          if !AmountMatches(e, row.amount, row.currency) then Processed(l, Rejected)
          else if payment.status.Completed? then Processed(l, Ignored)
          else if fault then Processed(l, Raised)
          else
            Processed(Ledger(l.payments[s := payment.(status := Completed)],
                             SaveTxn(l.txns, t, row.(transactionId := Some(e.transactionId), status := Completed)),
                             l.activations + [s]),
                      Activated)
        else
          Processed(Ledger(l.payments[s := if payment.status.Pending? then payment.(status := Failed) else payment],
                           SaveTxn(l.txns, t, row.(transactionId := Some(e.transactionId), status := Failed)),
                           l.activations),
                    FailureRecorded)
  }

  // ---- Initiation

  /** Both rows of a new payment. */
  function Create(l: Ledger, business: int, plan: int, price: real, currency: string, now: int): Ledger {
    Ledger(l.payments + [Payment(business, plan, Pending, "")],
           l.txns + [Txn(|l.payments|, None, price, currency, Pending, now)],
           l.activations)
  }

  function RecordReference(l: Ledger, s: nat, reference: string): Ledger
    requires s < |l.payments|
  {
    l.(payments := l.payments[s := l.payments[s].(reference := reference)])
  }

  /** The first save of `_mark_failed`: the payment row, whatever happened to it since it was created. */
  function MarkPaymentFailed(l: Ledger, s: nat): Ledger
    requires s < |l.payments|
  {
    l.(payments := l.payments[s := l.payments[s].(status := Failed)])
  }

  /** Its second save: the transaction row.  The two are not one transaction. */
  function MarkTxnFailed(l: Ledger, t: nat): Ledger
    requires t < |l.txns|
  {
    l.(txns := l.txns[t := l.txns[t].(status := Failed)])
  }

  datatype GatewayAnswer = Initiated(paymentUrl: string, reference: string) | Malformed | GatewayFailure

  /** The stored tables, and the code that changes them step by step. */
  class PaymentStore {
    var payments: seq<Payment>
    var txns: seq<Txn>
    var activations: seq<nat>

    ghost function Contents(): Ledger
      reads this
    {
      Ledger(payments, txns, activations)
    }

    method SaveTransaction(t: nat, row: Txn)
      requires t <= |txns|
      modifies this`txns
      ensures txns == SaveTxn(old(txns), t, row)
    {
      if t < |txns| {
        txns := txns[t := row];
      } else {
        txns := txns + [row];
      }
    }

    method ProcessWebhookEvent(e: Event, now: int, fault: bool) returns (outcome: Outcome)
      modifies this
      ensures Processed(Contents(), outcome) == Process(old(Contents()), e, now, fault)
    {
      if e.pending || e.isVoided || e.isRefunded {
        return Ignored;
      }
      var resolved := Resolve(Ledger(payments, txns, activations), e);
      if resolved.None? || resolved.value >= |payments| {
        return Unmatched;
      }
      var s := resolved.value;
      var payment := payments[s];
      var known := FindId(txns, e.transactionId);
      if known.Some? && txns[known.value].status.Completed? {
        return Duplicate;
      }
      if known.Some? && txns[known.value].payment != s {
        return Unmatched;
      }
      var t, row;
      if known.Some? {
        t, row := known.value, txns[known.value];
      } else {
        var open := FirstOpen(txns, s);
        if open.Some? {
          t, row := open.value, txns[open.value];
        } else {
          var template := LastOf(txns, s);
          if template.None? {
            return Unmatched;
          }
          t, row := |txns|, Txn(s, None, txns[template.value].amount, txns[template.value].currency, Pending, now);
        }
      }
      if e.success {
        if !AmountMatches(e, row.amount, row.currency) {
          return Rejected;
        }
        if payment.status.Completed? {
          return Ignored;
        }
        if fault {
          return Raised;
        }
        SaveTransaction(t, row.(transactionId := Some(e.transactionId), status := Completed));
        payments := payments[s := payment.(status := Completed)];
        activations := activations + [s];
        return Activated;
      }
      SaveTransaction(t, row.(transactionId := Some(e.transactionId), status := Failed));
      if payment.status.Pending? {
        payments := payments[s := payment.(status := Failed)];
      }
      return FailureRecorded;
    }

    /** Creates both rows, asks the gateway, and records its reference or the failure. */
    method InitiateSubscriptionPayment(business: int, plan: int, price: real, currency: string, now: int,
                                       answer: GatewayAnswer) returns (url: Option<string>)
      modifies this
      ensures var s, created := |old(payments)|, Create(old(Contents()), business, plan, price, currency, now);
              if answer.Initiated? && answer.paymentUrl != "" && answer.reference != ""
              then url == Some(answer.paymentUrl) && Contents() == RecordReference(created, s, answer.reference)
              else url == None && Contents() == MarkTxnFailed(MarkPaymentFailed(created, s), |old(txns)|)
      ensures var sent := answer.Initiated? && answer.paymentUrl != "" && answer.reference != "";
              && (url.Some? <==> sent)
              && payments == old(payments) + [if sent then Payment(business, plan, Pending, answer.reference)
                                              else Payment(business, plan, Failed, "")]
              && txns == old(txns)
                         + [Txn(|old(payments)|, None, price, currency, if sent then Pending else Failed, now)]
              && activations == old(activations)
    {
      var s, t := |payments|, |txns|;
      payments := payments + [Payment(business, plan, Pending, "")];
      txns := txns + [Txn(s, None, price, currency, Pending, now)];
      if answer.Initiated? && answer.paymentUrl != "" && answer.reference != "" {
        payments := payments[s := payments[s].(reference := answer.reference)];
        url := Some(answer.paymentUrl);
      } else {
        payments := payments[s := payments[s].(status := Failed)];
        txns := txns[t := txns[t].(status := Failed)];
        url := None;
      }
    }
  }
}
