/** The daily job that asks the gateway about payments stuck in PENDING. */
module Reconcile {
  import opened Payments
  import opened PaymentRuns
  import opened PaymentHistory

  /** What the gateway says about one payment. */
  datatype Answer = Unreachable | NoTransaction | Found(e: Event)

  function AnswerStatus(e: Event): Status {
    if e.pending || e.isVoided || e.isRefunded then Pending else if e.success then Completed else Failed
  }

  /** The job leaves alone exactly the answers the event processor would ignore as not final. */
  lemma SkippedIffAlwaysIgnored(e: Event)
    ensures AnswerStatus(e).Pending? <==>
              forall l: Ledger, now: int, fault: bool :: Process(l, e, now, fault) == Processed(l, Ignored)
  {
    if !AnswerStatus(e).Pending? {
      assert Process(EMPTY, e, 0, false).outcome == Unmatched;
    }
  }

  // ---- Whom to ask

  predicate Stuck(l: Ledger, t: nat, cutoff: int)
    requires t < |l.txns|
  {
    && l.txns[t].status.Pending? && l.txns[t].createdAt <= cutoff
    && l.txns[t].payment < |l.payments| && l.payments[l.txns[t].payment].status.Pending?
  }

  predicate Older(txns: seq<Txn>, a: nat, b: nat)
    requires a < |txns| && b < |txns|
  {
    txns[a].createdAt < txns[b].createdAt || (txns[a].createdAt == txns[b].createdAt && a < b)
  }

  predicate OldestFirst(txns: seq<Txn>, rows: seq<nat>) {
    && (forall i :: 0 <= i < |rows| ==> rows[i] < |txns|)
    && forall i, j :: 0 <= i < j < |rows| ==> Older(txns, rows[i], rows[j])
  }

  function InsertByAge(txns: seq<Txn>, rows: seq<nat>, t: nat): (r: seq<nat>)
    requires OldestFirst(txns, rows) && t < |txns| && forall i :: 0 <= i < |rows| ==> rows[i] < t
    ensures OldestFirst(txns, r)
    ensures forall x :: x in r <==> x in rows || x == t
  {
    if rows == [] || txns[rows[|rows| - 1]].createdAt <= txns[t].createdAt then rows + [t]
    else
      assert rows == rows[..|rows| - 1] + [rows[|rows| - 1]];
      var before := InsertByAge(txns, rows[..|rows| - 1], t);
      assert forall i :: 0 <= i < |before| ==> before[i] in before;
      before + [rows[|rows| - 1]]
  }

  /** The stuck transactions among the first `n`, oldest first, equal ages by primary key. */
  function StuckRows(l: Ledger, cutoff: int, n: nat): (r: seq<nat>)
    requires n <= |l.txns|
    ensures OldestFirst(l.txns, r)
    ensures forall t :: t in r <==> 0 <= t < n && Stuck(l, t, cutoff)
  {
    if n == 0 then []
    else
      var before := StuckRows(l, cutoff, n - 1);
      assert forall i :: 0 <= i < |before| ==> before[i] in before;
      if Stuck(l, n - 1, cutoff) then InsertByAge(l.txns, before, n - 1) else before
  }

  ghost predicate StuckSince(l: Ledger, s: nat, cutoff: int, t: nat) {
    && t < |l.txns| && Stuck(l, t, cutoff) && l.txns[t].payment == s
    && forall u :: 0 <= u < |l.txns| && u != t && Stuck(l, u, cutoff) && l.txns[u].payment == s ==> Older(l.txns, t, u)
  }

  ghost predicate HasStuck(l: Ledger, s: nat, cutoff: int) {
    exists t: nat :: StuckSince(l, s, cutoff, t)
  }

  ghost predicate AsksEachOnceOldestFirst(l: Ledger, cutoff: int, asked: seq<nat>) {
    && (forall i, j :: 0 <= i < j < |asked| ==> asked[i] != asked[j])
    && (forall t :: 0 <= t < |l.txns| && Stuck(l, t, cutoff) ==> l.txns[t].payment in asked)
    && (forall i :: 0 <= i < |asked| ==> HasStuck(l, asked[i], cutoff))
    && (forall i, j, t: nat, u: nat ::
          0 <= i < j < |asked| && StuckSince(l, asked[i], cutoff, t) && StuckSince(l, asked[j], cutoff, u) ==>
            Older(l.txns, t, u))
  }

  /** Row `at[i]` is the first of `rows` that belongs to payment `asked[i]`. */
  ghost predicate FirstSeen(l: Ledger, rows: seq<nat>, asked: seq<nat>, at: seq<nat>) {
    && |at| == |asked|
    && (forall r :: 0 <= r < |rows| ==> rows[r] < |l.txns|)
    && (forall i :: 0 <= i < |at| ==>
          && at[i] < |rows| && l.txns[rows[at[i]]].payment == asked[i]
          && forall r :: 0 <= r < at[i] ==> l.txns[rows[r]].payment != asked[i])
    && (forall i, j :: 0 <= i < j < |at| ==> at[i] < at[j])
  }

  lemma FirstIsOldest(l: Ledger, cutoff: int, rows: seq<nat>, asked: seq<nat>, at: seq<nat>, i: nat)
    requires rows == StuckRows(l, cutoff, |l.txns|) && FirstSeen(l, rows, asked, at) && i < |at|
    ensures StuckSince(l, asked[i], cutoff, rows[at[i]])
  {
    assert rows[at[i]] in rows;
    forall u | 0 <= u < |l.txns| && u != rows[at[i]] && Stuck(l, u, cutoff) && l.txns[u].payment == asked[i]
      ensures Older(l.txns, rows[at[i]], u)
    {
      assert u in rows;
      var r :| 0 <= r < |rows| && rows[r] == u;
      assert at[i] < r;
    }
  }

  lemma FirstSeenIsOldestFirst(l: Ledger, cutoff: int, rows: seq<nat>, asked: seq<nat>, at: seq<nat>)
    requires rows == StuckRows(l, cutoff, |l.txns|) && FirstSeen(l, rows, asked, at)
    requires forall r :: 0 <= r < |rows| ==> l.txns[rows[r]].payment in asked
    ensures AsksEachOnceOldestFirst(l, cutoff, asked)
  {
    forall i | 0 <= i < |asked|
      ensures StuckSince(l, asked[i], cutoff, rows[at[i]]) && HasStuck(l, asked[i], cutoff)
    {
      FirstIsOldest(l, cutoff, rows, asked, at, i);
    }
    forall i, j | 0 <= i < j < |asked|
      ensures asked[i] != asked[j]
    {
      assert l.txns[rows[at[i]]].payment != asked[j];
    }
    forall t | 0 <= t < |l.txns| && Stuck(l, t, cutoff)
      ensures l.txns[t].payment in asked
    {
      assert t in rows;
      var r :| 0 <= r < |rows| && rows[r] == t;
    }
    forall i, j, t: nat, u: nat |
      0 <= i < j < |asked| && StuckSince(l, asked[i], cutoff, t) && StuckSince(l, asked[j], cutoff, u)
      ensures Older(l.txns, t, u)
    {
      OldestIsUnique(l, asked[i], cutoff, t, rows[at[i]]);
      OldestIsUnique(l, asked[j], cutoff, u, rows[at[j]]);
    }
  }

  lemma OldestIsUnique(l: Ledger, s: nat, cutoff: int, t: nat, u: nat)
    requires StuckSince(l, s, cutoff, t) && StuckSince(l, s, cutoff, u)
    ensures t == u
  {
  }

  lemma FirstSeenMore(l: Ledger, rows: seq<nat>, asked: seq<nat>, at: seq<nat>, r: nat)
    requires FirstSeen(l, rows, asked, at) && r < |rows| && l.txns[rows[r]].payment !in asked
    requires forall i :: 0 <= i < |at| ==> at[i] < r
    requires forall q :: 0 <= q < r ==> l.txns[rows[q]].payment in asked
    ensures FirstSeen(l, rows, asked + [l.txns[rows[r]].payment], at + [r])
  {
  }

  /** The payments to ask the gateway about. */
  method PendingSubscriptions(store: PaymentStore, cutoff: int) returns (asked: seq<nat>)
    ensures AsksEachOnceOldestFirst(store.Contents(), cutoff, asked)
  {
    ghost var l := store.Contents();
    var rows := StuckRows(Ledger(store.payments, store.txns, store.activations), cutoff, |store.txns|);
    var seen: set<nat> := {};
    asked := [];
    ghost var at: seq<nat> := [];
    for r := 0 to |rows|
      invariant FirstSeen(l, rows, asked, at)
      invariant forall i :: 0 <= i < |at| ==> at[i] < r
      invariant seen == set s | s in asked
      invariant forall q :: 0 <= q < r ==> l.txns[rows[q]].payment in asked
    {
      var s := store.txns[rows[r]].payment;
      if s !in seen {
        FirstSeenMore(l, rows, asked, at, r);
        seen := seen + {s};
        asked := asked + [s];
        at := at + [r];
      }
    }
    FirstSeenIsOldestFirst(l, cutoff, rows, asked, at);
  }

  /** In a reachable ledger these are the PENDING payments initiated up to the cutoff. */
  lemma AskedArePending(l: Ledger, cutoff: int, asked: seq<nat>, s: nat)
    requires Inv(l) && AsksEachOnceOldestFirst(l, cutoff, asked)
    ensures s in asked <==>
              s < |l.payments| && l.payments[s].status.Pending?
              && exists t: nat :: Untouched(l, s, t) && l.txns[t].createdAt <= cutoff
  {
    if s in asked {
      var i :| 0 <= i < |asked| && asked[i] == s;
      var t: nat :| StuckSince(l, asked[i], cutoff, t);
      assert PaymentOk(l, s);
    }
    if s < |l.payments| && l.payments[s].status.Pending? {
      if t: nat :| Untouched(l, s, t) && l.txns[t].createdAt <= cutoff {
        assert Stuck(l, t, cutoff);
      }
    }
  }

  // ---- The run

  datatype Counts = Counts(checked: nat, processed: nat, skipped: nat, errors: nat)

  predicate IsFinal(a: Answer) {
    a.Found? && !AnswerStatus(a.e).Pending?
  }

  /** The final answers, as webhook deliveries, in the order asked. */
  function FinalAnswers(asked: seq<nat>, gateway: nat -> Answer, at: nat -> int, fault: nat -> bool): (r: seq<Step>)
    ensures forall k :: 0 <= k < |r| ==> r[k].Deliver?
  {
    if asked == [] then []
    else
      var n := |asked| - 1;
      FinalAnswers(asked[..n], gateway, at, fault)
      + (if IsFinal(gateway(asked[n])) then [Deliver(gateway(asked[n]).e, at(asked[n]), fault(asked[n]))] else [])
  }

  /** Every answer that came, final or not, as webhook deliveries. */
  function AllAnswers(asked: seq<nat>, gateway: nat -> Answer, at: nat -> int, fault: nat -> bool): (r: seq<Step>)
    ensures forall k :: 0 <= k < |r| ==> r[k].Deliver?
  {
    if asked == [] then []
    else
      var n := |asked| - 1;
      AllAnswers(asked[..n], gateway, at, fault)
      + (if gateway(asked[n]).Found? then [Deliver(gateway(asked[n]).e, at(asked[n]), fault(asked[n]))] else [])
  }

  /** The webhook end point applied to a list of deliveries. */
  function Webhooks(l: Ledger, steps: seq<Step>): Ledger
    requires forall k :: 0 <= k < |steps| ==> steps[k].Deliver?
  {
    if steps == [] then l else Do(Webhooks(l, steps[..|steps| - 1]), steps[|steps| - 1])
  }

  /** Sending the answers that are not final as well would make no difference. */
  lemma {:induction false} OnlyFinalAnswersMatter(l: Ledger, asked: seq<nat>, gateway: nat -> Answer,
                                                  at: nat -> int, fault: nat -> bool)
    ensures Webhooks(l, AllAnswers(asked, gateway, at, fault)) == Webhooks(l, FinalAnswers(asked, gateway, at, fault))
  {
    if asked != [] {
      var n := |asked| - 1;
      assert asked[..n + 1] == asked;
      AnswersStep(asked, n, gateway, at, fault);
      OnlyFinalAnswersMatter(l, asked[..n], gateway, at, fault);
      var a := gateway(asked[n]);
      if a.Found? {
        WebhooksAppend(l, AllAnswers(asked[..n], gateway, at, fault), Deliver(a.e, at(asked[n]), fault(asked[n])));
        WebhooksAppend(l, FinalAnswers(asked[..n], gateway, at, fault), Deliver(a.e, at(asked[n]), fault(asked[n])));
      }
    }
  }

  lemma AnswersStep(asked: seq<nat>, n: nat, gateway: nat -> Answer, at: nat -> int, fault: nat -> bool)
    requires n < |asked|
    ensures var a, before := gateway(asked[n]), FinalAnswers(asked[..n], gateway, at, fault);
            FinalAnswers(asked[..n + 1], gateway, at, fault)
              == if IsFinal(a) then before + [Deliver(a.e, at(asked[n]), fault(asked[n]))] else before
    ensures var a, before := gateway(asked[n]), AllAnswers(asked[..n], gateway, at, fault);
            AllAnswers(asked[..n + 1], gateway, at, fault)
              == if a.Found? then before + [Deliver(a.e, at(asked[n]), fault(asked[n]))] else before
  {
    assert asked[..n + 1][..n] == asked[..n];
  }

  function NoFault(s: nat): bool {
    false
  }

  lemma WebhooksAppend(l: Ledger, steps: seq<Step>, step: Step)
    requires step.Deliver? && forall k :: 0 <= k < |steps| ==> steps[k].Deliver?
    ensures Webhooks(l, steps + [step]) == Do(Webhooks(l, steps), step)
  {
    assert (steps + [step])[..|steps|] == steps;
  }

  predicate IsLeftAlone(a: Answer) {
    a.NoTransaction? || (a.Found? && !IsFinal(a))
  }

  /** How many payments were left alone: no transaction, or nothing final yet. */
  function LeftAlone(asked: seq<nat>, gateway: nat -> Answer): nat {
    if asked == [] then 0
    else LeftAlone(asked[..|asked| - 1], gateway) + if IsLeftAlone(gateway(asked[|asked| - 1])) then 1 else 0
  }

  /** For how many the gateway could not be asked. */
  function NotReached(asked: seq<nat>, gateway: nat -> Answer): nat {
    if asked == [] then 0
    else NotReached(asked[..|asked| - 1], gateway) + if gateway(asked[|asked| - 1]).Unreachable? then 1 else 0
  }

  predicate Raises(l: Ledger, step: Step) {
    step.Deliver? && Process(l, step.e, step.at, step.fault).outcome.Raised?
  }

  /** How many of the deliveries raise, each in the state it meets. */
  function Raised(l: Ledger, steps: seq<Step>): nat
    requires forall k :: 0 <= k < |steps| ==> steps[k].Deliver?
  {
    if steps == [] then 0
    else
      var n := |steps| - 1;
      Raised(l, steps[..n]) + if Raises(Webhooks(l, steps[..n]), steps[n]) then 1 else 0
  }

  lemma DeliverIsAfterAnswer(l: Ledger, a: Answer, now: int, fault: bool)
    requires IsFinal(a)
    ensures Do(l, Deliver(a.e, now, fault)) == AfterAnswer(l, a, now, fault)
  {
  }

  lemma SweepStep(l: Ledger, asked: seq<nat>, n: nat, gateway: nat -> Answer, at: nat -> int, fault: nat -> bool)
    requires n < |asked|
    ensures var a := gateway(asked[n]);
            Webhooks(l, FinalAnswers(asked[..n + 1], gateway, at, fault))
              == AfterAnswer(Webhooks(l, FinalAnswers(asked[..n], gateway, at, fault)), a,
                             at(asked[n]), fault(asked[n]))
  {
    AnswersStep(asked, n, gateway, at, fault);
    if IsFinal(gateway(asked[n])) {
      var delivered := Deliver(gateway(asked[n]).e, at(asked[n]), fault(asked[n]));
      var done := FinalAnswers(asked[..n], gateway, at, fault);
      WebhooksAppend(l, done, delivered);
      DeliverIsAfterAnswer(Webhooks(l, done), gateway(asked[n]), at(asked[n]), fault(asked[n]));
    }
  }

  lemma RaisedAppend(l: Ledger, steps: seq<Step>, step: Step)
    requires step.Deliver? && forall k :: 0 <= k < |steps| ==> steps[k].Deliver?
    ensures Raised(l, steps + [step]) == Raised(l, steps) + if Raises(Webhooks(l, steps), step) then 1 else 0
  {
    assert (steps + [step])[..|steps|] == steps;
  }

  datatype Tally = HandedOver | Skipped | Errored

  function Counted(c: Counts, what: Tally): Counts {
    match what
    case HandedOver => c.(processed := c.processed + 1)
    case Skipped => c.(skipped := c.skipped + 1)
    case Errored => c.(errors := c.errors + 1)
  }

  function AfterAnswer(l: Ledger, a: Answer, now: int, fault: bool): Ledger {
    if IsFinal(a) then Process(l, a.e, now, fault).ledger else l
  }

  /** An answer is skipped exactly if it is left alone, and an error exactly if there is none or its processing
    * raises.
    */
  predicate TallyIs(what: Tally, l: Ledger, a: Answer, now: int, fault: bool) {
    && (what.Skipped? <==> IsLeftAlone(a))
    && (what.Errored? <==> a.Unreachable? || (IsFinal(a) && Process(l, a.e, now, fault).outcome.Raised?))
  }

  /** What the job does with one answer. */
  method Handle(store: PaymentStore, a: Answer, now: int, fault: bool) returns (what: Tally)
    modifies store
    ensures store.Contents() == AfterAnswer(old(store.Contents()), a, now, fault)
    ensures TallyIs(what, old(store.Contents()), a, now, fault)
  {
    match a {
      case Unreachable =>
        what := Errored;
      case NoTransaction =>
        what := Skipped;
      case Found(e) =>
        if AnswerStatus(e).Pending? {
          what := Skipped;
        } else {
          var outcome := store.ProcessWebhookEvent(e, now, fault);
          what := if outcome.Raised? then Errored else HandedOver;
        }
    }
  }

  /** The counters after a run over `asked`. */
  ghost predicate Tallied(l: Ledger, asked: seq<nat>, gateway: nat -> Answer, at: nat -> int, fault: nat -> bool,
                          counts: Counts) {
    var steps := FinalAnswers(asked, gateway, at, fault);
    && counts.checked == |asked| == counts.processed + counts.skipped + counts.errors
    && counts.skipped == LeftAlone(asked, gateway)
    && counts.errors == NotReached(asked, gateway) + Raised(l, steps)
    && counts.processed == |steps| - Raised(l, steps)
  }

  lemma RaisedStep(l: Ledger, asked: seq<nat>, n: nat, gateway: nat -> Answer, at: nat -> int, fault: nat -> bool,
                   what: Tally)
    requires n < |asked|
    requires TallyIs(what, Webhooks(l, FinalAnswers(asked[..n], gateway, at, fault)), gateway(asked[n]), at(asked[n]),
                     fault(asked[n]))
    ensures Raised(l, FinalAnswers(asked[..n + 1], gateway, at, fault))
              == Raised(l, FinalAnswers(asked[..n], gateway, at, fault))
                 + if IsFinal(gateway(asked[n])) && what.Errored? then 1 else 0
  {
    var a := gateway(asked[n]);
    AnswersStep(asked, n, gateway, at, fault);
    if IsFinal(a) {
      RaisedAppend(l, FinalAnswers(asked[..n], gateway, at, fault), Deliver(a.e, at(asked[n]), fault(asked[n])));
    }
  }

  lemma TalliedStep(l: Ledger, asked: seq<nat>, n: nat, gateway: nat -> Answer, at: nat -> int, fault: nat -> bool,
                    counts: Counts, what: Tally)
    requires n < |asked| && Tallied(l, asked[..n], gateway, at, fault, counts)
    requires TallyIs(what, Webhooks(l, FinalAnswers(asked[..n], gateway, at, fault)), gateway(asked[n]), at(asked[n]),
                     fault(asked[n]))
    ensures Tallied(l, asked[..n + 1], gateway, at, fault, Counted(counts.(checked := counts.checked + 1), what))
  {
    assert asked[..n + 1][..n] == asked[..n];
    AnswersStep(asked, n, gateway, at, fault);
    RaisedStep(l, asked, n, gateway, at, fault, what);
  }

  method ReconcilePendingTransactions(store: PaymentStore, cutoff: int, gateway: nat -> Answer, at: nat -> int,
                                      fault: nat -> bool)
    returns (asked: seq<nat>, counts: Counts)
    modifies store
    ensures AsksEachOnceOldestFirst(old(store.Contents()), cutoff, asked)
    ensures store.Contents() == Webhooks(old(store.Contents()), FinalAnswers(asked, gateway, at, fault))
    ensures Tallied(old(store.Contents()), asked, gateway, at, fault, counts)
  {
    asked := PendingSubscriptions(store, cutoff);
    ghost var l := store.Contents();
    counts := Counts(0, 0, 0, 0);
    for i := 0 to |asked|
      invariant store.Contents() == Webhooks(l, FinalAnswers(asked[..i], gateway, at, fault))
      invariant Tallied(l, asked[..i], gateway, at, fault, counts)
    {
      var s := asked[i];
      SweepStep(l, asked, i, gateway, at, fault);
      counts := counts.(checked := counts.checked + 1);
      var what := Handle(store, gateway(s), at(s), fault(s));
      TalliedStep(l, asked, i, gateway, at, fault, counts.(checked := i), what);
      counts := Counted(counts, what);
    }
    assert asked[..|asked|] == asked;
  }

  /** Activations that do not raise make no errors, so every final answer is counted as processed. */
  lemma {:induction false} NoFaultNoError(l: Ledger, steps: seq<Step>)
    requires forall k :: 0 <= k < |steps| ==> steps[k].Deliver? && !steps[k].fault
    ensures Raised(l, steps) == 0
  {
    if steps != [] {
      NoFaultNoError(l, steps[..|steps| - 1]);
    }
  }

  // ---- What the run settles

  /** A delivery leaves the other payments, and whose their events are, alone. */
  lemma DeliverElsewhere(l: Ledger, e: Event, now: int, s: nat, f: Event, p: nat)
    requires Inv(l) && ForPayment(l, e, s) && ForPayment(l, f, p) && p != s && e.transactionId != f.transactionId
    ensures var l' := Process(l, e, now, false).ledger;
            p < |l'.payments| && l'.payments[p] == l.payments[p] && ForPayment(l', f, p)
  {
    var l' := Process(l, e, now, false).ledger;
    assert PaymentOk(l, s);
    var i :| 0 <= i < |l.txns| && l.txns[i].payment == s;
    DeliverFrame(l, e, now, s, i);
    SameReferences(l.payments, l'.payments, f);
  }

  lemma DeliverLeavesOthers(l: Ledger, e: Event, now: int, s: nat, p: nat)
    requires Inv(l) && ForPayment(l, e, s) && p != s && p < |l.payments|
    ensures p < |Process(l, e, now, false).ledger.payments|
    ensures Process(l, e, now, false).ledger.payments[p] == l.payments[p]
  {
    assert PaymentOk(l, s);
    var i :| 0 <= i < |l.txns| && l.txns[i].payment == s;
    DeliverFrame(l, e, now, s, i);
  }

  /** Every answer is about the payment asked about, under an id of its own. */
  ghost predicate AnswersBelong(l: Ledger, asked: seq<nat>, gateway: nat -> Answer) {
    && (forall i, j :: 0 <= i < j < |asked| ==> asked[i] != asked[j])
    && (forall i :: 0 <= i < |asked| ==> asked[i] < |l.payments|)
    && (forall i :: 0 <= i < |asked| && gateway(asked[i]).Found? ==> ForPayment(l, gateway(asked[i]).e, asked[i]))
    && (forall i, j :: 0 <= i < j < |asked| && gateway(asked[i]).Found? && gateway(asked[j]).Found? ==>
          gateway(asked[i]).e.transactionId != gateway(asked[j]).e.transactionId)
  }

  /** What the answer makes of one payment whose transactions carry this price and currency. */
  function Settled(before: Status, a: Answer, amount: real, currency: string): Status {
    if a.Found? then Verdict(before, Pays(a.e, amount, currency), Fails(a.e)) else before
  }

  lemma {:induction false} SweepLeavesRest(l: Ledger, asked: seq<nat>, n: nat, gateway: nat -> Answer, at: nat -> int)
    requires Inv(l) && AnswersBelong(l, asked, gateway) && n <= |asked|
    ensures var l' := Webhooks(l, FinalAnswers(asked[..n], gateway, at, NoFault));
            && Inv(l') && |l'.payments| == |l.payments| && SnapshotsKept(l, l')
            && forall j :: n <= j < |asked| ==>
                 l'.payments[asked[j]] == l.payments[asked[j]]
                 && (gateway(asked[j]).Found? ==> ForPayment(l', gateway(asked[j]).e, asked[j]))
  {
    if n > 0 {
      var before, a := Webhooks(l, FinalAnswers(asked[..n - 1], gateway, at, NoFault)), gateway(asked[n - 1]);
      SweepLeavesRest(l, asked, n - 1, gateway, at);
      SweepStep(l, asked, n - 1, gateway, at, NoFault);
      if IsFinal(a) {
        ProcessKeepsInv(before, a.e, at(asked[n - 1]), false);
        EventKeepsSnapshots(before, a.e, at(asked[n - 1]), false);
        EventCompletes(before, a.e, at(asked[n - 1]), false);
        var after := Process(before, a.e, at(asked[n - 1]), false).ledger;
        SnapshotsChain(l, before, after);
        forall j | n <= j < |asked| && gateway(asked[j]).Found?
          ensures ForPayment(after, gateway(asked[j]).e, asked[j])
        {
          DeliverElsewhere(before, a.e, at(asked[n - 1]), asked[n - 1], gateway(asked[j]).e, asked[j]);
        }
        forall j | n <= j < |asked|
          ensures after.payments[asked[j]] == l.payments[asked[j]]
        {
          DeliverLeavesOthers(before, a.e, at(asked[n - 1]), asked[n - 1], asked[j]);
        }
      }
    }
  }

  lemma SnapshotsChain(a: Ledger, b: Ledger, c: Ledger)
    requires SnapshotsKept(a, b) && SnapshotsKept(b, c)
    ensures SnapshotsKept(a, c)
  {
    forall i | |a.txns| <= i < |c.txns|
      ensures CopyOfSome(a.txns, c.txns[i])
    {
      if i >= |b.txns| {
        assert CopyOfSome(b.txns, c.txns[i]);
        var j :| 0 <= j < |b.txns| && SameSnapshot(c.txns[i], b.txns[j]);
        assert j < |a.txns| || CopyOfSome(a.txns, b.txns[j]);
      }
    }
  }

  function Swept(l: Ledger, asked: seq<nat>, n: nat, gateway: nat -> Answer, at: nat -> int): Ledger
    requires n <= |asked|
  {
    Webhooks(l, FinalAnswers(asked[..n], gateway, at, NoFault))
  }

  lemma SettledByOwnAnswer(l: Ledger, asked: seq<nat>, n: nat, gateway: nat -> Answer, at: nat -> int, i: nat)
    requires Inv(l) && AnswersBelong(l, asked, gateway) && n < |asked|
    requires i < |l.txns| && l.txns[i].payment == asked[n]
    ensures asked[n] < |Swept(l, asked, n + 1, gateway, at).payments|
    ensures Swept(l, asked, n + 1, gateway, at).payments[asked[n]].status
              == Settled(l.payments[asked[n]].status, gateway(asked[n]), l.txns[i].amount, l.txns[i].currency)
  {
    SweepLeavesRest(l, asked, n, gateway, at);
    SweepStep(l, asked, n, gateway, at, NoFault);
    if IsFinal(gateway(asked[n])) {
      DeliverSettles(Swept(l, asked, n, gateway, at), gateway(asked[n]).e, at(asked[n]), asked[n], i);
    }
  }

  lemma NotTouchedByOthers(l: Ledger, asked: seq<nat>, n: nat, gateway: nat -> Answer, at: nat -> int, j: nat)
    requires Inv(l) && AnswersBelong(l, asked, gateway) && j < n < |asked|
    requires asked[j] < |Swept(l, asked, n, gateway, at).payments|
    ensures asked[j] < |Swept(l, asked, n + 1, gateway, at).payments|
    ensures Swept(l, asked, n + 1, gateway, at).payments[asked[j]] == Swept(l, asked, n, gateway, at).payments[asked[j]]
  {
    SweepLeavesRest(l, asked, n, gateway, at);
    SweepStep(l, asked, n, gateway, at, NoFault);
    if IsFinal(gateway(asked[n])) {
      DeliverLeavesOthers(Swept(l, asked, n, gateway, at), gateway(asked[n]).e, at(asked[n]), asked[n], asked[j]);
    }
  }

  /** After a run each payment asked about is where its own answer puts it. */
  lemma {:induction false} SweepSettles(l: Ledger, asked: seq<nat>, n: nat, gateway: nat -> Answer, at: nat -> int,
                                        j: nat, i: nat)
    requires Inv(l) && AnswersBelong(l, asked, gateway) && j < n <= |asked|
    requires i < |l.txns| && l.txns[i].payment == asked[j]
    ensures asked[j] < |Swept(l, asked, n, gateway, at).payments|
    ensures Swept(l, asked, n, gateway, at).payments[asked[j]].status
              == Settled(l.payments[asked[j]].status, gateway(asked[j]), l.txns[i].amount, l.txns[i].currency)
  {
    if j < n - 1 {
      SweepSettles(l, asked, n - 1, gateway, at, j, i);
      NotTouchedByOthers(l, asked, n - 1, gateway, at, j);
    } else {
      SettledByOwnAnswer(l, asked, j, gateway, at, i);
    }
  }
}
