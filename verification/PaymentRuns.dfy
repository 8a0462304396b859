/** What every run keeps about order payments: who can make one successful, that it was paid
    in full, and that no order is paid twice. */
module PaymentRuns {
  import opened Wrappers
  import opened PaystackEvents
  import opened OrderStatus
  import opened WalletTables
  import opened Webhook
  import opened Payments
  import opened LedgerRuns

  /** Successful payments were paid exactly what was expected. */
  ghost predicate PaidInFull(t: Tables) {
    forall r :: r in t.payments && t.payments[r].status == Successful ==>
      t.payments[r].paidKobo == Some(t.payments[r].expectedKobo)
  }

  /** No order is paid twice, by the provider or from a wallet. */
  ghost predicate PaidOnce(t: Tables) {
    && (forall r1, r2 | r1 in t.payments && r2 in t.payments && r1 != r2 ::
         t.payments[r1].status == Successful && t.payments[r2].status == Successful ==>
           t.payments[r1].orderId != t.payments[r2].orderId)
    && (forall r :: r in t.payments && t.payments[r].status == Successful ==>
         t.payments[r].orderId !in t.walletPayments)
  }

  ghost predicate Healthy(t: Tables) {
    Linked(t) && PaidInFull(t) && PaidOnce(t)
  }

  lemma MarkVerifiedKeepsHealthy(t: Tables, reference: string, paidKobo: int)
    requires Healthy(t) && MarkVerified(t, reference, paidKobo).Some?
    ensures Healthy(MarkVerified(t, reference, paidKobo).value)
  {
    MarkVerifiedKeepsLinked(t, reference, paidKobo);
  }

  lemma SamePaymentsKeepHealthy(t: Tables, after: Tables)
    requires Healthy(t) && Linked(after)
    requires after.payments == t.payments && after.walletPayments == t.walletPayments
    ensures Healthy(after)
  {}

  lemma KeptIsHealthy(t: Tables, inbox: set<Body>)
    requires Healthy(t)
    ensures Healthy(t.(inbox := inbox))
  {}

  lemma EffectKeepsPayments(t: Tables, after: Tables, body: Body, event: DomainEvent)
    requires Effect(t, after, body, event)
    ensures (after.payments == t.payments && after.walletPayments == t.walletPayments)
         || (event.PaymentSucceeded?
             && MarkVerified(t.(inbox := t.inbox + {body}), event.reference, event.amountKobo) == Some(after))
  {}

  lemma EffectKeepsHealthy(t: Tables, after: Tables, body: Body, event: DomainEvent)
    requires Healthy(t) && Effect(t, after, body, event)
    ensures Healthy(after)
  {
    EffectKeepsLinked(t, after, body, event);
    EffectKeepsPayments(t, after, body, event);
    if after.payments == t.payments && after.walletPayments == t.walletPayments {
      SamePaymentsKeepHealthy(t, after);
    } else {
      KeptIsHealthy(t, t.inbox + {body});
      MarkVerifiedKeepsHealthy(t.(inbox := t.inbox + {body}), event.reference, event.amountKobo);
    }
  }

  lemma WalletOrderKeepsHealthy(t: Tables, id: nat, customer: UserId, totalKobo: nat)
    requires Healthy(t) && PayOrderFromWallet(t, id, customer, totalKobo).Some?
    requires Linked(PayOrderFromWallet(t, id, customer, totalKobo).value)
    ensures Healthy(PayOrderFromWallet(t, id, customer, totalKobo).value)
  {}

  lemma UnpaidRowKeepsHealthy(t: Tables, reference: string, p: Payment)
    requires Healthy(t) && p.status != Successful && Linked(t.(payments := t.payments[reference := p]))
    ensures Healthy(t.(payments := t.payments[reference := p]))
  {}

  lemma OtherStepsKeepHealthy(t: Tables, s: Step, cfg: Config)
    requires Healthy(t) && !IsBodyStep(s) && !IsPaymentStep(s)
    ensures Healthy(Next(t, s, cfg))
  {
    NextKeepsLinked(t, s, cfg);
    if Next(t, s, cfg) != t {
      match s
      case PayFromWallet(id, customer, totalKobo) => WalletOrderKeepsHealthy(t, id, customer, totalKobo);
      case OpenPayment(reference, _, _, _, _) =>
        UnpaidRowKeepsHealthy(t, reference, Next(t, s, cfg).payments[reference]);
      case EndCheckout(reference) => UnpaidRowKeepsHealthy(t, reference, Next(t, s, cfg).payments[reference]);
      case _ => SamePaymentsKeepHealthy(t, Next(t, s, cfg));
    }
  }

  lemma NextKeepsHealthy(t: Tables, s: Step, cfg: Config)
    requires Healthy(t)
    ensures Healthy(Next(t, s, cfg))
  {
    if IsBodyStep(s) {
      BodyStepHasEffect(t, s, cfg);
      if Next(t, s, cfg) != t {
        EffectKeepsHealthy(t, Next(t, s, cfg), s.body, MapPaystackEvent(s.body.payload));
      }
    } else if IsPaymentStep(s) {
      var reference, paidKobo := PaymentRoute(t, s, cfg);
      if Next(t, s, cfg) != t {
        MarkVerifiedKeepsHealthy(t, reference, paidKobo);
      }
    } else {
      OtherStepsKeepHealthy(t, s, cfg);
    }
  }

  /** In every run, a successful payment has been paid what was expected, and no order is
      paid twice. */
  lemma {:induction false} PaymentsStayHealthy(t: Tables, steps: seq<Step>, i: nat, cfg: Config)
    requires Healthy(t) && i <= |steps|
    ensures Healthy(Before(t, steps, i, cfg))
  {
    if i > 0 {
      PaymentsStayHealthy(t, steps, i - 1, cfg);
      RunByOne(t, steps, i - 1, cfg);
      NextKeepsHealthy(Before(t, steps, i - 1, cfg), steps[i - 1], cfg);
    } else {
      assert steps[..0] == [];
    }
  }

  // ---------------------------------------------------------------- a success that is lost

  /** A payment whose order has moved on never becomes successful any more. */
  lemma {:induction false} TooLateToSucceed(t: Tables, steps: seq<Step>, cfg: Config, reference: string)
    requires reference in t.payments && !IsPaid(t, reference)
    requires t.payments[reference].orderId in t.orders && !AwaitsPayment(t, t.payments[reference].orderId)
    ensures !IsPaid(Run(t, steps, cfg), reference)
    decreases |steps|
  {
    if steps != [] {
      var init := steps[..|steps| - 1];
      TooLateToSucceed(t, init, cfg, reference);
      RunPreserves(t, init, 0, |init|, cfg);
      assert init[..0] == [] && init[..|init|] == init;
      var before := Run(t, init, cfg);
      assert SameTerms(t.payments[reference], before.payments[reference]);
      if IsPaid(Next(before, steps[|init|], cfg), reference) {
        SuccessNeedsGrounds(before, steps[|init|], cfg, reference);
      }
    }
  }

  /** A checkout that ends after its payment succeeded loses the success for good: the order
      stays paid for, and nothing makes the payment successful again. */
  lemma LateCheckoutLosesTheSuccess(t: Tables, steps: seq<Step>, cfg: Config, reference: string)
    requires Healthy(t) && IsPaid(t, reference)
    ensures
      var after := Next(t, EndCheckout(reference), cfg);
      && after.orders == t.orders && after.payments[reference] == t.payments[reference].(status := Pending)
      && !IsPaid(Run(after, steps, cfg), reference)
  {
    TooLateToSucceed(Next(t, EndCheckout(reference), cfg), steps, cfg, reference);
  }

  const OPEN_CHECKOUT := Tables({}, [], map[], {}, map[], {}, {},
    map["ref" := Payment(1, 7, 500, "NGN", Pending, None)], map[], map[7 := PendingPayment], map[7 := 0])

  const CHARGE := Body("charge", Payload(CHARGE_SUCCESS,
    Some(EventData(Some("ref"), Some(500), Some("NGN"), None, NoMetadata, None))))

  lemma ChargeSucceeds(cfg: Config)
    ensures
      Next(OPEN_CHECKOUT, Deliver(CHARGE, true, Weather(false, true)), cfg) ==
      OPEN_CHECKOUT.(
        inbox := {CHARGE},
        payments := map["ref" := Payment(1, 7, 500, "NGN", Successful, Some(500))],
        orders := map[7 := Paid])
  {
    assert MapPaystackEvent(CHARGE.payload) == PaymentSucceeded("ref", 500, Some("NGN"));
  }

  /** And it happens: the checkout was open when it was read, the webhook came before the
      provider's answer was written back. */
  lemma SuccessCanBeLost(cfg: Config)
    ensures
      var steps := [Deliver(CHARGE, true, Weather(false, true)), EndCheckout("ref")];
      && Healthy(OPEN_CHECKOUT) && CheckoutOpen(OPEN_CHECKOUT, "ref")
      && IsPaid(Run(OPEN_CHECKOUT, steps[..1], cfg), "ref") && !IsPaid(Run(OPEN_CHECKOUT, steps, cfg), "ref")
  {
    var deliver, end := Deliver(CHARGE, true, Weather(false, true)), EndCheckout("ref");
    assert [deliver, end][..1] == [deliver] && [deliver][..0] == [];
    ChargeSucceeds(cfg);
    assert Run(OPEN_CHECKOUT, [deliver], cfg) == Next(OPEN_CHECKOUT, deliver, cfg);
    assert Run(OPEN_CHECKOUT, [deliver, end], cfg) == FinishCheckout(Next(OPEN_CHECKOUT, deliver, cfg), "ref");
  }

  // ---------------------------------------------------------------- who can make it successful

  /** The grounds on which a step may mark this payment successful. */
  predicate Grounds(reference: string, p: Payment, s: Step) {
    match s
    case Deliver(body, authentic, w) =>
      var event := MapPaystackEvent(body.payload);
      && authentic && !w.databaseFails
      && event.PaymentSucceeded? && event.reference == reference
      && event.amountKobo == p.expectedKobo
      && (event.currency.Some? ==> event.currency.value == p.currency)
    case BackgroundCheck(k, a) =>
      && k.reference == reference && k.expectedKobo == p.expectedKobo
      && a == Verified("success", reference, p.expectedKobo, k.currency)
    case AdminReconcile(r, a) => r == reference && a == Verified("success", reference, p.expectedKobo, p.currency)
    case AdminForce(r) => r == reference
    case _ => false
  }

  lemma EffectOnPayments(t: Tables, after: Tables, body: Body, event: DomainEvent, reference: string)
    requires Effect(t, after, body, event) && !IsPaid(t, reference) && IsPaid(after, reference)
    ensures event.PaymentSucceeded? && event.reference == reference && PaymentRejection(t, event).None?
  {}

  lemma SuccessNeedsGrounds(t: Tables, s: Step, cfg: Config, reference: string)
    requires !IsPaid(t, reference) && IsPaid(Next(t, s, cfg), reference)
    ensures reference in t.payments && Grounds(reference, t.payments[reference], s)
    ensures AwaitsPayment(t, t.payments[reference].orderId)
  {
    if IsBodyStep(s) {
      BodyStep(t, s, cfg);
      BodyStepHasEffect(t, s, cfg);
      EffectOnPayments(t, Next(t, s, cfg), s.body, MapPaystackEvent(s.body.payload), reference);
      MarkedByDelivery(t, s, cfg, reference);
    } else if !IsPaymentStep(s) {
      OtherStepsMakeNoneSuccessful(t, s, cfg, reference);
    }
  }

  lemma MarkedByDelivery(t: Tables, s: Step, cfg: Config, reference: string)
    requires IsBodyStep(s) && !IsPaid(t, reference) && IsPaid(Next(t, s, cfg), reference)
    requires
      var event := MapPaystackEvent(s.body.payload);
      event.PaymentSucceeded? && event.reference == reference && PaymentRejection(t, event).None?
    ensures Grounds(reference, t.payments[reference], s) && AwaitsPayment(t, t.payments[reference].orderId)
  {}

  lemma OtherStepsMakeNoneSuccessful(t: Tables, s: Step, cfg: Config, reference: string)
    requires !IsBodyStep(s) && !IsPaymentStep(s)
    ensures IsPaid(Next(t, s, cfg), reference) ==> IsPaid(t, reference)
  {}

  /** An order is recorded as paid from a wallet only by the step that debits the wallet. */
  lemma WalletPaymentHasGrounds(t: Tables, s: Step, cfg: Config, orderId: nat)
    requires orderId !in t.walletPayments && orderId in Next(t, s, cfg).walletPayments
    ensures s.PayFromWallet? && s.orderId == orderId && orderId !in t.orders
    ensures s.customer !in t.frozen && 0 < s.totalKobo <= BalanceOf(t, s.customer)
    ensures BalanceOf(Next(t, s, cfg), s.customer) == BalanceOf(t, s.customer) - s.totalKobo
  {
    if !s.PayFromWallet? {
      WalletOrdersElsewhere(t, s, cfg);
    }
  }

  /** A payment that became successful in a run did so at a step that had grounds for it: a
      signed charge or a provider answer for exactly this reference, amount and currency (the
      background check compares with the currency it read beforehand), or the manual
      override. No other delivery, however often it comes, can do it. */
  lemma {:induction false} SuccessHasGrounds(t: Tables, steps: seq<Step>, i: nat, cfg: Config, reference: string)
      returns (j: nat)
    requires i <= |steps| && !IsPaid(t, reference) && IsPaid(Before(t, steps, i, cfg), reference)
    ensures j < i && reference in Before(t, steps, j, cfg).payments
    ensures Grounds(reference, Before(t, steps, j, cfg).payments[reference], steps[j])
  {
    assert steps[..0] == [];
    assert i > 0;
    RunByOne(t, steps, i - 1, cfg);
    if IsPaid(Before(t, steps, i - 1, cfg), reference) {
      j := SuccessHasGrounds(t, steps, i - 1, cfg, reference);
    } else {
      SuccessNeedsGrounds(Before(t, steps, i - 1, cfg), steps[i - 1], cfg, reference);
      j := i - 1;
    }
  }

  /** A signed charge with an unknown reference, another amount or another currency is kept,
      so that the provider stops retrying; it files one issue and touches no payment, order
      or wallet, and its redelivery does nothing at all. */
  lemma MismatchedChargeIsFiled(t: Tables, body: Body, cfg: Config, w: Weather, again: Weather)
    requires MapPaystackEvent(body.payload).PaymentSucceeded? && body !in t.inbox
    requires !w.databaseFails && !again.databaseFails
    ensures
      var event := MapPaystackEvent(body.payload);
      var known := event.reference in t.payments;
      var rejection := PaymentRejection(t, event);
      && (rejection.Some? <==>
            || !known
            || event.amountKobo != t.payments[event.reference].expectedKobo
            || (event.currency.Some? && event.currency.value != t.payments[event.reference].currency))
      && (rejection.Some? ==>
            var (after, reply) := ProcessDelivery(t, body, true, cfg, w);
            && reply == Ok(Accepted(event))
            && after == t.(inbox := t.inbox + {body}, issues := t.issues + {rejection.value})
            && ProcessDelivery(after, body, true, cfg, again) == (after, Ok(Duplicate(event.reference))))
  {}

  // ---------------------------------------------------------------- the sweep over stuck payments

  /** The sweep's checks, one step each. */
  function Checks(stuck: seq<Known>, answers: string -> Answer): seq<Step> {
    seq(|stuck|, i requires 0 <= i < |stuck| => BackgroundCheck(stuck[i], answers(stuck[i].reference)))
  }

  /** The sweep is a run of background checks: whatever holds of every run holds of it. */
  lemma {:induction false} SweepIsARun(t: Tables, stuck: seq<Known>, answers: string -> Answer, cfg: Config)
    ensures ReconcileAll(t, stuck, answers).0 == Run(t, Checks(stuck, answers), cfg)
    decreases |stuck|
  {
    if stuck != [] {
      var init := stuck[..|stuck| - 1];
      SweepIsARun(t, init, answers, cfg);
      assert Checks(stuck, answers)[..|init|] == Checks(init, answers);
    }
  }

  /** What was read of each payment is what its row says. */
  ghost predicate ReadFrom(t: Tables, stuck: seq<Known>) {
    forall i :: 0 <= i < |stuck| ==> stuck[i].reference in t.payments && stuck[i] == KnownOf(t, stuck[i].reference)
  }

  function MatchingAnswers(stuck: seq<Known>, answers: string -> Answer): nat {
    if stuck == [] then 0
    else
      var last := stuck[|stuck| - 1];
      MatchingAnswers(stuck[..|stuck| - 1], answers) +
        (if CheckAnswer(last, answers(last.reference)).None? then 1 else 0)
  }

  lemma TryReconcileKeepsReading(t: Tables, k: Known, a: Answer, stuck: seq<Known>)
    requires ReadFrom(t, stuck)
    ensures ReadFrom(TryReconcile(t, k, a).0, stuck)
  {}

  /** `reconciled` counts the provider answers that match what was read; a payment counted
      is successful afterwards unless its order had moved on. */
  lemma {:induction false} ReconciledCountsMatches(t: Tables, stuck: seq<Known>, answers: string -> Answer)
    requires ReadFrom(t, stuck)
    ensures ReconcileAll(t, stuck, answers).1 == MatchingAnswers(stuck, answers)
    ensures ReadFrom(ReconcileAll(t, stuck, answers).0, stuck)
    decreases |stuck|
  {
    if stuck != [] {
      var last := |stuck| - 1;
      SmallerReading(t, stuck);
      ReconciledCountsMatches(t, stuck[..last], answers);
      SweepKeepsReading(t, stuck[..last], answers, stuck);
      var t1 := ReconcileAll(t, stuck[..last], answers).0;
      TryReconcileKeepsReading(t1, stuck[last], answers(stuck[last].reference), stuck);
    }
  }

  lemma SmallerReading(t: Tables, stuck: seq<Known>)
    requires ReadFrom(t, stuck) && stuck != []
    ensures ReadFrom(t, stuck[..|stuck| - 1])
  {}

  lemma {:induction false} SweepKeepsReading(t: Tables, stuck: seq<Known>, answers: string -> Answer,
      others: seq<Known>)
    requires ReadFrom(t, others)
    ensures ReadFrom(ReconcileAll(t, stuck, answers).0, others)
    decreases |stuck|
  {
    if stuck != [] {
      var last := |stuck| - 1;
      SweepKeepsReading(t, stuck[..last], answers, others);
      TryReconcileKeepsReading(ReconcileAll(t, stuck[..last], answers).0, stuck[last], answers(stuck[last].reference),
        others);
    }
  }

  /** Nothing the sweep checks is the payment `reference` or belongs to its order. */
  ghost predicate Apart(t: Tables, stuck: seq<Known>, reference: string)
    requires reference in t.payments
  {
    forall i :: 0 <= i < |stuck| ==>
      && stuck[i].reference != reference
      && (stuck[i].reference in t.payments ==>
           t.payments[stuck[i].reference].orderId != t.payments[reference].orderId)
  }

  /** What a check looks at and writes: the payment's row and its order's status. */
  predicate SameView(a: Tables, b: Tables, reference: string) {
    && reference in a.payments && reference in b.payments && a.payments[reference] == b.payments[reference]
    && AwaitsPayment(a, a.payments[reference].orderId) == AwaitsPayment(b, a.payments[reference].orderId)
  }

  lemma CheckElsewhere(t: Tables, k: Known, a: Answer, reference: string)
    requires reference in t.payments && Apart(t, [k], reference)
    ensures SameView(t, TryReconcile(t, k, a).0, reference)
  {
    assert [k][0] == k;
  }

  lemma {:induction false} SweepElsewhere(t: Tables, stuck: seq<Known>, answers: string -> Answer, reference: string)
    requires reference in t.payments && Apart(t, stuck, reference)
    ensures
      var after := ReconcileAll(t, stuck, answers).0;
      && SameView(t, after, reference)
      && (forall r :: r in after.payments <==> r in t.payments)
      && (forall r :: r in t.payments ==> SameTerms(t.payments[r], after.payments[r]))
    decreases |stuck|
  {
    if stuck != [] {
      var last := |stuck| - 1;
      SweepElsewhere(t, stuck[..last], answers, reference);
      var t1 := ReconcileAll(t, stuck[..last], answers).0;
      var k := stuck[last];
      assert Apart(t1, [k], reference) by {
        if k.reference in t1.payments {
          assert SameTerms(t.payments[k.reference], t1.payments[k.reference]);
        }
      }
      CheckElsewhere(t1, k, answers(k.reference), reference);
    }
  }

  lemma SameViewSameFate(a: Tables, b: Tables, k: Known, answer: Answer)
    requires SameView(a, b, k.reference)
    ensures TryReconcile(a, k, answer).1 == TryReconcile(b, k, answer).1
    ensures SameView(TryReconcile(a, k, answer).0, TryReconcile(b, k, answer).0, k.reference)
  {}

  /** A payment's fate is its own: what the sweep makes of the i-th payment is what a check of
      that payment alone makes of it, however the checks of other orders' payments went. */
  lemma EachPaymentHasItsOwnFate(t: Tables, stuck: seq<Known>, answers: string -> Answer, i: nat)
    requires i < |stuck| && stuck[i].reference in t.payments
    requires Apart(t, stuck[..i], stuck[i].reference) && Apart(t, stuck[i + 1..], stuck[i].reference)
    ensures
      var alone := TryReconcile(t, stuck[i], answers(stuck[i].reference)).0;
      SameView(alone, ReconcileAll(t, stuck, answers).0, stuck[i].reference)
  {
    var k := stuck[i];
    var reference := k.reference;
    SweepElsewhere(t, stuck[..i], answers, reference);
    var before := ReconcileAll(t, stuck[..i], answers).0;
    SameViewSameFate(t, before, k, answers(reference));
    var checked := TryReconcile(before, k, answers(reference)).0;
    assert stuck[..i + 1][..i] == stuck[..i];
    assert ReconcileAll(t, stuck[..i + 1], answers).0 == checked;
    assert Apart(checked, stuck[i + 1..], reference) by {
      ApartLater(t, before, checked, stuck[i + 1..], k, answers(reference));
    }
    SweepElsewhere(checked, stuck[i + 1..], answers, reference);
    ReconcileInTwo(t, stuck, answers, i + 1);
  }

  lemma ApartLater(t: Tables, before: Tables, checked: Tables, rest: seq<Known>, k: Known, a: Answer)
    requires k.reference in t.payments && Apart(t, rest, k.reference)
    requires forall r :: r in before.payments <==> r in t.payments
    requires forall r :: r in t.payments ==> SameTerms(t.payments[r], before.payments[r])
    requires checked == TryReconcile(before, k, a).0
    ensures k.reference in checked.payments && Apart(checked, rest, k.reference)
  {
    assert forall r :: r in checked.payments <==> r in t.payments;
    forall r | r in t.payments ensures SameTerms(t.payments[r], checked.payments[r]) {
      assert SameTerms(t.payments[r], before.payments[r]);
    }
  }

  lemma {:induction false} ReconcileInTwo(t: Tables, stuck: seq<Known>, answers: string -> Answer, i: nat)
    requires i <= |stuck|
    ensures ReconcileAll(t, stuck, answers).0 ==
      ReconcileAll(ReconcileAll(t, stuck[..i], answers).0, stuck[i..], answers).0
    decreases |stuck|
  {
    if i == |stuck| {
      assert stuck[..i] == stuck && stuck[i..] == [];
    } else {
      var last := |stuck| - 1;
      var init := stuck[..last];
      assert init[..i] == stuck[..i] && init[i..] == stuck[i..][..last - i];
      ReconcileInTwo(t, init, answers, i);
    }
  }
}
