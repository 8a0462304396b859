/** The three ways other than a webhook in which a payment becomes successful
    (src/modules/payments/payments.service.ts): the background check of pending payments,
    an administrator's reconcile, and the manual override. Provider answers are inputs. */
module Payments {
  import opened Wrappers
  import opened OrderStatus
  import opened WalletTables

  /** What `verifyTransaction` reports; it may also throw. */
  datatype Answer = Unavailable | Verified(status: string, reference: string, amountKobo: int, currency: string)

  datatype PaymentError =
    | PaymentNotFound
    | ProviderUnavailable
    | NotSuccessful
    | ReferenceMismatch
    | WrongAmount
    | WrongCurrency
    | AlreadySuccessful
    | DatabaseRejected

  /** The columns the service read before it asked the provider. */
  datatype Known = Known(reference: string, expectedKobo: int, currency: string)

  function KnownOf(t: Tables, reference: string): Known
    requires reference in t.payments
  {
    var p := t.payments[reference];
    Known(reference, p.expectedKobo, p.currency)
  }

  /** The checks both verified routes make, in order. */
  function CheckAnswer(k: Known, a: Answer): Option<PaymentError> {
    if a.Unavailable? then Some(ProviderUnavailable)
    else if a.status != "success" then Some(NotSuccessful)
    else if a.reference != k.reference then Some(ReferenceMismatch)
    else if a.amountKobo != k.expectedKobo then Some(WrongAmount)
    else if a.currency != k.currency then Some(WrongCurrency)
    else None
  }

  function TryReconcile(t: Tables, k: Known, a: Answer): (Tables, bool) {
    if CheckAnswer(k, a).Some? then (t, false)
    else
      var marked := MarkVerified(t, k.reference, a.amountKobo);
      if marked.None? then (t, false) else (marked.value, true)
  }

  function Reconcile(t: Tables, reference: string, a: Answer): (Tables, Result<string, PaymentError>) {
    if reference !in t.payments then (t, Err(PaymentNotFound))
    else
      var refusal := CheckAnswer(KnownOf(t, reference), a);
      if refusal.Some? then (t, Err(refusal.value))
      else
        var marked := MarkVerified(t, reference, a.amountKobo);
        if marked.None? then (t, Err(DatabaseRejected)) else (marked.value, Ok(reference))
  }

  function ForcePaid(t: Tables, reference: string): (Tables, Result<string, PaymentError>) {
    if reference !in t.payments then (t, Err(PaymentNotFound))
    else if t.payments[reference].status == Successful then (t, Err(AlreadySuccessful))
    else
      var marked := MarkVerified(t, reference, t.payments[reference].expectedKobo);
      if marked.None? then (t, Err(DatabaseRejected)) else (marked.value, Ok(reference))
  }

  /** What the service checks before it takes the customer to the provider's checkout. */
  predicate CheckoutOpen(t: Tables, reference: string) {
    && reference in t.payments
    && t.payments[reference].status in {Initialized, Pending}
    && t.payments[reference].orderId in t.orders
    && t.orders[t.payments[reference].orderId] == PendingPayment
  }

  /** What it writes when the provider has answered, whatever happened in the meantime. */
  function FinishCheckout(t: Tables, reference: string): Tables {
    if reference in t.payments then
      t.(payments := t.payments[reference := t.payments[reference].(status := Pending)])
    else t
  }

  /** The sweep over stuck payments: each is checked against what was read at the start. */
  function ReconcileAll(t: Tables, stuck: seq<Known>, answers: string -> Answer): (Tables, nat)
    decreases |stuck|
  {
    if stuck == [] then (t, 0)
    else
      var last := |stuck| - 1;
      var (t1, n) := ReconcileAll(t, stuck[..last], answers);
      var (t2, ok) := TryReconcile(t1, stuck[last], answers(stuck[last].reference));
      (t2, if ok then n + 1 else n)
  }

  class PaymentsService {
    const database: Database

    constructor (database: Database)
      ensures this.database == database
    {
      this.database := database;
    }

    method TryReconcilePayment(k: Known, a: Answer) returns (ok: bool)
      modifies database
      ensures (database.Contents(), ok) == TryReconcile(old(database.Contents()), k, a)
    {
      if a.Unavailable? || a.status != "success" || a.reference != k.reference {
        return false;
      }
      if a.amountKobo != k.expectedKobo || a.currency != k.currency {
        return false;
      }
      var before := database.Snapshot();
      ok := database.MarkVerifiedPaymentSuccessful(k.reference, a.amountKobo);
      if !ok {
        database.Restore(before);
      }
    }

    method ReconcilePendingPayments(stuck: seq<Known>, answers: string -> Answer)
        returns (scanned: nat, reconciled: nat)
      modifies database
      ensures scanned == |stuck|
      ensures (database.Contents(), reconciled) == ReconcileAll(old(database.Contents()), stuck, answers)
    {
      reconciled := 0;
      for i := 0 to |stuck|
        invariant (database.Contents(), reconciled) == ReconcileAll(old(database.Contents()), stuck[..i], answers)
      {
        assert stuck[..i + 1][..i] == stuck[..i];
        var ok := TryReconcilePayment(stuck[i], answers(stuck[i].reference));
        if ok {
          reconciled := reconciled + 1;
        }
      }
      assert stuck[..|stuck|] == stuck;
      scanned := |stuck|;
    }

    method BeginCheckout(reference: string) returns (open: bool)
      ensures open == CheckoutOpen(database.Contents(), reference)
    {
      if reference !in database.payments || database.payments[reference].status !in {Initialized, Pending} {
        return false;
      }
      var orderId := database.payments[reference].orderId;
      return orderId in database.orders && database.orders[orderId] == PendingPayment;
    }

    method MarkPaymentInitialized(reference: string)
      modifies database
      ensures database.Contents() == FinishCheckout(old(database.Contents()), reference)
    {
      if reference in database.payments {
        var payment := database.payments[reference];
        database.payments := database.payments[reference := payment.(status := Pending)];
      }
    }

    method ReconcilePaystackPayment(reference: string, a: Answer) returns (r: Result<string, PaymentError>)
      modifies database
      ensures (database.Contents(), r) == Reconcile(old(database.Contents()), reference, a)
    {
      if reference !in database.payments {
        return Err(PaymentNotFound);
      }
      var payment := database.payments[reference];
      if a.Unavailable? {
        return Err(ProviderUnavailable);
      }
      if a.status != "success" {
        return Err(NotSuccessful);
      }
      if a.reference != reference {
        return Err(ReferenceMismatch);
      }
      if a.amountKobo != payment.expectedKobo {
        return Err(WrongAmount);
      }
      if a.currency != payment.currency {
        return Err(WrongCurrency);
      }
      var before := database.Snapshot();
      var ok := database.MarkVerifiedPaymentSuccessful(reference, a.amountKobo);
      if !ok {
        database.Restore(before);
        return Err(DatabaseRejected);
      }
      return Ok(reference);
    }

    method ForcePaymentPaid(reference: string) returns (r: Result<string, PaymentError>)
      modifies database
      ensures (database.Contents(), r) == ForcePaid(old(database.Contents()), reference)
    {
      if reference !in database.payments {
        return Err(PaymentNotFound);
      }
      var payment := database.payments[reference];
      if payment.status == Successful {
        return Err(AlreadySuccessful);
      }
      var before := database.Snapshot();
      var ok := database.MarkVerifiedPaymentSuccessful(reference, payment.expectedKobo);
      if !ok {
        database.Restore(before);
        return Err(DatabaseRejected);
      }
      return Ok(reference);
    }
  }

  // ---------------------------------------------------------------- what an answer means

  predicate IsPaid(t: Tables, reference: string) {
    reference in t.payments && t.payments[reference].status == Successful
  }

  /** "Reconciled" is reported for a payment that stays unpaid exactly when its order has
      already moved on; otherwise the report is true. */
  lemma ReportedSuccess(t: Tables, k: Known, a: Answer)
    requires TryReconcile(t, k, a).1
    ensures k.reference in t.payments
    ensures IsPaid(TryReconcile(t, k, a).0, k.reference)
       <==> IsPaid(t, k.reference) || AwaitsPayment(t, t.payments[k.reference].orderId)
  {}

  /** The override reports success on the same terms, and never fails for the amount. */
  lemma ForcedSuccess(t: Tables, reference: string)
    requires reference in t.payments && t.payments[reference].status != Successful
    ensures ForcePaid(t, reference).1 == Ok(reference)
    ensures IsPaid(ForcePaid(t, reference).0, reference) <==> AwaitsPayment(t, t.payments[reference].orderId)
  {}

  /** A provider answer that is successful and names the payment's reference, amount and
      currency settles a payment that still waits; the administrator is told so. */
  lemma MatchingAnswersSettle(t: Tables, reference: string)
    requires reference in t.payments && AwaitsPayment(t, t.payments[reference].orderId)
    requires t.payments[reference].status != Successful
    ensures
      var p := t.payments[reference];
      var answer := Verified("success", reference, p.expectedKobo, p.currency);
      && TryReconcile(t, KnownOf(t, reference), answer).1
      && IsPaid(TryReconcile(t, KnownOf(t, reference), answer).0, reference)
      && Reconcile(t, reference, answer).1 == Ok(reference)
      && IsPaid(Reconcile(t, reference, answer).0, reference)
  {}

  /** Why an administrator's check is refused, the first reason that applies; a refusal changes
      nothing. */
  lemma ReconcileRefusals(t: Tables, reference: string, a: Answer)
    requires reference in t.payments
    ensures
      var p, r := t.payments[reference], Reconcile(t, reference, a).1;
      && (r == Err(ProviderUnavailable) <==> a.Unavailable?)
      && (a.Verified? ==>
           && (r == Err(NotSuccessful) <==> a.status != "success")
           && (a.status == "success" ==>
                && (r == Err(ReferenceMismatch) <==> a.reference != reference)
                && (a.reference == reference ==>
                     && (r == Err(WrongAmount) <==> a.amountKobo != p.expectedKobo)
                     && (a.amountKobo == p.expectedKobo ==>
                          && (r == Err(WrongCurrency) <==> a.currency != p.currency)
                          && (a.currency == p.currency ==> r == Ok(reference))))))
      && (r.Err? ==> Reconcile(t, reference, a).0 == t)
  {}

  /** Unknown payments, and overrides of successful ones, are refused and change nothing. */
  lemma UnknownOrDone(t: Tables, reference: string, a: Answer)
    ensures reference !in t.payments ==>
      Reconcile(t, reference, a) == (t, Err(PaymentNotFound)) && ForcePaid(t, reference) == (t, Err(PaymentNotFound))
    ensures IsPaid(t, reference) ==> ForcePaid(t, reference) == (t, Err(AlreadySuccessful))
  {}

  /** Checkout opens exactly for a payment that is under way, of an order that still waits and
      has not expired; ending it at once would change no success and no order. */
  lemma WhenCheckoutOpens(t: Tables, reference: string)
    requires reference in t.payments && t.payments[reference].orderId in t.orders
    ensures CheckoutOpen(t, reference) <==>
      && t.payments[reference].status !in {Successful, Failed, Abandoned, PaymentRefunded}
      && AwaitsPayment(t, t.payments[reference].orderId) && t.orders[t.payments[reference].orderId] != Expired
    ensures CheckoutOpen(t, reference) ==>
      var after := FinishCheckout(t, reference);
      && after.orders == t.orders && after.payments[reference] == t.payments[reference].(status := Pending)
      && forall r :: IsPaid(after, r) <==> IsPaid(t, r)
  {
    var status := t.payments[reference].status;
    assert status == Initialized || status == Pending || status == Successful || status == Failed || status == Abandoned
      || status == PaymentRefunded;
  }
}
