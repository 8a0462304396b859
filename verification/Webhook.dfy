/** The webhook service (src/modules/payments/paystack-webhook.service.ts): one delivery is
    one transaction that keeps the body, does what its event asks and answers, or is rolled
    back as a whole. The functions give it on values, the class runs it step by step. */
module Webhook {
  import opened Wrappers
  import opened PaystackEvents
  import opened WalletTables
  import OrderStatus

  datatype WebhookResult =
    | Accepted(event: DomainEvent)
    | Duplicate(reference: string)
    | NotMapped(reason: IgnoreReason)

  datatype Failure = Unauthorized | RolledBack | NotATopup

  type Response = Result<WebhookResult, Failure>

  // ---------------------------------------------------------------- one delivery

  /** The work of an event once its body is new. Payout transfers, failed charges and
      processed refunds leave these tables alone. */
  function ApplyEvent(t: Tables, event: DomainEvent, cfg: Config): Option<Tables> {
    if event.PaymentSucceeded? then ApplyVerifiedPayment(t, event)
    else if event.WalletTopupSucceeded? then CreditWalletTopup(t, event, cfg)
    else Some(t)
  }

  /** The database transaction: None rolls everything back. */
  function RunTransaction(t: Tables, body: Body, event: DomainEvent, cfg: Config): Option<(Tables, WebhookResult)>
    requires !event.Ignored?
  {
    if body in t.inbox then Some((t, Duplicate(event.reference)))
    else
      var applied := ApplyEvent(t.(inbox := t.inbox + {body}), event, cfg);
      if applied.None? then None else Some((applied.value, Accepted(event)))
  }

  /** What the surroundings do to one attempt: the database may fail it at any point, and the
      issue recorded after a failure may itself be lost. */
  datatype Weather = Weather(databaseFails: bool, issueIsRecorded: bool)

  function ProcessWithDatabase(t: Tables, body: Body, event: DomainEvent, cfg: Config, w: Weather): (Tables, Response)
    requires !event.Ignored?
  {
    var outcome := RunTransaction(t, body, event, cfg);
    if w.databaseFails || outcome.None? then
      (if w.issueIsRecorded then t.(issues := t.issues + {ProcessingFailed(event.reference)}) else t, Err(RolledBack))
    else (outcome.value.0, Ok(outcome.value.1))
  }

  /** A signed delivery, with the inbox kept in the database. */
  function ProcessDelivery(t: Tables, body: Body, authentic: bool, cfg: Config, w: Weather): (Tables, Response) {
    var event := MapPaystackEvent(body.payload);
    if !authentic then (t, Err(Unauthorized))
    else if event.Ignored? then (t, Ok(NotMapped(event.reason)))
    else ProcessWithDatabase(t, body, event, cfg, w)
  }

  /** A transfer that the sweep fetched itself. */
  function CreditVerifiedTopup(t: Tables, body: Body, cfg: Config, w: Weather): (Tables, Response) {
    var event := MapPaystackEvent(body.payload);
    if !event.WalletTopupSucceeded? then (t, Err(NotATopup))
    else ProcessWithDatabase(t, body, event, cfg, w)
  }

  class PaystackWebhookService {
    var processedWebhookKeys: set<string>
    const database: Database
    const cfg: Config
    const inboxInDatabase: bool

    constructor (database: Database, cfg: Config, inboxInDatabase: bool)
      ensures this.database == database && this.cfg == cfg && this.inboxInDatabase == inboxInDatabase
      ensures processedWebhookKeys == {}
    {
      this.database, this.cfg, this.inboxInDatabase := database, cfg, inboxInDatabase;
      processedWebhookKeys := {};
    }

    method Process(body: Body, authentic: bool, w: Weather) returns (r: Response)
      modifies this`processedWebhookKeys, database
      ensures inboxInDatabase ==>
                && (database.Contents(), r) == ProcessDelivery(old(database.Contents()), body, authentic, cfg, w)
                && processedWebhookKeys == old(processedWebhookKeys)
      ensures !inboxInDatabase ==>
                && database.Contents() == old(database.Contents())
                && (processedWebhookKeys, r) == ProcessInMemory(old(processedWebhookKeys), body, authentic)
    {
      if !authentic {
        return Err(Unauthorized);
      }
      var event := MapPaystackEvent(body.payload);
      if event.Ignored? {
        return Ok(NotMapped(event.reason));
      }
      if inboxInDatabase {
        r := ProcessInDatabase(body, event, w);
        return;
      }
      var webhookKey := WebhookKey(body.payload.event, event.reference);
      if webhookKey in processedWebhookKeys {
        return Ok(Duplicate(event.reference));
      }
      processedWebhookKeys := processedWebhookKeys + {webhookKey};
      return Ok(Accepted(event));
    }

    method CreditVerifiedWalletTopup(body: Body, w: Weather) returns (r: Response)
      modifies database
      ensures (database.Contents(), r) == CreditVerifiedTopup(old(database.Contents()), body, cfg, w)
    {
      var event := MapPaystackEvent(body.payload);
      if !event.WalletTopupSucceeded? {
        return Err(NotATopup);
      }
      r := ProcessInDatabase(body, event, w);
    }

    method ProcessInDatabase(body: Body, event: DomainEvent, w: Weather) returns (r: Response)
      requires !event.Ignored?
      modifies database
      ensures (database.Contents(), r) == ProcessWithDatabase(old(database.Contents()), body, event, cfg, w)
    {
      var before := database.Snapshot();
      var committed, result := RunWebhookTransaction(body, event);
      if w.databaseFails || !committed {
        database.Restore(before);
        if w.issueIsRecorded {
          database.RecordIssue(ProcessingFailed(event.reference));
        }
        return Err(RolledBack);
      }
      return Ok(result);
    }

    method RunWebhookTransaction(body: Body, event: DomainEvent) returns (committed: bool, result: WebhookResult)
      requires !event.Ignored?
      modifies database
      ensures
        var expected := RunTransaction(old(database.Contents()), body, event, cfg);
        && committed == expected.Some?
        && (committed ==> (database.Contents(), result) == expected.value)
    {
      committed := true;
      result := Duplicate(event.reference);
      var inserted := database.RecordPaymentEvent(body);
      if !inserted {
        assert database.inbox == old(database.inbox);
        return;
      }
      if event.PaymentSucceeded? {
        committed := ApplyPayment(event);
      }
      if event.WalletTopupSucceeded? {
        committed := CreditTopup(event);
      }
      result := Accepted(event);
    }

    method ApplyPayment(event: DomainEvent) returns (ok: bool)
      requires event.PaymentSucceeded?
      modifies database
      ensures
        var expected := ApplyVerifiedPayment(old(database.Contents()), event);
        ok == expected.Some? && (ok ==> database.Contents() == expected.value)
    {
      if event.reference !in database.payments {
        database.RecordIssue(ProviderSuccessNotLocal(event.reference));
        return true;
      }
      var payment := database.payments[event.reference];
      if event.amountKobo != payment.expectedKobo {
        database.RecordIssue(AmountMismatch(payment.id));
        return true;
      }
      if event.currency.Some? && event.currency.value != payment.currency {
        database.RecordIssue(CurrencyMismatch(payment.id));
        return true;
      }
      ok := database.MarkVerifiedPaymentSuccessful(event.reference, event.amountKobo);
    }

    method CreditTopup(event: DomainEvent) returns (ok: bool)
      requires event.WalletTopupSucceeded?
      modifies database
      ensures
        var expected := CreditWalletTopup(old(database.Contents()), event, cfg);
        ok == expected.Some? && (ok ==> database.Contents() == expected.value)
    {
      var userId := UserOf(event);
      if event.accountNumber.None? && userId.None? {
        database.RecordIssue(TopupUnattributable(event.reference));
        return true;
      }
      if event.currency.Some? && event.currency.value != "NGN" {
        database.RecordIssue(TopupCurrencyMismatch(event.reference));
        return true;
      }
      ok := database.CreditWalletTopup(event.reference, event.accountNumber, userId, CreditOf(event, cfg), cfg);
    }
  }

  function WebhookKey(event: string, reference: string): string {
    event + ":" + reference
  }

  /** A signed delivery, with the inbox kept in this process. */
  function ProcessInMemory(keys: set<string>, body: Body, authentic: bool): (set<string>, Response) {
    var event := MapPaystackEvent(body.payload);
    if !authentic then (keys, Err(Unauthorized))
    else if event.Ignored? then (keys, Ok(NotMapped(event.reason)))
    else
      var key := WebhookKey(body.payload.event, event.reference);
      if key in keys then (keys, Ok(Duplicate(event.reference)))
      else (keys + {key}, Ok(Accepted(event)))
  }

  // ---------------------------------------------------------------- duplicates in memory

  datatype Delivery = Delivery(body: Body, authentic: bool)

  function KeysAfter(deliveries: seq<Delivery>): set<string> {
    if deliveries == [] then {}
    else
      var last := deliveries[|deliveries| - 1];
      ProcessInMemory(KeysAfter(deliveries[..|deliveries| - 1]), last.body, last.authentic).0
  }

  /** Something that counts was delivered: signed and mapped. */
  predicate Counts(d: Delivery) {
    d.authentic && !MapPaystackEvent(d.body.payload).Ignored?
  }

  predicate SameNotice(a: Body, b: Body)
    requires !MapPaystackEvent(a.payload).Ignored? && !MapPaystackEvent(b.payload).Ignored?
  {
    && a.payload.event == b.payload.event
    && MapPaystackEvent(a.payload).reference == MapPaystackEvent(b.payload).reference
  }

  lemma KeySplitsOnce(e1: string, r1: string, e2: string, r2: string)
    requires ':' !in e1 && ':' !in e2 && WebhookKey(e1, r1) == WebhookKey(e2, r2)
    ensures e1 == e2 && r1 == r2
  {
    var k1, k2 := WebhookKey(e1, r1), WebhookKey(e2, r2);
    assert k1[|e1|] == ':' && k2[|e2|] == ':';
    assert forall i :: 0 <= i < |e1| ==> k1[i] == e1[i] != ':';
    assert forall i :: 0 <= i < |e2| ==> k2[i] == e2[i] != ':';
    assert |e1| == |e2|;
    assert e1 == k1[..|e1|] && e2 == k2[..|e2|];
    assert r1 == k1[|e1| + 1..] && r2 == k2[|e2| + 1..];
  }

  const MAPPED_EVENTS: seq<string> := [
    CHARGE_SUCCESS,
    "charge.failed",
    "refund.processed",
    "transfer.success",
    "transfer.failed",
    "transfer.reversed"
  ]

  lemma OnlyTheseAreMapped(payload: Payload)
    requires !MapPaystackEvent(payload).Ignored?
    ensures payload.event in MAPPED_EVENTS
  {
    var event := payload.event;
    var i: nat :=
      if event == CHARGE_SUCCESS then 0
      else if event == "charge.failed" then 1
      else if event == "refund.processed" then 2
      else if event == "transfer.success" then 3
      else if event == "transfer.failed" then 4 else 5;
    assert event == MAPPED_EVENTS[i];
  }

  lemma NoColons(i: nat)
    requires i < |MAPPED_EVENTS|
    ensures ':' !in MAPPED_EVENTS[i]
  {}

  lemma MappedEventsHaveNoColon(payload: Payload)
    requires !MapPaystackEvent(payload).Ignored?
    ensures ':' !in payload.event
  {
    OnlyTheseAreMapped(payload);
    var i :| 0 <= i < |MAPPED_EVENTS| && MAPPED_EVENTS[i] == payload.event;
    NoColons(i);
  }

  lemma {:induction false} KeysAreOfDeliveries(deliveries: seq<Delivery>, key: string)
    ensures key in KeysAfter(deliveries) <==>
      exists i :: 0 <= i < |deliveries| && Counts(deliveries[i])
        && key == WebhookKey(deliveries[i].body.payload.event, MapPaystackEvent(deliveries[i].body.payload).reference)
    decreases |deliveries|
  {
    if deliveries != [] {
      var init := deliveries[..|deliveries| - 1];
      KeysAreOfDeliveries(init, key);
      assert forall i :: 0 <= i < |init| ==> init[i] == deliveries[i];
    }
  }

  /** Without a database, a signed delivery is a duplicate exactly when this process has taken
      one for the same event and reference before, whatever else their bodies say. */
  lemma DuplicateInMemory(deliveries: seq<Delivery>, body: Body)
    requires !MapPaystackEvent(body.payload).Ignored?
    ensures
      var reply := ProcessInMemory(KeysAfter(deliveries), body, true).1;
      reply == Ok(Duplicate(MapPaystackEvent(body.payload).reference)) <==>
      exists i :: 0 <= i < |deliveries| && Counts(deliveries[i]) && SameNotice(deliveries[i].body, body)
  {
    var key := WebhookKey(body.payload.event, MapPaystackEvent(body.payload).reference);
    KeysAreOfDeliveries(deliveries, key);
    MappedEventsHaveNoColon(body.payload);
    forall i | 0 <= i < |deliveries| && Counts(deliveries[i])
      ensures SameNotice(deliveries[i].body, body) <==>
        key == WebhookKey(deliveries[i].body.payload.event, MapPaystackEvent(deliveries[i].body.payload).reference)
    {
      var other := deliveries[i].body.payload;
      MappedEventsHaveNoColon(other);
      if key == WebhookKey(other.event, MapPaystackEvent(other).reference) {
        KeySplitsOnce(body.payload.event, MapPaystackEvent(body.payload).reference, other.event,
          MapPaystackEvent(other).reference);
      }
    }
  }

  // ---------------------------------------------------------------- what a delivery is told

  /** A delivery without a valid signature, and one that maps to nothing, changes nothing and is
      told so. */
  lemma RefusedDeliveries(t: Tables, body: Body, cfg: Config, w: Weather)
    ensures ProcessDelivery(t, body, false, cfg, w) == (t, Err(Unauthorized))
    ensures !HasReference(body.payload) ==>
      ProcessDelivery(t, body, true, cfg, w) == (t, Ok(NotMapped(MissingReference)))
    ensures
      HasReference(body.payload)
      && body.payload.event !in {"charge.success", "charge.failed", "refund.processed",
                                 "transfer.success", "transfer.failed", "transfer.reversed"} ==>
        ProcessDelivery(t, body, true, cfg, w) == (t, Ok(NotMapped(UnmappedEvent)))
  {}

  /** A delivery that the database fails is rolled back; all it can leave is the issue. */
  lemma FailedDeliveries(t: Tables, body: Body, cfg: Config, w: Weather)
    requires w.databaseFails && !MapPaystackEvent(body.payload).Ignored?
    ensures ProcessDelivery(t, body, true, cfg, w) ==
      (if w.issueIsRecorded
       then t.(issues := t.issues + {ProcessingFailed(MapPaystackEvent(body.payload).reference)}) else t,
       Err(RolledBack))
  {}

  /** The issue that each kind of misfit is filed under. */
  lemma WhichIssue(t: Tables, event: DomainEvent)
    ensures event.WalletTopupSucceeded? ==>
      var nobody := event.accountNumber.None? && !(event.userId.Some? && event.userId.value.Uuid?);
      var foreign := event.currency.Some? && event.currency.value != "NGN";
      TopupRejection(event) ==
      if nobody then Some(TopupUnattributable(event.reference))
      else if foreign then Some(TopupCurrencyMismatch(event.reference)) else None
    ensures event.PaymentSucceeded? ==>
      var rejection := PaymentRejection(t, event);
      && (rejection == Some(ProviderSuccessNotLocal(event.reference)) <==> event.reference !in t.payments)
      && (event.reference in t.payments ==>
           var p := t.payments[event.reference];
           && (rejection == Some(AmountMismatch(p.id)) <==> event.amountKobo != p.expectedKobo)
           && (rejection == Some(CurrencyMismatch(p.id)) <==>
                event.amountKobo == p.expectedKobo && event.currency.Some? && event.currency.value != p.currency))
  {}

  /** A transfer whose account nobody owns is rolled back, to be delivered again. */
  lemma UnknownAccountIsRolledBack(t: Tables, body: Body, cfg: Config, w: Weather)
    requires body !in t.inbox && !w.databaseFails
    requires
      var event := MapPaystackEvent(body.payload);
      && event.WalletTopupSucceeded? && event.accountNumber.Some? && event.accountNumber.value !in t.accounts
      && (event.currency.Some? ==> event.currency.value == "NGN")
    ensures ProcessDelivery(t, body, true, cfg, w).1 == Err(RolledBack)
    ensures ProcessDelivery(t, body, true, cfg, w).0.(issues := t.issues) == t
  {}

  // ---------------------------------------------------------------- what the procedures do

  /** A payment is settled exactly when it is known, not yet successful, paid what was expected
      and its order waits; its order is then paid. Only the wrong amount, or an unknown
      reference, is refused. */
  lemma WhatSettles(t: Tables, reference: string, paidKobo: int)
    ensures
      var known := reference in t.payments;
      var settles := known && t.payments[reference].status != Successful
        && paidKobo == t.payments[reference].expectedKobo
        && t.payments[reference].orderId in t.orders
        && t.orders[t.payments[reference].orderId] in {OrderStatus.PendingPayment, OrderStatus.Expired};
      && (MarkVerified(t, reference, paidKobo).None? <==>
           !known || (t.payments[reference].status != Successful && paidKobo != t.payments[reference].expectedKobo))
      && (settles ==>
           var p := t.payments[reference];
           MarkVerified(t, reference, paidKobo) == Some(t.(
             payments := t.payments[reference :=
               Payment(p.id, p.orderId, p.expectedKobo, p.currency, Successful, Some(paidKobo))],
             orders := t.orders[p.orderId := OrderStatus.Paid])))
      && (!settles && MarkVerified(t, reference, paidKobo).Some? ==> MarkVerified(t, reference, paidKobo) == Some(t))
  {}

  /** An order is paid from a wallet exactly when it is new, costs something, and its customer
      has a wallet that is not frozen and covers it. */
  lemma WhatAWalletPays(t: Tables, orderId: nat, customer: UserId, totalKobo: nat)
    ensures PayOrderFromWallet(t, orderId, customer, totalKobo).Some? <==>
      && orderId !in t.orders && customer in t.balances && customer !in t.frozen
      && 0 < totalKobo <= t.balances[customer]
    ensures PayOrderFromWallet(t, orderId, customer, totalKobo).Some? ==>
      PayOrderFromWallet(t, orderId, customer, totalKobo).value ==
      t.(ledger := t.ledger + [OrderPayment(orderId, customer, -(totalKobo as int))],
         balances := t.balances[customer := t.balances[customer] - totalKobo],
         orders := t.orders[orderId := OrderStatus.Paid],
         customers := t.customers[orderId := customer],
         walletPayments := t.walletPayments[orderId := totalKobo])
  {}

  /** An adjustment goes through exactly with a reason, an amount, a wallet, and no debt. */
  lemma WhatAnAdjustmentDoes(t: Tables, user: UserId, amountKobo: int, hasReason: bool)
    ensures AdjustWallet(t, user, amountKobo, hasReason).Some? <==>
      hasReason && amountKobo != 0 && user in t.balances && t.balances[user] + amountKobo >= 0
    ensures AdjustWallet(t, user, amountKobo, hasReason).Some? ==>
      AdjustWallet(t, user, amountKobo, hasReason).value ==
      t.(ledger := t.ledger + [Adjustment(user, amountKobo)], balances :=
        t.balances[user := t.balances[user] + amountKobo])
  {}

  /** A number is bound exactly if the user has a wallet and no other wallet has the number; it
      is then the only one of that wallet, and everybody else keeps theirs. */
  lemma WhatBindingDoes(t: Tables, number: string, user: UserId)
    ensures
      var after := BindAccount(t, number, user);
      var binds := user in t.balances && (number in t.accounts ==> t.accounts[number] == user);
      && after == t.(accounts := after.accounts)
      && (!binds ==> after == t)
      && (binds ==>
           && number in after.accounts && after.accounts[number] == user
           && (forall n :: n in after.accounts && after.accounts[n] == user ==> n == number)
           && (forall n :: n in after.accounts && n != number ==> n in t.accounts && t.accounts[n] == after.accounts[n])
           && (forall n :: n in t.accounts && t.accounts[n] != user ==>
                n in after.accounts && after.accounts[n] == t.accounts[n]))
  {}
}
