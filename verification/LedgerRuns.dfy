/** Runs of everything that writes the wallet and payment tables, in any order and with any
    failures: deliveries and redeliveries, sweep credits, the payment routes, orders paid from
    a wallet, wallet refunds and adjustments, order moves and the arrival of accounts, users,
    orders and payments. */
module LedgerRuns {
  import opened Wrappers
  import opened PaystackEvents
  import opened OrderStatus
  import opened WalletTables
  import opened Webhook
  import opened Payments

  datatype Step =
    | Deliver(body: Body, authentic: bool, weather: Weather)
    | SweepCredit(body: Body, weather: Weather)
    | BackgroundCheck(known: Known, answer: Answer)
    | AdminReconcile(reference: string, answer: Answer)
    | AdminForce(reference: string)
    | EndCheckout(reference: string)
    | MoveOrder(orderId: nat, to: Status)
    | PlaceOrder(orderId: nat, customer: UserId)
    | OpenPayment(reference: string, paymentId: nat, orderId: nat, expectedKobo: int, currency: string)
    | PayFromWallet(orderId: nat, customer: UserId, totalKobo: nat)
    | RefundOrder(orderId: nat, amountKobo: int)
    | Adjust(user: UserId, amountKobo: int, hasReason: bool)
    | SetFrozen(user: UserId, frozen: bool)
    | BindNumber(number: string, user: UserId)
    | AddProfile(user: UserId)

  predicate IsBodyStep(s: Step) {
    s.Deliver? || s.SweepCredit?
  }

  predicate IsPaymentStep(s: Step) {
    s.BackgroundCheck? || s.AdminReconcile? || s.AdminForce?
  }

  predicate IsWalletStep(s: Step) {
    s.PayFromWallet? || s.RefundOrder? || s.Adjust?
  }

  /** A delivery's or a sweep credit's reply; the other steps have none. */
  function ReplyTo(t: Tables, s: Step, cfg: Config): Option<Response> {
    match s
    case Deliver(body, authentic, w) => Some(ProcessDelivery(t, body, authentic, cfg, w).1)
    case SweepCredit(body, w) => Some(CreditVerifiedTopup(t, body, cfg, w).1)
    case _ => None
  }

  /** An exception leaves the tables as they were. */
  function OrElseSame(attempt: Option<Tables>, t: Tables): Tables {
    if attempt.Some? then attempt.value else t
  }

  /** Unique keys make the inserts of a taken id or reference do nothing. */
  function Next(t: Tables, s: Step, cfg: Config): Tables {
    match s
    case Deliver(body, authentic, w) => ProcessDelivery(t, body, authentic, cfg, w).0
    case SweepCredit(body, w) => CreditVerifiedTopup(t, body, cfg, w).0
    case BackgroundCheck(k, a) => TryReconcile(t, k, a).0
    case AdminReconcile(reference, a) => Reconcile(t, reference, a).0
    case AdminForce(reference) => ForcePaid(t, reference).0
    case EndCheckout(reference) => FinishCheckout(t, reference)
    case MoveOrder(id, to) =>
      if id in t.orders && CanTransition(t.orders[id], to) then t.(orders := t.orders[id := to]) else t
    case PlaceOrder(id, customer) =>
      if id in t.orders then t
      else t.(orders := t.orders[id := PendingPayment], customers := t.customers[id := customer])
    case OpenPayment(reference, paymentId, orderId, expected, currency) =>
      if reference in t.payments || orderId !in t.orders then t
      else t.(payments := t.payments[reference := Payment(paymentId, orderId, expected, currency, Initialized, None)])
    case PayFromWallet(id, customer, totalKobo) => OrElseSame(PayOrderFromWallet(t, id, customer, totalKobo), t)
    case RefundOrder(id, amountKobo) => OrElseSame(RefundToWallet(t, id, amountKobo), t)
    case Adjust(user, amountKobo, hasReason) => OrElseSame(AdjustWallet(t, user, amountKobo, hasReason), t)
    case SetFrozen(user, frozen) =>
      if user !in t.balances then t else t.(frozen := if frozen then t.frozen + {user} else t.frozen - {user})
    case BindNumber(number, user) => BindAccount(t, number, user)
    case AddProfile(user) => t.(profiles := t.profiles + {user})
  }

  function Run(t: Tables, steps: seq<Step>, cfg: Config): Tables
    decreases |steps|
  {
    if steps == [] then t else Next(Run(t, steps[..|steps| - 1], cfg), steps[|steps| - 1], cfg)
  }

  /** The tables before step i of a run. */
  function Before(t: Tables, steps: seq<Step>, i: nat, cfg: Config): Tables
    requires i <= |steps|
  {
    Run(t, steps[..i], cfg)
  }

  lemma RunByOne(t: Tables, steps: seq<Step>, i: nat, cfg: Config)
    requires i < |steps|
    ensures Before(t, steps, i + 1, cfg) == Next(Before(t, steps, i, cfg), steps[i], cfg)
  {
    assert steps[..i + 1][..i] == steps[..i];
  }

  // ---------------------------------------------------------------- the books

  function SumFor(ledger: seq<Entry>, user: UserId): int {
    if ledger == [] then 0
    else
      var last := ledger[|ledger| - 1];
      SumFor(ledger[..|ledger| - 1], user) + (if last.user == user then last.amountKobo else 0)
  }

  ghost predicate DistinctTopups(ledger: seq<Entry>) {
    forall i, j :: 0 <= i < j < |ledger| && ledger[i].Topup? && ledger[j].Topup? ==>
      ledger[i].reference != ledger[j].reference
  }

  /** No wallet was ever in debt, at any point of its history. */
  ghost predicate NeverOverdrawn(ledger: seq<Entry>) {
    forall k, user :: 0 <= k <= |ledger| ==> SumFor(ledger[..k], user) >= 0
  }

  /** Every reference is credited at most once, and a wallet holds what its entries, credits
      and debits, add up to, which was never less than nothing. */
  ghost predicate Sound(t: Tables) {
    && DistinctTopups(t.ledger)
    && NeverOverdrawn(t.ledger)
    && (forall user :: BalanceOf(t, user) == SumFor(t.ledger, user))
  }

  /** What one step does to the ledger: nothing, or it appends one entry, a top-up only under
      a new reference, and moves the owner's balance by it. */
  ghost predicate Extends(before: Tables, after: Tables) {
    || (after.ledger == before.ledger && forall user :: BalanceOf(after, user) == BalanceOf(before, user))
    || (exists e :: Appends(before, after, e))
  }

  ghost predicate Appends(before: Tables, after: Tables, e: Entry) {
    && after.ledger == before.ledger + [e]
    && (e.Topup? ==> e.reference !in References(before.ledger) && e.amountKobo > 0)
    && forall user :: BalanceOf(after, user) == BalanceOf(before, user) + (if user == e.user then e.amountKobo else 0)
  }

  /** A credit touches the owner's wallet, the ledger and the issues, and nothing else. */
  ghost predicate CreditsWallet(t: Tables, after: Tables) {
    && after == t.(ledger := after.ledger, balances := after.balances, issues := after.issues)
    && t.issues <= after.issues
    && (after.ledger == t.ledger || (exists e: Entry :: e.Topup? && after.ledger == t.ledger + [e]))
    && Extends(t, after)
  }

  lemma CreditCreditsWallet(t: Tables, reference: string, account: Option<string>, user: Option<UserId>,
      amountKobo: int, cfg: Config)
    requires Credit(t, reference, account, user, amountKobo, cfg).Some?
    ensures CreditsWallet(t, Credit(t, reference, account, user, amountKobo, cfg).value)
  {
    var after := Credit(t, reference, account, user, amountKobo, cfg).value;
    if reference !in References(t.ledger) {
      var e := Topup(reference, Owner(t, account, user).value, amountKobo);
      assert Appends(t, after, e);
    }
  }

  /** What processing a body can do: file issues, keep the body and file issues, credit a
      wallet, or settle a payment. */
  ghost predicate Effect(t: Tables, after: Tables, body: Body, event: DomainEvent) {
    var kept := t.(inbox := t.inbox + {body});
    || (t.issues <= after.issues && after == t.(issues := after.issues))
    || (t.issues <= after.issues && after == kept.(issues := after.issues))
    || (event.WalletTopupSucceeded? && TopupRejection(event).None? && CreditsWallet(kept, after))
    || (event.PaymentSucceeded? && PaymentRejection(t, event).None?
        && MarkVerified(kept, event.reference, event.amountKobo) == Some(after))
  }

  lemma ProcessHasEffect(t: Tables, body: Body, event: DomainEvent, cfg: Config, w: Weather)
    requires !event.Ignored?
    ensures Effect(t, ProcessWithDatabase(t, body, event, cfg, w).0, body, event)
  {
    var kept := t.(inbox := t.inbox + {body});
    if event.WalletTopupSucceeded? && TopupRejection(event).None? {
      var credit := CreditOf(event, cfg);
      if Credit(kept, event.reference, event.accountNumber, UserOf(event), credit, cfg).Some? {
        CreditCreditsWallet(kept, event.reference, event.accountNumber, UserOf(event), credit, cfg);
      }
    }
  }

  lemma BodyStepHasEffect(t: Tables, s: Step, cfg: Config)
    requires IsBodyStep(s)
    ensures Next(t, s, cfg) == t || Effect(t, Next(t, s, cfg), s.body, MapPaystackEvent(s.body.payload))
  {
    BodyStep(t, s, cfg);
    var event := MapPaystackEvent(s.body.payload);
    if !event.Ignored? {
      ProcessHasEffect(t, s.body, event, cfg, s.weather);
    }
  }

  lemma EffectExtends(t: Tables, after: Tables, body: Body, event: DomainEvent)
    requires Effect(t, after, body, event)
    ensures Extends(t, after)
  {
    var kept := t.(inbox := t.inbox + {body});
    if event.WalletTopupSucceeded? && CreditsWallet(kept, after) && after.ledger != t.ledger {
      var e :| Appends(kept, after, e);
      assert Appends(t, after, e);
    }
  }

  predicate SameWallets(a: Tables, b: Tables) {
    a.ledger == b.ledger && a.balances == b.balances
  }

  /** Only deliveries and sweep credits write the inbox and the issues, and only they and the
      wallet steps write wallets. */
  lemma WhoWritesWhat(t: Tables, s: Step, cfg: Config)
    ensures !IsBodyStep(s) ==> Next(t, s, cfg).inbox == t.inbox && Next(t, s, cfg).issues == t.issues
    ensures !IsBodyStep(s) && !IsWalletStep(s) ==> SameWallets(t, Next(t, s, cfg))
  {}

  /** The entry a wallet step appends if it goes through. */
  function EntryOf(t: Tables, s: Step): Entry
    requires IsWalletStep(s)
  {
    match s
    case PayFromWallet(id, customer, totalKobo) => OrderPayment(id, customer, -(totalKobo as int))
    case RefundOrder(id, amountKobo) => OrderRefund(id, if id in t.customers then t.customers[id] else 0, amountKobo)
    case Adjust(user, amountKobo, _) => Adjustment(user, amountKobo)
  }

  lemma WalletStepAppends(t: Tables, s: Step, cfg: Config)
    requires IsWalletStep(s)
    ensures Next(t, s, cfg) == t || Appends(t, Next(t, s, cfg), EntryOf(t, s))
  {}

  /** A delivery or sweep credit runs the common transaction or changes nothing. */
  lemma BodyStep(t: Tables, s: Step, cfg: Config)
    requires IsBodyStep(s)
    ensures
      var event := MapPaystackEvent(s.body.payload);
      || (Next(t, s, cfg) == t && (ReplyTo(t, s, cfg).value.Ok? ==> ReplyTo(t, s, cfg).value.value.NotMapped?))
      || (&& !event.Ignored?
          && Next(t, s, cfg) == ProcessWithDatabase(t, s.body, event, cfg, s.weather).0
          && ReplyTo(t, s, cfg) == Some(ProcessWithDatabase(t, s.body, event, cfg, s.weather).1))
  {}

  lemma NextExtends(t: Tables, s: Step, cfg: Config)
    ensures Extends(t, Next(t, s, cfg))
  {
    if IsBodyStep(s) {
      BodyStepHasEffect(t, s, cfg);
      if Next(t, s, cfg) != t {
        EffectExtends(t, Next(t, s, cfg), s.body, MapPaystackEvent(s.body.payload));
      }
    } else if IsWalletStep(s) {
      WalletStepAppends(t, s, cfg);
    } else {
      WhoWritesWhat(t, s, cfg);
    }
  }

  lemma ExtendsKeepsSound(before: Tables, after: Tables)
    requires Sound(before) && Extends(before, after)
    ensures Sound(after)
  {
    if after.ledger != before.ledger {
      var e :| Appends(before, after, e);
      var n := |before.ledger|;
      assert after.ledger[..n] == before.ledger && after.ledger[..n + 1] == after.ledger;
      forall i, j | 0 <= i < j < |after.ledger| && after.ledger[i].Topup? && after.ledger[j].Topup?
        ensures after.ledger[i].reference != after.ledger[j].reference
      {
        if j == n {
          assert before.ledger[i] in before.ledger && before.ledger[i].reference in References(before.ledger);
        }
      }
      forall k, user | 0 <= k <= |after.ledger| ensures SumFor(after.ledger[..k], user) >= 0 {
        if k <= n {
          assert after.ledger[..k] == before.ledger[..k];
        } else {
          assert SumFor(after.ledger, user) == BalanceOf(after, user);
        }
      }
    }
  }

  /** Over every run, each reference has at most one top-up, entries are only ever appended,
      balances equal the sums of all their entries, and no wallet was ever overdrawn. */
  lemma {:induction false} LedgerStaysSound(t: Tables, steps: seq<Step>, cfg: Config)
    requires Sound(t)
    ensures Sound(Run(t, steps, cfg))
    ensures t.ledger <= Run(t, steps, cfg).ledger
    decreases |steps|
  {
    if steps != [] {
      var before := Run(t, steps[..|steps| - 1], cfg);
      LedgerStaysSound(t, steps[..|steps| - 1], cfg);
      NextExtends(before, steps[|steps| - 1], cfg);
      ExtendsKeepsSound(before, Run(t, steps, cfg));
    }
  }

  /** What the nightly check looks for: wallets whose balance is not the sum of their entries. */
  ghost function DriftingWallets(t: Tables): set<UserId> {
    set user | user in t.balances && t.balances[user] != SumFor(t.ledger, user)
  }

  /** It never finds one. */
  lemma NoWalletDrifts(t: Tables, steps: seq<Step>, cfg: Config)
    requires Sound(t)
    ensures DriftingWallets(Run(t, steps, cfg)) == {}
  {
    LedgerStaysSound(t, steps, cfg);
    var after := Run(t, steps, cfg);
    assert forall user :: user in after.balances ==> after.balances[user] == BalanceOf(after, user);
  }

  /** What takes money out of a wallet: an order of exactly that total which the wallet could
      pay while not frozen, or an administrator with a reason. */
  lemma WhatLowersABalance(t: Tables, s: Step, cfg: Config, user: UserId)
    ensures BalanceOf(Next(t, s, cfg), user) < BalanceOf(t, user) <==>
      match s
      case PayFromWallet(id, customer, totalKobo) =>
        && customer == user && id !in t.orders && user !in t.frozen
        && 0 < totalKobo <= BalanceOf(t, user)
      case Adjust(who, amountKobo, hasReason) => who == user && hasReason && user in t.balances
        && amountKobo < 0 <= BalanceOf(t, user) + amountKobo
      case _ => false
  {
    NextExtends(t, s, cfg);
    if IsWalletStep(s) {
      WalletStepAppends(t, s, cfg);
    } else if IsBodyStep(s) {
      CreditsOnly(t, s, cfg);
    }
  }

  lemma CreditsOnly(t: Tables, s: Step, cfg: Config)
    requires IsBodyStep(s)
    ensures forall user :: BalanceOf(Next(t, s, cfg), user) >= BalanceOf(t, user)
  {
    BodyStepHasEffect(t, s, cfg);
    if Next(t, s, cfg) != t {
      EffectOnlyCredits(t, Next(t, s, cfg), s.body, MapPaystackEvent(s.body.payload));
    }
  }

  lemma EffectOnlyCredits(t: Tables, after: Tables, body: Body, event: DomainEvent)
    requires Effect(t, after, body, event)
    ensures forall user :: BalanceOf(after, user) >= BalanceOf(t, user)
    ensures after.walletPayments == t.walletPayments && after.customers == t.customers
    ensures after.ledger == t.ledger || (exists e: Entry :: e.Topup? && after.ledger == t.ledger + [e])
  {
    EffectExtends(t, after, body, event);
    if after.ledger != t.ledger {
      var e: Entry :| e.Topup? && after.ledger == t.ledger + [e];
      var f :| Appends(t, after, f);
      assert after.ledger[|t.ledger|] == e == f;
    }
  }

  lemma FreezingOnlyByOrder(t: Tables, s: Step, cfg: Config, user: UserId)
    requires user in t.frozen && s != SetFrozen(user, false)
    ensures user in Next(t, s, cfg).frozen
  {
    if IsBodyStep(s) {
      BodyStepHasEffect(t, s, cfg);
      if Next(t, s, cfg) != t {
        EffectKeepsFrozen(t, Next(t, s, cfg), s.body, MapPaystackEvent(s.body.payload));
      }
    } else if IsPaymentStep(s) {
      var reference, paidKobo := PaymentRoute(t, s, cfg);
    }
  }

  lemma EffectKeepsFrozen(t: Tables, after: Tables, body: Body, event: DomainEvent)
    requires Effect(t, after, body, event)
    ensures after.frozen == t.frozen
  {}

  lemma {:induction false} FrozenStaysFrozen(t: Tables, steps: seq<Step>, cfg: Config, user: UserId)
    requires user in t.frozen && forall i :: 0 <= i < |steps| ==> steps[i] != SetFrozen(user, false)
    requires forall i :: 0 <= i < |steps| ==> !(steps[i].Adjust? && steps[i].user == user && steps[i].amountKobo < 0)
    ensures user in Run(t, steps, cfg).frozen
    ensures BalanceOf(Run(t, steps, cfg), user) >= BalanceOf(t, user)
    decreases |steps|
  {
    if steps != [] {
      var init := steps[..|steps| - 1];
      FrozenStaysFrozen(t, init, cfg, user);
      FreezingOnlyByOrder(Run(t, init, cfg), steps[|steps| - 1], cfg, user);
      WhatLowersABalance(Run(t, init, cfg), steps[|steps| - 1], cfg, user);
    }
  }

  lemma FreezingFreezes(t: Tables, cfg: Config, user: UserId)
    requires user in t.balances
    ensures user in Next(t, SetFrozen(user, true), cfg).frozen
    ensures BalanceOf(Next(t, SetFrozen(user, true), cfg), user) == BalanceOf(t, user)
  {}

  /** A wallet that is frozen pays for nothing: until it is released only an administrator can
      take money out of it. */
  lemma FrozenWalletsOnlyGrow(t: Tables, steps: seq<Step>, cfg: Config, user: UserId)
    requires user in t.balances && forall i :: 0 <= i < |steps| ==> steps[i] != SetFrozen(user, false)
    requires forall i :: 0 <= i < |steps| ==> !(steps[i].Adjust? && steps[i].user == user && steps[i].amountKobo < 0)
    ensures BalanceOf(Run(Next(t, SetFrozen(user, true), cfg), steps, cfg), user) >= BalanceOf(t, user)
  {
    FreezingFreezes(t, cfg, user);
    FrozenStaysFrozen(Next(t, SetFrozen(user, true), cfg), steps, cfg, user);
  }

  // ---------------------------------------------------------------- orders paid from a wallet

  ghost predicate DistinctDebits(ledger: seq<Entry>) {
    forall i, j :: 0 <= i < j < |ledger| && ledger[i].OrderPayment? && ledger[j].OrderPayment? ==>
      ledger[i].orderId != ledger[j].orderId
  }

  ghost predicate OnlyWalletOrdersDebited(t: Tables) {
    forall i :: 0 <= i < |t.ledger| && t.ledger[i].OrderPayment? ==> t.ledger[i].orderId in t.walletPayments
  }

  ghost predicate WalletOrdersDebited(t: Tables) {
    forall id :: id in t.walletPayments ==>
      id in t.orders && id in t.customers
        && OrderPayment(id, t.customers[id], -(t.walletPayments[id] as int)) in t.ledger
  }

  /** Every order paid from a wallet has exactly one debit: its total, from its customer. */
  ghost predicate DebitedOnce(t: Tables) {
    WalletOrdersDebited(t) && OnlyWalletOrdersDebited(t) && DistinctDebits(t.ledger)
  }

  /** What a step means to the orders paid from wallets: nothing, unless it pays one. */
  lemma WalletOrdersElsewhere(t: Tables, s: Step, cfg: Config)
    requires !s.PayFromWallet?
    ensures Next(t, s, cfg).walletPayments == t.walletPayments
    ensures Next(t, s, cfg).ledger == t.ledger
      || (exists e: Entry :: !e.OrderPayment? && Next(t, s, cfg).ledger == t.ledger + [e])
  {
    if IsBodyStep(s) {
      BodyStepHasEffect(t, s, cfg);
      if Next(t, s, cfg) != t {
        EffectOnlyCredits(t, Next(t, s, cfg), s.body, MapPaystackEvent(s.body.payload));
      }
    } else if IsWalletStep(s) {
      WalletStepAppends(t, s, cfg);
    } else {
      WhoWritesWhat(t, s, cfg);
    }
  }

  lemma OthersKeepDebitedOnce(t: Tables, after: Tables)
    requires DebitedOnce(t) && Preserves(t, after) && after.walletPayments == t.walletPayments
    requires after.ledger == t.ledger || (exists e: Entry :: !e.OrderPayment? && after.ledger == t.ledger + [e])
    ensures DebitedOnce(after)
  {}

  lemma OneMoreDistinct(t: Tables, e: Entry)
    requires OnlyWalletOrdersDebited(t) && DistinctDebits(t.ledger)
    requires e.OrderPayment? && e.orderId !in t.walletPayments
    ensures DistinctDebits(t.ledger + [e])
  {}

  lemma OneMoreDebit(t: Tables, after: Tables, id: nat, customer: UserId, totalKobo: nat)
    requires DebitedOnce(t) && id !in t.orders
    requires after.ledger == t.ledger + [OrderPayment(id, customer, -(totalKobo as int))]
    requires after.walletPayments == t.walletPayments[id := totalKobo]
    requires after.orders == t.orders[id := Paid] && after.customers == t.customers[id := customer]
    ensures DebitedOnce(after)
  {
    var e := OrderPayment(id, customer, -(totalKobo as int));
    OneMoreDistinct(t, e);
    assert OnlyWalletOrdersDebited(after);
    assert WalletOrdersDebited(after) by {
      assert after.ledger[|t.ledger|] == e;
      assert forall x :: x in t.ledger ==> x in after.ledger;
    }
  }

  lemma PaymentKeepsDebitedOnce(t: Tables, id: nat, customer: UserId, totalKobo: nat)
    requires DebitedOnce(t) && PayOrderFromWallet(t, id, customer, totalKobo).Some?
    ensures DebitedOnce(PayOrderFromWallet(t, id, customer, totalKobo).value)
  {
    OneMoreDebit(t, PayOrderFromWallet(t, id, customer, totalKobo).value, id, customer, totalKobo);
  }

  lemma NextKeepsDebitedOnce(t: Tables, s: Step, cfg: Config)
    requires DebitedOnce(t)
    ensures DebitedOnce(Next(t, s, cfg))
  {
    if s.PayFromWallet? {
      if PayOrderFromWallet(t, s.orderId, s.customer, s.totalKobo).Some? {
        PaymentKeepsDebitedOnce(t, s.orderId, s.customer, s.totalKobo);
      }
    } else {
      NextPreserves(t, s, cfg);
      WalletOrdersElsewhere(t, s, cfg);
      OthersKeepDebitedOnce(t, Next(t, s, cfg));
    }
  }

  lemma {:induction false} WalletOrdersAreDebitedOnce(t: Tables, steps: seq<Step>, cfg: Config)
    requires DebitedOnce(t)
    ensures DebitedOnce(Run(t, steps, cfg))
    decreases |steps|
  {
    if steps != [] {
      WalletOrdersAreDebitedOnce(t, steps[..|steps| - 1], cfg);
      NextKeepsDebitedOnce(Run(t, steps[..|steps| - 1], cfg), steps[|steps| - 1], cfg);
    }
  }

  // ---------------------------------------------------------------- what "duplicate" promises

  /** The effect a body asks for is in place: the money is in the ledger or on file as an
      issue; the payment's order no longer waits for it, or the mismatch is on file. */
  ghost predicate Settled(t: Tables, body: Body) {
    var event := MapPaystackEvent(body.payload);
    match event
    case WalletTopupSucceeded(_, _, _, _, _, _, _) =>
      if TopupRejection(event).Some? then TopupRejection(event).value in t.issues
      else event.reference in References(t.ledger)
    case PaymentSucceeded(reference, amountKobo, currency) =>
      || ProviderSuccessNotLocal(reference) in t.issues
      || (reference in t.payments &&
          var p := t.payments[reference];
          || (amountKobo != p.expectedKobo && AmountMismatch(p.id) in t.issues)
          || (amountKobo == p.expectedKobo && currency.Some? && currency.value != p.currency
               && CurrencyMismatch(p.id) in t.issues)
          || (amountKobo == p.expectedKobo && !AwaitsPayment(t, p.orderId)))
    case _ => true
  }

  ghost predicate InboxIsSettled(t: Tables) {
    forall body :: body in t.inbox ==> Settled(t, body)
  }

  /** What has been paid, by the provider or from a wallet, no longer waits for money. */
  ghost predicate Linked(t: Tables) {
    && (forall reference :: reference in t.payments ==>
         && t.payments[reference].orderId in t.orders
         && (t.payments[reference].status == Successful ==> !AwaitsPayment(t, t.payments[reference].orderId)))
    && (forall id :: id in t.walletPayments ==> id in t.orders && !AwaitsPayment(t, id))
  }

  /** What no step undoes. */
  ghost predicate Preserves(before: Tables, after: Tables) {
    && before.inbox <= after.inbox
    && before.issues <= after.issues
    && before.ledger <= after.ledger
    && before.orders.Keys <= after.orders.Keys
    && (forall id :: id in before.orders && !AwaitsPayment(before, id) ==> !AwaitsPayment(after, id))
    && (forall r :: r in before.payments ==> r in after.payments && SameTerms(before.payments[r], after.payments[r]))
    && (forall id :: id in before.orders && id in before.walletPayments ==>
         id in after.walletPayments && after.walletPayments[id] == before.walletPayments[id])
    && (forall id :: id in before.orders && id in before.customers ==>
         id in after.customers && after.customers[id] == before.customers[id])
  }

  /** A payment keeps its terms for ever. */
  predicate SameTerms(before: Payment, after: Payment) {
    && before.id == after.id && before.orderId == after.orderId
    && before.expectedKobo == after.expectedKobo && before.currency == after.currency
  }

  lemma MarkVerifiedPreserves(t: Tables, reference: string, paidKobo: int)
    requires MarkVerified(t, reference, paidKobo).Some?
    ensures Preserves(t, MarkVerified(t, reference, paidKobo).value)
  {}

  lemma EffectPreserves(t: Tables, after: Tables, body: Body, event: DomainEvent)
    requires Effect(t, after, body, event)
    ensures Preserves(t, after)
  {
    var kept := t.(inbox := t.inbox + {body});
    if event.PaymentSucceeded? && MarkVerified(kept, event.reference, event.amountKobo) == Some(after) {
      MarkVerifiedPreserves(kept, event.reference, event.amountKobo);
    }
  }

  /** What the payment routes come down to: nothing, or one call of the stored procedure. */
  lemma PaymentRoute(t: Tables, s: Step, cfg: Config) returns (reference: string, paidKobo: int)
    requires IsPaymentStep(s)
    ensures Next(t, s, cfg) == t || MarkVerified(t, reference, paidKobo) == Some(Next(t, s, cfg))
  {
    match s
    case BackgroundCheck(k, a) =>
      reference, paidKobo := k.reference, if a.Verified? then a.amountKobo else 0;
    case AdminReconcile(r, a) =>
      reference, paidKobo := r, if a.Verified? then a.amountKobo else 0;
    case AdminForce(r) =>
      reference, paidKobo := r, if r in t.payments then t.payments[r].expectedKobo else 0;
  }

  lemma NextPreserves(t: Tables, s: Step, cfg: Config)
    ensures Preserves(t, Next(t, s, cfg))
  {
    if IsBodyStep(s) {
      BodyStepHasEffect(t, s, cfg);
      if Next(t, s, cfg) != t {
        EffectPreserves(t, Next(t, s, cfg), s.body, MapPaystackEvent(s.body.payload));
      }
    } else if IsPaymentStep(s) {
      var reference, paidKobo := PaymentRoute(t, s, cfg);
      if Next(t, s, cfg) != t {
        MarkVerifiedPreserves(t, reference, paidKobo);
      }
    } else if IsWalletStep(s) {
      WalletStepPreserves(t, s, cfg);
    } else if IsOrderStep(s) {
      OrderStepPreserves(t, s, cfg);
    } else {
      OtherStepPreserves(t, s, cfg);
    }
  }

  lemma WalletStepPreserves(t: Tables, s: Step, cfg: Config)
    requires IsWalletStep(s)
    ensures Preserves(t, Next(t, s, cfg))
  {
    WalletStepAppends(t, s, cfg);
  }

  predicate IsOrderStep(s: Step) {
    s.MoveOrder? || s.PlaceOrder? || s.OpenPayment? || s.EndCheckout?
  }

  lemma MoveOrderPreserves(t: Tables, id: nat, next: Status)
    requires id in t.orders && CanTransition(t.orders[id], next)
    ensures Preserves(t, t.(orders := t.orders[id := next]))
  {}

  lemma PaymentRowPreserves(t: Tables, reference: string, p: Payment)
    requires reference in t.payments ==> SameTerms(t.payments[reference], p)
    ensures Preserves(t, t.(payments := t.payments[reference := p]))
  {}

  lemma PlaceOrderPreserves(t: Tables, id: nat, customer: UserId)
    requires id !in t.orders
    ensures Preserves(t, t.(orders := t.orders[id := PendingPayment], customers := t.customers[id := customer]))
  {}

  lemma OrderStepPreserves(t: Tables, s: Step, cfg: Config)
    requires IsOrderStep(s)
    ensures Preserves(t, Next(t, s, cfg))
  {
    match s
    case MoveOrder(id, next) =>
      if id in t.orders && CanTransition(t.orders[id], next) { MoveOrderPreserves(t, id, next); }
    case PlaceOrder(id, customer) =>
      if id !in t.orders { PlaceOrderPreserves(t, id, customer); }
    case OpenPayment(reference, paymentId, orderId, expected, currency) =>
      if Next(t, s, cfg) != t {
        PaymentRowPreserves(t, reference, Payment(paymentId, orderId, expected, currency, Initialized, None));
      }
    case EndCheckout(reference) =>
      if reference in t.payments {
        PaymentRowPreserves(t, reference, t.payments[reference].(status := Pending));
      }
  }

  lemma OtherStepPreserves(t: Tables, s: Step, cfg: Config)
    requires !IsBodyStep(s) && !IsPaymentStep(s) && !IsWalletStep(s) && !IsOrderStep(s)
    ensures Preserves(t, Next(t, s, cfg))
  {}

  lemma PreservesIsTransitive(a: Tables, b: Tables, c: Tables)
    requires Preserves(a, b) && Preserves(b, c)
    ensures Preserves(a, c)
  {
    forall r | r in a.payments ensures r in c.payments && SameTerms(a.payments[r], c.payments[r]) {
      assert SameTerms(a.payments[r], b.payments[r]) && SameTerms(b.payments[r], c.payments[r]);
    }
  }

  lemma {:induction false} RunPreserves(t: Tables, steps: seq<Step>, i: nat, j: nat, cfg: Config)
    requires i <= j <= |steps|
    ensures Preserves(Before(t, steps, i, cfg), Before(t, steps, j, cfg))
    decreases j
  {
    if i < j {
      RunPreserves(t, steps, i, j - 1, cfg);
      RunByOne(t, steps, j - 1, cfg);
      NextPreserves(Before(t, steps, j - 1, cfg), steps[j - 1], cfg);
      PreservesIsTransitive(Before(t, steps, i, cfg), Before(t, steps, j - 1, cfg), Before(t, steps, j, cfg));
    }
  }

  lemma ReferencesGrow(a: seq<Entry>, b: seq<Entry>)
    requires a <= b
    ensures References(a) <= References(b)
  {
    forall r | r in References(a) ensures r in References(b) {
      var e :| e in a && e.Topup? && e.reference == r;
      assert e in b;
    }
  }

  lemma SettledIsStable(before: Tables, after: Tables, body: Body)
    requires Preserves(before, after) && Linked(before) && Settled(before, body)
    ensures Settled(after, body)
  {
    ReferencesGrow(before.ledger, after.ledger);
    var event := MapPaystackEvent(body.payload);
    if event.PaymentSucceeded? && event.reference in before.payments {
      assert SameTerms(before.payments[event.reference], after.payments[event.reference]);
    }
  }

  lemma MarkVerifiedKeepsLinked(t: Tables, reference: string, paidKobo: int)
    requires Linked(t) && MarkVerified(t, reference, paidKobo).Some?
    ensures Linked(MarkVerified(t, reference, paidKobo).value)
  {}

  lemma EffectKeepsLinked(t: Tables, after: Tables, body: Body, event: DomainEvent)
    requires Linked(t) && Effect(t, after, body, event)
    ensures Linked(after)
  {
    var kept := t.(inbox := t.inbox + {body});
    if event.PaymentSucceeded? && MarkVerified(kept, event.reference, event.amountKobo) == Some(after) {
      MarkVerifiedKeepsLinked(kept, event.reference, event.amountKobo);
    }
  }

  lemma OtherStepsKeepLinked(t: Tables, s: Step, cfg: Config)
    requires Linked(t) && !IsBodyStep(s) && !IsPaymentStep(s) && !IsWalletStep(s)
    ensures Linked(Next(t, s, cfg))
  {}

  lemma WalletStepsKeepLinked(t: Tables, s: Step, cfg: Config)
    requires Linked(t) && IsWalletStep(s)
    ensures Linked(Next(t, s, cfg))
  {}

  lemma NextKeepsLinked(t: Tables, s: Step, cfg: Config)
    requires Linked(t)
    ensures Linked(Next(t, s, cfg))
  {
    if IsBodyStep(s) {
      BodyStepHasEffect(t, s, cfg);
      if Next(t, s, cfg) != t {
        EffectKeepsLinked(t, Next(t, s, cfg), s.body, MapPaystackEvent(s.body.payload));
      }
    } else if IsPaymentStep(s) {
      var reference, paidKobo := PaymentRoute(t, s, cfg);
      if Next(t, s, cfg) != t {
        MarkVerifiedKeepsLinked(t, reference, paidKobo);
      }
    } else if IsWalletStep(s) {
      WalletStepsKeepLinked(t, s, cfg);
    } else {
      OtherStepsKeepLinked(t, s, cfg);
    }
  }

  lemma CreditedReferenceIsThere(t: Tables, reference: string, account: Option<string>, user: Option<UserId>,
      amountKobo: int, cfg: Config)
    requires Credit(t, reference, account, user, amountKobo, cfg).Some?
    ensures reference in References(Credit(t, reference, account, user, amountKobo, cfg).value.ledger)
  {
    if reference !in References(t.ledger) {
      var e := Credit(t, reference, account, user, amountKobo, cfg).value.ledger[|t.ledger|];
      assert e.Topup? && e.reference == reference;
    }
  }

  /** An accepted body is settled at once. */
  lemma AcceptedIsSettled(t: Tables, body: Body, cfg: Config, w: Weather)
    requires Linked(t)
    requires
      var event := MapPaystackEvent(body.payload);
      !event.Ignored? && ProcessWithDatabase(t, body, event, cfg, w).1 == Ok(Accepted(event))
    ensures Settled(ProcessWithDatabase(t, body, MapPaystackEvent(body.payload), cfg, w).0, body)
  {
    var event := MapPaystackEvent(body.payload);
    if event.WalletTopupSucceeded? && TopupRejection(event).None? {
      var kept := t.(inbox := t.inbox + {body});
      CreditedReferenceIsThere(kept, event.reference, event.accountNumber, UserOf(event), CreditOf(event, cfg), cfg);
    }
  }

  lemma NextKeepsInboxSettled(t: Tables, s: Step, cfg: Config)
    requires Linked(t) && InboxIsSettled(t)
    ensures InboxIsSettled(Next(t, s, cfg))
  {
    NextPreserves(t, s, cfg);
    var after := Next(t, s, cfg);
    forall body | body in after.inbox ensures Settled(after, body) {
      if body in t.inbox {
        SettledIsStable(t, after, body);
      } else {
        NewInboxBody(t, s, cfg, body);
        AcceptedIsSettled(t, body, cfg, s.weather);
      }
    }
  }

  function BodyOf(s: Step): Option<Body> {
    if IsBodyStep(s) then Some(s.body) else None
  }

  predicate IsAccepted(reply: Option<Response>) {
    reply.Some? && reply.value.Ok? && reply.value.value.Accepted?
  }

  /** A body enters the inbox in no other way than by being accepted. */
  lemma NewInboxBody(t: Tables, s: Step, cfg: Config, body: Body)
    requires body in Next(t, s, cfg).inbox && body !in t.inbox
    ensures BodyOf(s) == Some(body) && IsAccepted(ReplyTo(t, s, cfg))
    ensures
      var event := MapPaystackEvent(body.payload);
      && !event.Ignored?
      && Next(t, s, cfg) == ProcessWithDatabase(t, body, event, cfg, s.weather).0
      && ProcessWithDatabase(t, body, event, cfg, s.weather).1 == Ok(Accepted(event))
  {
    if IsBodyStep(s) {
      BodyStep(t, s, cfg);
      InboxGrowsByBody(t, s.body, cfg, s.weather);
    } else {
      WhoWritesWhat(t, s, cfg);
    }
  }

  lemma CreditKeepsInbox(t: Tables, event: DomainEvent, cfg: Config)
    requires event.WalletTopupSucceeded? && CreditWalletTopup(t, event, cfg).Some?
    ensures CreditWalletTopup(t, event, cfg).value.inbox == t.inbox
  {}

  lemma InboxGrowsByBody(t: Tables, body: Body, cfg: Config, w: Weather)
    ensures
      var event := MapPaystackEvent(body.payload);
      !event.Ignored? ==>
        var (after, r) := ProcessWithDatabase(t, body, event, cfg, w);
        && after.inbox == (if r == Ok(Accepted(event)) then t.inbox + {body} else t.inbox)
        && (r == Ok(Duplicate(event.reference)) ==> body in t.inbox)
  {
    var event := MapPaystackEvent(body.payload);
    var kept := t.(inbox := t.inbox + {body});
    if event.WalletTopupSucceeded? && CreditWalletTopup(kept, event, cfg).Some? {
      CreditKeepsInbox(kept, event, cfg);
    }
  }

  lemma {:induction false} RunKeepsInboxSettled(t: Tables, steps: seq<Step>, i: nat, cfg: Config)
    requires i <= |steps| && Linked(t) && InboxIsSettled(t)
    ensures Linked(Before(t, steps, i, cfg)) && InboxIsSettled(Before(t, steps, i, cfg))
  {
    if i > 0 {
      RunKeepsInboxSettled(t, steps, i - 1, cfg);
      RunByOne(t, steps, i - 1, cfg);
      NextKeepsLinked(Before(t, steps, i - 1, cfg), steps[i - 1], cfg);
      NextKeepsInboxSettled(Before(t, steps, i - 1, cfg), steps[i - 1], cfg);
    }
  }

  ghost predicate AnsweredDuplicate(t: Tables, steps: seq<Step>, i: nat, cfg: Config)
    requires i < |steps|
  {
    && BodyOf(steps[i]).Some?
    && var reply := ReplyTo(Before(t, steps, i, cfg), steps[i], cfg).value;
    reply.Ok? && reply.value.Duplicate?
  }

  lemma DuplicateIsInInbox(t: Tables, s: Step, cfg: Config)
    requires IsBodyStep(s) && ReplyTo(t, s, cfg).value.Ok? && ReplyTo(t, s, cfg).value.value.Duplicate?
    ensures s.body in t.inbox && !MapPaystackEvent(s.body.payload).Ignored?
  {
    InboxGrowsByBody(t, s.body, cfg, s.weather);
  }

  /** "Duplicate" is answered only for a body that is kept and settled, and settled it stays
      whatever happens afterwards. */
  lemma DuplicateIsSettled(t: Tables, steps: seq<Step>, i: nat, cfg: Config, later: nat)
    requires i < |steps| && i <= later <= |steps|
    requires Linked(t) && InboxIsSettled(t) && AnsweredDuplicate(t, steps, i, cfg)
    ensures steps[i].body in Before(t, steps, i, cfg).inbox
    ensures Settled(Before(t, steps, later, cfg), steps[i].body)
  {
    var now := Before(t, steps, i, cfg);
    DuplicateIsInInbox(now, steps[i], cfg);
    RunKeepsInboxSettled(t, steps, i, cfg);
    RunPreserves(t, steps, i, later, cfg);
    SettledIsStable(now, Before(t, steps, later, cfg), steps[i].body);
  }

  /** A body in the inbox was accepted by one earlier attempt, or was there from the start. */
  lemma {:induction false} InboxBodyWasAccepted(t: Tables, steps: seq<Step>, i: nat, cfg: Config, body: Body)
      returns (j: nat)
    requires i <= |steps| && body in Before(t, steps, i, cfg).inbox && body !in t.inbox
    ensures j < i && BodyOf(steps[j]) == Some(body)
    ensures IsAccepted(ReplyTo(Before(t, steps, j, cfg), steps[j], cfg))
  {
    assert i > 0;
    RunByOne(t, steps, i - 1, cfg);
    if body in Before(t, steps, i - 1, cfg).inbox {
      j := InboxBodyWasAccepted(t, steps, i - 1, cfg, body);
    } else {
      NewInboxBody(Before(t, steps, i - 1, cfg), steps[i - 1], cfg, body);
      j := i - 1;
    }
  }

  lemma ProfilesStay(t: Tables, s: Step, cfg: Config)
    ensures t.profiles <= Next(t, s, cfg).profiles
  {
    if IsBodyStep(s) {
      BodyStepHasEffect(t, s, cfg);
      if Next(t, s, cfg) != t {
        EffectKeepsProfiles(t, Next(t, s, cfg), s.body, MapPaystackEvent(s.body.payload));
      }
    } else if IsPaymentStep(s) {
      var reference, paidKobo := PaymentRoute(t, s, cfg);
    }
  }

  lemma EffectKeepsProfiles(t: Tables, after: Tables, body: Body, event: DomainEvent)
    requires Effect(t, after, body, event)
    ensures after.profiles == t.profiles
  {}

  lemma {:induction false} AllProfilesStay(t: Tables, steps: seq<Step>, cfg: Config)
    ensures t.profiles <= Run(t, steps, cfg).profiles
    decreases |steps|
  {
    if steps != [] {
      AllProfilesStay(t, steps[..|steps| - 1], cfg);
      ProfilesStay(Run(t, steps[..|steps| - 1], cfg), steps[|steps| - 1], cfg);
    }
  }

  lemma RefundIsCredited(t: Tables, id: nat, amountKobo: nat, cfg: Config)
    requires id in t.customers && t.customers[id] in t.profiles && amountKobo > 0
    ensures
      var after := Next(t, RefundOrder(id, amountKobo), cfg);
      && after.ledger == t.ledger + [OrderRefund(id, t.customers[id], amountKobo)]
      && BalanceOf(after, t.customers[id]) == BalanceOf(t, t.customers[id]) + amountKobo
      && forall user :: user != t.customers[id] ==> BalanceOf(after, user) == BalanceOf(t, user)
  {}

  lemma RunKeepsCustomers(t: Tables, steps: seq<Step>, cfg: Config, id: nat)
    requires id in t.orders && id in t.customers
    ensures id in Run(t, steps, cfg).customers && Run(t, steps, cfg).customers[id] == t.customers[id]
  {
    RunPreserves(t, steps, 0, |steps|, cfg);
    assert steps[..0] == [] && steps[..|steps|] == steps;
  }

  /** Whatever happens after a customer with a profile has placed an order, a refund of it to
      the wallet reaches that customer in full. */
  lemma RefundsReachTheCustomer(t: Tables, id: nat, customer: UserId, steps: seq<Step>, cfg: Config, amountKobo: nat)
    requires id !in t.orders && amountKobo > 0
    ensures
      var placed := Next(Next(t, AddProfile(customer), cfg), PlaceOrder(id, customer), cfg);
      var later := Run(placed, steps, cfg);
      var after := Next(later, RefundOrder(id, amountKobo), cfg);
      && after.ledger == later.ledger + [OrderRefund(id, customer, amountKobo)]
      && BalanceOf(after, customer) == BalanceOf(later, customer) + amountKobo
      && forall user :: user != customer ==> BalanceOf(after, user) == BalanceOf(later, user)
  {
    var placed := Next(Next(t, AddProfile(customer), cfg), PlaceOrder(id, customer), cfg);
    AllProfilesStay(placed, steps, cfg);
    RunKeepsCustomers(placed, steps, cfg, id);
    RefundIsCredited(Run(placed, steps, cfg), id, amountKobo, cfg);
  }

  // ---------------------------------------------------------------- what a charge does to its payment

  /** Accepted, a charge does what it asks for: a mismatch is on file; a matching one has made
      its payment successful, unless the payment's order had moved on before. */
  lemma AcceptedChargeTakesEffect(t: Tables, s: Step, cfg: Config)
    requires IsBodyStep(s) && IsAccepted(ReplyTo(t, s, cfg)) && MapPaystackEvent(s.body.payload).PaymentSucceeded?
    ensures
      var event := MapPaystackEvent(s.body.payload);
      var after := Next(t, s, cfg);
      match PaymentRejection(t, event)
      case Some(issue) => issue in after.issues && after.payments == t.payments && after.orders == t.orders
      case None =>
        && event.reference in t.payments
        && (IsPaid(after, event.reference) <==>
             IsPaid(t, event.reference) || AwaitsPayment(t, t.payments[event.reference].orderId))
  {
    BodyStep(t, s, cfg);
  }

  lemma EffectKeepsSuccess(t: Tables, after: Tables, body: Body, event: DomainEvent, reference: string)
    requires Effect(t, after, body, event) && IsPaid(t, reference)
    ensures IsPaid(after, reference) && after.payments[reference] == t.payments[reference]
  {}

  lemma EffectWithoutTopup(t: Tables, after: Tables, body: Body, event: DomainEvent)
    requires Effect(t, after, body, event) && !event.WalletTopupSucceeded?
    ensures SameWallets(t, after)
  {}

  lemma EffectWithoutPayment(t: Tables, after: Tables, body: Body, event: DomainEvent)
    requires Effect(t, after, body, event) && !event.PaymentSucceeded?
    ensures after.payments == t.payments && after.orders == t.orders
  {}

  lemma OnlyDeliveriesSettle(t: Tables, s: Step, cfg: Config)
    requires s.SweepCredit? && !MapPaystackEvent(s.body.payload).WalletTopupSucceeded?
    ensures Next(t, s, cfg) == t
  {}

  /** No body can touch both ledgers: what it credits a wallet for is a charge for wallets, and
      what it settles a payment with is a charge for payments. */
  lemma BodiesStayInTheirTables(t: Tables, s: Step, cfg: Config)
    requires IsBodyStep(s)
    ensures
      var input, after := s.body.payload, Next(t, s, cfg);
      var charged := HasReference(input) && input.event == CHARGE_SUCCESS;
      var forWallet := charged
        && (OnDedicatedAccount(input.data.value) || IsWalletTopup(MetadataRecord(input.data.value.metadata)));
      && (!SameWallets(t, after) ==> forWallet)
      && (after.payments != t.payments || after.orders != t.orders ==> s.Deliver? && charged && !forWallet)
  {
    ChargesReachOneLedger(s.body.payload);
    BodyStepHasEffect(t, s, cfg);
    var event := MapPaystackEvent(s.body.payload);
    if Next(t, s, cfg) != t {
      if !event.WalletTopupSucceeded? {
        EffectWithoutTopup(t, Next(t, s, cfg), s.body, event);
        if s.SweepCredit? { OnlyDeliveriesSettle(t, s, cfg); }
      }
      if !event.PaymentSucceeded? {
        EffectWithoutPayment(t, Next(t, s, cfg), s.body, event);
      }
    }
  }

  lemma OtherPaymentWrites(t: Tables, s: Step, cfg: Config, reference: string)
    requires !IsBodyStep(s) && !IsPaymentStep(s) && IsPaid(t, reference)
    ensures reference in Next(t, s, cfg).payments
    ensures Next(t, s, cfg).payments[reference] ==
      if s == EndCheckout(reference) then t.payments[reference].(status := Pending) else t.payments[reference]
  {}

  /** A success lasts through a step unless the step ends a checkout of that very payment,
      begun before the success: that write is not conditional. */
  lemma WhatUndoesSuccess(t: Tables, s: Step, cfg: Config, reference: string)
    requires IsPaid(t, reference)
    ensures IsPaid(Next(t, s, cfg), reference) <==> s != EndCheckout(reference)
    ensures s != EndCheckout(reference) ==> Next(t, s, cfg).payments[reference] == t.payments[reference]
  {
    if IsBodyStep(s) {
      BodyStepHasEffect(t, s, cfg);
      if Next(t, s, cfg) != t {
        EffectKeepsSuccess(t, Next(t, s, cfg), s.body, MapPaystackEvent(s.body.payload), reference);
      }
    } else if IsPaymentStep(s) {
      var r, paidKobo := PaymentRoute(t, s, cfg);
    } else {
      OtherPaymentWrites(t, s, cfg, reference);
    }
  }

  /** So a payment stays successful from one point to another if and only if no checkout of it
      ends on the way. */
  lemma {:induction false} SuccessLasts(t: Tables, steps: seq<Step>, i: nat, j: nat, cfg: Config, reference: string)
    requires i <= j <= |steps| && IsPaid(Before(t, steps, i, cfg), reference)
    ensures (forall m :: i <= m <= j ==> IsPaid(Before(t, steps, m, cfg), reference))
       <==> (forall m :: i <= m < j ==> steps[m] != EndCheckout(reference))
    decreases j
  {
    if i < j {
      SuccessLasts(t, steps, i, j - 1, cfg, reference);
      RunByOne(t, steps, j - 1, cfg);
      if IsPaid(Before(t, steps, j - 1, cfg), reference) {
        WhatUndoesSuccess(Before(t, steps, j - 1, cfg), steps[j - 1], cfg, reference);
      }
    }
  }

  /** "Duplicate" is answered to a charge only when this very body was accepted before, at a
      moment `j` at which it took its effect: its mismatch was filed and still is; or its
      payment became or was successful, and has been ever since but for a checkout ending; or
      the order had already moved on. */
  lemma DuplicateChargeHadItsEffect(t: Tables, steps: seq<Step>, i: nat, cfg: Config, later: nat) returns (j: nat)
    requires i < |steps| && i <= later <= |steps| && AnsweredDuplicate(t, steps, i, cfg)
    requires steps[i].body !in t.inbox && MapPaystackEvent(steps[i].body.payload).PaymentSucceeded?
    ensures j < i && BodyOf(steps[j]) == Some(steps[i].body)
      && IsAccepted(ReplyTo(Before(t, steps, j, cfg), steps[j], cfg))
    ensures
      var event := MapPaystackEvent(steps[i].body.payload);
      var at := Before(t, steps, j, cfg);
      match PaymentRejection(at, event)
      case Some(issue) => issue in Before(t, steps, later, cfg).issues
      case None =>
        && event.reference in at.payments
        && (IsPaid(at, event.reference) || AwaitsPayment(at, at.payments[event.reference].orderId) ==>
            && IsPaid(Before(t, steps, j + 1, cfg), event.reference)
            && ((forall m :: j + 1 <= m <= later ==> IsPaid(Before(t, steps, m, cfg), event.reference)) <==>
                (forall m :: j + 1 <= m < later ==> steps[m] != EndCheckout(event.reference))))
  {
    var event := MapPaystackEvent(steps[i].body.payload);
    DuplicateIsInInbox(Before(t, steps, i, cfg), steps[i], cfg);
    j := InboxBodyWasAccepted(t, steps, i, cfg, steps[i].body);
    AcceptedChargeTakesEffect(Before(t, steps, j, cfg), steps[j], cfg);
    RunByOne(t, steps, j, cfg);
    RunPreserves(t, steps, j + 1, later, cfg);
    if IsPaid(Before(t, steps, j + 1, cfg), event.reference) {
      SuccessLasts(t, steps, j + 1, later, cfg, event.reference);
    }
  }
}
