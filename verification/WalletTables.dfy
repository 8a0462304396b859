/** The wallet, payment and order tables, and the stored procedures that write them. The
    functions give each procedure on values, None standing for an exception, which rolls the
    procedure back; the class runs the same steps on fields. A request body stands for its
    own SHA-256 fingerprint, and carries the payload it parses to. */
module WalletTables {
  import opened Wrappers
  import opened PaystackEvents
  import opened OrderStatus
  import Fees

  type UserId = nat

  datatype Body = Body(raw: string, payload: Payload)

  /** A row of the wallet ledger, by its entry type: credits are positive, debits negative. */
  datatype Entry =
    | Topup(reference: string, user: UserId, amountKobo: int)
    | OrderPayment(orderId: nat, user: UserId, amountKobo: int)
    | OrderRefund(orderId: nat, user: UserId, amountKobo: int)
    | Adjustment(user: UserId, amountKobo: int)

  /** Reconciliation issues by their deduplication key. */
  datatype Issue =
    | ProviderSuccessNotLocal(reference: string)
    | AmountMismatch(paymentId: nat)
    | CurrencyMismatch(paymentId: nat)
    | TopupUnattributable(reference: string)
    | TopupCurrencyMismatch(reference: string)
    | ProcessingFailed(reference: string)
    | BalanceCapExceeded(user: UserId)

  datatype PaymentStatus = Initialized | Pending | Successful | Failed | Abandoned | PaymentRefunded

  datatype Payment = Payment(
    id: nat,
    orderId: nat,
    expectedKobo: int,
    currency: string,
    status: PaymentStatus,
    paidKobo: Option<int>)

  /** `balances` holds the wallets that exist, by owner, never negative by a check of the
      column, and `frozen` those that may not pay; `accounts` the dedicated accounts;
      `payments` the provider's payments by their unique reference, and `walletPayments` the
      totals of the orders paid from a wallet; `customers` who placed which order. */
  datatype Tables = Tables(
    inbox: set<Body>,
    ledger: seq<Entry>,
    balances: map<UserId, nat>,
    frozen: set<UserId>,
    accounts: map<string, UserId>,
    profiles: set<UserId>,
    issues: set<Issue>,
    payments: map<string, Payment>,
    walletPayments: map<nat, nat>,
    orders: map<nat, Status>,
    customers: map<nat, UserId>)

  datatype Config = Config(depositFeeBps: int, depositFeeCapKobo: int, maxBalanceKobo: int)

  /** The references of the top-ups. */
  function References(ledger: seq<Entry>): set<string> {
    set e | e in ledger && e.Topup? :: e.reference
  }

  function BalanceOf(t: Tables, user: UserId): nat {
    if user in t.balances then t.balances[user] else 0
  }

  // ---------------------------------------------------------------- the writer of balances

  /** A wallet can be opened for anybody with a profile. */
  predicate CanHaveWallet(t: Tables, user: UserId) {
    user in t.balances || user in t.profiles
  }

  function WithWallet(t: Tables, user: UserId): Tables {
    t.(balances := t.balances[user := BalanceOf(t, user)])
  }

  /** `append_wallet_ledger_entry`: the only way any balance changes. */
  function Append(t: Tables, e: Entry): Option<Tables> {
    if e.amountKobo == 0 || e.user !in t.balances || t.balances[e.user] + e.amountKobo < 0 then None
    else Some(t.(ledger := t.ledger + [e], balances := t.balances[e.user := t.balances[e.user] + e.amountKobo]))
  }

  /** The wallet leg of `create_paid_order_from_wallet`, with the order's rows. */
  function PayOrderFromWallet(t: Tables, orderId: nat, customer: UserId, totalKobo: nat): Option<Tables> {
    if orderId in t.orders || !CanHaveWallet(t, customer) then None
    else if customer in t.frozen || BalanceOf(t, customer) < totalKobo then None
    else
      match Append(WithWallet(t, customer), OrderPayment(orderId, customer, -(totalKobo as int)))
      case None => None
      case Some(paid) =>
        Some(paid.(
          orders := t.orders[orderId := Paid],
          customers := t.customers[orderId := customer],
          walletPayments := t.walletPayments[orderId := totalKobo]))
  }

  /** `refund_order_to_wallet`. */
  function RefundToWallet(t: Tables, orderId: nat, amountKobo: int): Option<Tables> {
    if orderId !in t.customers || amountKobo <= 0 || !CanHaveWallet(t, t.customers[orderId]) then None
    else
      var customer := t.customers[orderId];
      Append(WithWallet(t, customer), OrderRefund(orderId, customer, amountKobo))
  }

  /** `admin_adjust_wallet`. */
  function AdjustWallet(t: Tables, user: UserId, amountKobo: int, hasReason: bool): Option<Tables> {
    if !hasReason then None else Append(t, Adjustment(user, amountKobo))
  }

  /** `upsertDedicatedAccount`: a wallet has one account, a new number replaces the old one,
      and a number that another wallet has is refused. */
  function BindAccount(t: Tables, number: string, user: UserId): Tables {
    if user !in t.balances || (number in t.accounts && t.accounts[number] != user) then t
    else
      var others := map n | n in t.accounts && t.accounts[n] != user :: t.accounts[n];
      t.(accounts := others[number := user])
  }

  // ---------------------------------------------------------------- crediting a wallet

  function UserOf(event: DomainEvent): Option<UserId>
    requires event.WalletTopupSucceeded?
  {
    if event.userId.Some? && event.userId.value.Uuid? then Some(event.userId.value.user) else None
  }

  /** The issue that a top-up is filed under instead of being credited. */
  function TopupRejection(event: DomainEvent): Option<Issue>
    requires event.WalletTopupSucceeded?
  {
    if event.accountNumber.None? && UserOf(event).None? then Some(TopupUnattributable(event.reference))
    else if event.currency.Some? && event.currency.value != "NGN" then Some(TopupCurrencyMismatch(event.reference))
    else None
  }

  /** The kobo that belong in the wallet. */
  function CreditOf(event: DomainEvent, cfg: Config): int
    requires event.WalletTopupSucceeded?
  {
    if event.accountNumber.Some? then
      Fees.SplitDedicatedAccountDeposit(event.amountKobo, cfg.depositFeeBps, cfg.depositFeeCapKobo).creditKobo
    else if event.creditKobo.Some? && event.creditKobo.value <= event.amountKobo then event.creditKobo.value
    else event.amountKobo
  }

  /** The wallet a top-up goes to: the account's owner, or the named user, whose wallet can
      be opened if the profile exists. */
  function Owner(t: Tables, account: Option<string>, user: Option<UserId>): Option<UserId> {
    if account.Some? && account.value in t.accounts then Some(t.accounts[account.value])
    else if user.Some? && CanHaveWallet(t, user.value) then user
    else None
  }

  /** `credit_wallet_topup`. */
  function Credit(t: Tables, reference: string, account: Option<string>, user: Option<UserId>, amountKobo: int,
      cfg: Config): Option<Tables>
  {
    var owner := Owner(t, account, user);
    if amountKobo <= 0 || owner.None? then None
    else
      var provisioned := WithWallet(t, owner.value);
      if reference in References(t.ledger) then Some(provisioned)
      else
        match Append(provisioned, Topup(reference, owner.value, amountKobo))
        case None => None
        case Some(credited) =>
          Some(if credited.balances[owner.value] > cfg.maxBalanceKobo
            then credited.(issues := t.issues + {BalanceCapExceeded(owner.value)}) else credited)
  }

  function CreditWalletTopup(t: Tables, event: DomainEvent, cfg: Config): Option<Tables>
    requires event.WalletTopupSucceeded?
  {
    var rejection := TopupRejection(event);
    if rejection.Some? then Some(t.(issues := t.issues + {rejection.value}))
    else Credit(t, event.reference, event.accountNumber, UserOf(event), CreditOf(event, cfg), cfg)
  }

  // ---------------------------------------------------------------- settling a payment

  /** Only an order still waiting for its money, or given up on, can be resolved into a sale. */
  predicate AwaitsPayment(t: Tables, orderId: nat) {
    orderId in t.orders && t.orders[orderId] in {PendingPayment, Expired}
  }

  /** `mark_verified_payment_successful`. A captured payment whose order has moved on is left
      for finance to resolve. */
  function MarkVerified(t: Tables, reference: string, paidKobo: int): Option<Tables> {
    if reference !in t.payments then None
    else
      var p := t.payments[reference];
      if p.status == Successful then Some(t)
      else if paidKobo != p.expectedKobo then None
      else if !AwaitsPayment(t, p.orderId) then Some(t)
      else
        Some(t.(
          payments := t.payments[reference := p.(status := Successful, paidKobo := Some(paidKobo))],
          orders := t.orders[p.orderId := Paid]))
  }

  /** The issue that a charge is filed under instead of settling a payment. */
  function PaymentRejection(t: Tables, event: DomainEvent): Option<Issue>
    requires event.PaymentSucceeded?
  {
    if event.reference !in t.payments then Some(ProviderSuccessNotLocal(event.reference))
    else
      var p := t.payments[event.reference];
      if event.amountKobo != p.expectedKobo then Some(AmountMismatch(p.id))
      else if event.currency.Some? && event.currency.value != p.currency then Some(CurrencyMismatch(p.id))
      else None
  }

  function ApplyVerifiedPayment(t: Tables, event: DomainEvent): Option<Tables>
    requires event.PaymentSucceeded?
  {
    var rejection := PaymentRejection(t, event);
    if rejection.Some? then Some(t.(issues := t.issues + {rejection.value}))
    else MarkVerified(t, event.reference, event.amountKobo)
  }

  // ---------------------------------------------------------------- the same on fields

  class Database {
    var inbox: set<Body>
    var ledger: seq<Entry>
    var balances: map<UserId, nat>
    var frozen: set<UserId>
    var accounts: map<string, UserId>
    var profiles: set<UserId>
    var issues: set<Issue>
    var payments: map<string, Payment>
    var walletPayments: map<nat, nat>
    var orders: map<nat, Status>
    var customers: map<nat, UserId>

    ghost function Contents(): Tables
      reads this
    {
      Tables(inbox, ledger, balances, frozen, accounts, profiles, issues, payments, walletPayments, orders, customers)
    }

    constructor (t: Tables)
      ensures Contents() == t
    {
      inbox, ledger, balances, frozen := t.inbox, t.ledger, t.balances, t.frozen;
      accounts, profiles, issues := t.accounts, t.profiles, t.issues;
      payments, walletPayments, orders, customers := t.payments, t.walletPayments, t.orders, t.customers;
    }

    method Snapshot() returns (t: Tables)
      ensures t == Contents()
    {
      t := Tables(inbox, ledger, balances, frozen, accounts, profiles, issues, payments, walletPayments, orders,
        customers);
    }

    /** Puts every table back, as a rollback does. */
    method Restore(t: Tables)
      modifies this
      ensures Contents() == t
    {
      inbox, ledger, balances, frozen := t.inbox, t.ledger, t.balances, t.frozen;
      accounts, profiles, issues := t.accounts, t.profiles, t.issues;
      payments, walletPayments, orders, customers := t.payments, t.walletPayments, t.orders, t.customers;
    }

    /** Inserts the body unless its fingerprint is known already. */
    method RecordPaymentEvent(body: Body) returns (inserted: bool)
      modifies this`inbox
      ensures inserted == (body !in old(inbox))
      ensures inbox == old(inbox) + {body}
    {
      inserted := body !in inbox;
      if inserted {
        inbox := inbox + {body};
      }
    }

    method RecordIssue(issue: Issue)
      modifies this`issues
      ensures issues == old(issues) + {issue}
    {
      issues := issues + {issue};
    }

    method EnsureCustomerWallet(user: UserId)
      modifies this`balances
      ensures Contents() == WithWallet(old(Contents()), user)
    {
      if user in balances {
        assert balances[user := balances[user]] == balances;
      } else {
        balances := balances[user := 0];
      }
    }

    method CreditWalletTopup(reference: string, account: Option<string>, user: Option<UserId>, amountKobo: int,
        cfg: Config)
      returns (ok: bool)
      modifies this
      ensures
        var expected := Credit(old(Contents()), reference, account, user, amountKobo, cfg);
        ok == expected.Some? && (ok ==> Contents() == expected.value)
    {
      if amountKobo <= 0 {
        return false;
      }
      var owner: UserId;
      if account.Some? && account.value in accounts {
        owner := accounts[account.value];
      } else if user.Some? && (user.value in balances || user.value in profiles) {
        owner := user.value;
      } else {
        return false;
      }
      EnsureCustomerWallet(owner);
      var credited := HasTopup(reference);
      if credited {
        return true;
      }
      ok := AppendEntry(Topup(reference, owner, amountKobo));
      if ok && balances[owner] > cfg.maxBalanceKobo {
        RecordIssue(BalanceCapExceeded(owner));
      }
    }

    method HasTopup(reference: string) returns (found: bool)
      ensures found == (reference in References(ledger))
    {
      found := exists k :: 0 <= k < |ledger| && ledger[k].Topup? && ledger[k].reference == reference;
      if found {
        var k :| 0 <= k < |ledger| && ledger[k].Topup? && ledger[k].reference == reference;
        assert ledger[k] in ledger;
      }
    }

    /** The single writer of balances: appends the signed entry and refreshes the cache. */
    method AppendEntry(e: Entry) returns (ok: bool)
      modifies this`ledger, this`balances
      ensures
        var expected := Append(old(Contents()), e);
        ok == expected.Some? && Contents() == if ok then expected.value else old(Contents())
    {
      if e.amountKobo == 0 || e.user !in balances {
        return false;
      }
      var balance := balances[e.user] + e.amountKobo;
      if balance < 0 {
        return false;
      }
      ledger := ledger + [e];
      balances := balances[e.user := balance];
      return true;
    }

    method CreatePaidOrderFromWallet(orderId: nat, customer: UserId, totalKobo: nat) returns (ok: bool)
      modifies this
      ensures
        var expected := PayOrderFromWallet(old(Contents()), orderId, customer, totalKobo);
        ok == expected.Some? && (ok ==> Contents() == expected.value)
    {
      if orderId in orders || (customer !in balances && customer !in profiles) {
        return false;
      }
      EnsureCustomerWallet(customer);
      if customer in frozen || balances[customer] < totalKobo {
        return false;
      }
      ok := AppendEntry(OrderPayment(orderId, customer, -(totalKobo as int)));
      if ok {
        orders := orders[orderId := Paid];
        customers := customers[orderId := customer];
        walletPayments := walletPayments[orderId := totalKobo];
      }
    }

    method RefundOrderToWallet(orderId: nat, amountKobo: int) returns (ok: bool)
      modifies this`ledger, this`balances
      ensures
        var expected := RefundToWallet(old(Contents()), orderId, amountKobo);
        ok == expected.Some? && (ok ==> Contents() == expected.value)
    {
      if orderId !in customers || amountKobo <= 0 {
        return false;
      }
      var customer := customers[orderId];
      if customer !in balances && customer !in profiles {
        return false;
      }
      EnsureCustomerWallet(customer);
      ok := AppendEntry(OrderRefund(orderId, customer, amountKobo));
    }

    method MarkVerifiedPaymentSuccessful(reference: string, paidKobo: int) returns (ok: bool)
      modifies this
      ensures
        var expected := MarkVerified(old(Contents()), reference, paidKobo);
        ok == expected.Some? && (ok ==> Contents() == expected.value)
    {
      if reference !in payments {
        return false;
      }
      var payment := payments[reference];
      if payment.status == Successful {
        return true;
      }
      if paidKobo != payment.expectedKobo {
        return false;
      }
      if payment.orderId !in orders || orders[payment.orderId] !in {PendingPayment, Expired} {
        return true;
      }
      payments := payments[reference := payment.(status := Successful, paidKobo := Some(paidKobo))];
      orders := orders[payment.orderId := Paid];
      return true;
    }
  }
}
