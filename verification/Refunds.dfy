/** The refund ledger: initiating, deciding, pushing, retrying and resolving refunds
    (src/modules/payments/payments.service.ts and refunds.service.ts, on the rows of
    payments.repository.ts and refunds.repository.ts). Each service call is one step; what
    the wallet and the provider answer is an input. */
module Refunds {
  import opened Wrappers

  datatype RefundStatus = Requested | Approved | Processing | Succeeded | Failed | Cancelled

  datatype Refund = Refund(paymentId: nat, amountKobo: int, status: RefundStatus)

  datatype PaymentRow = PaymentRow(successful: bool, expectedKobo: int, paidKobo: Option<int>)

  /** A refund's id is its position. */
  datatype Book = Book(payments: map<nat, PaymentRow>, refunds: seq<Refund>)

  datatype Destination = Wallet(credits: bool) | Card(reply: ProviderReply)

  datatype ProviderReply = Throws | Replied(status: string)

  datatype RefundError =
    | NotFound
    | PaymentNotSuccessful
    | ExceedsRefundable
    | InvalidAmount
    | WrongStatus
    | ExceedsApproved
    | MoneyNotMoved

  /** `LosePayment` is a checkout that ends after its payment succeeded; every success is of
      what was expected. */
  datatype Step =
    | Initiate(paymentId: nat, amountKobo: int, destination: Destination)
    | Decide(refundId: nat, approve: bool)
    | Push(refundId: nat, amountKobo: int, reply: ProviderReply)
    | Retry(refundId: nat, reply: ProviderReply)
    | Resolve(refundId: nat, status: Resolution)
    | SettlePayment(paymentId: nat)
    | LosePayment(paymentId: nat)

  /** The statuses a manual resolution may set. */
  datatype Resolution = ToSucceeded | ToFailed | ToCancelled

  function StatusOf(r: Resolution): RefundStatus {
    match r
    case ToSucceeded => Succeeded
    case ToFailed => Failed
    case ToCancelled => Cancelled
  }

  function MapRefundStatus(providerStatus: string): RefundStatus {
    if providerStatus == "processed" || providerStatus == "success" then Succeeded
    else if providerStatus == "failed" then Failed
    else Processing
  }

  function PaidAmount(p: PaymentRow): int {
    if p.paidKobo.Some? then p.paidKobo.value else p.expectedKobo
  }

  /** Everything refunded or on its way: only failed refunds are left out. */
  function RefundedAmount(refunds: seq<Refund>, paymentId: nat): int {
    if refunds == [] then 0
    else
      var last := refunds[|refunds| - 1];
      RefundedAmount(refunds[..|refunds| - 1], paymentId)
      + (if last.paymentId == paymentId && last.status != Failed then last.amountKobo else 0)
  }

  function WithStatus(b: Book, refundId: nat, status: RefundStatus): Book
    requires refundId < |b.refunds|
  {
    b.(refunds := b.refunds[refundId := b.refunds[refundId].(status := status)])
  }

  // ---------------------------------------------------------------- the five steps

  function InitiateRefund(b: Book, paymentId: nat, amountKobo: int, d: Destination)
    : (Book, Result<RefundStatus, RefundError>)
  {
    if paymentId !in b.payments then (b, Err(NotFound))
    else if !b.payments[paymentId].successful then (b, Err(PaymentNotSuccessful))
    else if amountKobo > PaidAmount(b.payments[paymentId]) - RefundedAmount(b.refunds, paymentId) then
      (b, Err(ExceedsRefundable))
    else if amountKobo <= 0 then (b, Err(InvalidAmount))
    else
      var requested := b.(refunds := b.refunds + [Refund(paymentId, amountKobo, Requested)]);
      var id := |b.refunds|;
      match d
      case Wallet(credits) =>
        if credits then (WithStatus(requested, id, Succeeded), Ok(Succeeded)) else (requested, Err(MoneyNotMoved))
      case Card(Throws) => (requested, Err(MoneyNotMoved))
      case Card(Replied(s)) => (WithStatus(requested, id, MapRefundStatus(s)), Ok(MapRefundStatus(s)))
  }

  function DecideRefund(b: Book, refundId: nat, approve: bool): (Book, Result<RefundStatus, RefundError>) {
    if refundId >= |b.refunds| then (b, Err(NotFound))
    else if b.refunds[refundId].status != Requested then (b, Err(WrongStatus))
    else
      var status := if approve then Approved else Cancelled;
      (WithStatus(b, refundId, status), Ok(status))
  }

  /** The amount sent may be lower than the approved one; the row keeps the approved one. */
  function PushRefund(b: Book, refundId: nat, amountKobo: int, reply: ProviderReply)
    : (Book, Result<RefundStatus, RefundError>)
  {
    if refundId >= |b.refunds| then (b, Err(NotFound))
    else if b.refunds[refundId].status != Approved then (b, Err(WrongStatus))
    else if amountKobo > b.refunds[refundId].amountKobo then (b, Err(ExceedsApproved))
    else if reply.Throws? then (b, Err(MoneyNotMoved))
    else (WithStatus(b, refundId, MapRefundStatus(reply.status)), Ok(MapRefundStatus(reply.status)))
  }

  function RetryRefund(b: Book, refundId: nat, reply: ProviderReply): (Book, Result<RefundStatus, RefundError>) {
    if refundId >= |b.refunds| then (b, Err(NotFound))
    else if b.refunds[refundId].status != Failed then (b, Err(WrongStatus))
    else if reply.Throws? then (b, Err(MoneyNotMoved))
    else (WithStatus(b, refundId, MapRefundStatus(reply.status)), Ok(MapRefundStatus(reply.status)))
  }

  function ResolveRefund(b: Book, refundId: nat, r: Resolution): (Book, Result<RefundStatus, RefundError>) {
    if refundId >= |b.refunds| then (b, Err(NotFound))
    else if b.refunds[refundId].status == Succeeded then (b, Err(WrongStatus))
    else (WithStatus(b, refundId, StatusOf(r)), Ok(StatusOf(r)))
  }

  class RefundDesk {
    var payments: map<nat, PaymentRow>
    var refunds: seq<Refund>

    ghost function Contents(): Book
      reads this
    {
      Book(payments, refunds)
    }

    constructor (b: Book)
      ensures Contents() == b
    {
      payments, refunds := b.payments, b.refunds;
    }

    method GetRefundedAmountKobo(paymentId: nat) returns (sum: int)
      ensures sum == RefundedAmount(refunds, paymentId)
    {
      sum := 0;
      for i := 0 to |refunds|
        invariant sum == RefundedAmount(refunds[..i], paymentId)
      {
        assert refunds[..i + 1][..i] == refunds[..i];
        if refunds[i].paymentId == paymentId && refunds[i].status != Failed {
          sum := sum + refunds[i].amountKobo;
        }
      }
      assert refunds[..|refunds|] == refunds;
    }

    /** Inserts a row in the status the column defaults to. */
    method CreateRefundRequest(paymentId: nat, amountKobo: int) returns (refundId: nat)
      modifies this`refunds
      ensures refundId == |old(refunds)| && refunds == old(refunds) + [Refund(paymentId, amountKobo, Requested)]
    {
      refundId := |refunds|;
      refunds := refunds + [Refund(paymentId, amountKobo, Requested)];
    }

    method UpdateStatus(refundId: nat, status: RefundStatus)
      requires refundId < |refunds|
      modifies this`refunds
      ensures Contents() == WithStatus(old(Contents()), refundId, status)
    {
      refunds := refunds[refundId := refunds[refundId].(status := status)];
    }

    method Initiate(paymentId: nat, amountKobo: int, d: Destination) returns (r: Result<RefundStatus, RefundError>)
      modifies this`refunds
      ensures (Contents(), r) == InitiateRefund(old(Contents()), paymentId, amountKobo, d)
    {
      if paymentId !in payments {
        return Err(NotFound);
      }
      if !payments[paymentId].successful {
        return Err(PaymentNotSuccessful);
      }
      var refunded := GetRefundedAmountKobo(paymentId);
      if amountKobo > PaidAmount(payments[paymentId]) - refunded {
        return Err(ExceedsRefundable);
      }
      if amountKobo <= 0 {
        return Err(InvalidAmount);
      }
      var refundId := CreateRefundRequest(paymentId, amountKobo);
      var status := Succeeded;
      if d.Wallet? {
        if !d.credits {
          return Err(MoneyNotMoved);
        }
      } else {
        if d.reply.Throws? {
          return Err(MoneyNotMoved);
        }
        status := MapRefundStatus(d.reply.status);
      }
      UpdateStatus(refundId, status);
      return Ok(status);
    }

    method Decide(refundId: nat, approve: bool) returns (r: Result<RefundStatus, RefundError>)
      modifies this`refunds
      ensures (Contents(), r) == DecideRefund(old(Contents()), refundId, approve)
    {
      if refundId >= |refunds| {
        return Err(NotFound);
      }
      if refunds[refundId].status != Requested {
        return Err(WrongStatus);
      }
      var status := if approve then Approved else Cancelled;
      UpdateStatus(refundId, status);
      return Ok(status);
    }

    method Push(refundId: nat, amountKobo: int, reply: ProviderReply) returns (r: Result<RefundStatus, RefundError>)
      modifies this`refunds
      ensures (Contents(), r) == PushRefund(old(Contents()), refundId, amountKobo, reply)
    {
      if refundId >= |refunds| {
        return Err(NotFound);
      }
      var refund := refunds[refundId];
      if refund.status != Approved {
        return Err(WrongStatus);
      }
      if amountKobo > refund.amountKobo {
        return Err(ExceedsApproved);
      }
      if reply.Throws? {
        return Err(MoneyNotMoved);
      }
      UpdateStatus(refundId, MapRefundStatus(reply.status));
      return Ok(MapRefundStatus(reply.status));
    }

    method Retry(refundId: nat, reply: ProviderReply) returns (r: Result<RefundStatus, RefundError>)
      modifies this`refunds
      ensures (Contents(), r) == RetryRefund(old(Contents()), refundId, reply)
    {
      if refundId >= |refunds| {
        return Err(NotFound);
      }
      if refunds[refundId].status != Failed {
        return Err(WrongStatus);
      }
      if reply.Throws? {
        return Err(MoneyNotMoved);
      }
      UpdateStatus(refundId, MapRefundStatus(reply.status));
      return Ok(MapRefundStatus(reply.status));
    }

    method Resolve(refundId: nat, resolution: Resolution) returns (r: Result<RefundStatus, RefundError>)
      modifies this`refunds
      ensures (Contents(), r) == ResolveRefund(old(Contents()), refundId, resolution)
    {
      if refundId >= |refunds| {
        return Err(NotFound);
      }
      if refunds[refundId].status == Succeeded {
        return Err(WrongStatus);
      }
      UpdateStatus(refundId, StatusOf(resolution));
      return Ok(StatusOf(resolution));
    }
  }

  // ---------------------------------------------------------------- runs

  function Next(b: Book, s: Step): Book {
    match s
    case Initiate(paymentId, amount, d) => InitiateRefund(b, paymentId, amount, d).0
    case Decide(id, approve) => DecideRefund(b, id, approve).0
    case Push(id, amount, reply) => PushRefund(b, id, amount, reply).0
    case Retry(id, reply) => RetryRefund(b, id, reply).0
    case Resolve(id, r) => ResolveRefund(b, id, r).0
    case SettlePayment(paymentId) =>
      if paymentId in b.payments && !b.payments[paymentId].successful then
        var p := b.payments[paymentId];
        b.(payments := b.payments[paymentId := PaymentRow(true, p.expectedKobo, Some(p.expectedKobo))])
      else b
    case LosePayment(paymentId) =>
      if paymentId in b.payments && b.payments[paymentId].paidKobo == Some(b.payments[paymentId].expectedKobo) then
        b.(payments := b.payments[paymentId := b.payments[paymentId].(successful := false)])
      else b
  }

  function Run(b: Book, steps: seq<Step>): Book
    decreases |steps|
  {
    if steps == [] then b else Next(Run(b, steps[..|steps| - 1]), steps[|steps| - 1])
  }

  /** The refund whose status a step sets, if any: the one named, or the one it creates. */
  function Touched(b: Book, s: Step): nat {
    match s
    case Initiate(_, _, _) => |b.refunds|
    case Decide(id, _) => id
    case Push(id, _, _) => id
    case Retry(id, _) => id
    case Resolve(id, _) => id
    case SettlePayment(_) => |b.refunds|
    case LosePayment(_) => |b.refunds|
  }

  /** A step that brings back a failed refund of this payment: a retry the provider answers
      with anything but "failed", or a resolution to anything but "failed". */
  predicate Reopens(b: Book, s: Step, paymentId: nat) {
    match s
    case Retry(id, reply) => IsFailedRefund(b, id, paymentId) && reply.Replied? && reply.status != "failed"
    case Resolve(id, resolution) => IsFailedRefund(b, id, paymentId) && resolution != ToFailed
    case _ => false
  }

  predicate IsFailedRefund(b: Book, id: nat, paymentId: nat) {
    id < |b.refunds| && b.refunds[id].paymentId == paymentId && b.refunds[id].status == Failed
  }

  /** The amount that it brings back. */
  function ReopenedBy(b: Book, s: Step, paymentId: nat): int {
    if Reopens(b, s, paymentId) then b.refunds[s.refundId].amountKobo else 0
  }

  function Reopened(b: Book, steps: seq<Step>, paymentId: nat): int
    decreases |steps|
  {
    if steps == [] then 0
    else
      var init := steps[..|steps| - 1];
      Reopened(b, init, paymentId) + ReopenedBy(Run(b, init), steps[|steps| - 1], paymentId)
  }

  // ---------------------------------------------------------------- what a step keeps

  /** Rows stay, keep their payment and amount, and never leave "succeeded"; what a payment
      is worth does not change. */
  ghost predicate Continues(before: Book, after: Book) {
    && |before.refunds| <= |after.refunds|
    && (forall id :: 0 <= id < |before.refunds| ==>
          && after.refunds[id].paymentId == before.refunds[id].paymentId
          && after.refunds[id].amountKobo == before.refunds[id].amountKobo
          && (before.refunds[id].status == Succeeded ==> after.refunds[id].status == Succeeded))
    && (forall p :: p in before.payments ==>
         p in after.payments && PaidAmount(after.payments[p]) == PaidAmount(before.payments[p]))
  }

  /** A payment that is not successful records nothing, or, having lost its success, what was
      expected. */
  ghost predicate PaidAsExpected(b: Book) {
    forall p :: p in b.payments && !b.payments[p].successful ==>
      b.payments[p].paidKobo in {None, Some(b.payments[p].expectedKobo)}
  }

  lemma StepContinues(b: Book, s: Step)
    requires PaidAsExpected(b)
    ensures Continues(b, Next(b, s)) && PaidAsExpected(Next(b, s))
  {}

  /** The one way from each status to another: a decision takes up a request, a push an
      approval and a retry a failure, and a resolution anything that has not succeeded. */
  lemma StatusesMoveAlong(b: Book, s: Step, id: nat)
    requires id < |b.refunds| && PaidAsExpected(b)
    requires id < |Next(b, s).refunds| && Next(b, s).refunds[id].status != b.refunds[id].status
    ensures
      var from, to := b.refunds[id].status, Next(b, s).refunds[id].status;
      match s
      case Decide(which, approve) => which == id && from == Requested && to == if approve then Approved else Cancelled
      case Push(which, amount, _) => which == id && from == Approved && to in {Succeeded, Failed, Processing}
        && amount <= b.refunds[id].amountKobo
      case Retry(which, _) => which == id && from == Failed && to in {Succeeded, Processing}
      case Resolve(which, _) => which == id && from != Succeeded && to in {Succeeded, Failed, Cancelled}
      case _ => false
  {}

  /** What a provider's reply makes of a refund. */
  ghost predicate Follows(status: RefundStatus, reply: ProviderReply) {
    && reply.Replied?
    && (status == Succeeded <==> reply.status in {"processed", "success"})
    && (status == Failed <==> reply.status == "failed")
    && (status == Processing <==> reply.status !in {"processed", "success", "failed"})
  }

  /** An initiation that is not refused leaves a row: succeeded once the wallet is credited,
      as the provider replied for a card, and requested when either failed. */
  lemma InitiationFollowsTheReply(b: Book, paymentId: nat, amountKobo: int, d: Destination)
    requires paymentId in b.payments && b.payments[paymentId].successful
    requires 0 < amountKobo <= PaidAmount(b.payments[paymentId]) - RefundedAmount(b.refunds, paymentId)
    ensures
      var (after, r) := InitiateRefund(b, paymentId, amountKobo, d);
      && |after.refunds| == |b.refunds| + 1 && after.refunds[..|b.refunds|] == b.refunds
      && var row := after.refunds[|b.refunds|];
      && row.paymentId == paymentId && row.amountKobo == amountKobo
      && match d {
           case Wallet(credits) => row.status == (if credits then Succeeded else Requested) && (r.Ok? <==> credits)
           case Card(reply) =>
             if reply.Throws? then row.status == Requested && r.Err?
               else Follows(row.status, reply) && r == Ok(row.status)
         }
  {}

  /** And one that is refused says why and leaves nothing. */
  lemma InitiationRefused(b: Book, paymentId: nat, amountKobo: int, d: Destination)
    ensures
      var (after, r) := InitiateRefund(b, paymentId, amountKobo, d);
      && (r == Err(NotFound) <==> paymentId !in b.payments)
      && (r == Err(PaymentNotSuccessful) <==> paymentId in b.payments && !b.payments[paymentId].successful)
      && (paymentId in b.payments && b.payments[paymentId].successful ==>
           var left := PaidAmount(b.payments[paymentId]) - RefundedAmount(b.refunds, paymentId);
           && (r == Err(ExceedsRefundable) <==> amountKobo > left)
           && (r == Err(InvalidAmount) <==> amountKobo <= left && amountKobo <= 0))
      && (r.Err? && r.error != MoneyNotMoved ==> after == b)
  {}

  /** Pushing an approved refund within its amount, and retrying a failed one, follow the
      reply; a provider that throws changes nothing. */
  lemma PushAndRetryFollowTheReply(b: Book, id: nat, amountKobo: int, reply: ProviderReply)
    requires id < |b.refunds|
    ensures b.refunds[id].status == Approved && amountKobo <= b.refunds[id].amountKobo ==>
      var after := PushRefund(b, id, amountKobo, reply).0;
      if reply.Throws? then after == b else id < |after.refunds| && Follows(after.refunds[id].status, reply)
    ensures b.refunds[id].status == Failed ==>
      var after := RetryRefund(b, id, reply).0;
      if reply.Throws? then after == b else id < |after.refunds| && Follows(after.refunds[id].status, reply)
  {}

  /** A decision on a requested refund is taken, and a resolution of one that has not
      succeeded sets what it says. */
  lemma DecisionsAndResolutionsTakeEffect(b: Book, id: nat, approve: bool, resolution: Resolution)
    requires id < |b.refunds|
    ensures b.refunds[id].status == Requested ==>
      var (after, r) := DecideRefund(b, id, approve);
      r.Ok? && after.refunds == b.refunds[id := b.refunds[id].(status := if approve then Approved else Cancelled)]
    ensures b.refunds[id].status != Succeeded ==>
      var (after, r) := ResolveRefund(b, id, resolution);
      && r.Ok? && |after.refunds| == |b.refunds|
      && (after.refunds[id].status == Succeeded <==> resolution == ToSucceeded)
      && (after.refunds[id].status == Failed <==> resolution == ToFailed)
      && (after.refunds[id].status == Cancelled <==> resolution == ToCancelled)
  {}

  /** Why the work on an existing refund is refused; a refusal changes nothing. */
  lemma RefundRefusals(b: Book, id: nat, approve: bool, amountKobo: int, reply: ProviderReply, resolution: Resolution)
    ensures
      && var (after, r) := DecideRefund(b, id, approve);
      && (r == Err(NotFound) <==> id >= |b.refunds|)
      && (r == Err(WrongStatus) <==> id < |b.refunds| && b.refunds[id].status != Requested)
      && (r.Err? ==> after == b)
    ensures
      && var (after, r) := PushRefund(b, id, amountKobo, reply);
      && (r == Err(NotFound) <==> id >= |b.refunds|)
      && (r == Err(WrongStatus) <==> id < |b.refunds| && b.refunds[id].status != Approved)
      && (r == Err(ExceedsApproved) <==>
           id < |b.refunds| && b.refunds[id].status == Approved && amountKobo > b.refunds[id].amountKobo)
      && (r.Err? ==> after == b)
    ensures
      && var (after, r) := RetryRefund(b, id, reply);
      && (r == Err(NotFound) <==> id >= |b.refunds|)
      && (r == Err(WrongStatus) <==> id < |b.refunds| && b.refunds[id].status != Failed)
      && (r.Err? ==> after == b)
    ensures
      && var (after, r) := ResolveRefund(b, id, resolution);
      && (r == Err(NotFound) <==> id >= |b.refunds|)
      && (r == Err(WrongStatus) <==> id < |b.refunds| && b.refunds[id].status == Succeeded)
      && (r.Err? ==> after == b)
  {}

  /** A payment that settles has been paid what was expected; one that loses its success keeps
      what it recorded. Neither touches another payment or any refund. */
  lemma SettledAndLost(b: Book, paymentId: nat)
    requires paymentId in b.payments
    ensures
      var p := b.payments[paymentId];
      && (!p.successful ==>
           Next(b, SettlePayment(paymentId)) ==
           b.(payments := b.payments[paymentId := PaymentRow(true, p.expectedKobo, Some(p.expectedKobo))]))
      && (p.successful ==> Next(b, SettlePayment(paymentId)) == b)
      && (p.paidKobo == Some(p.expectedKobo) ==>
           Next(b, LosePayment(paymentId)) ==
           b.(payments := b.payments[paymentId := PaymentRow(false, p.expectedKobo, p.paidKobo)]))
  {}

  predicate SaysSucceeded(reply: ProviderReply) {
    reply.Replied? && reply.status in {"processed", "success"}
  }

  /** A refund succeeds only once money moved: credited to the wallet, confirmed by the
      provider, or vouched for by hand. */
  lemma SuccessNeedsMoney(b: Book, s: Step, id: nat)
    requires PaidAsExpected(b) && id < |Next(b, s).refunds| && Next(b, s).refunds[id].status == Succeeded
    requires id < |b.refunds| ==> b.refunds[id].status != Succeeded
    ensures
      match s
      case Initiate(_, _, d) => id == |b.refunds| && (d == Wallet(true) || (d.Card? && SaysSucceeded(d.reply)))
      case Push(which, _, reply) => which == id && SaysSucceeded(reply)
      case Retry(which, reply) => which == id && SaysSucceeded(reply)
      case Resolve(which, r) => which == id && r == ToSucceeded
      case _ => false
  {}

  lemma {:induction false} RefundedOfAppend(refunds: seq<Refund>, r: Refund, paymentId: nat)
    ensures RefundedAmount(refunds + [r], paymentId)
         == RefundedAmount(refunds, paymentId) +
           (if r.paymentId == paymentId && r.status != Failed then r.amountKobo else 0)
  {
    assert (refunds + [r])[..|refunds|] == refunds;
  }

  function Counted(r: Refund, paymentId: nat): int {
    if r.paymentId == paymentId && r.status != Failed then r.amountKobo else 0
  }

  lemma {:induction false} RefundedOfUpdate(refunds: seq<Refund>, id: nat, r: Refund, paymentId: nat)
    requires id < |refunds|
    ensures RefundedAmount(refunds[id := r], paymentId)
         == RefundedAmount(refunds, paymentId) - Counted(refunds[id], paymentId) + Counted(r, paymentId)
    decreases |refunds|
  {
    var n := |refunds| - 1;
    if id == n {
      assert refunds[id := r][..n] == refunds[..n];
    } else {
      assert refunds[id := r][..n] == refunds[..n][id := r];
      RefundedOfUpdate(refunds[..n], id, r, paymentId);
    }
  }

  ghost predicate AmountsPositive(b: Book) {
    forall id :: 0 <= id < |b.refunds| ==> b.refunds[id].amountKobo > 0
  }

  /** The steps that work on an existing row change its status or nothing. */
  lemma StatusStep(b: Book, s: Step) returns (status: RefundStatus)
    requires !s.Initiate? && !s.SettlePayment? && !s.LosePayment?
    ensures Next(b, s) == b || (Touched(b, s) < |b.refunds| && Next(b, s) == WithStatus(b, Touched(b, s), status))
  {
    status := if Touched(b, s) < |Next(b, s).refunds| then Next(b, s).refunds[Touched(b, s)].status else Requested;
  }

  /** Initiating appends one row, whose amount fits what is left of the payment. */
  lemma InitiateStep(b: Book, paymentId: nat, amountKobo: int, d: Destination) returns (status: RefundStatus)
    ensures
      var after := InitiateRefund(b, paymentId, amountKobo, d).0;
      || after == b
      || (&& after == b.(refunds := b.refunds + [Refund(paymentId, amountKobo, status)])
          && amountKobo > 0 && paymentId in b.payments
          && RefundedAmount(b.refunds, paymentId) + amountKobo <= PaidAmount(b.payments[paymentId]))
  {
    var after := InitiateRefund(b, paymentId, amountKobo, d).0;
    status := if |after.refunds| > |b.refunds| then after.refunds[|b.refunds|].status else Requested;
  }

  /** How a step moves the refunded total: by what it initiates, within what is left, by what
      it reopens, and down by what it lets fail. */
  lemma StepChangesTotal(b: Book, s: Step, paymentId: nat)
    requires AmountsPositive(b) && paymentId in b.payments
    ensures AmountsPositive(Next(b, s))
    ensures
      var before, after := RefundedAmount(b.refunds, paymentId), RefundedAmount(Next(b, s).refunds, paymentId);
      if s.Initiate? then after <= before || after <= PaidAmount(b.payments[paymentId])
      else
        var reopened := ReopenedBy(b, s, paymentId);
        after <= before + reopened && (reopened > 0 ==> after == before + reopened)
  {
    if s.Initiate? {
      var status := InitiateStep(b, s.paymentId, s.amountKobo, s.destination);
      RefundedOfAppend(b.refunds, Refund(s.paymentId, s.amountKobo, status), paymentId);
    } else if !s.SettlePayment? && !s.LosePayment? {
      var status := StatusStep(b, s);
      var id := Touched(b, s);
      if Next(b, s) != b {
        RefundedOfUpdate(b.refunds, id, Next(b, s).refunds[id], paymentId);
      }
    }
  }

  lemma RefundedIsNonNegative(b: Book, s: Step, paymentId: nat)
    requires AmountsPositive(b)
    ensures ReopenedBy(b, s, paymentId) >= 0
  {}

  // ---------------------------------------------------------------- over every run

  ghost predicate WellFormed(b: Book) {
    AmountsPositive(b) && PaidAsExpected(b)
  }

  lemma {:induction false} RunContinues(b: Book, steps: seq<Step>)
    requires WellFormed(b)
    ensures WellFormed(Run(b, steps)) && Continues(b, Run(b, steps))
    decreases |steps|
  {
    if steps != [] {
      var init, s := steps[..|steps| - 1], steps[|steps| - 1];
      RunContinues(b, init);
      StepContinues(Run(b, init), s);
      StepKeepsAmounts(Run(b, init), s);
    }
  }

  lemma StepKeepsAmounts(b: Book, s: Step)
    requires AmountsPositive(b)
    ensures AmountsPositive(Next(b, s))
  {}

  /** Over every run, what is refunded or under way never exceeds what was paid plus the
      refunds that were brought back from "failed". */
  lemma {:induction false} RefundsAreCovered(b: Book, steps: seq<Step>, paymentId: nat)
    requires WellFormed(b) && paymentId in b.payments
    requires RefundedAmount(b.refunds, paymentId) <= PaidAmount(b.payments[paymentId])
    ensures
      var after := Run(b, steps);
      && Reopened(b, steps, paymentId) >= 0
      && RefundedAmount(after.refunds, paymentId) <= PaidAmount(b.payments[paymentId]) + Reopened(b, steps, paymentId)
    decreases |steps|
  {
    if steps != [] {
      var init, s := steps[..|steps| - 1], steps[|steps| - 1];
      var before := Run(b, init);
      RefundsAreCovered(b, init, paymentId);
      RunContinues(b, init);
      StepContinues(before, s);
      StepChangesTotal(before, s, paymentId);
      RefundedIsNonNegative(before, s, paymentId);
    }
  }

  /** So as long as no failed refund is brought back, a payment is never over-refunded. */
  lemma NeverOverRefunded(b: Book, steps: seq<Step>, paymentId: nat)
    requires WellFormed(b) && paymentId in b.payments
    requires RefundedAmount(b.refunds, paymentId) <= PaidAmount(b.payments[paymentId])
    requires Reopened(b, steps, paymentId) == 0
    ensures RefundedAmount(Run(b, steps).refunds, paymentId) <= PaidAmount(b.payments[paymentId])
  {
    RefundsAreCovered(b, steps, paymentId);
  }

  /** What is left to refund, as an initiation sees it. */
  function LeftOf(b: Book, paymentId: nat): int
    requires paymentId in b.payments
  {
    PaidAmount(b.payments[paymentId]) - RefundedAmount(b.refunds, paymentId)
  }

  predicate OverRefunded(b: Book, paymentId: nat) {
    paymentId in b.payments && LeftOf(b, paymentId) < 0
  }

  /** A step that brings back a failed refund of more than is left. */
  predicate ReopensTooMuch(b: Book, s: Step, paymentId: nat) {
    paymentId in b.payments && Reopens(b, s, paymentId) && b.refunds[s.refundId].amountKobo > LeftOf(b, paymentId)
  }

  /** Neither a retry nor a resolution looks at the balance. A step takes a payment over its
      paid amount exactly when it brings back a failed refund that no longer fits. */
  lemma WhatOverRefunds(b: Book, s: Step, paymentId: nat)
    requires WellFormed(b) && paymentId in b.payments && !OverRefunded(b, paymentId)
    ensures OverRefunded(Next(b, s), paymentId) <==> ReopensTooMuch(b, s, paymentId)
  {
    StepContinues(b, s);
    StepChangesTotal(b, s, paymentId);
  }

  /** Here and at every earlier point of the run the payment is not over-refunded. */
  ghost predicate AlwaysCovered(b: Book, steps: seq<Step>, paymentId: nat)
    decreases |steps|
  {
    !OverRefunded(Run(b, steps), paymentId) && (steps != [] ==> AlwaysCovered(b, steps[..|steps| - 1], paymentId))
  }

  ghost predicate NeverReopensTooMuch(b: Book, steps: seq<Step>, paymentId: nat)
    decreases |steps|
  {
    steps != [] ==>
      && NeverReopensTooMuch(b, steps[..|steps| - 1], paymentId)
      && !ReopensTooMuch(Run(b, steps[..|steps| - 1]), steps[|steps| - 1], paymentId)
  }

  /** Over runs: a payment is never over-refunded if and only if no step brings back a failed
      refund that does not fit at that moment. */
  lemma {:induction false} RunsThatOverRefund(b: Book, steps: seq<Step>, paymentId: nat)
    requires WellFormed(b) && paymentId in b.payments && !OverRefunded(b, paymentId)
    ensures AlwaysCovered(b, steps, paymentId) <==> NeverReopensTooMuch(b, steps, paymentId)
    decreases |steps|
  {
    if steps != [] {
      var init := steps[..|steps| - 1];
      RunsThatOverRefund(b, init, paymentId);
      RunContinues(b, init);
      if AlwaysCovered(b, init, paymentId) {
        WhatOverRefunds(Run(b, init), steps[|steps| - 1], paymentId);
      }
    }
  }

  lemma TwoRefundsAddUp(amountKobo: int)
    ensures
      var r := Refund(0, amountKobo, Succeeded);
      RefundedAmount([r, r], 0) == 2 * amountKobo
  {
    var r := Refund(0, amountKobo, Succeeded);
    assert [r] + [r] == [r, r] && [] + [r] == [r];
    RefundedOfAppend([r], r, 0);
    RefundedOfAppend([], r, 0);
  }

  lemma OneFailedRefund(amountKobo: int)
    ensures RefundedAmount([Refund(0, amountKobo, Failed)], 0) == 0
  {
    assert [] + [Refund(0, amountKobo, Failed)] == [Refund(0, amountKobo, Failed)];
    RefundedOfAppend([], Refund(0, amountKobo, Failed), 0);
  }

  /** And it happens: a failed card refund, a full wallet refund in its place, then a retry. */
  lemma OverRefundIsReachable()
    ensures
      var b := Book(map[0 := PaymentRow(true, 100, Some(100))], []);
      var steps := [Initiate(0, 100, Card(Replied("failed"))), Initiate(0, 100, Wallet(true)),
        Retry(0, Replied("processed"))];
      && RefundedAmount(Run(b, steps).refunds, 0) == 200 && OverRefunded(Run(b, steps), 0)
      && Reopened(b, steps, 0) == 100
  {
    var b := Book(map[0 := PaymentRow(true, 100, Some(100))], []);
    var s1, s2, s3 := Initiate(0, 100, Card(Replied("failed"))), Initiate(0, 100, Wallet(true)),
      Retry(0, Replied("processed"));
    assert [s1, s2, s3][..2] == [s1, s2] && [s1, s2][..1] == [s1] && [s1][..0] == [];
    var b1 := b.(refunds := [Refund(0, 100, Failed)]);
    assert Run(b, [s1]) == b1;
    OneFailedRefund(100);
    var b2 := b.(refunds := [Refund(0, 100, Failed), Refund(0, 100, Succeeded)]);
    assert Next(b1, s2) == b2;
    assert Run(b, [s1, s2]) == b2;
    var b3 := b.(refunds := [Refund(0, 100, Succeeded), Refund(0, 100, Succeeded)]);
    assert Next(b2, s3) == b3;
    TwoRefundsAddUp(100);
    assert Run(b, []) == b && Reopened(b, [], 0) == 0;
    assert Reopened(b, [s1], 0) == Reopened(b, [], 0) + ReopenedBy(b, s1, 0);
    assert Reopened(b, [s1, s2], 0) == Reopened(b, [s1], 0) + ReopenedBy(b1, s2, 0);
    assert Reopened(b, [s1, s2, s3], 0) == Reopened(b, [s1, s2], 0) + ReopenedBy(b2, s3, 0);
  }

  // ---------------------------------------------------------------- what reaches the wallet

  /** The amount that an initiation credits to the wallet. */
  function CreditedBy(b: Book, s: Step, paymentId: nat): int {
    if s.Initiate? && s.paymentId == paymentId && s.destination == Wallet(true)
       && InitiateRefund(b, s.paymentId, s.amountKobo, s.destination).1.Ok?
    then s.amountKobo else 0
  }

  function CreditedToWallet(b: Book, steps: seq<Step>, paymentId: nat): int
    decreases |steps|
  {
    if steps == [] then 0
    else
      var init := steps[..|steps| - 1];
      CreditedToWallet(b, init, paymentId) + CreditedBy(Run(b, init), steps[|steps| - 1], paymentId)
  }

  function SucceededAmount(refunds: seq<Refund>, paymentId: nat): int {
    if refunds == [] then 0
    else
      var last := refunds[|refunds| - 1];
      SucceededAmount(refunds[..|refunds| - 1], paymentId) + SucceededIn(last, paymentId)
  }

  function SucceededIn(r: Refund, paymentId: nat): int {
    if r.paymentId == paymentId && r.status == Succeeded then r.amountKobo else 0
  }

  lemma SucceededOfAppend(refunds: seq<Refund>, r: Refund, paymentId: nat)
    ensures SucceededAmount(refunds + [r], paymentId) == SucceededAmount(refunds, paymentId) + SucceededIn(r, paymentId)
  {
    assert (refunds + [r])[..|refunds|] == refunds;
  }

  lemma {:induction false} SucceededOfUpdate(refunds: seq<Refund>, id: nat, r: Refund, paymentId: nat)
    requires id < |refunds|
    ensures SucceededAmount(refunds[id := r], paymentId) ==
      SucceededAmount(refunds, paymentId) - SucceededIn(refunds[id], paymentId) + SucceededIn(r, paymentId)
    decreases |refunds|
  {
    var n := |refunds| - 1;
    if id < n {
      assert refunds[id := r][..n] == refunds[..n][id := r];
      SucceededOfUpdate(refunds[..n], id, r, paymentId);
    } else {
      assert refunds[id := r][..n] == refunds[..n];
    }
  }

  lemma {:induction false} SucceededIsRefunded(refunds: seq<Refund>, paymentId: nat)
    requires forall id :: 0 <= id < |refunds| ==> refunds[id].amountKobo > 0
    ensures SucceededAmount(refunds, paymentId) <= RefundedAmount(refunds, paymentId)
    decreases |refunds|
  {
    if refunds != [] {
      SucceededIsRefunded(refunds[..|refunds| - 1], paymentId);
    }
  }

  lemma StepKeepsWhatSucceeded(b: Book, s: Step, paymentId: nat)
    requires WellFormed(b)
    ensures SucceededAmount(Next(b, s).refunds, paymentId) >= SucceededAmount(b.refunds, paymentId) +
      CreditedBy(b, s, paymentId)
  {
    StepContinues(b, s);
    if s.Initiate? {
      var status := InitiateStep(b, s.paymentId, s.amountKobo, s.destination);
      SucceededOfAppend(b.refunds, Refund(s.paymentId, s.amountKobo, status), paymentId);
      if Next(b, s) != b {
        assert Next(b, s).refunds[|b.refunds|] == Refund(s.paymentId, s.amountKobo, status);
      }
    } else if !s.SettlePayment? && !s.LosePayment? {
      var status := StatusStep(b, s);
      if Next(b, s) != b {
        SucceededOfUpdate(b.refunds, Touched(b, s), Next(b, s).refunds[Touched(b, s)], paymentId);
      }
    }
  }

  lemma {:induction false} RunKeepsWhatSucceeded(b: Book, steps: seq<Step>, paymentId: nat)
    requires WellFormed(b)
    ensures SucceededAmount(Run(b, steps).refunds, paymentId)
         >= SucceededAmount(b.refunds, paymentId) + CreditedToWallet(b, steps, paymentId)
    decreases |steps|
  {
    if steps != [] {
      var init := steps[..|steps| - 1];
      RunKeepsWhatSucceeded(b, init, paymentId);
      RunContinues(b, init);
      StepKeepsWhatSucceeded(Run(b, init), steps[|steps| - 1], paymentId);
    }
  }

  /** So the wallet never gets more for a payment than was paid, beyond what was brought back
      from "failed"; and what had succeeded before counts against it. */
  lemma WalletGetsAtMostWhatWasPaid(b: Book, steps: seq<Step>, paymentId: nat)
    requires WellFormed(b) && paymentId in b.payments
    requires RefundedAmount(b.refunds, paymentId) <= PaidAmount(b.payments[paymentId])
    ensures SucceededAmount(b.refunds, paymentId) + CreditedToWallet(b, steps, paymentId)
         <= PaidAmount(b.payments[paymentId]) + Reopened(b, steps, paymentId)
  {
    RunKeepsWhatSucceeded(b, steps, paymentId);
    RunContinues(b, steps);
    SucceededIsRefunded(Run(b, steps).refunds, paymentId);
    RefundsAreCovered(b, steps, paymentId);
  }

  // ---------------------------------------------------------------- cancelled refunds

  /** What cancelled refunds take up of a payment. */
  function CancelledAmount(refunds: seq<Refund>, paymentId: nat): int {
    if refunds == [] then 0
    else
      var last := refunds[|refunds| - 1];
      CancelledAmount(refunds[..|refunds| - 1], paymentId)
      + (if last.paymentId == paymentId && last.status == Cancelled then last.amountKobo else 0)
  }

  /** What is refunded or under way in earnest, as the payment's details show it. */
  function LiveAmount(refunds: seq<Refund>, paymentId: nat): int {
    if refunds == [] then 0
    else
      var last := refunds[|refunds| - 1];
      LiveAmount(refunds[..|refunds| - 1], paymentId)
      + (if last.paymentId == paymentId && last.status !in {Failed, Cancelled} then last.amountKobo else 0)
  }

  lemma {:induction false} RefundedIsLiveAndCancelled(refunds: seq<Refund>, paymentId: nat)
    ensures RefundedAmount(refunds, paymentId) == LiveAmount(refunds, paymentId) + CancelledAmount(refunds, paymentId)
    decreases |refunds|
  {
    if refunds != [] {
      RefundedIsLiveAndCancelled(refunds[..|refunds| - 1], paymentId);
    }
  }

  /** A refund that the details show room for is refused as exceeding what is left exactly
      when it falls into the part that cancelled refunds still occupy. */
  lemma RefusedForCancelledRefunds(b: Book, paymentId: nat, amountKobo: int, d: Destination)
    requires paymentId in b.payments && b.payments[paymentId].successful
    requires amountKobo <= PaidAmount(b.payments[paymentId]) - LiveAmount(b.refunds, paymentId)
    ensures InitiateRefund(b, paymentId, amountKobo, d).1 == Err(ExceedsRefundable) <==>
      amountKobo > PaidAmount(b.payments[paymentId])
                   - LiveAmount(b.refunds, paymentId) - CancelledAmount(b.refunds, paymentId)
  {
    RefundedIsLiveAndCancelled(b.refunds, paymentId);
  }
}
