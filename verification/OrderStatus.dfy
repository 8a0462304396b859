/** The order status machine (src/domain/order-status.ts). */
module OrderStatus {

  datatype Status =
    | PendingPayment
    | Paid
    | Ready
    | OutForDelivery
    | Delivered
    | AdministrativelyCompleted
    | Cancelled
    | Expired
    | Refunded

  function AllowedTransitions(from: Status): seq<Status> {
    match from
    case PendingPayment => [Paid, Expired, Cancelled]
    case Paid => [Ready, Cancelled, Refunded]
    case Ready => [OutForDelivery, Cancelled]
    case OutForDelivery => [Delivered, Cancelled]
    case Delivered => [AdministrativelyCompleted, Refunded]
    case AdministrativelyCompleted => [Refunded]
    case Cancelled => []
    case Expired => []
    case Refunded => []
  }

  predicate CanTransition(from: Status, to: Status) {
    to in AllowedTransitions(from)
  }

  /** A run of allowed transitions; a single status is a run of none. */
  ghost predicate IsRun(run: seq<Status>) {
    run != [] && forall i :: 0 <= i < |run| - 1 ==> CanTransition(run[i], run[i + 1])
  }

  /** The transitions still possible at most; every step lowers it. */
  function StepsLeft(s: Status): nat {
    match s
    case PendingPayment => 6
    case Paid => 5
    case Ready => 4
    case OutForDelivery => 3
    case Delivered => 2
    case AdministrativelyCompleted => 1
    case _ => 0
  }

  lemma {:induction false} RunIsBounded(run: seq<Status>)
    requires IsRun(run)
    ensures |run| - 1 <= StepsLeft(run[0])
    decreases |run|
  {
    if |run| > 1 {
      assert CanTransition(run[0], run[1]);
      RunIsBounded(run[1..]);
    }
  }

  /** No order changes status more than six times, and one can. */
  lemma AtMostSixSteps(run: seq<Status>)
    requires IsRun(run) && run[0] == PendingPayment
    ensures |run| - 1 <= 6
    ensures IsRun([PendingPayment, Paid, Ready, OutForDelivery, Delivered, AdministrativelyCompleted, Refunded])
  {
    RunIsBounded(run);
  }

  /** The one way to delivery. */
  const DELIVERY_PATH := [PendingPayment, Paid, Ready, OutForDelivery, Delivered]

  /** A status on the way to delivery has a single predecessor, so a run that gets there has
      taken every step of the path, in order and without detour. */
  lemma {:induction false} RunFollowsDeliveryPath(run: seq<Status>, k: nat, i: nat)
    requires IsRun(run) && run[0] == PendingPayment
    requires k < |run| && i < |DELIVERY_PATH| && run[k] == DELIVERY_PATH[i]
    ensures k == i && run[..k + 1] == DELIVERY_PATH[..i + 1]
    decreases k
  {
    if k > 0 {
      assert CanTransition(run[k - 1], run[k]);
      assert i > 0 && run[k - 1] == DELIVERY_PATH[i - 1];
      RunFollowsDeliveryPath(run, k - 1, i - 1);
      assert run[..k + 1] == run[..k] + [run[k]];
    } else {
      assert i == 0;
    }
  }

  /** A delivered order was paid, then ready, then out for delivery, and nothing else. */
  lemma DeliveredWentThroughEveryStage(run: seq<Status>)
    requires IsRun(run) && run[0] == PendingPayment && Delivered in run
    ensures |run| >= 5 && run[..5] == DELIVERY_PATH
  {
    var k :| 0 <= k < |run| && run[k] == Delivered;
    RunFollowsDeliveryPath(run, k, 4);
  }

  /** A refunded order was paid earlier. */
  lemma RefundedWasPaid(run: seq<Status>, k: nat)
    requires IsRun(run) && run[0] == PendingPayment
    requires k < |run| && run[k] == Refunded
    ensures 2 <= k && run[1] == Paid
  {
    assert k > 0;
    assert CanTransition(run[k - 1], run[k]);
    if run[k - 1] == AdministrativelyCompleted {
      assert k > 1;
      assert CanTransition(run[k - 2], run[k - 1]);
      RunFollowsDeliveryPath(run, k - 2, 4);
      assert run[1] == run[..k - 1][1];
    } else {
      RunFollowsDeliveryPath(run, k - 1, if run[k - 1] == Paid then 1 else 4);
      assert run[1] == run[..k][1];
    }
  }
}
