/** Hand-off codes: the four digits a customer reads out to the rider. A code is given out
    when an order is created (src/modules/orders/orders.repository.ts), checked again when
    the rider picks the order up and looked up when the rider delivers it
    (src/modules/riders/riders.repository.ts). An order is a row; a run mixes creations,
    status transitions, pick-ups and the recovery of expired orders that turn out paid. */
module HandoffCodes {
  import opened Wrappers
  import opened OrderStatus

  // ---------------------------------------------------------------- four digits

  /** What a random draw below ten thousand can be. */
  type Draw = n: nat | n < 10000

  function Digit(n: nat): char
    requires n < 10
  {
    '0' + n as char
  }

  function Decimal(n: nat): string {
    if n < 10 then [Digit(n)] else Decimal(n / 10) + [Digit(n % 10)]
  }

  function PadStart(s: string, width: nat, fill: char): string
    decreases width - |s|
  {
    if |s| >= width then s else PadStart([fill] + s, width, fill)
  }

  function CodeOf(n: Draw): string {
    PadStart(Decimal(n), 4, '0')
  }

  predicate IsNumber(s: string) {
    forall i :: 0 <= i < |s| ==> '0' <= s[i] <= '9'
  }

  function ValueOf(s: string): nat
    requires IsNumber(s)
  {
    if s == [] then 0 else 10 * ValueOf(s[..|s| - 1]) + (s[|s| - 1] as nat - '0' as nat)
  }

  lemma {:induction false} DecimalReadsBack(n: nat)
    ensures IsNumber(Decimal(n)) && ValueOf(Decimal(n)) == n
  {
    if n >= 10 {
      DecimalReadsBack(n / 10);
      assert Decimal(n)[..|Decimal(n)| - 1] == Decimal(n / 10);
    } else {
      assert Decimal(n)[..0] == [];
    }
  }

  lemma {:induction false} DecimalIsShort(n: nat, k: nat)
    requires k > 0 && n < Power10(k)
    ensures |Decimal(n)| <= k
    decreases k
  {
    if n >= 10 {
      assert Power10(1) == 10 * Power10(0) == 10;
      assert k != 1 && Power10(k) == 10 * Power10(k - 1);
      DecimalIsShort(n / 10, k - 1);
    }
  }

  function Power10(k: nat): nat {
    if k == 0 then 1 else 10 * Power10(k - 1)
  }

  lemma {:induction false} LeadingZero(s: string)
    requires IsNumber(s)
    ensures IsNumber(['0'] + s) && ValueOf(['0'] + s) == ValueOf(s)
    decreases |s|
  {
    if s != [] {
      LeadingZero(s[..|s| - 1]);
      assert (['0'] + s)[..|s|] == ['0'] + s[..|s| - 1];
    } else {
      assert (['0'] + s)[..0] == [];
    }
  }

  lemma {:induction false} PaddingKeepsValue(s: string, width: nat)
    requires IsNumber(s) && |s| <= width
    ensures
      var padded := PadStart(s, width, '0');
      |padded| == width && IsNumber(padded) && ValueOf(padded) == ValueOf(s)
    decreases width - |s|
  {
    if |s| < width {
      LeadingZero(s);
      PaddingKeepsValue(['0'] + s, width);
    }
  }

  /** Every draw yields four digits that read back as the draw, so no two draws collide. */
  lemma CodeReadsBack(n: Draw)
    ensures |CodeOf(n)| == 4 && IsNumber(CodeOf(n)) && ValueOf(CodeOf(n)) == n
  {
    DecimalReadsBack(n);
    assert Power10(4) == 10000;
    DecimalIsShort(n, 4);
    PaddingKeepsValue(Decimal(n), 4);
  }

  // ---------------------------------------------------------------- the rows

  datatype Order = Order(status: Status, code: Option<string>, room: Option<string>)

  type Orders = map<nat, Order>

  datatype HandoffError = NoCodeFree

  /** The statuses in which a code is reserved. */
  predicate Live(s: Status) {
    s in {PendingPayment, Paid, Ready, OutForDelivery}
  }

  function LiveIds(orders: Orders): set<nat> {
    set o | o in orders && Live(orders[o].status)
  }

  /** The orders a rider is out with, `load` being all the orders of the rider's batches. */
  function Carried(orders: Orders, load: set<nat>): set<nat> {
    set o | o in orders && o in load && orders[o].status == OutForDelivery
  }

  /** Another order among these has the code. */
  predicate Clashes(orders: Orders, among: set<nat>, id: nat, code: string) {
    exists o :: o in among && o in orders && o != id && orders[o].code == Some(code)
  }

  /** The first drawn code that nobody else among these has. */
  function FirstFree(orders: Orders, among: set<nat>, id: nat, draws: seq<Draw>): Option<string> {
    if draws == [] then None
    else if !Clashes(orders, among, id, CodeOf(draws[0])) then Some(CodeOf(draws[0]))
    else FirstFree(orders, among, id, draws[1..])
  }

  lemma {:induction false} FirstFreeIsFirst(orders: Orders, among: set<nat>, id: nat, draws: seq<Draw>)
    ensures FirstFree(orders, among, id, draws).None? <==>
      forall i :: 0 <= i < |draws| ==> Clashes(orders, among, id, CodeOf(draws[i]))
    ensures FirstFree(orders, among, id, draws).Some? ==>
      exists i :: 0 <= i < |draws|
        && FirstFree(orders, among, id, draws).value == CodeOf(draws[i])
        && !Clashes(orders, among, id, CodeOf(draws[i]))
        && forall j :: 0 <= j < i ==> Clashes(orders, among, id, CodeOf(draws[j]))
  {
    if draws != [] && Clashes(orders, among, id, CodeOf(draws[0])) {
      var rest := draws[1..];
      FirstFreeIsFirst(orders, among, id, rest);
      if FirstFree(orders, among, id, rest).Some? {
        var i :| 0 <= i < |rest|
          && FirstFree(orders, among, id, rest).value == CodeOf(rest[i])
          && !Clashes(orders, among, id, CodeOf(rest[i]))
          && forall j :: 0 <= j < i ==> Clashes(orders, among, id, CodeOf(rest[j]));
        assert draws[i + 1] == rest[i];
        assert forall j :: 1 <= j < i + 1 ==> draws[j] == rest[j - 1];
      } else {
        assert forall i :: 1 <= i < |draws| ==> draws[i] == rest[i - 1];
      }
    }
  }

  // ---------------------------------------------------------------- the operations

  function EnsureMetadata(orders: Orders, id: nat, room: Option<string>, draws: seq<Draw>)
    : (Orders, Result<string, HandoffError>)
  {
    if id !in orders then (orders, Err(NoCodeFree))
    else if orders[id].code.Some? then (orders[id := orders[id].(room := room)], Ok(orders[id].code.value))
    else
      match FirstFree(orders, LiveIds(orders), id, draws)
      case Some(code) => (orders[id := orders[id].(room := room, code := Some(code))], Ok(code))
      case None => (orders, Err(NoCodeFree))
  }

  /** Creating an order, or finding the one an earlier request with the same idempotency key
      created; `initial` is the status a new row gets. Without a code nothing is kept. */
  function Create(orders: Orders, id: nat, initial: Status, room: Option<string>, draws: seq<Draw>)
    : (Orders, Result<string, HandoffError>)
  {
    var placed := if id in orders then orders else orders[id := Order(initial, None, None)];
    var (after, r) := EnsureMetadata(placed, id, room, draws);
    if r.Ok? then (after, r) else (orders, r)
  }

  /** The check at pick-up: a code that clashes with nothing else the rider is out with is
      kept, any other is replaced. */
  function AssignAtPickup(orders: Orders, load: set<nat>, id: nat, draws: seq<Draw>)
    : (Orders, Result<string, HandoffError>)
  {
    if id !in orders || orders[id].status != OutForDelivery then (orders, Err(NoCodeFree))
    else if orders[id].code.Some? && !Clashes(orders, Carried(orders, load), id, orders[id].code.value) then
      (orders, Ok(orders[id].code.value))
    else
      match FirstFree(orders, Carried(orders, load), id, draws)
      case Some(code) => (orders[id := orders[id].(code := Some(code))], Ok(code))
      case None => (orders, Err(NoCodeFree))
  }

  function Transition(orders: Orders, id: nat, to: Status): Orders {
    if id in orders && CanTransition(orders[id].status, to) then orders[id := orders[id].(status := to)] else orders
  }

  /** An expired order whose payment is confirmed after all becomes paid. */
  function Recover(orders: Orders, id: nat): Orders {
    if id in orders && orders[id].status == Expired then orders[id := orders[id].(status := Paid)] else orders
  }

  /** The orders a rider's code can mean. */
  function Matches(orders: Orders, load: set<nat>, code: string): set<nat> {
    set o | o in Carried(orders, load) && orders[o].code == Some(code)
  }

  class OrdersTable {
    var orders: Orders

    constructor ()
      ensures orders == map[]
    {
      orders := map[];
    }

    method EnsureOrderDeliveryMetadata(id: nat, room: Option<string>, draws: seq<Draw>)
        returns (r: Result<string, HandoffError>)
      requires |draws| == 10
      modifies this
      ensures (orders, r) == EnsureMetadata(old(orders), id, room, draws)
    {
      if id in orders && orders[id].code.Some? {
        orders := orders[id := orders[id].(room := room)];
        return Ok(orders[id].code.value);
      }
      var attempt := 0;
      while attempt < 10
        invariant 0 <= attempt <= 10 && orders == old(orders)
        invariant FirstFree(orders, LiveIds(orders), id, draws) ==
          FirstFree(orders, LiveIds(orders), id, draws[attempt..])
      {
        var code := CodeOf(draws[attempt]);
        assert draws[attempt..][1..] == draws[attempt + 1..];
        if id in orders && !Clashes(orders, LiveIds(orders), id, code) {
          orders := orders[id := orders[id].(room := room, code := Some(code))];
          return Ok(code);
        }
        if id !in orders { return Err(NoCodeFree); }
        attempt := attempt + 1;
      }
      return Err(NoCodeFree);
    }

    /** The transaction around an insertion: undone when no code was found. */
    method CreateOrder(id: nat, initial: Status, room: Option<string>, draws: seq<Draw>)
        returns (r: Result<string, HandoffError>)
      requires |draws| == 10
      modifies this
      ensures (orders, r) == Create(old(orders), id, initial, room, draws)
    {
      var saved := orders;
      if id !in orders {
        orders := orders[id := Order(initial, None, None)];
      }
      r := EnsureOrderDeliveryMetadata(id, room, draws);
      if r.Err? {
        orders := saved;
      }
    }

    method AssignDeliveryCode(load: set<nat>, id: nat, draws: seq<Draw>) returns (r: Result<string, HandoffError>)
      requires |draws| == 10
      modifies this
      ensures (orders, r) == AssignAtPickup(old(orders), load, id, draws)
    {
      if id !in orders || orders[id].status != OutForDelivery {
        return Err(NoCodeFree);
      }
      if orders[id].code.Some? && !Clashes(orders, Carried(orders, load), id, orders[id].code.value) {
        return Ok(orders[id].code.value);
      }
      var attempt := 0;
      while attempt < 10
        invariant 0 <= attempt <= 10 && orders == old(orders)
        invariant FirstFree(orders, Carried(orders, load), id, draws) ==
          FirstFree(orders, Carried(orders, load), id, draws[attempt..])
      {
        var code := CodeOf(draws[attempt]);
        assert draws[attempt..][1..] == draws[attempt + 1..];
        if !Clashes(orders, Carried(orders, load), id, code) {
          orders := orders[id := orders[id].(code := Some(code))];
          return Ok(code);
        }
        attempt := attempt + 1;
      }
      return Err(NoCodeFree);
    }
  }

  /** What creating an order leaves: a new row with the status and room asked for and a code
      no other live order has, or an old row with only its room changed. */
  lemma WhatCreationLeaves(orders: Orders, id: nat, initial: Status, room: Option<string>, draws: seq<Draw>)
    requires Create(orders, id, initial, room, draws).1.Ok?
    ensures
      var (after, r) := Create(orders, id, initial, room, draws);
      && id in after && after == orders[id := after[id]]
      && after[id].room == room && after[id].code == Some(r.value)
      && after[id].status == (if id in orders then orders[id].status else initial)
      && (id in orders && orders[id].code.Some? ==> after[id].code == orders[id].code)
      && (id !in orders || orders[id].code.None? ==>
           && (exists i :: 0 <= i < |draws| && r.value == CodeOf(draws[i]))
           && forall o :: o in orders && o != id && orders[o].code == Some(r.value) ==>
                orders[o].status !in {PendingPayment, Paid, Ready, OutForDelivery})
  {
    var placed := if id in orders then orders else orders[id := Order(initial, None, None)];
    FirstFreeIsFirst(placed, LiveIds(placed), id, draws);
    if id !in orders || orders[id].code.None? {
      var code := Create(orders, id, initial, room, draws).1.value;
      assert !Clashes(placed, LiveIds(placed), id, code);
      forall o | o in orders && o != id && orders[o].code == Some(code)
        ensures orders[o].status !in {PendingPayment, Paid, Ready, OutForDelivery}
      {
        assert placed[o] == orders[o];
      }
    }
  }

  /** Another order that the rider is out with has this code. */
  ghost predicate SharedOnTheRoad(orders: Orders, load: set<nat>, id: nat, code: string) {
    exists o :: o in orders && o in load && o != id && orders[o].status == OutForDelivery
      && orders[o].code == Some(code)
  }

  /** At pick-up an order that is out for delivery keeps its code exactly if no other order
      on the road with the rider has it; otherwise the first drawn code that none of them
      has replaces it, or, if they have all of them, nothing changes. */
  lemma WhatPickUpDoes(orders: Orders, load: set<nat>, id: nat, draws: seq<Draw>)
    requires id in orders && orders[id].status == OutForDelivery
    ensures
      var (after, r) := AssignAtPickup(orders, load, id, draws);
      var keeps := orders[id].code.Some? && !SharedOnTheRoad(orders, load, id, orders[id].code.value);
      && (keeps ==> after == orders && r == Ok(orders[id].code.value))
      && (!keeps ==>
           && (r.Ok? ==>
                && after == orders[id := orders[id].(code := Some(r.value))]
                && !SharedOnTheRoad(orders, load, id, r.value)
                && exists i :: 0 <= i < |draws| && r.value == CodeOf(draws[i])
                     && forall j :: 0 <= j < i ==> SharedOnTheRoad(orders, load, id, CodeOf(draws[j])))
           && (r.Err? ==> after == orders && forall i :: 0 <= i < |draws| ==>
                SharedOnTheRoad(orders, load, id, CodeOf(draws[i]))))
  {
    forall code: string ensures SharedOnTheRoad(orders, load, id, code) <==>
      Clashes(orders, Carried(orders, load), id, code) {
      if SharedOnTheRoad(orders, load, id, code) {
        var o :| o in orders && o in load && o != id && orders[o].status == OutForDelivery
          && orders[o].code == Some(code);
        assert o in Carried(orders, load);
      }
    }
    FirstFreeIsFirst(orders, Carried(orders, load), id, draws);
  }

  // ---------------------------------------------------------------- runs

  datatype Step =
    | CreateStep(id: nat, byWallet: bool, room: Option<string>, draws: seq<Draw>)
    | TransitionStep(id: nat, to: Status)
    | PickUpStep(id: nat, load: set<nat>, draws: seq<Draw>)
    | RecoverStep(id: nat)

  function Next(orders: Orders, s: Step): Orders {
    match s
    case CreateStep(id, byWallet, room, draws) =>
      Create(orders, id, if byWallet then Paid else PendingPayment, room, draws).0
    case TransitionStep(id, to) => Transition(orders, id, to)
    case PickUpStep(id, load, draws) =>
      if id in orders && CanTransition(orders[id].status, OutForDelivery)
      then AssignAtPickup(Transition(orders, id, OutForDelivery), load, id, draws).0
      else orders
    case RecoverStep(id) => Recover(orders, id)
  }

  function Run(steps: seq<Step>): Orders {
    if steps == [] then map[] else Next(Run(steps[..|steps| - 1]), steps[|steps| - 1])
  }

  /** No two live orders have the same code. */
  ghost predicate CodesDistinct(orders: Orders) {
    forall a, b :: a in orders && b in orders && a != b
      && Live(orders[a].status) && Live(orders[b].status) && orders[a].code.Some?
      ==> orders[a].code != orders[b].code
  }

  ghost predicate IsDrawnCode(code: Option<string>) {
    code.Some? && exists n: Draw :: code.value == CodeOf(n)
  }

  ghost predicate AllCoded(orders: Orders) {
    forall o :: o in orders ==> IsDrawnCode(orders[o].code)
  }

  /** Nothing this step does revives a code that a live order has. */
  ghost predicate RevivesNoLiveCode(orders: Orders, s: Step) {
    s.RecoverStep? && s.id in orders && orders[s.id].status == Expired && orders[s.id].code.Some? ==>
      !Clashes(orders, LiveIds(orders), s.id, orders[s.id].code.value)
  }

  /** Once an order has ended, no allowed transition makes its code count again. */
  lemma EndedOrdersStayEnded(from: Status, to: Status)
    requires CanTransition(from, to) && !Live(from)
    ensures !Live(to)
  {}

  /** With distinct codes the check at pick-up finds nothing to do. */
  lemma PickUpKeepsCodes(orders: Orders, s: Step)
    requires s.PickUpStep? && AllCoded(orders) && CodesDistinct(orders)
    ensures Next(orders, s) == Transition(orders, s.id, OutForDelivery)
  {
    if s.id in orders && CanTransition(orders[s.id].status, OutForDelivery) {
      var moved := Transition(orders, s.id, OutForDelivery);
      assert Live(orders[s.id].status);
      assert !Clashes(moved, Carried(moved, s.load), s.id, moved[s.id].code.value);
    }
  }

  lemma CreateKeepsCodes(orders: Orders, s: Step)
    requires s.CreateStep? && AllCoded(orders) && CodesDistinct(orders)
    ensures AllCoded(Next(orders, s)) && CodesDistinct(Next(orders, s))
    ensures forall o :: o in orders ==> o in Next(orders, s) && Next(orders, s)[o].(room := orders[o].room) == orders[o]
  {
    if s.id !in orders {
      var placed := orders[s.id := Order(if s.byWallet then Paid else PendingPayment, None, None)];
      FirstFreeIsFirst(placed, LiveIds(placed), s.id, s.draws);
      var after := Next(orders, s);
      if s.id in after {
        var code := after[s.id].code;
        assert !Clashes(placed, LiveIds(placed), s.id, code.value);
        assert forall o :: o in LiveIds(orders) ==> o in LiveIds(placed) && placed[o].code != code;
      }
    }
  }

  /** A step keeps the codes of live orders distinct exactly when it revives none in use. */
  lemma StepKeepsCodesDistinct(orders: Orders, s: Step)
    requires AllCoded(orders) && CodesDistinct(orders)
    ensures AllCoded(Next(orders, s))
    ensures CodesDistinct(Next(orders, s)) <==> RevivesNoLiveCode(orders, s)
    ensures forall o :: o in orders ==> o in Next(orders, s) && Next(orders, s)[o].code == orders[o].code
  {
    match s
    case CreateStep(_, _, _, _) => CreateKeepsCodes(orders, s);
    case TransitionStep(id, to) => TransitionKeepsCodes(orders, id, to);
    case PickUpStep(_, _, _) => PickUpKeepsCodesDistinct(orders, s);
    case RecoverStep(id) => RecoveryNeedsAFreeCode(orders, id);
  }

  lemma PickUpKeepsCodesDistinct(orders: Orders, s: Step)
    requires s.PickUpStep? && AllCoded(orders) && CodesDistinct(orders)
    ensures AllCoded(Next(orders, s)) && CodesDistinct(Next(orders, s))
    ensures forall o :: o in orders ==> o in Next(orders, s) && Next(orders, s)[o].code == orders[o].code
  {
    PickUpKeepsCodes(orders, s);
    TransitionKeepsCodes(orders, s.id, OutForDelivery);
  }

  lemma TransitionKeepsCodes(orders: Orders, id: nat, to: Status)
    requires AllCoded(orders) && CodesDistinct(orders)
    ensures AllCoded(Transition(orders, id, to)) && CodesDistinct(Transition(orders, id, to))
  {
    if id in orders && CanTransition(orders[id].status, to) && !Live(orders[id].status) {
      EndedOrdersStayEnded(orders[id].status, to);
    }
  }

  lemma RecoveryNeedsAFreeCode(orders: Orders, id: nat)
    requires AllCoded(orders) && CodesDistinct(orders)
    ensures CodesDistinct(Recover(orders, id)) <==> RevivesNoLiveCode(orders, RecoverStep(id))
  {
    if id in orders && orders[id].status == Expired {
      var after := Recover(orders, id);
      if Clashes(orders, LiveIds(orders), id, orders[id].code.value) {
        var o :| o in LiveIds(orders) && o in orders && o != id && orders[o].code == Some(orders[id].code.value);
        assert after[o] == orders[o] && after[id].code == after[o].code && Live(after[id].status);
      } else {
        assert forall o :: o in orders && o != id && Live(orders[o].status) ==>
          o in LiveIds(orders) && orders[o].code != orders[id].code;
      }
    }
  }

  /** Live orders never share a code at any point of a run if and only if every recovery in
      it finds the recovered order's code unused. */
  lemma {:induction false} CodesStayDistinct(steps: seq<Step>)
    ensures AllDistinct(steps) <==> NoClashingRecovery(steps)
    ensures AllDistinct(steps) ==> AllCoded(Run(steps))
    decreases |steps|
  {
    if steps != [] {
      var init := steps[..|steps| - 1];
      CodesStayDistinct(init);
      if AllDistinct(init) {
        StepKeepsCodesDistinct(Run(init), steps[|steps| - 1]);
      }
    }
  }

  /** Here and at every earlier point of the run the codes of live orders are distinct. */
  ghost predicate AllDistinct(steps: seq<Step>)
    decreases |steps|
  {
    CodesDistinct(Run(steps)) && (steps != [] ==> AllDistinct(steps[..|steps| - 1]))
  }

  /** No step of the run so far revived a code that was in use when it was taken. */
  ghost predicate NoClashingRecovery(steps: seq<Step>)
    decreases |steps|
  {
    steps != [] ==>
      NoClashingRecovery(steps[..|steps| - 1]) && RevivesNoLiveCode(Run(steps[..|steps| - 1]), steps[|steps| - 1])
  }

  /** Without recoveries: runs of creations, allowed transitions and pick-ups are safe. */
  lemma AllowedRunsKeepCodesDistinct(steps: seq<Step>)
    requires forall k :: 0 <= k < |steps| ==> !steps[k].RecoverStep?
    ensures CodesDistinct(Run(steps)) && AllCoded(Run(steps))
  {
    NothingRevived(steps);
    CodesStayDistinct(steps);
  }

  lemma {:induction false} NothingRevived(steps: seq<Step>)
    requires forall k :: 0 <= k < |steps| ==> !steps[k].RecoverStep?
    ensures NoClashingRecovery(steps)
    decreases |steps|
  {
    if steps != [] {
      NothingRevived(steps[..|steps| - 1]);
    }
  }

  /** A code is given once: whatever follows, the order keeps it. */
  lemma {:induction false} AssignedCodeNeverChanges(steps: seq<Step>, k: nat, id: nat)
    requires NoClashingRecovery(steps) && k <= |steps| && id in Run(steps[..k])
    ensures id in Run(steps) && Run(steps)[id].code == Run(steps[..k])[id].code
    decreases |steps|
  {
    if k == |steps| {
      assert steps[..k] == steps;
    } else {
      var init := steps[..|steps| - 1];
      assert init[..k] == steps[..k];
      AssignedCodeNeverChanges(init, k, id);
      CodesStayDistinct(init);
      StepKeepsCodesDistinct(Run(init), steps[|steps| - 1]);
    }
  }

  // ---------------------------------------------------------------- consequences

  lemma {:induction false} DistinctBelow(s: set<nat>, bound: nat)
    requires forall n :: n in s ==> n < bound
    ensures |s| <= bound
    decreases bound
  {
    if bound > 0 {
      DistinctBelow(s - {bound - 1}, bound - 1);
    } else {
      assert s == {};
    }
  }

  lemma {:induction false} ImageIsAsLarge(orders: Orders, ids: set<nat>) returns (values: set<nat>)
    requires AllCoded(orders) && CodesDistinct(orders)
    requires ids <= LiveIds(orders)
    ensures |values| == |ids|
    ensures forall v :: v in values ==> v < 10000
    ensures forall v: Draw :: v in values ==> exists o :: o in ids && orders[o].code == Some(CodeOf(v))
  {
    values := {};
    if ids != {} {
      var o :| o in ids;
      var rest := ImageIsAsLarge(orders, ids - {o});
      assert IsDrawnCode(orders[o].code);
      var n: Draw :| orders[o].code == Some(CodeOf(n));
      assert n !in rest;
      values := rest + {n};
    }
  }

  lemma DistinctCodesAreFew(orders: Orders)
    requires AllCoded(orders) && CodesDistinct(orders)
    ensures |LiveIds(orders)| <= 10000
  {
    var values := ImageIsAsLarge(orders, LiveIds(orders));
    DistinctBelow(values, 10000);
  }

  /** So at most ten thousand orders are ever live at once. */
  lemma AtMostTenThousandLive(steps: seq<Step>)
    requires NoClashingRecovery(steps)
    ensures |LiveIds(Run(steps))| <= 10000
  {
    CodesStayDistinct(steps);
    DistinctCodesAreFew(Run(steps));
  }

  /** And a code a rider types in means the one order it was given to: the lookup is never
      ambiguous. */
  lemma CodeMeansOneOrder(steps: seq<Step>, load: set<nat>, id: nat)
    requires NoClashingRecovery(steps) && id in Carried(Run(steps), load)
    ensures Run(steps)[id].code.Some?
    ensures Matches(Run(steps), load, Run(steps)[id].code.value) == {id}
  {
    CodesStayDistinct(steps);
    assert IsDrawnCode(Run(steps)[id].code);
  }

  /** Creation fails only when every draw is taken, and then leaves nothing behind. */
  lemma CreationFailsExactlyWhenDrawsAreTaken(orders: Orders, id: nat, initial: Status, room: Option<string>,
      draws: seq<Draw>)
    requires id !in orders
    ensures Create(orders, id, initial, room, draws).1.Err? <==>
      forall i :: 0 <= i < |draws| ==> Clashes(orders, LiveIds(orders), id, CodeOf(draws[i]))
    ensures Create(orders, id, initial, room, draws).1.Err? ==> Create(orders, id, initial, room, draws).0 == orders
  {
    var placed := orders[id := Order(initial, None, None)];
    FirstFreeIsFirst(placed, LiveIds(placed), id, draws);
    forall code: string
      ensures Clashes(placed, LiveIds(placed), id, code) <==> Clashes(orders, LiveIds(orders), id, code)
    {
      if Clashes(orders, LiveIds(orders), id, code) {
        var o :| o in LiveIds(orders) && o in orders && o != id && orders[o].code == Some(code);
        assert o in LiveIds(placed) && placed[o] == orders[o];
      }
      if Clashes(placed, LiveIds(placed), id, code) {
        var o :| o in LiveIds(placed) && o in placed && o != id && placed[o].code == Some(code);
        assert o in LiveIds(orders) && placed[o] == orders[o];
      }
    }
  }

  /** The recovery does break it: an order expires, its code is given to the next, and a late
      payment brings the first back. */
  lemma RecoveryCanDuplicateACode()
    ensures
      var steps := [CreateStep(1, false, None, [7]), TransitionStep(1, Expired), CreateStep(2, false, None, [7]),
        RecoverStep(1)];
      && !CodesDistinct(Run(steps))
      && NoClashingRecovery(steps[..3])
  {
    var c1, x, c2, r := CreateStep(1, false, None, [7]), TransitionStep(1, Expired), CreateStep(2, false, None, [7]),
      RecoverStep(1);
    var steps := [c1, x, c2, r];
    assert steps[..3] == [c1, x, c2] && [c1, x, c2][..2] == [c1, x] && [c1, x][..1] == [c1] && [c1][..0] == [];
    var code := CodeOf(7);
    var empty: Orders := map[];
    var pending := Order(PendingPayment, Some(code), None);
    FirstCreation(empty, 1, 7);
    assert Run([c1]) == empty[1 := pending];
    var expired := empty[1 := pending.(status := Expired)];
    assert Run([c1, x]) == expired;
    FirstCreation(expired, 2, 7);
    assert Run([c1, x, c2]) == expired[2 := pending];
    assert Run(steps) == expired[2 := pending][1 := pending.(status := Paid)];
    assert CodesDistinct(Run([c1, x, c2]));
    assert !RevivesNoLiveCode(Run([c1, x, c2]), r) by {
      assert 2 in LiveIds(Run([c1, x, c2]));
    }
    NothingRevived([c1, x, c2]);
    assert !CodesDistinct(Run(steps)) by {
      assert Run(steps)[1].code == Run(steps)[2].code;
    }
  }

  lemma FirstCreation(orders: Orders, id: nat, n: Draw)
    requires id !in orders && LiveIds(orders) == {}
    ensures Next(orders, CreateStep(id, false, None, [n])) == orders[id := Order(PendingPayment, Some(CodeOf(n)), None)]
  {
    var placed := orders[id := Order(PendingPayment, None, None)];
    assert LiveIds(placed) == {id};
    assert FirstFree(placed, LiveIds(placed), id, [n]) == Some(CodeOf(n));
  }

  /** A recovery makes an expired order paid and touches nothing else; a transition moves an
      order exactly where the status machine lets it. */
  lemma RecoveriesAndTransitions(orders: Orders, id: nat, next: Status)
    requires id in orders
    ensures Recover(orders, id) ==
      if orders[id].status == Expired then orders[id := Order(Paid, orders[id].code, orders[id].room)] else orders
    ensures Transition(orders, id, next) ==
      if CanTransition(orders[id].status, next) then orders[id := Order(next, orders[id].code, orders[id].room)]
        else orders
  {}
}
