/** Order pricing (src/domain/pricing.ts, src/domain/money.ts): what the customer is quoted,
    next to what the database charges when the order is placed. Inputs are plain numbers, and
    anything but a whole, non-negative amount is refused. */
module Pricing {
  import opened Wrappers
  import Sequences

  datatype PricingError = NoLines | NotCents | BadQuantity | DiscountTooLarge | BadSpoonCount | BadBasisPoints

  datatype Line = Line(unitPrice: real, quantity: real, spoonCount: Option<real>)

  datatype Input = Input(
    lines: seq<Line>,
    deliveryFee: real,
    serviceFee: Option<real>,
    discount: Option<real>,
    threshold: Option<real>,
    surchargeBps: Option<real>,
    surchargeFlat: Option<real>)

  datatype OrderPricing = OrderPricing(
    subtotal: nat,
    deliveryFee: nat,
    serviceFee: nat,
    discount: nat,
    surcharge: nat,
    exceedsThreshold: bool,
    total: nat,
    spoonCount: nat)

  predicate IsWhole(v: real) {
    v == v.Floor as real
  }

  function OrZero(v: Option<real>): real {
    if v.Some? then v.value else 0.0
  }

  // ---------------------------------------------------------------- money

  function Cents(v: real): Result<nat, PricingError> {
    if !IsWhole(v) || v < 0.0 then Err(NotCents) else Ok(v.Floor)
  }

  /** Rounding a number of ten-thousandths half upwards, as JavaScript does. */
  function RoundHalfUp(n: int): int {
    (n + 5000) / 10000
  }

  function BasisPointsAmount(amount: nat, basisPoints: real): Result<nat, PricingError> {
    if !IsWhole(basisPoints) || basisPoints < 0.0 || basisPoints > 10000.0 then Err(BadBasisPoints)
    else Ok(RoundHalfUp(amount * basisPoints.Floor))
  }

  // ---------------------------------------------------------------- the calculation

  function LineTotal(line: Line): Result<nat, PricingError> {
    match Cents(line.unitPrice)
    case Err(e) => Err(e)
    case Ok(price) =>
      if !IsWhole(line.quantity) || line.quantity <= 0.0 then Err(BadQuantity) else Ok(price * line.quantity.Floor)
  }

  function Subtotal(lines: seq<Line>): Result<nat, PricingError> {
    if lines == [] then Ok(0)
    else
      match LineTotal(lines[0])
      case Err(e) => Err(e)
      case Ok(first) =>
        match Subtotal(lines[1..])
        case Err(e) => Err(e)
        case Ok(rest) => Ok(first + rest)
  }

  function Spoons(lines: seq<Line>): Result<nat, PricingError> {
    if lines == [] then Ok(0)
    else
      var requested := OrZero(lines[0].spoonCount);
      if !IsWhole(requested) || requested < 0.0 then Err(BadSpoonCount)
      else
        match Spoons(lines[1..])
        case Err(e) => Err(e)
        case Ok(rest) => Ok(requested.Floor + rest)
  }

  /** The surcharge, and whether the threshold is exceeded. Rate and flat amount are looked at
      only when it is. */
  function LargeOrderSurcharge(pre: nat, i: Input): Result<(nat, bool), PricingError> {
    if i.threshold.None? then Ok((0, false))
    else
      match Cents(i.threshold.value)
      case Err(e) => Err(e)
      case Ok(threshold) =>
        if pre <= threshold then Ok((0, false))
        else
          match Cents(OrZero(i.surchargeFlat))
          case Err(e) => Err(e)
          case Ok(flat) =>
            match BasisPointsAmount(pre, OrZero(i.surchargeBps))
            case Err(e) => Err(e)
            case Ok(share) => Ok((share + flat, true))
  }

  function CalculateOrderPricing(i: Input): Result<OrderPricing, PricingError> {
    if i.lines == [] then Err(NoLines)
    else
      match (Subtotal(i.lines), Cents(i.deliveryFee), Cents(OrZero(i.serviceFee)), Cents(OrZero(i.discount)))
      case (Err(e), _, _, _) => Err(e)
      case (_, Err(e), _, _) => Err(e)
      case (_, _, Err(e), _) => Err(e)
      case (_, _, _, Err(e)) => Err(e)
      case (Ok(subtotal), Ok(delivery), Ok(service), Ok(discount)) =>
        var gross := subtotal + delivery + service;
        if discount > gross then Err(DiscountTooLarge)
        else
          match Spoons(i.lines)
          case Err(e) => Err(e)
          case Ok(spoons) =>
            match LargeOrderSurcharge(gross - discount, i)
            case Err(e) => Err(e)
            case Ok((surcharge, exceeds)) =>
              Ok(OrderPricing(subtotal, delivery, service, discount, surcharge, exceeds, gross - discount + surcharge,
                spoons))
  }

  // ---------------------------------------------------------------- what it accepts and what it means

  predicate IsCents(v: real) {
    IsWhole(v) && v >= 0.0
  }

  predicate GoodLine(line: Line) {
    IsCents(line.unitPrice) && IsWhole(line.quantity) && line.quantity > 0.0 && IsCents(OrZero(line.spoonCount))
  }

  function LineWorth(line: Line): real {
    line.unitPrice * line.quantity
  }

  function Worth(lines: seq<Line>): real {
    if lines == [] then 0.0 else LineWorth(lines[0]) + Worth(lines[1..])
  }

  function SpoonsAsked(lines: seq<Line>): real {
    if lines == [] then 0.0 else OrZero(lines[0].spoonCount) + SpoonsAsked(lines[1..])
  }

  function BeforeSurcharge(i: Input): real {
    Worth(i.lines) + i.deliveryFee + OrZero(i.serviceFee) - OrZero(i.discount)
  }

  predicate IsLarge(i: Input) {
    i.threshold.Some? && BeforeSurcharge(i) > i.threshold.value
  }

  predicate Acceptable(i: Input) {
    && i.lines != []
    && (forall k :: 0 <= k < |i.lines| ==> GoodLine(i.lines[k]))
    && IsCents(i.deliveryFee) && IsCents(OrZero(i.serviceFee)) && IsCents(OrZero(i.discount))
    && BeforeSurcharge(i) >= 0.0
    && (i.threshold.Some? ==> IsCents(i.threshold.value))
    && (IsLarge(i) ==>
         && IsCents(OrZero(i.surchargeFlat)) && IsCents(OrZero(i.surchargeBps))
         && OrZero(i.surchargeBps) <= 10000.0)
  }

  /** The whole amount nearest to a rate in ten-thousandths, the upper one in the middle. */
  predicate IsNearest(amount: real, basisPoints: real, rounded: real) {
    rounded - 0.5 <= amount * basisPoints / 10000.0 < rounded + 0.5
  }

  lemma LineIsExact(line: Line)
    ensures LineTotal(line).Ok? <==> IsCents(line.unitPrice) && IsWhole(line.quantity) && line.quantity > 0.0
    ensures LineTotal(line).Ok? ==> LineTotal(line).value as real == LineWorth(line)
  {
    if LineTotal(line).Ok? {
      WholeProduct(line.unitPrice, line.quantity);
    }
  }

  lemma AllGood(lines: seq<Line>)
    requires lines != []
    ensures (forall k :: 0 <= k < |lines| ==> GoodLine(lines[k])) <==>
      GoodLine(lines[0]) && forall k :: 0 <= k < |lines[1..]| ==> GoodLine(lines[1..][k])
  {
    assert lines == [lines[0]] + lines[1..];
  }

  lemma {:induction false} SumsAreExact(lines: seq<Line>)
    ensures Subtotal(lines).Ok? && Spoons(lines).Ok? <==> forall k :: 0 <= k < |lines| ==> GoodLine(lines[k])
    ensures Subtotal(lines).Ok? ==> Subtotal(lines).value as real == Worth(lines)
    ensures Spoons(lines).Ok? ==> Spoons(lines).value as real == SpoonsAsked(lines)
  {
    if lines != [] {
      SumsAreExact(lines[1..]);
      LineIsExact(lines[0]);
      AllGood(lines);
    }
  }

  lemma WholeProduct(a: real, b: real)
    requires IsWhole(a) && IsWhole(b)
    ensures (a.Floor * b.Floor) as real == a * b
  {}

  lemma ShareIsNearest(amount: nat, basisPoints: real)
    requires BasisPointsAmount(amount, basisPoints).Ok?
    ensures IsNearest(amount as real, basisPoints, BasisPointsAmount(amount, basisPoints).value as real)
  {
    var r := BasisPointsAmount(amount, basisPoints).value;
    WholeProduct(amount as real, basisPoints);
    var n := amount * basisPoints.Floor;
    assert 10000 * r - 5000 <= n < 10000 * r + 5000;
    assert (n as real) == amount as real * basisPoints;
  }

  /** A quote is given exactly for acceptable inputs, and then is what its parts say: the
      items' worth and the fees, less the discount, and over the threshold the nearest share
      and the flat amount on top. */
  lemma QuoteIsExact(i: Input)
    ensures CalculateOrderPricing(i).Ok? <==> Acceptable(i)
    ensures CalculateOrderPricing(i).Ok? ==>
      var p := CalculateOrderPricing(i).value;
      && p.subtotal as real == Worth(i.lines) && p.deliveryFee as real == i.deliveryFee
      && p.serviceFee as real == OrZero(i.serviceFee) && p.discount as real == OrZero(i.discount)
      && p.spoonCount as real == SpoonsAsked(i.lines)
      && p.total == p.subtotal + p.deliveryFee + p.serviceFee + p.surcharge - p.discount
      && (p.total - p.surcharge) as real == BeforeSurcharge(i)
      && (p.exceedsThreshold <==> IsLarge(i))
      && (!IsLarge(i) ==> p.surcharge == 0)
      && (IsLarge(i) ==>
            IsNearest(BeforeSurcharge(i), OrZero(i.surchargeBps), p.surcharge as real - OrZero(i.surchargeFlat)))
  {
    SumsAreExact(i.lines);
    if CalculateOrderPricing(i).Ok? && IsLarge(i) {
      var p := CalculateOrderPricing(i).value;
      ShareIsNearest(p.total - p.surcharge, OrZero(i.surchargeBps));
    }
  }

  // ---------------------------------------------------------------- order of lines

  lemma {:induction false} WorthOfJoined(a: seq<Line>, b: seq<Line>)
    ensures Worth(a + b) == Worth(a) + Worth(b)
    decreases |a|
  {
    if a == [] {
      assert a + b == b;
    } else {
      assert (a + b)[1..] == a[1..] + b;
      WorthOfJoined(a[1..], b);
    }
  }

  lemma WorthOfOneMore(line: Line, rest: seq<Line>)
    ensures Worth([line] + rest) == LineWorth(line) + Worth(rest)
  {
    assert ([line] + rest)[1..] == rest;
  }

  lemma WorthInThree(before: seq<Line>, line: Line, after: seq<Line>)
    ensures Worth(before + ([line] + after)) == LineWorth(line) + Worth(before + after)
  {
    WorthOfJoined(before, [line] + after);
    WorthOfOneMore(line, after);
    WorthOfJoined(before, after);
  }

  /** Taking the line at `k` out takes its worth out. */
  lemma WorthWithout(b: seq<Line>, k: nat)
    requires k < |b|
    ensures Worth(b) == LineWorth(b[k]) + Worth(b[..k] + b[k + 1..])
  {
    Sequences.SplitAt(b, k);
    WorthInThree(b[..k], b[k], b[k + 1..]);
  }

  lemma {:induction false} WorthIgnoresOrder(a: seq<Line>, b: seq<Line>)
    requires multiset(a) == multiset(b)
    ensures Worth(a) == Worth(b)
    decreases |a|
  {
    if a == [] {
      assert |multiset(b)| == 0;
    } else {
      assert a[0] in multiset(a);
      var k := Sequences.IndexOf(b, a[0]);
      WorthWithout(b, k);
      Sequences.MultisetWithout(b, k);
      Sequences.MultisetOfTail(a);
      WorthIgnoresOrder(a[1..], b[..k] + b[k + 1..]);
    }
  }

  /** In whatever order the lines are listed, the total quoted is the same. */
  lemma QuoteIgnoresOrder(i: Input, lines: seq<Line>)
    requires multiset(lines) == multiset(i.lines) && CalculateOrderPricing(i).Ok?
    ensures CalculateOrderPricing(i.(lines := lines)).Ok?
    ensures CalculateOrderPricing(i.(lines := lines)).value.total == CalculateOrderPricing(i).value.total
  {
    var j := i.(lines := lines);
    WorthIgnoresOrder(i.lines, lines);
    QuoteIsExact(i);
    QuoteIsExact(j);
    assert |multiset(lines)| == |multiset(i.lines)|;
    forall k | 0 <= k < |lines| ensures GoodLine(lines[k]) {
      assert lines[k] in multiset(i.lines);
    }
    assert BeforeSurcharge(i) == BeforeSurcharge(j) && IsLarge(i) == IsLarge(j);
    var p, q := CalculateOrderPricing(i).value, CalculateOrderPricing(j).value;
    if IsLarge(i) {
      NearestIsUnique(BeforeSurcharge(i), OrZero(i.surchargeBps), p.surcharge, q.surcharge, OrZero(i.surchargeFlat));
    }
  }

  lemma NearestIsUnique(amount: real, basisPoints: real, a: int, b: int, flat: real)
    requires IsNearest(amount, basisPoints, a as real - flat) && IsNearest(amount, basisPoints, b as real - flat)
    ensures a == b
  {
    assert -1.0 < a as real - b as real < 1.0;
  }

  // ---------------------------------------------------------------- the jump

  /** With the same fees and surcharge settings, an order worth more never costs less or the
      same; and the first order over the threshold costs a kobo and a whole surcharge more
      than the last one under it. */
  lemma WorthMoreCostsMore(i: Input, j: Input)
    requires CalculateOrderPricing(i).Ok? && CalculateOrderPricing(j).Ok?
    requires i.threshold == j.threshold && i.surchargeBps == j.surchargeBps && i.surchargeFlat == j.surchargeFlat
    requires BeforeSurcharge(i) < BeforeSurcharge(j)
    ensures CalculateOrderPricing(i).value.total < CalculateOrderPricing(j).value.total
    ensures !IsLarge(i) && IsLarge(j) ==>
      (CalculateOrderPricing(j).value.total - CalculateOrderPricing(i).value.total) as real
        >= 1.0 + CalculateOrderPricing(j).value.surcharge as real
  {
    QuoteIsExact(j);
    SurchargeGrows(i, j);
  }

  lemma SurchargeGrows(i: Input, j: Input)
    requires CalculateOrderPricing(i).Ok? && CalculateOrderPricing(j).Ok?
    requires i.threshold == j.threshold && i.surchargeBps == j.surchargeBps && i.surchargeFlat == j.surchargeFlat
    requires BeforeSurcharge(i) < BeforeSurcharge(j)
    ensures
      var p, q := CalculateOrderPricing(i).value, CalculateOrderPricing(j).value;
      p.total - p.surcharge < q.total - q.surcharge && p.surcharge <= q.surcharge
    ensures !IsLarge(i) ==> CalculateOrderPricing(i).value.surcharge == 0
  {
    QuoteIsExact(i);
    QuoteIsExact(j);
    var p, q := CalculateOrderPricing(i).value, CalculateOrderPricing(j).value;
    if IsLarge(i) {
      ShareGrows(p.total - p.surcharge, q.total - q.surcharge, OrZero(i.surchargeBps));
    }
  }

  lemma ShareGrows(a: nat, b: nat, basisPoints: real)
    requires a <= b && BasisPointsAmount(a, basisPoints).Ok?
    ensures BasisPointsAmount(b, basisPoints).Ok?
    ensures BasisPointsAmount(a, basisPoints).value <= BasisPointsAmount(b, basisPoints).value
  {
    ProductGrows(a, b, basisPoints.Floor);
  }

  lemma ProductGrows(a: nat, b: nat, c: nat)
    requires a <= b
    ensures a * c <= b * c
  {
    assert b * c == a * c + (b - a) * c;
  }

  // ---------------------------------------------------------------- the charge

  /** PostgreSQL rounds halves away from zero. */
  function RoundHalfAway(n: int): int {
    if n >= 0 then (n + 5000) / 10000 else -((-n + 5000) / 10000)
  }

  function AtLeastZero(n: int): int {
    if n < 0 then 0 else n
  }

  /** What the stored procedure charges, or nothing when a large order was not accepted. */
  function Charge(subtotal: int, delivery: int, service: int, discount: int, threshold: Option<int>, bps: int,
      flat: int, accepted: bool): Option<int>
  {
    var total := subtotal + delivery + service - discount;
    if threshold.Some? && total > threshold.value then
      if !accepted then None else Some(total + RoundHalfAway(total * bps) + AtLeastZero(flat))
    else Some(total)
  }

  /** The two roundings differ only in the middle between two negative amounts. */
  lemma RoundingsDifferOnlyBelowZero(n: int)
    ensures RoundHalfUp(n) == RoundHalfAway(n) <==> !(n < 0 && n % 10000 == 5000)
  {}

  lemma SurchargeAsCharged(pre: nat, i: Input)
    requires LargeOrderSurcharge(pre, i).Ok?
    ensures
      var (surcharge, exceeds) := LargeOrderSurcharge(pre, i).value;
      && (exceeds <==> i.threshold.Some? && pre > i.threshold.value.Floor)
      && surcharge ==
        if exceeds then RoundHalfAway(pre * OrZero(i.surchargeBps).Floor) + AtLeastZero(OrZero(i.surchargeFlat).Floor)
          else 0
  {
    if LargeOrderSurcharge(pre, i).value.1 {
      var bps := OrZero(i.surchargeBps).Floor;
      assert bps >= 0 && pre * bps >= 0;
      RoundingsDifferOnlyBelowZero(pre * bps);
    }
  }

  /** The customer is charged what was quoted, provided the large order was accepted. */
  lemma ChargedAsQuoted(i: Input, accepted: bool)
    requires CalculateOrderPricing(i).Ok?
    ensures
      var p := CalculateOrderPricing(i).value;
      var threshold := if i.threshold.Some? then Some(i.threshold.value.Floor) else None;
      Charge(p.subtotal, p.deliveryFee, p.serviceFee, p.discount, threshold,
             OrZero(i.surchargeBps).Floor, OrZero(i.surchargeFlat).Floor, accepted)
      == if p.exceedsThreshold && !accepted then None else Some(p.total)
  {
    var p := CalculateOrderPricing(i).value;
    SurchargeAsCharged(p.total - p.surcharge, i);
  }

  /** A negative flat amount, which no quote has, is charged as none. */
  lemma NegativeFlatIsNone(subtotal: int, delivery: int, service: int, discount: int, threshold: Option<int>, bps: int,
      flat: int, accepted: bool)
    requires flat <= 0
    ensures Charge(subtotal, delivery, service, discount, threshold, bps, flat, accepted) ==
      Charge(subtotal, delivery, service, discount, threshold, bps, 0, accepted)
  {}

  lemma {:induction false} LineErrors(lines: seq<Line>)
    ensures Subtotal(lines).Err? <==> exists k :: 0 <= k < |lines| && LineTotal(lines[k]).Err?
    ensures Subtotal(lines).Err? ==>
      exists k :: 0 <= k < |lines| && LineTotal(lines[k]).Err? && Subtotal(lines).error == LineTotal(lines[k]).error
        && forall j :: 0 <= j < k ==> LineTotal(lines[j]).Ok?
    decreases |lines|
  {
    if lines != [] {
      var rest := lines[1..];
      LineErrors(rest);
      assert forall k :: 1 <= k < |lines| ==> lines[k] == rest[k - 1];
      if LineTotal(lines[0]).Ok? && Subtotal(rest).Err? {
        var k :| 0 <= k < |rest| && LineTotal(rest[k]).Err? && Subtotal(rest).error == LineTotal(rest[k]).error
          && forall j :: 0 <= j < k ==> LineTotal(rest[j]).Ok?;
        assert lines[k + 1] == rest[k];
      }
    }
  }

  lemma {:induction false} SpoonErrors(lines: seq<Line>)
    ensures Spoons(lines).Err? ==> Spoons(lines).error == BadSpoonCount
  {
    if lines != [] {
      SpoonErrors(lines[1..]);
    }
  }

  lemma WhatALineRefuses(line: Line)
    ensures LineTotal(line) == Err(NotCents) <==> !IsCents(line.unitPrice)
    ensures LineTotal(line) == Err(BadQuantity) <==>
      IsCents(line.unitPrice) && !(IsWhole(line.quantity) && line.quantity > 0.0)
    ensures LineTotal(line).Err? ==> LineTotal(line).error in {NotCents, BadQuantity}
  {}

  /** Why a quote is refused before a surcharge is looked at: no lines; the first bad line, for
      its price and then its quantity; a fee that is no amount; or a discount larger than the
      items and fees together. */
  lemma QuoteRefusals(i: Input)
    ensures CalculateOrderPricing(i) == Err(NoLines) <==> i.lines == []
    ensures forall k :: 0 <= k < |i.lines| && LineTotal(i.lines[k]).Err? && Subtotal(i.lines[..k]).Ok? ==>
      CalculateOrderPricing(i) == Err(if IsCents(i.lines[k].unitPrice) then BadQuantity else NotCents)
    ensures i.lines != [] && Subtotal(i.lines).Ok? ==>
      var fees := IsCents(i.deliveryFee) && IsCents(OrZero(i.serviceFee)) && IsCents(OrZero(i.discount));
      && (!fees ==> CalculateOrderPricing(i) == Err(NotCents))
      && (fees ==> (CalculateOrderPricing(i) == Err(DiscountTooLarge) <==> BeforeSurcharge(i) < 0.0))
  {
    SumsAreExact(i.lines);
    SpoonErrors(i.lines);
    LineErrors(i.lines);
    forall line: Line ensures LineTotal(line).Err? ==>
      LineTotal(line).error == if IsCents(line.unitPrice) then BadQuantity else NotCents
    {
      WhatALineRefuses(line);
    }
    forall k | 0 <= k < |i.lines| && LineTotal(i.lines[k]).Err? && Subtotal(i.lines[..k]).Ok?
      ensures Subtotal(i.lines) == Err(LineTotal(i.lines[k]).error)
    {
      LineErrors(i.lines[..k]);
      assert forall j :: 0 <= j < k ==> i.lines[..k][j] == i.lines[j];
    }
  }
}
