/** What a top-up costs: the card gross-up and the transfer deposit fee
    (src/domain/wallet-topup-fee.ts). Amounts are whole kobo; the rates are exact
    fractions, 1.5% being 3/200 and a basis point 1/10000. */
module Fees {

  const FLAT_FEE_KOBO := 10_000
  const FLAT_FEE_WAIVED_BELOW_KOBO := 250_000
  const FEE_CAP_KOBO := 200_000

  datatype TopupCharge = TopupCharge(creditKobo: int, feeKobo: int, chargeKobo: int)

  datatype DepositSplit = DepositSplit(depositFeeKobo: int, creditKobo: int)

  function Min(a: int, b: int): int {
    if a <= b then a else b
  }

  /** Ceiling of a/b for b > 0, whatever the sign of a. */
  function CeilDiv(a: int, b: int): int
    requires b > 0
  {
    -((-a) / b)
  }

  lemma CeilDivBounds(a: int, b: int)
    requires b > 0
    ensures a <= b * CeilDiv(a, b) < a + b
  {
    var q := (-a) / b;
    assert b * q <= -a < b * q + b;
  }

  // ---------------------------------------------------------------- card gross-up

  function FlatFee(amountKobo: int): int {
    if amountKobo < FLAT_FEE_WAIVED_BELOW_KOBO then 0 else FLAT_FEE_KOBO
  }

  /** 1.5% of the credit plus the flat fee exceeds the cap. */
  predicate Capped(creditKobo: int) {
    3 * creditKobo + 200 * FlatFee(creditKobo) > 200 * FEE_CAP_KOBO
  }

  function CalculateTopupCharge(creditKobo: int, passFees: bool): TopupCharge {
    if !passFees then TopupCharge(creditKobo, 0, creditKobo)
    else
      var flat := FlatFee(creditKobo);
      var charge :=
        if Capped(creditKobo) then creditKobo + FEE_CAP_KOBO
        else CeilDiv(200 * (creditKobo + flat), 197) + 1;
      TopupCharge(creditKobo, charge - creditKobo, charge)
  }

  /** What the provider keeps of a charge: 1.5% plus the given flat fee, rounded up, at most
      the cap. */
  function ProviderFee(chargeKobo: int, flatKobo: int): int {
    Min(FEE_CAP_KOBO, CeilDiv(3 * chargeKobo + 200 * flatKobo, 200))
  }

  /** What is left over once the provider's fee is paid and the wallet credited. */
  function Surplus(creditKobo: int): int {
    var charge := CalculateTopupCharge(creditKobo, true).chargeKobo;
    charge - ProviderFee(charge, FlatFee(creditKobo)) - creditKobo
  }

  /** The gross-up always covers the fee it was computed for, and overshoots by little: not
      at all under the cap test, by a kobo below the cap, and by at most 3,047 kobo in the
      band where the credit is under the cap test and the charge is over the cap. */
  lemma GrossUpCoversItsFee(creditKobo: int)
    requires creditKobo >= 1
    ensures Surplus(creditKobo) >= 0
    ensures Capped(creditKobo) ==> Surplus(creditKobo) == 0
    ensures
      var charge := CalculateTopupCharge(creditKobo, true).chargeKobo;
      CeilDiv(3 * charge + 200 * FlatFee(creditKobo), 200) <= FEE_CAP_KOBO ==> Surplus(creditKobo) <= 1
    ensures !Capped(creditKobo) ==> creditKobo <= 12_666_666 && Surplus(creditKobo) <= 3_047
  {
    var flat := FlatFee(creditKobo);
    var charge := CalculateTopupCharge(creditKobo, true).chargeKobo;
    CeilDivBounds(200 * (creditKobo + flat), 197);
    CeilDivBounds(3 * charge + 200 * flat, 200);
  }

  /** The bound of the band is reached. */
  lemma WidestSurplus()
    ensures !Capped(12_666_666) && Surplus(12_666_666) == 3_047
  {
    CeilDivBounds(200 * (12_666_666 + 10_000), 197);
    CeilDivBounds(3 * 12_869_713 + 200 * 10_000, 200);
  }

  /** The customer is never charged less than is credited. Asking for more never costs less
      either, except from the top 3,000 kobo below the cap test: there the grossed-up charge
      is already above what the first capped credit costs. */
  lemma MoreCreditCostsMore(a: int)
    requires a >= 1
    ensures CalculateTopupCharge(a, true).chargeKobo >= a
    ensures (forall b :: a <= b ==>
              CalculateTopupCharge(a, true).chargeKobo <= CalculateTopupCharge(b, true).chargeKobo)
       <==> !(12_663_667 <= a <= 12_666_666)
  {
    CeilDivBounds(200 * (a + FlatFee(a)), 197);
    if 12_663_667 <= a <= 12_666_666 {
      assert CalculateTopupCharge(12_666_667, true).chargeKobo < CalculateTopupCharge(a, true).chargeKobo;
    } else {
      forall b | a <= b ensures CalculateTopupCharge(a, true).chargeKobo <= CalculateTopupCharge(b, true).chargeKobo {
        CeilDivBounds(200 * (b + FlatFee(b)), 197);
      }
    }
  }

  /** The published tariff waives the flat fee by the size of the charge, not of the credit.
      Billed that way the platform is out of pocket exactly where the credit is below the
      threshold and its grossed-up charge is not. */
  lemma GrossUpCoversPublishedTariff(creditKobo: int)
    requires creditKobo >= 1
    ensures
      var charge := CalculateTopupCharge(creditKobo, true).chargeKobo;
      charge - ProviderFee(charge, FlatFee(charge)) >= creditKobo
      <==> !(246_249 <= creditKobo < FLAT_FEE_WAIVED_BELOW_KOBO)
  {
    GrossUpCoversItsFee(creditKobo);
    var charge := CalculateTopupCharge(creditKobo, true).chargeKobo;
    CeilDivBounds(200 * (creditKobo + FlatFee(creditKobo)), 197);
    CeilDivBounds(3 * charge, 200);
    CeilDivBounds(3 * charge + 200 * FLAT_FEE_KOBO, 200);
  }

  // ---------------------------------------------------------------- deposit fee

  /** `Math.round(share / 10000)` of amount times basis points. */
  function RoundShare(share: int): int {
    (2 * share + 10_000) / 20_000
  }

  function RoundedShare(amountKobo: int, bps: int): int {
    RoundShare(amountKobo * bps)
  }

  /** A missing cap is passed as zero, which has the same meaning. */
  function SplitDedicatedAccountDeposit(amountKobo: int, feeBps: int, capKobo: int): DepositSplit {
    if feeBps <= 0 || amountKobo <= 1 then DepositSplit(0, amountKobo)
    else
      var uncapped := RoundedShare(amountKobo, feeBps);
      var capped := if capKobo > 0 then Min(uncapped, capKobo) else uncapped;
      var fee := Min(capped, amountKobo - 1);
      DepositSplit(fee, amountKobo - fee)
  }

  lemma RoundShareAdds(x: int, y: int, b: int)
    requires x >= 0 && 0 <= y <= 10_000 * b
    ensures 0 <= RoundShare(x) <= RoundShare(x + y) <= RoundShare(x) + b
    ensures RoundShare(x + y) <= RoundShare(x) + RoundShare(y) + 1
  {}

  /** Each further kobo raises the fee by at most one, and the fee of a sum is that of its
      parts up to one kobo. */
  lemma RoundedShareGrows(a: int, b: int, bps: int)
    requires 0 <= bps <= 10_000 && 0 <= a && 0 <= b
    ensures 0 <= RoundedShare(a, bps) <= RoundedShare(a + b, bps) <= RoundedShare(a, bps) + b
    ensures RoundedShare(a + b, bps) <= RoundedShare(a, bps) + RoundedShare(b, bps) + 1
  {
    assert (a + b) * bps == a * bps + b * bps;
    assert 0 <= a * bps;
    assert 0 <= b * bps <= b * 10_000;
    RoundShareAdds(a * bps, b * bps, b);
  }

  /** Nothing is lost in the split, the wallet always gets something, and the fee is no more
      than the rate (to the nearest kobo) or the cap allows. */
  lemma SplitConserves(amountKobo: int, feeBps: int, capKobo: int)
    requires amountKobo >= 1 && 0 <= feeBps <= 10_000
    ensures
      var split := SplitDedicatedAccountDeposit(amountKobo, feeBps, capKobo);
      && split.depositFeeKobo + split.creditKobo == amountKobo
      && 1 <= split.creditKobo <= amountKobo
      && 0 <= split.depositFeeKobo <= RoundedShare(amountKobo, feeBps)
      && (capKobo > 0 ==> split.depositFeeKobo <= capKobo)
  {
    assert 0 <= amountKobo * feeBps;
    RoundShareAdds(amountKobo * feeBps, 0, 0);
  }

  /** A larger transfer never credits less. */
  lemma CreditIsMonotone(a: int, b: int, feeBps: int, capKobo: int)
    requires 1 <= a <= b && 0 <= feeBps <= 10_000
    ensures SplitDedicatedAccountDeposit(a, feeBps, capKobo).creditKobo
         <= SplitDedicatedAccountDeposit(b, feeBps, capKobo).creditKobo
  {
    RoundedShareGrows(a, b - a, feeBps);
    SplitConserves(a, feeBps, capKobo);
    SplitConserves(b, feeBps, capKobo);
  }

  /** Sending one transfer instead of two costs at most one kobo more. */
  lemma MergingCostsAtMostOneKobo(a: int, b: int, feeBps: int, capKobo: int)
    requires a >= 1 && b >= 1 && 0 <= feeBps <= 10_000
    ensures SplitDedicatedAccountDeposit(a + b, feeBps, capKobo).depositFeeKobo
         <= SplitDedicatedAccountDeposit(a, feeBps, capKobo).depositFeeKobo
          + SplitDedicatedAccountDeposit(b, feeBps, capKobo).depositFeeKobo + 1
  {
    RoundedShareGrows(a, b, feeBps);
    RoundedShareGrows(b, a, feeBps);
    RoundedShareGrows(1, b, feeBps);
  }

  /** The kobo can be real: two transfers of 149 kobo at 1% pay 1 each, one of 298 pays 3. */
  lemma MergingCanCostAKobo()
    ensures SplitDedicatedAccountDeposit(298, 100, 0).depositFeeKobo
         == SplitDedicatedAccountDeposit(149, 100, 0).depositFeeKobo
          + SplitDedicatedAccountDeposit(149, 100, 0).depositFeeKobo + 1
  {}

  // ---------------------------------------------------------------- what the numbers are

  /** The whole number of kobo nearest to a rate in basis points, the upper one in the middle. */
  predicate IsNearestShare(amountKobo: int, bps: int, share: int) {
    2 * amountKobo * bps - 10_000 < 20_000 * share <= 2 * amountKobo * bps + 10_000
  }

  /** The least of the nearest share, the cap if there is one, and all but a kobo. */
  predicate IsLeastOf(fee: int, share: int, capKobo: int, amountKobo: int) {
    && fee <= share && fee <= amountKobo - 1 && (capKobo > 0 ==> fee <= capKobo)
    && (fee == share || fee == amountKobo - 1 || (capKobo > 0 && fee == capKobo))
  }

  /** What a deposit costs. */
  lemma DepositFeeIs(amountKobo: int, feeBps: int, capKobo: int) returns (share: int)
    requires amountKobo >= 1 && feeBps >= 0
    ensures IsNearestShare(amountKobo, feeBps, share)
    ensures IsLeastOf(SplitDedicatedAccountDeposit(amountKobo, feeBps, capKobo).depositFeeKobo, share, capKobo,
      amountKobo)
  {
    share := RoundedShare(amountKobo, feeBps);
    var product := amountKobo * feeBps;
    assert product >= 0 && (feeBps == 0 ==> product == 0);
    assert 20_000 * RoundShare(product) <= 2 * product + 10_000 < 20_000 * RoundShare(product) + 20_000;
  }

  /** What a checkout costs: the credit alone when fees are not passed on, and otherwise with
      the fee on top that the quote names. */
  lemma ChargeIsCreditPlusFee(creditKobo: int, passFees: bool)
    requires creditKobo >= 1
    ensures
      var quote := CalculateTopupCharge(creditKobo, passFees);
      && quote.creditKobo == creditKobo && quote.chargeKobo == creditKobo + quote.feeKobo
      && (if passFees then quote.feeKobo > 0 else quote.feeKobo == 0)
  {
    CeilDivBounds(200 * (creditKobo + FlatFee(creditKobo)), 197);
  }
}
