/**
 The factoring cost calculation: from the amount advanced to the client and
 the contractual rates, derive the total receivable, the service fee, the
 simple-annual discount interest, the total cost, the net cash the client
 receives and the reserve the factor withholds.

 Every amount is a Dafny `real`, so the identities below hold exactly; the
 program computes them in binary floating point.
 */
module Factoring {
  import opened Wrappers

  /** The labelled record the calculation returns, one field per label. */
  datatype FactoringResult = FactoringResult(
    totalAR: real,
    advanceAmount: real,
    serviceFee: real,
    discountInterest: real,
    totalCosts: real,
    netCashReceived: real,
    reserve: real)

  /** The discount interest is quoted per year and prorated over the tenor in months. */
  const MonthsPerYear: real := 12.0

  /** The advance is a fraction of the receivable: positive and at most all of it. */
  predicate ValidAdvanceRate(advanceRate: real) {
    0.0 < advanceRate <= 1.0
  }

  /** How the amounts of one record relate to each other, whatever the inputs were. */
  predicate Balanced(r: FactoringResult) {
    && r.totalCosts == r.serviceFee + r.discountInterest
    && r.netCashReceived + r.totalCosts == r.advanceAmount
    && r.advanceAmount + r.reserve == r.totalAR
  }

  /**
   The cost calculation. An advance rate outside (0, 1] produces no record;
   any other input, however unusual (negative net cash included), produces one.
   The parameter order is the program's.
   */
  function CalculateFactoringCosts(
    advanceAmount: real,
    advanceRate: real,
    discountRateAnnual: real,
    serviceFeeRate: real,
    tenorMonths: real): (r: Option<FactoringResult>)
    ensures r.None? <==> !ValidAdvanceRate(advanceRate)
    ensures r.Some? ==> Balanced(r.value)
    ensures r.Some? ==> r.value.advanceAmount == advanceAmount
    ensures r.Some? ==> r.value.totalAR * advanceRate == advanceAmount
    ensures r.Some? ==> r.value.serviceFee * advanceRate == advanceAmount * serviceFeeRate
    ensures r.Some? ==>
      r.value.discountInterest * MonthsPerYear == advanceAmount * discountRateAnnual * tenorMonths
  {
    if advanceRate <= 0.0 || advanceRate > 1.0 then
      None
    else
      var totalAR := advanceAmount / advanceRate;
      var serviceFee := totalAR * serviceFeeRate;
      var discountInterest := advanceAmount * discountRateAnnual * (tenorMonths / MonthsPerYear);
      var totalCosts := serviceFee + discountInterest;
      var netCashReceived := advanceAmount - totalCosts;
      var reserve := totalAR - advanceAmount;
      Some(FactoringResult(totalAR, advanceAmount, serviceFee, discountInterest,
                           totalCosts, netCashReceived, reserve))
  }

  // ---------------------------------------------------------------------------
  // Recovering the inputs from a record: the calculation's inverse.
  // ---------------------------------------------------------------------------

  /** The advance rate a record was computed with, when the receivable is not zero. */
  function RecoverAdvanceRate(r: FactoringResult): (advanceRate: Option<real>) {
    if r.totalAR == 0.0 then None else Some(r.advanceAmount / r.totalAR)
  }

  /** The service-fee rate a record was computed with, when the receivable is not zero. */
  function RecoverServiceFeeRate(r: FactoringResult): (serviceFeeRate: Option<real>) {
    if r.totalAR == 0.0 then None else Some(r.serviceFee / r.totalAR)
  }

  /** The annual discount rate a record was computed with, given the tenor. */
  function RecoverDiscountRate(r: FactoringResult, tenorMonths: real): (discountRateAnnual: Option<real>) {
    if r.advanceAmount == 0.0 || tenorMonths == 0.0 then None
    else Some(r.discountInterest * MonthsPerYear / (r.advanceAmount * tenorMonths))
  }

  /** Dividing the advance by the receivable gives back the advance rate. */
  lemma AdvanceRateRecovered(r: FactoringResult, advanceRate: real)
    requires advanceRate != 0.0
    requires r.totalAR * advanceRate == r.advanceAmount
    ensures RecoverAdvanceRate(r).Some? <==> r.advanceAmount != 0.0
    ensures r.advanceAmount != 0.0 ==> RecoverAdvanceRate(r) == Some(advanceRate)
  {
    if r.advanceAmount != 0.0 {
      assert r.totalAR != 0.0;
      assert r.advanceAmount / r.totalAR == advanceRate;
    }
  }

  /** Dividing the fee by the receivable gives back the service-fee rate. */
  lemma ServiceFeeRateRecovered(r: FactoringResult, serviceFeeRate: real)
    requires r.totalAR != 0.0
    requires r.serviceFee == r.totalAR * serviceFeeRate
    ensures RecoverServiceFeeRate(r) == Some(serviceFeeRate)
  {
    assert r.serviceFee / r.totalAR == serviceFeeRate;
  }

  /** Annualising the interest over the advance and the tenor gives back the discount rate. */
  lemma DiscountRateRecovered(r: FactoringResult, discountRateAnnual: real, tenorMonths: real)
    requires r.advanceAmount != 0.0 && tenorMonths != 0.0
    requires r.discountInterest * MonthsPerYear == r.advanceAmount * discountRateAnnual * tenorMonths
    ensures RecoverDiscountRate(r, tenorMonths) == Some(discountRateAnnual)
  {
    var d := r.discountInterest * MonthsPerYear;
    var n := r.advanceAmount * tenorMonths;
    assert d == discountRateAnnual * n;
    assert RecoverDiscountRate(r, tenorMonths).Some?;
    assert RecoverDiscountRate(r, tenorMonths).value == d / n == discountRateAnnual;
  }

  /**
   A record determines the rates it was computed from: exactly when the advance
   is not zero the advance and fee rates can be read back, and the discount rate
   too when the tenor is not zero.
   */
  lemma RatesRoundTrip(
    advanceAmount: real, advanceRate: real, discountRateAnnual: real,
    serviceFeeRate: real, tenorMonths: real)
    requires ValidAdvanceRate(advanceRate)
    ensures var r := CalculateFactoringCosts(advanceAmount, advanceRate, discountRateAnnual,
                                              serviceFeeRate, tenorMonths).value;
      && (RecoverAdvanceRate(r).Some? <==> advanceAmount != 0.0)
      && (advanceAmount != 0.0 ==> RecoverAdvanceRate(r) == Some(advanceRate))
      && (RecoverServiceFeeRate(r).Some? <==> advanceAmount != 0.0)
      && (advanceAmount != 0.0 ==> RecoverServiceFeeRate(r) == Some(serviceFeeRate))
      && (advanceAmount != 0.0 && tenorMonths != 0.0 ==>
            RecoverDiscountRate(r, tenorMonths) == Some(discountRateAnnual))
  {
    var r := CalculateFactoringCosts(advanceAmount, advanceRate, discountRateAnnual,
                                     serviceFeeRate, tenorMonths).value;
    AdvanceRateRecovered(r, advanceRate);
    if advanceAmount != 0.0 {
      ServiceFeeRateRecovered(r, serviceFeeRate);
      if tenorMonths != 0.0 {
        DiscountRateRecovered(r, discountRateAnnual, tenorMonths);
      }
    }
  }

  // ---------------------------------------------------------------------------
  // The guard and the boundary rates.
  // ---------------------------------------------------------------------------

  /** A zero rate and a rate above one are rejected; a full advance is accepted. */
  lemma BoundaryRates(advanceAmount: real, discountRateAnnual: real,
                      serviceFeeRate: real, tenorMonths: real)
    ensures CalculateFactoringCosts(advanceAmount, 0.0, discountRateAnnual, serviceFeeRate, tenorMonths).None?
    ensures CalculateFactoringCosts(advanceAmount, 1.5, discountRateAnnual, serviceFeeRate, tenorMonths).None?
    ensures CalculateFactoringCosts(advanceAmount, 1.0, discountRateAnnual, serviceFeeRate, tenorMonths).Some?
  {
  }

  /** Advancing the whole receivable leaves nothing in reserve. */
  lemma FullAdvance(advanceAmount: real, discountRateAnnual: real,
                    serviceFeeRate: real, tenorMonths: real)
    ensures var r := CalculateFactoringCosts(advanceAmount, 1.0, discountRateAnnual,
                                              serviceFeeRate, tenorMonths);
      r.Some? && r.value.totalAR == advanceAmount && r.value.reserve == 0.0
  {
  }

  /**
   With a non-negative advance the receivable covers it, so the reserve is not
   negative; it is zero exactly when everything is advanced or nothing is.
   */
  lemma ReserveNonNegative(
    advanceAmount: real, advanceRate: real, discountRateAnnual: real,
    serviceFeeRate: real, tenorMonths: real)
    requires ValidAdvanceRate(advanceRate)
    requires advanceAmount >= 0.0
    ensures var r := CalculateFactoringCosts(advanceAmount, advanceRate, discountRateAnnual,
                                              serviceFeeRate, tenorMonths).value;
      && r.totalAR >= advanceAmount
      && r.reserve >= 0.0
      && (r.reserve == 0.0 <==> advanceRate == 1.0 || advanceAmount == 0.0)
  {
  }

  /**
   Net cash below zero is a valid, reported outcome, not an error: every valid
   rate gets a record, and its net cash is negative exactly when the costs
   exceed the advance. Such inputs exist.
   */
  lemma NegativeNetCashIsReturned(
    advanceAmount: real, advanceRate: real, discountRateAnnual: real,
    serviceFeeRate: real, tenorMonths: real)
    requires ValidAdvanceRate(advanceRate)
    ensures var r := CalculateFactoringCosts(advanceAmount, advanceRate, discountRateAnnual,
                                              serviceFeeRate, tenorMonths);
      r.Some? && (r.value.netCashReceived < 0.0 <==> r.value.totalCosts > advanceAmount)
    ensures CalculateFactoringCosts(100.0, 0.5, 0.0, 1.0, 1.0).value.netCashReceived < 0.0
  {
  }

  // ---------------------------------------------------------------------------
  // How the tenor enters the calculation.
  // ---------------------------------------------------------------------------

  /**
   With a non-negative advance and discount rate, a longer tenor costs at least
   as much interest and leaves at most as much net cash; the receivable, the
   service fee and the reserve do not depend on the tenor at all.
   */
  lemma TenorMonotone(
    advanceAmount: real, advanceRate: real, discountRateAnnual: real,
    serviceFeeRate: real, shorter: real, longer: real)
    requires ValidAdvanceRate(advanceRate)
    requires advanceAmount >= 0.0 && discountRateAnnual >= 0.0
    requires shorter <= longer
    ensures var a := CalculateFactoringCosts(advanceAmount, advanceRate, discountRateAnnual,
                                              serviceFeeRate, shorter).value;
            var b := CalculateFactoringCosts(advanceAmount, advanceRate, discountRateAnnual,
                                              serviceFeeRate, longer).value;
      && a.totalAR == b.totalAR
      && a.serviceFee == b.serviceFee
      && a.reserve == b.reserve
      && a.discountInterest <= b.discountInterest
      && a.netCashReceived >= b.netCashReceived
  {
  }

  /**
   Whatever the advance and the rates, the tenor only enters the interest: the
   receivable, the service fee and the reserve are the same for any two tenors.
   */
  lemma TenorIndependent(
    advanceAmount: real, advanceRate: real, discountRateAnnual: real,
    serviceFeeRate: real, oneTenor: real, otherTenor: real)
    requires ValidAdvanceRate(advanceRate)
    ensures var a := CalculateFactoringCosts(advanceAmount, advanceRate, discountRateAnnual,
                                              serviceFeeRate, oneTenor).value;
            var b := CalculateFactoringCosts(advanceAmount, advanceRate, discountRateAnnual,
                                              serviceFeeRate, otherTenor).value;
      && a.advanceAmount == b.advanceAmount
      && a.totalAR == b.totalAR
      && a.serviceFee == b.serviceFee
      && a.reserve == b.reserve
  {
  }

  /** With a positive advance and discount rate the net cash strictly falls as the tenor grows. */
  lemma TenorStrictlyCostly(
    advanceAmount: real, advanceRate: real, discountRateAnnual: real,
    serviceFeeRate: real, shorter: real, longer: real)
    requires ValidAdvanceRate(advanceRate)
    requires advanceAmount > 0.0 && discountRateAnnual > 0.0
    requires shorter < longer
    ensures var a := CalculateFactoringCosts(advanceAmount, advanceRate, discountRateAnnual,
                                              serviceFeeRate, shorter).value;
            var b := CalculateFactoringCosts(advanceAmount, advanceRate, discountRateAnnual,
                                              serviceFeeRate, longer).value;
      a.netCashReceived > b.netCashReceived
  {
  }
}
