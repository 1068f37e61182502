/**
 The page's inputs: five sidebar widgets, three of them in percent, converted
 to the fractions the calculation takes and passed to it when the advance
 amount and the advance rate are both non-zero.
 */
module Sidebar {
  import opened Wrappers
  import opened Factoring

  /** The raw widget values: the advance rate slider is whole percent, the tenor whole months. */
  datatype SidebarInputs = SidebarInputs(
    advanceAmount: real,
    advanceRatePercent: int,
    serviceFeeRatePercent: real,
    discountRatePercent: real,
    tenorMonths: int)

  /** The values the widgets start at. */
  const DefaultInputs: SidebarInputs := SidebarInputs(120000.0, 80, 2.0, 12.0, 3)

  /** The bounds each widget enforces: a minimum advance and the ranges of the four sliders. */
  predicate WithinWidgetBounds(s: SidebarInputs) {
    && s.advanceAmount >= 1.0
    && 50 <= s.advanceRatePercent <= 95
    && 0.5 <= s.serviceFeeRatePercent <= 5.0
    && 5.0 <= s.discountRatePercent <= 25.0
    && 1 <= s.tenorMonths <= 12
  }

  /** A percentage as a fraction of one. */
  function PercentToFraction(percent: real): (fraction: real)
    ensures fraction * 100.0 == percent
    ensures 0.0 < percent <= 100.0 <==> ValidAdvanceRate(fraction)
  {
    percent / 100.0
  }

  /**
   Converts the widget values and runs the calculation when the advance amount
   and the converted advance rate are both non-zero. A result comes back
   exactly when the amount is non-zero and the rate is in (0, 100] percent,
   and it is computed from the advance-rate, fee and discount percentages and
   the tenor, each in its own place.
   */
  function Evaluate(s: SidebarInputs): (r: Option<FactoringResult>)
    ensures r.Some? <==> s.advanceAmount != 0.0 && 0 < s.advanceRatePercent <= 100
    ensures r.Some? ==> r.value.advanceAmount == s.advanceAmount
    ensures r.Some? ==>
      && Balanced(r.value)
      && r.value.totalAR * (s.advanceRatePercent as real) == s.advanceAmount * 100.0
      && r.value.serviceFee * (s.advanceRatePercent as real)
         == s.advanceAmount * s.serviceFeeRatePercent
      && r.value.discountInterest * 1200.0
         == s.advanceAmount * s.discountRatePercent * (s.tenorMonths as real)
  {
    var advanceRate := PercentToFraction(s.advanceRatePercent as real);
    var serviceFeeRate := PercentToFraction(s.serviceFeeRatePercent);
    var discountRateAnnual := PercentToFraction(s.discountRatePercent);
    if s.advanceAmount != 0.0 && advanceRate != 0.0 then
      CalculateFactoringCosts(s.advanceAmount, advanceRate, discountRateAnnual,
                              serviceFeeRate, s.tenorMonths as real)
    else
      None
  }

  /**
   Whatever the widgets allow, the calculation produces a record, and in it
   the fee is at most a tenth of the advance, the interest at most a quarter,
   so the client always nets at least 65% of the advance; the reserve and the
   costs are positive.
   */
  lemma WidgetInputsAlwaysCalculate(s: SidebarInputs)
    requires WithinWidgetBounds(s)
    ensures Evaluate(s).Some?
    ensures var r := Evaluate(s).value;
      && 0.0 < r.serviceFee && r.serviceFee * 10.0 <= s.advanceAmount
      && 0.0 < r.discountInterest && r.discountInterest * 4.0 <= s.advanceAmount
      && r.totalCosts > 0.0
      && r.netCashReceived >= s.advanceAmount * 0.65
      && r.reserve > 0.0
  {
    var a := s.advanceAmount;
    var rate := PercentToFraction(s.advanceRatePercent as real);
    var fee := PercentToFraction(s.serviceFeeRatePercent);
    var disc := PercentToFraction(s.discountRatePercent);
    var t := s.tenorMonths as real;
    var r := Evaluate(s).value;
    assert 0.5 <= rate <= 0.95;
    assert 0.005 <= fee <= 0.05;
    assert 0.05 <= disc <= 0.25;
    assert r == CalculateFactoringCosts(a, rate, disc, fee, t).value;

    assert r.serviceFee * rate == a * fee;
    FeeBound(r.serviceFee, rate, a, fee);
    assert r.discountInterest * MonthsPerYear == a * disc * t;
    InterestBound(r.discountInterest, a, disc, t);
    ReserveNonNegative(a, rate, disc, fee, t);
  }

  /** A fee of at most 5% of a receivable that is at most twice the advance is at most a tenth of it. */
  lemma FeeBound(serviceFee: real, advanceRate: real, advanceAmount: real, serviceFeeRate: real)
    requires 0.5 <= advanceRate && advanceAmount > 0.0 && 0.0 < serviceFeeRate <= 0.05
    requires serviceFee * advanceRate == advanceAmount * serviceFeeRate
    ensures 0.0 < serviceFee && serviceFee * 10.0 <= advanceAmount
  {
    var charged := advanceAmount * serviceFeeRate;
    assert 0.0 < charged <= advanceAmount * 0.05;
    assert serviceFee > 0.0;
    assert serviceFee * 0.5 <= serviceFee * advanceRate;
  }

  /** At most 25% a year for at most twelve months is at most a quarter of the advance. */
  lemma InterestBound(interest: real, advanceAmount: real, discountRateAnnual: real, tenorMonths: real)
    requires advanceAmount > 0.0 && 0.0 < discountRateAnnual <= 0.25 && 0.0 < tenorMonths <= 12.0
    requires interest * MonthsPerYear == advanceAmount * discountRateAnnual * tenorMonths
    ensures 0.0 < interest && interest * 4.0 <= advanceAmount
  {
    var perYear := advanceAmount * discountRateAnnual;
    assert 0.0 < perYear <= advanceAmount * 0.25;
    assert perYear * tenorMonths > 0.0;
    assert perYear * tenorMonths <= perYear * 12.0;
    assert perYear * 12.0 <= advanceAmount * 3.0;
    assert interest * MonthsPerYear == interest * 12.0;
    assert interest * 12.0 == perYear * tenorMonths;
    assert interest * 12.0 <= advanceAmount * 3.0;
  }

  /**
   The widgets' starting values: 120000 advanced at 80%, a 2% fee and 12% a
   year for 3 months give a receivable of 150000, a fee of 3000, interest of
   3600, costs of 6600, net cash of 113400 and a reserve of 30000.
   */
  lemma DefaultInputsResult()
    ensures WithinWidgetBounds(DefaultInputs)
    ensures Evaluate(DefaultInputs)
         == Some(FactoringResult(150000.0, 120000.0, 3000.0, 3600.0, 6600.0, 113400.0, 30000.0))
  {
  }
}
