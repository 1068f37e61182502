/**
 The calculation hands its amounts to the page as a dictionary from a
 bilingual label to a value. This module gives each label, the order of the
 entries, lookup by label, and the three amounts the bar chart reads back
 out of the dictionary.
 */
module Report {
  import opened Wrappers
  import opened Factoring

  /** One entry of the record. */
  datatype Metric =
    | TotalAR
    | AdvanceAmount
    | ServiceFee
    | DiscountInterest
    | TotalCosts
    | NetCashReceived
    | Reserve

  /** The label under which each amount is stored. */
  function Label(m: Metric): (text: string) {
    match m
    case TotalAR => "Trị giá Nợ phải thu (Total AR)"
    case AdvanceAmount => "Khoản tiền Ứng trước (Advance Amount)"
    case ServiceFee => "Hoa hồng phí (Service Fee)"
    case DiscountInterest => "Lãi suất chiết khấu (Discount Interest)"
    case TotalCosts => "Tổng chi phí (Total Cost)"
    case NetCashReceived => "Số tiền Thực nhận (Net Cash Received)"
    case Reserve => "Khoản Dự trữ (Reserve)"
  }

  /** The amount a record holds for a metric. */
  function Value(r: FactoringResult, m: Metric): (amount: real) {
    match m
    case TotalAR => r.totalAR
    case AdvanceAmount => r.advanceAmount
    case ServiceFee => r.serviceFee
    case DiscountInterest => r.discountInterest
    case TotalCosts => r.totalCosts
    case NetCashReceived => r.netCashReceived
    case Reserve => r.reserve
  }

  /** The metrics in the order the record lists them. */
  const Metrics: seq<Metric> :=
    [TotalAR, AdvanceAmount, ServiceFee, DiscountInterest, TotalCosts, NetCashReceived, Reserve]

  /** Where a metric sits in the listing. */
  function Position(m: Metric): (k: nat)
    ensures k < |Metrics| && Metrics[k] == m
  {
    match m
    case TotalAR => 0
    case AdvanceAmount => 1
    case ServiceFee => 2
    case DiscountInterest => 3
    case TotalCosts => 4
    case NetCashReceived => 5
    case Reserve => 6
  }

  /** No two metrics share a label, so the record is a well-formed dictionary. */
  lemma LabelsDistinct(m: Metric, n: Metric)
    ensures Label(m) == Label(n) <==> m == n
  {
  }

  /** Every metric appears in the listing, exactly once. */
  lemma MetricsListedOnce(m: Metric)
    ensures m in Metrics
    ensures forall i, j :: 0 <= i < j < |Metrics| ==> Metrics[i] != Metrics[j]
  {
  }

  /** The record as (label, amount) entries, in the record's order. */
  function Items(r: FactoringResult): (items: seq<(string, real)>)
    ensures |items| == |Metrics|
    ensures forall i :: 0 <= i < |Metrics| ==> items[i] == (Label(Metrics[i]), Value(r, Metrics[i]))
  {
    [ (Label(TotalAR), r.totalAR),
      (Label(AdvanceAmount), r.advanceAmount),
      (Label(ServiceFee), r.serviceFee),
      (Label(DiscountInterest), r.discountInterest),
      (Label(TotalCosts), r.totalCosts),
      (Label(NetCashReceived), r.netCashReceived),
      (Label(Reserve), r.reserve) ]
  }

  /** Dictionary indexing: the amount of an entry with this label, if any. */
  function Lookup(items: seq<(string, real)>, key: string): (v: Option<real>)
    ensures v.None? <==> forall i :: 0 <= i < |items| ==> items[i].0 != key
    ensures v.Some? ==> exists i :: 0 <= i < |items| && items[i] == (key, v.value)
    decreases |items|
  {
    if |items| == 0 then None
    else if items[0].0 == key then Some(items[0].1)
    else
      var rest := Lookup(items[1..], key);
      assert forall i :: 1 <= i < |items| ==> items[i] == items[1..][i - 1];
      rest
  }

  /** Looking a metric's label up in a record finds the amount stored for that metric. */
  lemma LookupFindsValue(r: FactoringResult, m: Metric)
    ensures Lookup(Items(r), Label(m)) == Some(Value(r, m))
  {
    var items := Items(r);
    var k := Position(m);
    assert items[k] == (Label(m), Value(r, m));
    forall i | 0 <= i < |items| && items[i].0 == Label(m)
      ensures i == k
    {
      LabelsDistinct(Metrics[i], m);
    }
  }

  /** The calculation stores the advance amount it was given under the advance-amount label. */
  lemma AdvanceAmountEchoed(
    advanceAmount: real, advanceRate: real, discountRateAnnual: real,
    serviceFeeRate: real, tenorMonths: real)
    requires ValidAdvanceRate(advanceRate)
    ensures var r := CalculateFactoringCosts(advanceAmount, advanceRate, discountRateAnnual,
                                              serviceFeeRate, tenorMonths).value;
      Lookup(Items(r), Label(AdvanceAmount)) == Some(advanceAmount)
  {
  }

  /** The chart's three bars, left to right. */
  datatype Bars = Bars(netCash: real, totalCosts: real, reserve: real)

  /** The three bar values added together. */
  function BarsTotal(b: Bars): (total: real) {
    b.netCash + b.totalCosts + b.reserve
  }

  /**
   The bar chart's three bars, read out of the entries by label: net cash,
   costs, reserve. There are bars exactly when all three labels are present,
   and each bar is an amount stored under its own label.
   */
  function ChartBars(items: seq<(string, real)>): (bars: Option<Bars>)
    ensures bars.None? <==>
      || (forall i :: 0 <= i < |items| ==> items[i].0 != Label(NetCashReceived))
      || (forall i :: 0 <= i < |items| ==> items[i].0 != Label(TotalCosts))
      || (forall i :: 0 <= i < |items| ==> items[i].0 != Label(Reserve))
    ensures bars.Some? ==>
      && (exists i :: 0 <= i < |items| && items[i] == (Label(NetCashReceived), bars.value.netCash))
      && (exists i :: 0 <= i < |items| && items[i] == (Label(TotalCosts), bars.value.totalCosts))
      && (exists i :: 0 <= i < |items| && items[i] == (Label(Reserve), bars.value.reserve))
  {
    var net := Lookup(items, Label(NetCashReceived));
    var costs := Lookup(items, Label(TotalCosts));
    var reserve := Lookup(items, Label(Reserve));
    if net.Some? && costs.Some? && reserve.Some? then
      Some(Bars(net.value, costs.value, reserve.value))
    else
      None
  }

  /**
   The chart's title amount, read out of the entries by label: present exactly
   when some entry carries the total-receivable label, and then that entry's amount.
   */
  function ChartTotal(items: seq<(string, real)>): (total: Option<real>)
    ensures total.None? <==> forall i :: 0 <= i < |items| ==> items[i].0 != Label(TotalAR)
    ensures total.Some? ==> exists i :: 0 <= i < |items| && items[i] == (Label(TotalAR), total.value)
  {
    Lookup(items, Label(TotalAR))
  }

  /** The chart reads net cash, costs, reserve and the total from the record's own fields. */
  lemma ChartReadsRecord(r: FactoringResult)
    ensures ChartBars(Items(r)) == Some(Bars(r.netCashReceived, r.totalCosts, r.reserve))
    ensures ChartTotal(Items(r)) == Some(r.totalAR)
  {
    LookupFindsValue(r, NetCashReceived);
    LookupFindsValue(r, TotalCosts);
    LookupFindsValue(r, Reserve);
    LookupFindsValue(r, TotalAR);
  }

  /**
   The three bars of a balanced record, and so of any record the calculation
   produces, add up to exactly the total receivable shown in the chart's title.
   */
  lemma ChartBarsSumToTotal(r: FactoringResult)
    requires Balanced(r)
    ensures && ChartBars(Items(r)).Some?
            && ChartTotal(Items(r)).Some?
            && BarsTotal(ChartBars(Items(r)).value) == ChartTotal(Items(r)).value
  {
    ChartReadsRecord(r);
  }
}
