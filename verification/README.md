# Factoring cost calculator — a Dafny model

This project models the calculation at the core of a small invoice-factoring
calculator page. The client is advanced an amount of money against its
receivables. From that amount, the advance rate, the service-fee rate, the
annual discount rate and the tenor in months, the calculation returns a
record of seven figures: the advance itself, echoed unchanged, and six derived
amounts:

- the total receivable (the advance divided by the advance rate);
- the service fee (a share of the receivable);
- the discount interest (simple annual interest on the advance for the tenor);
- the total cost (fee plus interest);
- the net cash the client receives (advance minus cost);
- the reserve the factor withholds (receivable minus advance).

An advance rate outside (0, 1] yields no record at all.

The Dafny modules follow the program's structure:

- `Factoring` (`factoring.dfy`) holds the calculation. It returns
  `Option<FactoringResult>`, with `None` for a rejected advance rate. It also
  holds the functions that recover the rates from a record, the calculation's
  inverse.
- `Report` (`report.dfy`) holds the labelled dictionary the calculation
  returns. It gives each label, the order of the entries and lookup by label.
  It also holds the three bars the chart reads back by label.
- `Sidebar` (`sidebar.dfy`) holds the page's widget values and their bounds.
  It converts percent to fraction, and calls the calculation only when the
  advance amount and the advance rate are both non-zero.
- `Wrappers` (`wrappers.dfy`) holds the `Option` type.

All amounts are Dafny `real`s, so the identities below are exact. Interest
uses the simple-annual convention `amount × rate × months / 12`; this is the
only convention the code uses. Inputs cannot be modified, because every
value in the model is immutable.

The code takes its parameters in the order (advance amount, advance rate,
annual discount rate, service-fee rate, tenor). The model keeps that order.
The code also accepts any advance amount, including zero and negative ones.
The model accepts them too: only the advance rate is guarded.

## Model

| member | source | states |
|---|---|---|
| Factoring.CalculateFactoringCosts | factoring_calculator.py:6-31 | No record exactly when the advance rate is outside (0, 1]. Otherwise the record is balanced: cost = fee + interest, net cash + cost = advance, advance + reserve = receivable. The advance is echoed unchanged. Receivable × rate = advance, fee × rate = advance × fee rate, and interest × 12 = advance × annual rate × months. |
| Factoring.RatesRoundTrip | factoring_calculator.py:13-15 | Inverse of the calculation: the advance and fee rates can be read back from a record exactly when the advance is non-zero. The annual discount rate can be read back too when the tenor is also non-zero. |
| Factoring.BoundaryRates | factoring_calculator.py:9-11 | A rate of 0 and a rate of 1.5 produce no record. A rate of exactly 1 produces one. |
| Factoring.FullAdvance | factoring_calculator.py:13-19 | At an advance rate of 1, the receivable equals the advance and the reserve is 0. |
| Factoring.ReserveNonNegative | factoring_calculator.py:13-19 | For a non-negative advance and a valid rate, the receivable is at least the advance and the reserve is at least 0. The reserve is 0 exactly when the rate is 1 or the advance is 0. |
| Factoring.NegativeNetCashIsReturned | factoring_calculator.py:17-18 | Every valid advance rate gets a record, and its net cash is negative exactly when the costs exceed the advance; one concrete input (100 at 50%, a 100% fee) shows such a record exists. |
| Factoring.TenorMonotone | factoring_calculator.py:13-19 | For a non-negative advance and annual rate, a longer tenor never lowers the interest and never raises the net cash. Under the same conditions, the receivable, fee and reserve are the same for both tenors. |
| Factoring.TenorIndependent | factoring_calculator.py:13-19 | For every input with a valid advance rate, whatever the advance and the rates, two tenors give the same echoed advance, receivable, fee and reserve: the tenor enters only the interest of line 15. |
| Factoring.TenorStrictlyCostly | factoring_calculator.py:15-18 | For a positive advance and annual rate, a strictly longer tenor leaves strictly less net cash. |
| Report.Label | factoring_calculator.py:22-28 | The seven dictionary keys, byte for byte. Its contract is carried by `Report.LabelsDistinct` (no two metrics share a key) and `Report.Items` (each key stands beside its own metric's amount). |
| Report.Position | factoring_calculator.py:21-29 | Every metric has a place in the record's listing, and that place holds that metric. |
| Report.LabelsDistinct | factoring_calculator.py:21-29 | Two metrics share a label only if they are the same metric, so the record is a well-formed dictionary. |
| Report.MetricsListedOnce | factoring_calculator.py:21-29 | Every metric appears in the listing, and no metric appears twice. |
| Report.Items | factoring_calculator.py:21-29 | The record has one entry per metric, in the listing's order, each holding that metric's label and that metric's amount. |
| Report.Lookup | factoring_calculator.py:37-40 | Indexing by label finds nothing exactly when no entry has that label. Otherwise it returns the amount of an entry stored under that label. |
| Report.LookupFindsValue | factoring_calculator.py:21-29 | Looking up a metric's label in a record returns that metric's field. |
| Report.AdvanceAmountEchoed | factoring_calculator.py:23 | The advance amount passed in is what is stored under the advance-amount label. |
| Report.ChartBars | factoring_calculator.py:37-44 | The three bars read by label: there are bars exactly when the net-cash, cost and reserve labels are all present, and each bar is an amount stored under its own label. `Report.ChartReadsRecord` shows that on a record they are the net cash, cost and reserve. |
| Report.ChartTotal | factoring_calculator.py:40 | The title amount read by label: present exactly when an entry carries the total-receivable label, and then the amount of such an entry. `Report.ChartReadsRecord` shows that on a record it is the receivable. |
| Report.ChartReadsRecord | factoring_calculator.py:37-40 | The chart's three bars, read by label, are net cash, cost and reserve. Its title amount is the receivable. |
| Report.ChartBarsSumToTotal | factoring_calculator.py:37-44 | For any balanced record, so for any record the calculation produces, net cash + cost + reserve adds up to the receivable in the chart's title. |
| Sidebar.WithinWidgetBounds | factoring_calculator.py:71-75 | The ranges the widgets allow: an advance of at least 1 with no maximum, an advance rate of 50–95 percent, a fee of 0.5–5.0 percent, an annual rate of 5.0–25.0 percent and a tenor of 1–12 months. Its consequences are stated by `Sidebar.WidgetInputsAlwaysCalculate`, and `Sidebar.DefaultInputsResult` shows the starting values lie inside it. |
| Sidebar.PercentToFraction | factoring_calculator.py:78-80 | The fraction times 100 is the percentage. A percentage in (0, 100] becomes a fraction that passes the advance-rate guard, and no other percentage does. |
| Sidebar.Evaluate | factoring_calculator.py:78-91 | The page gets a record exactly when the advance amount is non-zero and the advance-rate percentage is in (0, 100]. The record is balanced and its advance is the amount entered. Receivable × rate% = advance × 100, fee × rate% = advance × fee%, and interest × 1200 = advance × discount% × months, so each converted percentage and the tenor reach the calculation in their own place. |
| Sidebar.WidgetInputsAlwaysCalculate | factoring_calculator.py:71-91 | Every combination the widgets allow produces a record. In it, 0 < fee ≤ a tenth of the advance, 0 < interest ≤ a quarter of it, cost > 0, net cash ≥ 65% of the advance, and reserve > 0. |
| Sidebar.FeeBound | factoring_calculator.py:14 | A positive fee rate of at most 5% at an advance rate of at least 50% gives a positive fee of at most a tenth of a positive advance. |
| Sidebar.InterestBound | factoring_calculator.py:15 | A positive annual rate of at most 25% over a positive tenor of at most 12 months gives positive interest of at most a quarter of a positive advance. |
| Sidebar.DefaultInputsResult | factoring_calculator.py:71-80 | The widgets' starting values (120000, 80%, 2.0%, 12.0%, 3 months) are within bounds. They give receivable 150000, fee 3000, interest 3600, cost 6600, net cash 113400 and reserve 30000. |

## Left out

- The Streamlit page setup, sidebar headers, metrics, detail table and markdown (factoring_calculator.py:63-113 apart from the widget bounds, the conversions and the call). These are display and I/O.
- The error message shown on a rejected advance rate (factoring_calculator.py:10). It is a UI side effect; the model keeps only the `None` it returns.
- The plotting in `create_visualization` (factoring_calculator.py:47-60), i.e. bar colours, label positions and titles. Only the values it reads from the record are modelled.
- Number formatting with two decimals and thousands separators. This is display only.
- IEEE-754 floating point. The identities are proved over exact reals. Over Python floats they hold only up to rounding for finite inputs whose results stay finite. NaN and infinite inputs and overflow are not modelled. A NaN advance rate fails both comparisons of the guard (factoring_calculator.py:9), so the program returns a record of NaNs where the model returns no record. The advance widget has no maximum (factoring_calculator.py:71), so a huge advance can overflow the receivable at line 13 to infinity, where the bounds of `Sidebar.WidgetInputsAlwaysCalculate` no longer hold.
- The widget step sizes (5 percent, 0.1 percent, 1 month). Only the ranges are modelled. Steps only narrow the allowed set, so every property proved for the ranges holds for the stepped values too.
- Report.Lookup: returns no value for a missing label, where `results[...]` (factoring_calculator.py:37-40) would raise `KeyError`. This cannot happen on the page, because every record carries all seven labels (`Report.LookupFindsValue`).
- The `if results:` test (factoring_calculator.py:93). A dictionary with seven entries is always truthy, so every `Some` that `Sidebar.Evaluate` returns is displayed.
- The code has no letter-of-credit comparison, no sweeps over tenors or interest rates, no percentage efficiency ratios and no 30/360 day-count interest convention, so the model has none either.
