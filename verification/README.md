# Loan schedule model of the financing simulators

This project models the arithmetic core of the two financing simulators in
`help.py`:

- **Housing (`simulador_casa`).** The housing simulator applies a recomputed
  constant amortization. Each month the outstanding balance is corrected by
  the referential rate (TR) and clamped at zero. The effective total cost
  (CET) is then charged on the corrected balance, and the balance is
  amortized by the corrected balance divided by the months still to go. A
  closing balance under one cent is snapped to zero. The last month is forced
  to close at zero. Once the balance falls to half a cent or less before the
  term ends, every later month is written as a zero record and the loop
  stops. The inputs are validated first, in a fixed order. A down payment
  that covers the whole price yields an empty schedule. Cumulative columns
  and totals are taken over the finished schedule.
- **Vehicle (`simulador_carro`).** The closed-form part of the vehicle
  simulator is modelled. The price is split into down payment and principal.
  An IOF tax overlay, a flat 0.38% plus 0.0082% a day over 30 days a month,
  capped at 3.38%, inflates the financed amount. Totals are computed from the
  installment column.

Amounts and rates are exact `real`s. The modules are:

- `Series` (series.dfy): the column total and running total that pandas'
  `sum` and `cumsum` compute.
- `Vehicle` (vehicle.dfy): the vehicle simulator's down-payment split, IOF
  and totals.
- `Housing` (housing.dfy): the housing simulator.
  - One month is the function `Housing.Month`.
  - The whole schedule is the recursive specification `Housing.Months` /
    `Housing.HouseSimulation`.
  - The imperative loop is `Housing.SimulateHouse`, with its parts
    `Housing.RunMonths`, `Housing.CloseMonth` and `Housing.FillZeros`. It is
    proved to produce exactly that specification.
- `Wrappers` (wrappers.dfy): `Option`.

The housing simulator takes annual rates and converts them to monthly rates
with `(1 + annual)^(1/12) - 1`. The model takes the monthly rates as inputs
(see Left out). That conversion is strictly increasing and maps 0 to 0. So
the source's check "annual rate < 0" is the same as "monthly rate < 0", and
`Housing.Validate` checks the monthly rates.

## Model

| member | source | states |
|---|---|---|
| Housing.Validate | help.py:119-134 | The first failing check, in the order CET < 0, term <= 0, price <= 0, down-payment fraction outside [0, 1], TR < 0; each error is returned exactly when its check fails and all earlier ones pass, and None exactly when every input is in range |
| Housing.Financed | help.py:137-138 | For a validated price and fraction the financed amount plus the down payment is the price, lies in [0, price], and is zero exactly when the fraction is 1 |
| Housing.Month | help.py:183-234 | One month: installment = interest + amortization; a balance at or below 0.005 is not corrected; above it the correction is balance times TR; the corrected balance is 0 or above 0.005, and when it is 0 nothing is charged or repaid; otherwise interest = corrected balance times CET and amortization times the months to go equals the corrected balance; the closing balance is 0 or at least 0.01, never above the corrected balance, equals corrected minus amortization unless that was snapped from under one cent, and is 0 in the final month |
| Housing.CloseMonth | help.py:183-234 | The loop body's sequence of updates (correction, clamp, normalisation, amortization, snap, final-month settlement) computes exactly `Month` |
| Housing.FillZeros | help.py:249-257 | The early-payoff fill appends one zero record for each remaining month |
| Housing.RunMonths | help.py:165-258 | The month loop, with its early-payoff fill and break, produces exactly the schedule `Months(1, t, financed, ...)` |
| Housing.SimulateHouse | help.py:98-162 | The simulator refuses invalid input, returns an empty schedule when the down payment covers the price, and otherwise runs the month loop; its result equals the specification `HouseSimulation` |
| Housing.ZeroRecordIsMonth | help.py:251-257 | A zero fill record is exactly what a month computes from a zero opening balance |
| Housing.MonthsLength | help.py:182-258 | The schedule for months i .. t has one record per month, early payoff or not |
| Housing.MonthsChained | help.py:182-258 | Records are numbered consecutively, every installment is interest plus amortization, each month opens with the previous month's closing balance, the first opens with the given balance and the last closes at zero |
| Housing.ScheduleChained | help.py:119-258 | A simulation is refused exactly when validation fails; otherwise entry + financed = price, the schedule is empty exactly when the fraction is 1, and otherwise it has t chained records opening with the financed amount |
| Housing.MonthsAreSteps | help.py:182-258 | Every record of the schedule, the zero fill records included, is the month step applied to that record's own opening balance, so every property of `Month` holds row by row |
| Housing.MonthsEarlyPayoff | help.py:247-258 | After any month that closes at or below 0.005, every later record is a zero record |
| Housing.MonthsRepayBalance | help.py:186-234 | Conservation of principal: over the schedule, the opening balance plus all TR corrections minus all amortization lies in [0, 0.01) |
| Housing.ZeroCetNoInterest | help.py:168-204 | With a zero CET no month charges interest |
| Housing.ZeroRatesMonth | help.py:186-223 | With zero rates, a month whose balance is `share` times the months to go (share >= 0.01) repays exactly `share`, charges no interest and closes with `share` times the months left after it |
| Housing.ZeroRatesConstantAmortization | help.py:182-258 | With zero rates the schedule is plain constant amortization: t records, each repaying `share` with no interest, the balance falling linearly to zero |
| Housing.ZeroRatesScenario | help.py:182-258 | 12000 over 12 months at zero rates repays 1000 a month and closes at zero |
| Housing.MonthSigns | help.py:186-216 | With non-negative rates the correction, interest, amortization and installment of a month are all non-negative |
| Housing.StepsNonNegative | help.py:182-258 | The same holds for every row of every column of a schedule made of month steps |
| Housing.DerivedColumns | help.py:265-267 | Row k of each cumulative column (interest, amortization, TR correction) is the total of that column over rows 0 .. k |
| Housing.CumulativeColumns | help.py:265-267 | In every simulated schedule the cumulative columns never decrease, and the last cumulative amortization equals financed + last cumulative correction, less under one cent |
| Housing.MonthsInstallmentsReconcile | help.py:182-258 | Over the schedule, opening balance + total interest + total correction - total installments lies in [0, 0.01) |
| Housing.ScheduleChargesNonNegative | help.py:186-204 | Over every simulated schedule the total interest and the total TR correction are non-negative |
| Housing.PaidCoversPrice | help.py:308-311 | For every simulation that is not refused, the total paid (installments plus down payment) and the ratio times the price both exceed the price minus one cent: the buyer never pays less than the cash price, bar the cent the snaps can drop |
| Housing.TotalsReconcile | help.py:308-311 | For every simulated schedule, price + total interest + total correction - total paid lies in [0, 0.01) |
| Series.PrefixSums | help.py:265-267 | The running total has one entry per row and entry k is the total of rows 0 .. k |
| Series.PrefixSumsLast | help.py:51-52 | The last running total is the column total |
| Series.PrefixSumsMonotone | help.py:265-267 | The running total of a column with no negative row never decreases |
| Series.SumPointwise | help.py:308-309 | The total of a row-wise sum of two columns is the sum of their totals |
| Vehicle.IofRate | help.py:21-24 | The IOF rate never exceeds 3.38%, is at least 0.38% for a non-negative term, equals 0.38% + 0.0082% * 30t up to 12 months, and reaches the cap exactly from month 13 on |
| Vehicle.IofRateMonotone | help.py:21-24 | A longer term never has a lower IOF rate |
| Vehicle.Financing | help.py:17-27 | Entry = price * fraction, entry + principal = price, financed = principal * (1 + IOF rate), and for a non-negative term the financed amount is zero exactly when the principal is |
| Vehicle.FinancedBounds | help.py:25-27 | For a non-negative principal and term the financed amount lies between the principal and the principal times 1.0338 |
| Vehicle.CappedScenario | help.py:17-27 | 50000 over 24 months with no down payment pays the capped 3.38% and finances 51690 |
| Vehicle.RatioAtLeastOne | help.py:83-85 | For a positive price the ratio of the total paid to the price exists, and it is at least 1 exactly when the installments cover the principal before IOF |

## Left out

- Rate conversion (help.py:168-176): the annual-to-monthly conversion uses `math.pow` over floating point. Monthly rates are inputs of the model, and the validation of the annual rates is modelled on the monthly rates (the sign is the same).
- Rounding (help.py:44-47, 238-244): the records hold `round(x, 2)` of each value. The model keeps the unrounded values, so the cumulative columns and totals are taken over unrounded values.
- Floating point: all amounts are exact reals. In exact arithmetic the final-month settlement (help.py:228-234) never fires, because the last month amortizes the corrected balance divided by 1. It is modelled all the same.
- The vehicle simulator's Price table (help.py:34-48): `numpy_financial` `pmt`/`ipmt`/`ppmt` are foreign calls. Only the financed amount they amortize, the cumulative columns (`Series.PrefixSums`) and the totals over the installment column are modelled.
- Vehicle.Totals: when the price is zero numpy yields an infinite or undefined quotient instead of raising. The model returns None there rather than a number.
- Type checks (help.py:119-132): the `isinstance` tests are left out, because the model's inputs are typed.
- Output: printing, the plotly and seaborn charts, the residual-balance message (help.py:319-323) and the Excel export are I/O and are left out. So is the construction of the pandas DataFrame, whose empty column headers (help.py:151-156) appear as the empty schedule.
- The vehicle simulator with a term of zero or fewer months (help.py:37-51): the table is then empty and the cumulative column at help.py:51 raises a `KeyError`. The model covers only the closed-form parts (help.py:17-27, 51-52, 83-85), and `Vehicle.Financing` accepts any term.
- Default arguments: the down-payment fraction and the TR rate default to 0.0 (help.py:14, 98). `Housing.SimulateHouse` and `Vehicle.Financing` carry the same defaults. The specification function `Housing.HouseSimulation` takes every argument explicitly.
- funcao.py is not part of this model.
