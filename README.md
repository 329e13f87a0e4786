# A verified model of the FIFO portfolio backtester

The system is a backtester for systematic investment plans (SIPs) in
mutual funds. A `Portfolio` holds cash and one FIFO ledger of purchase lots
per fund, plus an append-only log of trades.

- **Sell:** a sale takes units oldest lot first. Each slice pays a tiered
  exit load set by its own holding period, plus a securities-transaction
  tax (STT) and a transaction fee, each in basis points of the slice value.
- **Buy:** a purchase pays the transaction fee and appends one lot.
- **Rebalance:** the portfolio is valued once. Every overweight fund sells
  its excess, up to a turnover cap. Then every underweight fund buys out of
  one shared budget.
- **Weights:** `normalize_weights` clips and rescales a weight series.
  `regime_adjust_weights` scales the weights by `risk_off_scale` (0.5 by
  default) and renormalizes them when the latest India VIX close is above
  a threshold.

The model has two layers:

- **Value layer.** In `Fifo`, `Bookkeeping` and `Rebalancing`, every
  operation is a function from one `Book` (cash, ledgers, trade log) to the
  next, and the properties are lemmas about those functions.
- **Object layer.** In `Backtester`, the `Portfolio` class has the source's
  mutable fields and its loops. Every method is proved to leave the object
  in exactly the state the value layer computes. So every lemma of the value
  layer holds of the object.

Modules:

| module | file | what |
|---|---|---|
| `Wrappers` | wrappers.dfy | `Option`, `Result` |
| `Reals` | reals.dfy | minimum, maximum, the distributive law |
| `Costs` | costs.dfy | exit-load schedule lookup, fees in basis points |
| `Fifo` | fifo.dfy | FIFO depletion of one ledger as a fold, its priced report and trace |
| `Weights` | weights.dfy | weight series, `normalize_weights` |
| `Strategies` | strategies.dfy | `regime_adjust_weights` |
| `Bookkeeping` | bookkeeping.dfy | `Book`, `Trade`, `sell`, `buy`, `total_value` and `current_weights` on values |
| `Rebalancing` | rebalancing.dfy | `rebalance` on values: sell orders, buy plan, both phases |
| `Backtester` | backtester.dfy | the `Portfolio` class with its loops |
| `Scenarios` | scenarios.dfy | the FIFO sale of tests/test_fifo_logic.py worked out |

Two behaviours of the code are modelled as written:

- The turnover cap of `rebalance` applies fund by fund on the sell side
  (src/backtester.py:182). It is not one aggregate cap: several overweight
  funds can each sell the full cap (`Rebalancing.SellCapIsPerFund`). The
  buys do share one budget that shrinks with every purchase.
- The SELL trade's `exit_load` field holds the sale's total costs: exit
  load plus STT plus fee (src/backtester.py:147). Its `stt` and `txn_cost`
  fields are recomputed from the aggregate gross value (lines 148-149).
  `Bookkeeping.SellEffects` proves that they equal the slice-by-slice sums.

## Model

| member | source | states |
|---|---|---|
| Backtester.Portfolio.constructor | src/backtester.py:39-53 | a new portfolio holds the given cash, an empty ledger for every listed fund and an empty trade log, and is well formed |
| Backtester.Portfolio.TotalValue | src/backtester.py:61-65 | the loop returns cash plus units times price summed over the funds, or the first fund whose price or ledger is missing (price looked up first); the object is unchanged |
| Backtester.Portfolio.ScanExitLoad | src/backtester.py:98-103 | the scan returns the rate of the first tier, in schedule order, whose day limit covers the holding period, else 0 |
| Backtester.Portfolio.PriceSlice | src/backtester.py:96-125 | one pass takes min(lot units, units left) and prices that slice; applying its results to the loop state gives exactly one `Advance` step |
| Backtester.Portfolio.SellFifo | src/backtester.py:82-125 | the sell loop ends with exactly the units sold, gross value, three fee totals, kept lots and trace (when verbose) of the FIFO depletion `Deplete` |
| Backtester.Portfolio.ApplyCostsOnSell | src/backtester.py:67-130 | returns units sold, gross, total costs, net cash and trace as `Deplete` computes them, and replaces only that fund's ledger with the lots kept |
| Backtester.Portfolio.Sell | src/backtester.py:132-153 | an unknown fund is reported with nothing changed; otherwise the object becomes the `SellBook` result (proceeds and one SELL trade only when units were sold) and stays well formed |
| Backtester.Portfolio.Buy | src/backtester.py:155-165 | a non-positive amount or a purchase of no units changes nothing; else an unknown fund is reported; else the object becomes the `BuyBook` result and stays well formed |
| Backtester.Portfolio.CurrentWeights | src/backtester.py:167-171 | returns the valuation's fault, or every fund's position value over the total (all zeros when the total is not positive); nothing changes |
| Backtester.Portfolio.Rebalance | src/backtester.py:173-192 | a fund without a price is reported before any trade; otherwise the object ends in the `RebalanceBook` state and stays well formed |
| Backtester.Portfolio.SellOverweight | src/backtester.py:179-184 | the sell loop leaves the object in the `SellPhase` state: each overweight fund in order sells min(excess, total * cap) worth at its price |
| Backtester.Portfolio.BuyUnderweight | src/backtester.py:186-192 | the buy loop leaves the object in the `BuyPhase` state: buys in fund order from one budget, min(post-sale cash, total * cap), lowered by every spend |
| Backtester.SellPhaseStep | src/backtester.py:179-184 | adding one fund to the sell loop adds that fund's capped sale exactly when it is overweight, and leaves the book as it was otherwise |
| Backtester.BuyPhaseStep | src/backtester.py:186-192 | adding one fund to the buy loop buys min(shortfall, budget left) exactly when it is underweight and budget remains, and lowers the budget by that amount |
| Costs.ExitBpsFirstMatch | src/backtester.py:98-103 | the exit-load rate is that of the first covering tier, 0 when no tier covers the period, and always 0 or some tier's rate (the schedule is not sorted first) |
| Costs.FeeBounds | src/backtester.py:104-106 | a fee is non-negative for non-negative value and rate, at most the value for a rate up to 10,000 bps, and 0 for a zero rate or value |
| Costs.SliceFeesBounded | src/backtester.py:98-106 | the three fees on one slice are non-negative, and under bounded rates together at most the slice value |
| Fifo.ConsumeIdle | src/backtester.py:92-95 | with nothing to sell every lot is kept as it is and no slice is taken |
| Fifo.ConsumeConservesUnits | src/backtester.py:92-125 | units kept = units held - units taken, and units left = units requested - units taken |
| Fifo.ConsumeFifo | src/backtester.py:92-125 | slices take lots[..n] in order, all used up but possibly the last; lots[n..] are kept untouched behind, at most, the last one reduced; while units are still to sell every lot is used up |
| Fifo.RunIsDeplete | src/backtester.py:82-125 | the loop with its running totals, run over the whole ledger, yields exactly the slice-by-slice report `Deplete` and the units `Consume` leaves |
| Fifo.DepleteSnoc | src/backtester.py:92-125 | the report of a ledger with one more lot is one more loop pass over the report of the ledger |
| Fifo.DepleteConservesUnits | src/backtester.py:122-127 | the ledger after a sale holds what it held before minus the units sold |
| Fifo.DepleteSoldUnits | src/backtester.py:96-112 | on a ledger without empty lots a sale sells min(requested, held) units, and nothing for a request <= 0 |
| Fifo.DepleteKeepsLedger | src/backtester.py:122-124 | a ledger of one fund with positive lots stays one: no zero-unit lot is kept, no lot changes fund |
| Fifo.DepleteFifo | src/backtester.py:92-124 | trace line j is lot j; every traced lot but the last was used up; the ledger left is lots[n..] behind, at most, the last traced lot with fewer units |
| Fifo.DepletePricing | src/backtester.py:96-106 | trace line j is lot j's slice priced at the sale price, with the exit load of that lot's own holding period |
| Fifo.TraceChronological | src/backtester.py:114-120 | from a chronological ledger the trace lists lot dates oldest first |
| Fifo.DepleteKeepsDates | src/backtester.py:121-127 | the lots left after a sale carry the purchase dates of the ledger's last lots, in order, so a ledger kept oldest first stays oldest first |
| Fifo.DepleteTotals | src/backtester.py:104-112 | gross value = units sold * price; the STT and fee totals summed per slice equal the rates applied once to the aggregate gross |
| Fifo.DepleteCostsBounded | src/backtester.py:104-129 | at non-negative rates and price every total is non-negative, and under bounded rates the net proceeds are too |
| Fifo.DepleteNoOp | src/backtester.py:92-95 | nothing is sold exactly when the ledger is empty or the request is <= 0, and then the ledger is untouched and nothing is charged or traced |
| Fifo.SumUnitsPositive | src/backtester.py:55-56 | the position of a ledger without empty lots is non-negative, and 0 exactly when the ledger is empty |
| Bookkeeping.OpeningWellFormed | src/backtester.py:51-53 | the opening book is well formed, with an empty ledger per listed fund |
| Bookkeeping.Holdings | src/backtester.py:61-65 | a successful valuation found a price and a ledger for every listed fund |
| Bookkeeping.HoldingsFirstFault | src/backtester.py:63-64 | once a prefix of the funds fails to value, the whole valuation fails with the same fault |
| Bookkeeping.HoldingsFault | src/backtester.py:63-64 | a failed valuation names a listed fund that has no price (MissingPrice) or no ledger (UnknownFund) |
| Bookkeeping.TotalValueOk | src/backtester.py:61-65 | with every ledger present, the valuation succeeds iff every fund has a price, and then equals cash plus the position values; otherwise it is a missing price |
| Bookkeeping.SellKeepsWellFormed | src/backtester.py:127 | a sale keeps the book well formed |
| Bookkeeping.SellNoOp | src/backtester.py:132-137 | a sale of a known fund leaves the book unchanged iff its ledger is empty or the request is <= 0 |
| Bookkeeping.SellOtherLedgers | src/backtester.py:127 | only the sold fund's ledger changes |
| Bookkeeping.SellEffects | src/backtester.py:132-153 | a sale from a ledger without empty lots that sells: min(requested, held) units, ledger replaced, position down by that, cash up by gross minus costs, one SELL trade with exitLoad = total costs, stt and txnCost = fee of gross, trace iff verbose |
| Bookkeeping.SellValue | src/backtester.py:127-138 | for distinct priced funds, selling at the market price lowers the total value by exactly exit load + STT + fee |
| Bookkeeping.BuyNoOp | src/backtester.py:155-162 | a non-positive amount or a purchase of no units changes nothing, known fund or not |
| Bookkeeping.BuyUnknownFund | src/backtester.py:160-163 | a purchase that buys units of a fund without a ledger raises |
| Bookkeeping.BuyEffects | src/backtester.py:158-165 | a purchase appends one lot at the end of the ledger; its units at the price plus the fee equal the amount; cash falls by the amount; the BUY trade records fee and cash flow -amount |
| Bookkeeping.BuyKeepsWellFormed | src/backtester.py:163 | a purchase keeps the book well formed |
| Bookkeeping.BuyKeepsDateOrder | src/backtester.py:163 | a purchase dated no earlier than every lot held puts its lot at the end of the ledger: every ledger stays oldest first, no lot is dated after the purchase, and the same funds keep a ledger |
| Bookkeeping.SellKeepsDateOrder | src/backtester.py:121-127 | a sale keeps every ledger oldest first and the same funds with a ledger, and leaves no lot dated later than the lots held |
| Bookkeeping.BuyAllKeepsDateOrder | src/backtester.py:155-165 | `buy` called for purchases made oldest first, none older than the lots held, keeps every ledger oldest first, with no lot dated after the last purchase |
| Bookkeeping.PurchasesThenSale | tests/test_fifo_logic.py:8-19 | after purchases made oldest first into a new portfolio, a sale's trace lists lot dates oldest first, and every ledger is still oldest first afterwards |
| Bookkeeping.BuyValue | src/backtester.py:158-165 | for distinct priced funds, buying at the market price lowers the total value by exactly the fee |
| Bookkeeping.WeightsKeys | src/backtester.py:171 | the weight series is labelled by the funds, in order |
| Bookkeeping.WeightsAtEntry | src/backtester.py:169-171 | weight i is fund i's position value over the total, or 0 when the total is not positive |
| Bookkeeping.WeightsSum | src/backtester.py:167-171 | `current_weights` is all zeros for a non-positive total, and otherwise sums to the invested share (total - cash) / total |
| Bookkeeping.WeightsNonNegative | src/backtester.py:167-171 | at non-negative prices no weight of a well-formed book is negative |
| Rebalancing.DeltaOfWeights | src/backtester.py:176-180 | a fund's delta is (target weight - current weight) * total, with a fund missing from the targets at weight 0 |
| Rebalancing.SellOrdersBounded | src/backtester.py:179-183 | every sell is for an overweight fund, and is at most its excess and at most total * cap, positive when the cap is |
| Rebalancing.SellCapIsPerFund | src/backtester.py:182 | two overweight funds each sell the full cap, so the sells add up to twice total * cap |
| Rebalancing.SellOrdersPrefix | src/backtester.py:179-184 | the sells for a prefix of the funds are a prefix of all the sells |
| Rebalancing.BuyPlanBudget | src/backtester.py:186-192 | amounts handed out + budget left = budget; nothing from a non-positive budget; the rest never goes negative; every buy is positive, for an underweight fund, and at most its shortfall |
| Rebalancing.BuysWithinBudget | src/backtester.py:186-192 | the buys add up to between 0 and max(budget, 0) |
| Rebalancing.BuyPlanPrefix | src/backtester.py:186-192 | the buys for a prefix of the funds are a prefix of all the buys |
| Rebalancing.BuyPhaseCash | src/backtester.py:186-192 | the buy phase never raises the cash, keeps non-negative cash non-negative, and spends at most total * cap |
| Rebalancing.RebalanceOutcome | src/backtester.py:173-177 | a rebalance of a well-formed book fails iff some fund has no price, and then with that fault |
| Rebalancing.RebalanceWellFormed | src/backtester.py:173-192 | a successful rebalance of a well-formed book leaves it well formed |
| Rebalancing.RebalanceKeepsCash | src/backtester.py:186-192 | after the sells, the buys never raise the cash, keep non-negative cash non-negative, and spend at most total * cap |
| Weights.GetFirstMatch | src/backtester.py:180 | `get` returns the default for a missing label and the first matching value otherwise |
| Weights.NormalizeKeepsKeys | src/backtester.py:195-202 | normalizing keeps the labels and their order |
| Weights.NormalizeNonNegative | src/backtester.py:195-202 | with non-negative bounds every normalized weight is non-negative |
| Weights.NormalizeSumsToOne | src/backtester.py:195-202 | with min >= 0, max > 0 and a positive clipped sum, the normalized weights sum to 1 |
| Weights.NormalizeDefaultBounds | src/backtester.py:195-202 | with the default bounds and a positive clipped sum, every weight is in [0, 1] and they sum to 1 |
| Weights.NormalizeMayExceedMax | src/backtester.py:199-201 | the second rescaling can lift weights back above max_w: [0.5, 0.5] with max 0.1 comes back unchanged |
| Weights.NormalizeNegativeLowerBound | src/backtester.py:196-202 | with a negative lower bound the result can have a negative sum |
| Weights.NormalizeNegativeUpperBound | src/backtester.py:199-202 | with a negative upper bound every weight comes out negative |
| Weights.NormalizeScaleInvariant | src/backtester.py:195-202 | with lower bound 0, scaling every weight by k > 0 does not change the result |
| Strategies.RegimeCases | src/strategies.py:24-31 | with no VIX history, or a close at or below the threshold, the targets pass through; above it they are scaled and normalized with bounds 0 and 1 |
| Strategies.RiskOffShape | src/strategies.py:28-30 | risk-off weights keep their labels, are non-negative, and sum to 1 once some scaled weight is positive |
| Strategies.RiskOffScaleCancels | src/strategies.py:28-30 | for a positive risk-off scale the scaling cancels: risk-off is plain normalization of the targets |
| Strategies.DefaultRegime | src/strategies.py:15-31 | at the default threshold 25 and scale 0.5, a close above 25 gives the normalized targets (the halving cancels out); no history or a calmer close gives the targets themselves |
| Scenarios.ThreePurchases | tests/test_fifo_logic.py:9-12 | three buys of 1000 at 10 with a 2 bps fee give three lots of 99.98 units, cash -3000 and three trades |
| Scenarios.FifoSellWithLogs | tests/test_fifo_logic.py:14-25 | selling 150 at 12 uses up the January lot, then 50.02 units of February; the trace names those two lots in order; fewer than 150 units remain; the SELL trade shows a positive exit load and fee |

## Left out

- Floating point: all amounts and prices are mathematical reals. Rounding in the sums and in the two-decimal log formatting is not modelled.
- The FIFO log strings become structured `TraceLine` records: lot date, units, price and the three fees. The text formatting of src/backtester.py:115-119 is not modelled.
- Dates are whole day numbers. A holding period is a difference of day numbers, standing for `Timestamp` subtraction and `.days`.
- pandas Series become sequences of labelled entries (`Weights.Entry`). `get` returns the first entry with the label. Duplicate labels are not modelled, nor alignment by label when the two series' labels differ.
- The constructor: the `lots` and `trade_log` fields are not accepted pre-filled. A new portfolio starts with empty ledgers and log. `__post_init__`'s `setdefault` on a caller-supplied dictionary is not modelled.
- The `date` argument of `total_value` is unused by the source and is dropped.
- `position_units` and `position_value` are not methods of the class. They are `Bookkeeping.Position` and the `SumUnits(...) * nav` term of `Bookkeeping.Holdings`; `SellEffects` and `BuyEffects` state their changes.
- Backtester.Portfolio.Buy: requires a non-zero price for a positive amount. The source divides by the price, which raises or yields an infinity.
- Backtester.Portfolio.Rebalance: requires a non-zero price for every listed fund, for the same division (src/backtester.py:183).
- Bookkeeping.SellValue and Bookkeeping.BuyValue: stated for a fund list without repeats. With a repeated fund the source counts that position twice.
- Weights.NormalizeSumsToOne: stated only under min >= 0 and max > 0. `NormalizeNegativeLowerBound` and `NormalizeNegativeUpperBound` show the claim fails otherwise.
- The VIX lookup `latest_vix` (src/data_engine.py) is not part of this model. `regime_adjust_weights` takes its result as a parameter: `None` for an empty history, `Some(v)` for the latest close.
- Loading CSV files, the metrics module, main.py, check_env.py and the SARIMAX forecasting script are not part of this model.
- The inner loops are separate methods: the exit-load scan, slice pricing, and the two loops of `rebalance`. The source writes them inline; their behaviour is the same.
- Exceptions become values: a missing ledger or price is a `Fault` returned before anything changes. The source raises `KeyError` at the same point.
