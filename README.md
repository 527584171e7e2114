# Stock-tracker portfolio valuation, modelled in Dafny

The dashboard keeps a small portfolio of holdings (ticker symbol, cost per
share, number of shares). When the user presses "update prices" it values
every holding in New Taiwan dollars and shows the totals. This model covers
that valuation pass and its summary:

- **Price lookup.** The price comes from the quote service's "last price"
  lookup. When that lookup raises, it comes from the close of the latest
  daily bar. The service itself is not modelled: the pass receives, per
  symbol, the outcome of both lookups (`Valuation.Quote`, `Valuation.PriceFeed`).
- **Currency.** A symbol containing `.TW` anywhere is a Taiwan listing in
  TWD. Every other symbol is a US listing in USD, converted at the fixed
  rate of 32.5 TWD per USD (`Symbols.CurrencyOf`, `Valuation.UsdToTwd`).
- **Per-position row.** TWD market value, TWD cost, profit and return
  percentage (`Valuation.Appraise`).
- **The loop.** One row per position, in portfolio order, plus two running
  totals (`Valuation.GetData`). It is a `while` loop whose invariant is that,
  after `i` positions, the totals are the sums over the first `i` positions.
- **The summary.** Total profit and total return (`Valuation.Summarize`,
  `Valuation.UpdatePrices`).

Every exception of the source that aborts the pass is an `Err` outcome.
`PriceUnavailable` means both lookups raised. `ZeroCostBasis` is the
unguarded division by a zero row cost. `ZeroTotalCost` is the unguarded
division by a zero total cost, which is what an empty portfolio gives.
Amounts are exact `real`s.

Files:
- `sums.dfy` (module `Sums`): sums of a column over a sequence. They are
  accumulated front-to-back as the loop does, with concatenation and
  permutation lemmas.
- `symbols.dfy` (module `Symbols`): the substring test and the currency of a
  symbol.
- `valuation.dfy` (module `Valuation`): the records, the per-position
  arithmetic, the loop, the summary and the lemmas about them.

Neither division in the code is guarded. A zero row cost (app.py:55) or a
zero total cost (app.py:83) raises, and the model fails there. The
conversion rate is the literal 32.5 (app.py:25).

## Model

| member | source | states |
|---|---|---|
| Symbols.ContainsIsSubstring | app.py:45 | the left-to-right scan reports a match exactly when the marker occurs somewhere in the symbol as a contiguous block (Python's `in` on strings) |
| Symbols.CurrencyOf | app.py:44-46 | a symbol is TWD exactly when `.TW` occurs in it and USD exactly when it does not; every symbol gets exactly one of the two |
| Symbols.SampleSymbols | app.py:11-16 | the sample's `2330.TW` and `0050.TW` are TWD and `NVDA` and `TSLA` are USD; matching is case-sensitive and anywhere in the symbol (`6488.TWO` is TWD, `2330.tw` is USD) |
| Sums.SumOfAppend | app.py:58-59 | an accumulated total over a concatenation is the sum of the totals over the parts |
| Sums.SumOfPermutation | app.py:58-59 | an accumulated total does not depend on the order of the positions, so reordering rows for display leaves the totals unchanged |
| Valuation.CurrentPrice | app.py:37-41 | the last price is used whenever that lookup succeeds, the daily close only when it raised, and no price exists only when both raised |
| Valuation.Appraise | app.py:43-71 | a row fails exactly when the TWD cost is zero; otherwise it copies symbol, cost and shares, carries the price and the currency of the symbol, its market value is the converted price times shares, profit plus cost equals market value, and return% times cost equals 100 times profit |
| Valuation.ValuePosition | app.py:30-71 | one iteration fails exactly when both lookups raise or the TWD cost is zero; both lookups raising is PriceUnavailable for that symbol, and a zero cost with a price available is ZeroCostBasis for that symbol; a successful row uses the last price when present and the daily close otherwise, and is the appraisal of the position at that price (so every column is the one `Valuation.Appraise` fixes) |
| Valuation.GetData | app.py:19-75 | the loop succeeds exactly when every position can be valued; a failure is the error of the first failing position in portfolio order; on success there is one row per position, equal to that position's valuation, in portfolio order, the cost total is the sum of the positions' TWD costs, and the value total is the sum of the rows' market values |
| Valuation.Summarize | app.py:82-83 | the summary fails exactly when the total cost is zero; otherwise cost plus profit equals value and ROI times total cost equals 100 times total profit |
| Valuation.UpdatePrices | app.py:78-83 | the whole pass succeeds exactly when every position is valued and the total cost is non-zero; a failing position's error is the first failing position's, and ZeroTotalCost is reported exactly when every position was valued but the total cost is zero (an empty portfolio always ends there); on success the total profit is the sum of the rows' profits and the ROI is 100 times total profit over total cost |
| Valuation.ReportProfitIsSumOfProfits | app.py:54-59 | for the rows of a successful pass, the sum of the profits equals the summed market value minus the sum of the positions' TWD costs, so the summary's total profit is the sum of the row profits |
| Valuation.RowCostsSum | app.py:58 | for the rows of a successful pass, the cost total (a sum over the positions) equals the sum of the TWD costs recovered from the rows' cost, shares and currency columns |
| Valuation.RowProfit | app.py:54 | a valued row's profit is its market value minus the TWD cost recovered from its own columns |
| Valuation.TotalProfitIsSumOfProfits | app.py:54-59 | a column of profits, each market value minus cost, sums to the summed market value minus the summed cost |
| Valuation.RowCostIsPositionCost | app.py:47-51 | the TWD cost recovered from a row's cost, shares and currency is the position's TWD cost, the amount the loop adds to the cost total |
| Valuation.ZeroCostExactly | app.py:47-55 | the unguarded row division fails exactly when the cost basis or the share count is zero, in either currency |
| Valuation.ReturnIsPriceGain | app.py:47-55 | for a non-zero cost basis and share count, the return% is (price minus cost basis) over the cost basis times 100, whatever the currency: the conversion rate and the share count cancel |
| Valuation.UsdIsScaledTwd | app.py:45-51 | a USD position has 32.5 times the TWD cost, market value and profit of the same position under a Taiwan symbol, fails on the same inputs, and has the same return% |
| Valuation.SampleRows | app.py:12-13 | 2000 shares of 2330.TW at cost 600 quoted at 900 give value 1,800,000 and profit 600,000; 50 shares of NVDA at cost 120 with a failed last price and a daily close of 180 give value 292,500 and profit 97,500; both return 50% |

## Left out

- The quote service (app.py:35-41) is network I/O through a library that is not part of this model. Its two lookups are an input: `Quote.lastPrice` and `Quote.dailyClose`, each `None` when the lookup raised. The source catches every exception of the first lookup, so any failure there, whatever its kind, falls back to the daily close. The feed is a function of the symbol, so within one pass two positions with the same symbol see the same quote.
- Valuation.Appraise: the model treats every zero-cost division as the `ZeroCostBasis` failure. In the source, a price that is a NumPy scalar (as the daily close is) turns that division into an infinite or undefined value instead of an exception.
- Valuation.Summarize: the model treats a zero total cost as the `ZeroTotalCost` failure. In the source, once a daily-close fallback has made the value total a NumPy scalar, the division at app.py:83 by a zero total cost gives an infinite or undefined value instead of an exception. With NumPy prices a zero-cost row does not abort the loop either, so a non-empty pass can reach that division.
- Rounding of the row columns, `round(...)` (app.py:64-70), and the number formatting of the headline figures (app.py:86-88) are left out. They are floating-point presentation; the model keeps exact, unrounded reals.
- The web UI is left out: title, caption, button widget, progress bar, metric cards, table, bar chart (app.py:6-7, 27, 73, 78, 85-98). It is presentation only. `Valuation.UpdatePrices` stands for what pressing the button computes.
- The table construction and the sort by return% for display (app.py:75, 91) are left out. They are presentation through a data-frame library. The rows stay a sequence in portfolio order; `Sums.SumOfPermutation` shows that order does not affect the totals.
- The hardcoded sample portfolio (app.py:11-16) appears only in `Symbols.SampleSymbols` and `Valuation.SampleRows`.
- Python's mixed int and float arithmetic is left out. All amounts are exact reals, so float rounding in the products and the totals is not modelled.
