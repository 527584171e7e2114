/** The valuation pass of the stock-tracker dashboard: each position of a
    portfolio is priced, converted to TWD, given a profit and a return
    percentage, and added to two running totals; the dashboard then derives
    the total profit and total return from those totals.

    Prices come from a quote service that is not part of this model: the
    pass receives, per symbol, the outcome of the service's two lookups. */
module Valuation {
  import opened Symbols
  import opened Sums

  datatype Option<T> = None | Some(value: T)

  /** One holding: a ticker symbol, the cost per share in the listing's own
      currency, and the number of shares held. */
  datatype Position = Position(symbol: string, cost: real, shares: real)

  /** What the quote service answers for one symbol: the fast "last price"
      lookup, and the closing price of the latest daily bar that serves as
      the fallback. None is a lookup that raised. */
  datatype Quote = Quote(lastPrice: Option<real>, dailyClose: Option<real>)

  /** The price feed, one quote per symbol. */
  type PriceFeed = string -> Quote

  /** One row of the dashboard's table. Symbol, cost and shares are copied
      from the position; the money columns are in TWD. */
  datatype Row = Row(
    symbol: string,
    price: real,
    cost: real,
    shares: real,
    currency: Currency,
    marketValueTwd: real,
    profitTwd: real,
    returnPct: real)

  /** What the pass hands back: the rows, in portfolio order, and the two
      running totals. */
  datatype Report = Report(rows: seq<Row>, totalCostTwd: real, totalValueTwd: real)

  /** The figures the dashboard derives from the two totals: total profit
      and total return. */
  datatype Summary = Summary(totalProfitTwd: real, totalRoiPct: real)

  datatype Dashboard = Dashboard(report: Report, summary: Summary)

  /** The ways the pass stops. Each one is an exception that aborts the
      whole pass in the source: both price lookups raised, a division by a
      zero row cost, or a division by a zero total cost. */
  datatype Failure = PriceUnavailable(symbol: string) | ZeroCostBasis(symbol: string) | ZeroTotalCost

  datatype Result<T> = Ok(value: T) | Err(error: Failure)

  /** The fixed conversion rate, TWD per USD (app.py:25). */
  const UsdToTwd: real := 32.5

  /** An amount in the given currency, expressed in TWD. */
  function ToTwd(amount: real, c: Currency): real
  {
    match c
    case TWD => amount
    case USD => amount * UsdToTwd
  }

  /** The position's cost in TWD. */
  function CostTwd(p: Position): real
  {
    ToTwd(p.cost * p.shares, CurrencyOf(p.symbol))
  }

  /** The position's market value in TWD at the given price. */
  function MarketValueTwd(p: Position, price: real): real
  {
    ToTwd(price * p.shares, CurrencyOf(p.symbol))
  }

  /** The cost in TWD recovered from a row's own columns. */
  function RowCostTwd(row: Row): real
  {
    ToTwd(row.cost * row.shares, row.currency)
  }

  function MarketValueOf(row: Row): real { row.marketValueTwd }

  function ProfitOf(row: Row): real { row.profitTwd }

  /** The price the pass uses: the last price when that lookup succeeds,
      otherwise the latest daily close; None when both raise. */
  function CurrentPrice(q: Quote): (r: Option<real>)
    ensures r.Some? <==> q.lastPrice.Some? || q.dailyClose.Some?
    ensures q.lastPrice.Some? ==> r == q.lastPrice
    ensures q.lastPrice.None? ==> r == q.dailyClose
  {
    match q.lastPrice
    case Some(p) => Some(p)
    case None => q.dailyClose
  }

  /** The row of one position at a known price (app.py:43-71). The return
      percentage divides by the TWD cost without a guard, so a zero cost
      is the ZeroCostBasis failure. */
  function Appraise(p: Position, price: real): (r: Result<Row>)
    ensures r.Err? <==> CostTwd(p) == 0.0
    ensures r.Err? ==> r.error == ZeroCostBasis(p.symbol)
    ensures r.Ok? ==>
      && r.value.symbol == p.symbol && r.value.cost == p.cost && r.value.shares == p.shares
      && r.value.price == price
      && r.value.currency == CurrencyOf(p.symbol)
      && r.value.marketValueTwd == MarketValueTwd(p, price)
      && r.value.profitTwd + CostTwd(p) == r.value.marketValueTwd
      && r.value.returnPct * CostTwd(p) == 100.0 * r.value.profitTwd
  {
    var currency := CurrencyOf(p.symbol);
    var marketValue := ToTwd(price * p.shares, currency);
    var cost := ToTwd(p.cost * p.shares, currency);
    var profit := marketValue - cost;
    if cost == 0.0 then Err(ZeroCostBasis(p.symbol))
    else Ok(Row(p.symbol, price, p.cost, p.shares, currency, marketValue, profit, profit / cost * 100.0))
  }

  /** One iteration of the pass: look the price up, then appraise
      (app.py:30-71). */
  function ValuePosition(p: Position, q: Quote): (r: Result<Row>)
    ensures r.Err? <==> (q.lastPrice.None? && q.dailyClose.None?) || CostTwd(p) == 0.0
    ensures q.lastPrice.None? && q.dailyClose.None? ==> r == Err(PriceUnavailable(p.symbol))
    ensures r.Err? && CurrentPrice(q).Some? ==> r.error == ZeroCostBasis(p.symbol)
    ensures r.Ok? ==> r.value.price == (if q.lastPrice.Some? then q.lastPrice.value else q.dailyClose.value)
    ensures r.Ok? ==> Appraise(p, r.value.price) == r
  {
    match CurrentPrice(q)
    case None => Err(PriceUnavailable(p.symbol))
    case Some(price) => Appraise(p, price)
  }

  /** The outcome for the i-th position of a portfolio. */
  function Valued(ps: seq<Position>, feed: PriceFeed, i: int): Result<Row>
    requires 0 <= i < |ps|
  {
    ValuePosition(ps[i], feed(ps[i].symbol))
  }

  /** Position k is the first of the portfolio whose valuation fails. */
  ghost predicate FailsFirstAt(ps: seq<Position>, feed: PriceFeed, k: int)
  {
    && 0 <= k < |ps|
    && Valued(ps, feed, k).Err?
    && forall j :: 0 <= j < k ==> Valued(ps, feed, j).Ok?
  }

  /** Every position of the portfolio can be valued. */
  ghost predicate AllValued(ps: seq<Position>, feed: PriceFeed)
  {
    forall i :: 0 <= i < |ps| ==> Valued(ps, feed, i).Ok?
  }

  /** The error e is that of the first position whose valuation fails. */
  ghost predicate FirstFailureIs(ps: seq<Position>, feed: PriceFeed, e: Failure)
  {
    exists k :: FailsFirstAt(ps, feed, k) && e == Valued(ps, feed, k).error
  }

  /** rows holds, in portfolio order, one successful valuation per position. */
  ghost predicate RowsOf(ps: seq<Position>, feed: PriceFeed, rows: seq<Row>)
  {
    && |rows| == |ps|
    && forall i :: 0 <= i < |ps| ==> Valued(ps, feed, i) == Ok(rows[i])
  }

  /** The valuation loop (app.py:19-75). Positions are visited in order;
      the first failure aborts the pass and is what the caller sees.
      Otherwise there is one row per position, in portfolio order, and the
      totals are the sums of the TWD costs and TWD market values. */
  method GetData(portfolio: seq<Position>, feed: PriceFeed) returns (r: Result<Report>)
    ensures r.Ok? <==> AllValued(portfolio, feed)
    ensures r.Err? ==> FirstFailureIs(portfolio, feed, r.error)
    ensures r.Ok? ==> RowsOf(portfolio, feed, r.value.rows)
    ensures r.Ok? ==> r.value.totalCostTwd == SumOf(portfolio, CostTwd)
    ensures r.Ok? ==> r.value.totalValueTwd == SumOf(r.value.rows, MarketValueOf)
  {
    var rows: seq<Row> := [];
    var totalCostTwd := 0.0;
    var totalValueTwd := 0.0;
    var i := 0;
    while i < |portfolio|
      invariant 0 <= i <= |portfolio|
      invariant |rows| == i
      invariant forall j :: 0 <= j < i ==> Valued(portfolio, feed, j) == Ok(rows[j])
      invariant totalCostTwd == SumOf(portfolio[..i], CostTwd)
      invariant totalValueTwd == SumOf(rows, MarketValueOf)
    {
      var item := portfolio[i];
      var price := CurrentPrice(feed(item.symbol));
      if price.None? {
        FirstFailureHere(portfolio, feed, i);
        return Err(PriceUnavailable(item.symbol));
      }
      var row := Appraise(item, price.value);
      if row.Err? {
        FirstFailureHere(portfolio, feed, i);
        return Err(row.error);
      }
      assert Valued(portfolio, feed, i) == row;
      assert portfolio[..i + 1] == portfolio[..i] + [item];
      SumOfSnoc(portfolio[..i], item, CostTwd);
      SumOfSnoc(rows, row.value, MarketValueOf);
      totalCostTwd := totalCostTwd + CostTwd(item);
      totalValueTwd := totalValueTwd + row.value.marketValueTwd;
      rows := rows + [row.value];
      i := i + 1;
    }
    assert portfolio[..i] == portfolio;
    assert RowsOf(portfolio, feed, rows);
    r := Ok(Report(rows, totalCostTwd, totalValueTwd));
  }

  /** A failure at i after successes at every earlier position is the
      first failure. */
  lemma FirstFailureHere(ps: seq<Position>, feed: PriceFeed, i: int)
    requires 0 <= i < |ps|
    requires forall j :: 0 <= j < i ==> Valued(ps, feed, j).Ok?
    requires Valued(ps, feed, i).Err?
    ensures FirstFailureIs(ps, feed, Valued(ps, feed, i).error)
  {
    assert FailsFirstAt(ps, feed, i);
  }

  /** The headline figures (app.py:82-83). The return divides by the total
      cost without a guard, so a zero total cost, as in an empty portfolio,
      is the ZeroTotalCost failure. */
  function Summarize(totalCostTwd: real, totalValueTwd: real): (r: Result<Summary>)
    ensures r.Err? <==> totalCostTwd == 0.0
    ensures r.Err? ==> r.error == ZeroTotalCost
    ensures r.Ok? ==> totalCostTwd + r.value.totalProfitTwd == totalValueTwd
    ensures r.Ok? ==> r.value.totalRoiPct * totalCostTwd == 100.0 * r.value.totalProfitTwd
  {
    var totalProfit := totalValueTwd - totalCostTwd;
    if totalCostTwd == 0.0 then Err(ZeroTotalCost)
    else Ok(Summary(totalProfit, totalProfit / totalCostTwd * 100.0))
  }

  /** The "update prices" button (app.py:78-83): the valuation pass, then
      the headline figures from its totals. The total profit is the sum of
      the rows' profits. */
  method UpdatePrices(portfolio: seq<Position>, feed: PriceFeed) returns (r: Result<Dashboard>)
    ensures r.Ok? <==> AllValued(portfolio, feed) && SumOf(portfolio, CostTwd) != 0.0
    ensures r.Err? ==>
      if AllValued(portfolio, feed) then r.error == ZeroTotalCost else FirstFailureIs(portfolio, feed, r.error)
    ensures |portfolio| == 0 ==> r == Err(ZeroTotalCost)
    ensures r.Ok? ==>
      && RowsOf(portfolio, feed, r.value.report.rows)
      && r.value.report.totalCostTwd == SumOf(portfolio, CostTwd)
      && r.value.report.totalValueTwd == SumOf(r.value.report.rows, MarketValueOf)
      && r.value.summary.totalProfitTwd == SumOf(r.value.report.rows, ProfitOf)
      && r.value.summary.totalRoiPct * r.value.report.totalCostTwd == 100.0 * r.value.summary.totalProfitTwd
  {
    var data := GetData(portfolio, feed);
    if data.Err? {
      return Err(data.error);
    }
    var report := data.value;
    var summary := Summarize(report.totalCostTwd, report.totalValueTwd);
    if summary.Err? {
      return Err(summary.error);
    }
    ReportProfitIsSumOfProfits(portfolio, feed, report.rows);
    r := Ok(Dashboard(report, summary.value));
  }

  /** The rows of a successful pass have, summed, a profit equal to their
      total market value minus their total cost. */
  lemma ReportProfitIsSumOfProfits(portfolio: seq<Position>, feed: PriceFeed, rows: seq<Row>)
    requires RowsOf(portfolio, feed, rows)
    ensures SumOf(rows, ProfitOf) == SumOf(rows, MarketValueOf) - SumOf(portfolio, CostTwd)
  {
    RowCostsSum(portfolio, feed, rows);
    forall i | 0 <= i < |rows|
      ensures ProfitOf(rows[i]) == MarketValueOf(rows[i]) - RowCostTwd(rows[i])
    {
      assert Valued(portfolio, feed, i) == Ok(rows[i]);
      RowProfit(portfolio[i], feed(portfolio[i].symbol), rows[i]);
    }
    TotalProfitIsSumOfProfits(rows);
  }

  /** A valued row's profit is its market value minus the cost recovered
      from its own columns. */
  lemma RowProfit(p: Position, q: Quote, row: Row)
    requires ValuePosition(p, q) == Ok(row)
    ensures ProfitOf(row) == MarketValueOf(row) - RowCostTwd(row)
  {
    assert Appraise(p, CurrentPrice(q).value) == Ok(row);
  }

  /** Summed over the rows, profit is market value minus cost. */
  lemma {:induction false} TotalProfitIsSumOfProfits(rows: seq<Row>)
    requires forall i :: 0 <= i < |rows| ==> ProfitOf(rows[i]) == MarketValueOf(rows[i]) - RowCostTwd(rows[i])
    ensures SumOf(rows, ProfitOf) == SumOf(rows, MarketValueOf) - SumOf(rows, RowCostTwd)
    decreases |rows|
  {
    if |rows| > 0 {
      TotalProfitIsSumOfProfits(rows[..|rows| - 1]);
    }
  }

  /** The cost total of a successful pass, a sum over the positions, is
      also the sum of the costs recovered from the rows. */
  lemma {:induction false} RowCostsSum(ps: seq<Position>, feed: PriceFeed, rows: seq<Row>)
    requires RowsOf(ps, feed, rows)
    ensures SumOf(ps, CostTwd) == SumOf(rows, RowCostTwd)
    decreases |ps|
  {
    if |ps| > 0 {
      var n := |ps| - 1;
      assert Valued(ps, feed, n) == Ok(rows[n]);
      forall i | 0 <= i < n
        ensures Valued(ps[..n], feed, i) == Ok(rows[..n][i])
      {
        assert Valued(ps, feed, i) == Ok(rows[i]);
      }
      RowCostsSum(ps[..n], feed, rows[..n]);
    }
  }

  /** The row's cost recovered from its columns is the position's TWD cost,
      the amount the loop adds to its cost total. */
  lemma RowCostIsPositionCost(p: Position, price: real)
    requires Appraise(p, price).Ok?
    ensures RowCostTwd(Appraise(p, price).value) == CostTwd(p)
  {
  }

  /** Exactly the positions with a zero cost basis or no shares hit the
      unguarded division: the conversion rate is never zero. */
  lemma ZeroCostExactly(p: Position, price: real)
    ensures Appraise(p, price).Err? <==> p.cost == 0.0 || p.shares == 0.0
  {
  }

  /** The return percentage does not depend on the currency: the conversion
      rate cancels, and the return is the price's gain over the cost basis. */
  lemma ReturnIsPriceGain(p: Position, price: real)
    requires p.cost != 0.0 && p.shares != 0.0
    ensures Appraise(p, price).Ok?
    ensures Appraise(p, price).value.returnPct == (price - p.cost) / p.cost * 100.0
  {
  }

  /** A USD position is valued as the same position listed in Taiwan would
      be, with every TWD amount scaled by the conversion rate and the same
      return (app.py:45-51). */
  lemma UsdIsScaledTwd(p: Position, taiwanSymbol: string, price: real)
    requires CurrencyOf(p.symbol) == USD && CurrencyOf(taiwanSymbol) == TWD
    ensures CostTwd(p) == UsdToTwd * CostTwd(p.(symbol := taiwanSymbol))
    ensures MarketValueTwd(p, price) == UsdToTwd * MarketValueTwd(p.(symbol := taiwanSymbol), price)
    ensures Appraise(p, price).Ok? <==> Appraise(p.(symbol := taiwanSymbol), price).Ok?
    ensures Appraise(p, price).Ok? ==>
      && Appraise(p, price).value.profitTwd == UsdToTwd * Appraise(p.(symbol := taiwanSymbol), price).value.profitTwd
      && Appraise(p, price).value.returnPct == Appraise(p.(symbol := taiwanSymbol), price).value.returnPct
  {
  }

  /** Two rows of the sample portfolio (app.py:12-13) at illustrative
      prices: 2000 shares of 2330.TW bought at 600 and quoted at 900, and
      50 shares of NVDA bought at 120 whose last-price lookup fails and
      whose daily close is 180. Both gain 50%. */
  lemma SampleRows()
    ensures ValuePosition(Position("2330.TW", 600.0, 2000.0), Quote(Some(900.0), Some(880.0)))
         == Ok(Row("2330.TW", 900.0, 600.0, 2000.0, TWD, 1800000.0, 600000.0, 50.0))
    ensures ValuePosition(Position("NVDA", 120.0, 50.0), Quote(None, Some(180.0)))
         == Ok(Row("NVDA", 180.0, 120.0, 50.0, USD, 292500.0, 97500.0, 50.0))
  {
    SampleSymbols();
    var tsmc, nvda := Position("2330.TW", 600.0, 2000.0), Position("NVDA", 120.0, 50.0);
    assert CostTwd(tsmc) == 1200000.0;
    assert MarketValueTwd(tsmc, 900.0) == 1800000.0;
    assert 600000.0 / 1200000.0 * 100.0 == 50.0;
    assert CostTwd(nvda) == 195000.0;
    assert MarketValueTwd(nvda, 180.0) == 292500.0;
    assert 97500.0 / 195000.0 * 100.0 == 50.0;
  }
}
