/**
 * The `Jubi` object: its per-process cost cache and the three steps of one
 * polling pass that work on data, `getCost`, `finance` and `format`.
 */
module App {
  import opened Wrappers
  import opened Holdings
  import opened Market
  import opened Costs
  import opened Valuation
  import opened Rows
  import opened Numeric

  class Jubi {
    /** `this.cost`: average cost per coin, filled lazily, kept for the process's life. */
    var cost: map<string, real>
    /** The coins whose trade history has been requested, in order. */
    ghost var tradeRequests: seq<string>

    constructor ()
      ensures cost == map[] && tradeRequests == []
    {
      cost := map[];
      tradeRequests := [];
    }

    /**
     * The average cost of `coin`: the cached value when it is truthy (present
     * and not 0), otherwise computed from one request for the trade history
     * and stored. None stands for the source's division by a zero net
     * quantity; the cache is then left as it was.
     */
    method GetCost(coin: string, fetch: string -> seq<Trade>) returns (r: Option<real>)
      modifies this
      ensures r == LookupCost(old(cost), fetch, coin)
      ensures cost == AfterLookup(old(cost), fetch, coin)
      ensures tradeRequests == old(tradeRequests) + FetchesOf(old(cost), coin)
    {
      if !(coin in cost && cost[coin] != 0.0) {
        var records := fetch(coin);
        tradeRequests := tradeRequests + [coin];
        var totalNums := Net(records, Quantity);
        var totalMoney := Net(records, Amount);
        if totalNums == 0.0 {
          return None;
        }
        var costPrice := RoundTo(totalMoney / totalNums, 0.01);
        cost := cost[coin := costPrice];
      }
      return Some(cost[coin]);
    }

    /**
     * One pass of `finance()` over the three responses already fetched:
     * the status check, the balance keys, the price records, and the filter
     * loop that asks `GetCost` for every asset it keeps.
     */
    method Finance(response: FinanceResponse, market: seq<(string, Ticker)>, trends: map<string, real>,
                   fetch: string -> seq<Trade>) returns (r: Result<seq<Entry>, FinanceError>)
      modifies this
      ensures var out := FinanceOutcome(old(cost), fetch, response, market, trends);
        r == out.result && cost == out.cache && tradeRequests == old(tradeRequests) + out.fetched
    {
      if response.status != 1 {
        return Err(StatusNotOk);
      }
      var myCoins := ParseHoldings(response.data);
      ParseWellFormed(response.data);
      var built := BuildPrices(market, trends);
      if built.Err? {
        return Err(built.error);
      }
      r := FilterListed(myCoins, built.value, fetch);
    }

    /**
     * The filter loop of `finance()`: for each held name in order, an asset
     * with a non-zero price worth more than 5 gets its today's rate, its cost
     * from `GetCost` and an entry in the result.
     */
    method FilterListed(myCoins: Holdings, allCoins: map<string, PriceRecord>, fetch: string -> seq<Trade>)
      returns (r: Result<seq<Entry>, FinanceError>)
      requires WellFormed(myCoins)
      modifies this
      ensures var o := Resolve(old(cost), fetch, myCoins, allCoins, myCoins.order);
        && r == (if o.failed.Some? then Err(o.failed.value) else Ok(o.entries))
        && cost == o.cache && tradeRequests == old(tradeRequests) + o.fetched
    {
      ghost var whole := Resolve(cost, fetch, myCoins, allCoins, myCoins.order);
      var result := [];
      ghost var done := [];
      var i := 0;
      assert myCoins.order[0..] == myCoins.order;
      while i < |myCoins.order|
        invariant 0 <= i <= |myCoins.order|
        invariant tradeRequests == old(tradeRequests) + done
        invariant Continues(whole, result, done, Resolve(cost, fetch, myCoins, allCoins, myCoins.order[i..]))
      {
        var coinName := myCoins.order[i];
        ghost var names := myCoins.order[i..];
        assert names[0] == coinName && names[1..] == myCoins.order[i + 1..];
        var failure;
        result, failure, done := Visit(myCoins, allCoins, fetch, coinName, result, names, whole, done, old(tradeRequests));
        if failure.Some? {
          return Err(failure.value);
        }
        i := i + 1;
      }
      DoneStep(whole, result, done, cost, fetch, myCoins, allCoins);
      return Ok(result);
    }

    /**
     * One iteration of the filter loop, at the first of the names still to
     * visit: a coin with a non-zero price worth more than 5 goes to `Keep`,
     * any other is skipped. `failure` is set where the pass ends.
     */
    method Visit(myCoins: Holdings, allCoins: map<string, PriceRecord>, fetch: string -> seq<Trade>,
                 coinName: string, result: seq<Entry>, ghost names: seq<string>, ghost whole: Resolution,
                 ghost done: seq<string>, ghost start: seq<string>)
      returns (result': seq<Entry>, failure: Option<FinanceError>, ghost done': seq<string>)
      requires WellFormed(myCoins) && names != [] && names[0] == coinName && coinName in myCoins.order
      requires tradeRequests == start + done
      requires Continues(whole, result, done, Resolve(cost, fetch, myCoins, allCoins, names))
      modifies this
      ensures tradeRequests == start + done'
      ensures failure.Some? ==> whole == Resolution(result', cost, done', failure)
      ensures failure.None? ==> Continues(whole, result', done', Resolve(cost, fetch, myCoins, allCoins, names[1..]))
    {
      if coinName in allCoins && allCoins[coinName].price != 0.0 {
        var coinPrice := allCoins[coinName].price;
        var holding := myCoins.fields[coinName];
        if Balance in holding && WorthShowing(coinPrice, holding[Balance]) {
          result', failure, done' := Keep(myCoins, allCoins, fetch, coinName, result, names, whole, done, start);
          return;
        }
      }
      SkipStep(whole, result, done, cost, fetch, myCoins, allCoins, names);
      result', failure, done' := result, None, done;
    }

    /**
     * The body of the filter loop at a coin it keeps: the entry literal,
     * whose today's rate is evaluated before `GetCost` is awaited. `failure`
     * is set where the rate or the cost is not a finite number.
     */
    method Keep(myCoins: Holdings, allCoins: map<string, PriceRecord>, fetch: string -> seq<Trade>,
                coinName: string, result: seq<Entry>, ghost names: seq<string>, ghost whole: Resolution,
                ghost done: seq<string>, ghost start: seq<string>)
      returns (result': seq<Entry>, failure: Option<FinanceError>, ghost done': seq<string>)
      requires names != [] && names[0] == coinName && Included(myCoins, allCoins, coinName)
      requires tradeRequests == start + done
      requires Continues(whole, result, done, Resolve(cost, fetch, myCoins, allCoins, names))
      modifies this
      ensures tradeRequests == start + done'
      ensures failure.Some? ==> whole == Resolution(result', cost, done', failure)
      ensures failure.None? ==> Continues(whole, result', done', Resolve(cost, fetch, myCoins, allCoins, names[1..]))
    {
      var coin := allCoins[coinName];
      if coin.todayRate.None? {
        RateStep(whole, result, done, cost, fetch, myCoins, allCoins, names);
        return result, Some(ZeroYesterdayPrice(coinName)), done;
      }
      var todayRate := RoundTo(coin.todayRate.value * 100.0, 0.01);
      result', failure, done' := Push(myCoins, allCoins, fetch, coinName, todayRate, result, names, whole, done, start);
    }

    /**
     * The rest of the entry literal, once the today's rate `todayRate` is
     * known: the cost from `GetCost`, then the push. `failure` is set where
     * the cost is not a finite number.
     */
    method Push(myCoins: Holdings, allCoins: map<string, PriceRecord>, fetch: string -> seq<Trade>,
                coinName: string, todayRate: real, result: seq<Entry>, ghost names: seq<string>,
                ghost whole: Resolution, ghost done: seq<string>, ghost start: seq<string>)
      returns (result': seq<Entry>, failure: Option<FinanceError>, ghost done': seq<string>)
      requires names != [] && names[0] == coinName && Included(myCoins, allCoins, coinName)
      requires allCoins[coinName].todayRate.Some?
      requires todayRate == RoundTo(allCoins[coinName].todayRate.value * 100.0, 0.01)
      requires tradeRequests == start + done
      requires Continues(whole, result, done, Resolve(cost, fetch, myCoins, allCoins, names))
      modifies this
      ensures tradeRequests == start + done'
      ensures failure.Some? ==> whole == Resolution(result', cost, done', failure)
      ensures failure.None? ==> Continues(whole, result', done', Resolve(cost, fetch, myCoins, allCoins, names[1..]))
    {
      ghost var before := cost;
      var costPrice := GetCost(coinName, fetch);
      done' := done + FetchesOf(before, coinName);
      if costPrice.None? {
        FailStep(whole, result, done, before, fetch, myCoins, allCoins, names);
        return result, Some(NoPosition(coinName)), done';
      }
      KeptStep(whole, result, done, before, fetch, myCoins, allCoins, names);
      var coin := allCoins[coinName];
      result' := result + [Entry(myCoins.fields[coinName][Balance], coin.name, coin.price, coin.maxPrice, coin.minPrice,
                                 todayRate, costPrice.value)];
      failure := None;
    }

    /** `format()`: one row per entry, in order, with today's profit clamped to the total. */
    method Format(data: seq<Entry>) returns (rows: seq<Row>)
      ensures |rows| == |data|
      ensures forall i :: 0 <= i < |rows| ==> rows[i] == RowOf(data[i])
      ensures forall i :: 0 <= i < |rows| ==> rows[i].todayProfit <= rows[i].totalProfit
    {
      rows := [];
      for i := 0 to |data|
        invariant |rows| == i
        invariant forall k :: 0 <= k < i ==> rows[k] == RowOf(data[k])
      {
        var coin := data[i];
        var todayProfit := EstimatedTodayProfit(coin);
        var totalProfit := TotalProfit(coin);
        if totalProfit < todayProfit {
          todayProfit := totalProfit;
        }
        var profitRate := ProfitRate(coin);
        rows := rows + [Row(coin.name, coin.balance, coin.price, coin.costPrice, coin.todayRate,
                            todayProfit, totalProfit, profitRate)];
      }
    }
  }
}
