/**
 * The instrument listing and the trend listing, joined into one price
 * record per listed coin (`all_coins` in `finance()`).
 */
module Market {
  import opened Wrappers

  /**
   * The listing tuple of one coin; only the slots `finance()` reads are kept:
   * index 0 (display name), 1 (price), 4 (day high) and 5 (day low).
   */
  datatype Ticker = Ticker(name: string, price: real, maxPrice: real, minPrice: real)

  /**
   * One coin's entry in `all_coins`. Today's rate divides by yesterday's
   * price; when that price is zero the quotient is not a finite number and
   * the rate is `None`.
   */
  datatype PriceRecord = PriceRecord(name: string, price: real, maxPrice: real, minPrice: real, todayRate: Option<real>)

  /** The price record of a coin whose yesterday price is `yprice`. */
  function Record(t: Ticker, yprice: real): (r: PriceRecord)
    ensures r.name == t.name && r.price == t.price && r.maxPrice == t.maxPrice && r.minPrice == t.minPrice
    ensures r.todayRate.Some? <==> yprice != 0.0
  {
    PriceRecord(t.name, t.price, t.maxPrice, t.minPrice, if yprice == 0.0 then None else Some((t.price - yprice) / yprice))
  }

  /**
   * A finite today's rate is the relative change from yesterday: the price
   * equals yesterday's price grown by the rate.
   */
  lemma RecordSpec(t: Ticker, yprice: real)
    requires yprice != 0.0
    ensures yprice * (1.0 + Record(t, yprice).todayRate.value) == t.price
  {
  }

  /** The records built so far, `acc`, extended by those of `market`, in order. */
  function PricesFrom(acc: map<string, PriceRecord>, market: seq<(string, Ticker)>, trends: map<string, real>)
    : (r: Result<map<string, PriceRecord>, FinanceError>)
    ensures r.Err? ==> r.error == MissingTrend
    ensures r.Ok? ==> acc.Keys <= r.value.Keys
    decreases |market|
  {
    if market == [] then Ok(acc)
    else
      var (coin, t) := market[0];
      if coin !in trends then Err(MissingTrend)
      else PricesFrom(acc[coin := Record(t, trends[coin])], market[1..], trends)
  }

  /** `all_coins`: one record per listed coin; the only failure is a missing trend. */
  function Prices(market: seq<(string, Ticker)>, trends: map<string, real>): (r: Result<map<string, PriceRecord>, FinanceError>)
    ensures r.Err? ==> r.error == MissingTrend
  {
    PricesFrom(map[], market, trends)
  }

  /** A listed coin that has a trend record. */
  predicate Priceable(entry: (string, Ticker), trends: map<string, real>)
  {
    entry.0 in trends
  }

  predicate DistinctCoins(market: seq<(string, Ticker)>)
  {
    forall i, j :: 0 <= i < j < |market| ==> market[i].0 != market[j].0
  }

  lemma {:induction false} PricesFromOk(acc: map<string, PriceRecord>, market: seq<(string, Ticker)>, trends: map<string, real>)
    ensures PricesFrom(acc, market, trends).Ok? <==> forall i :: 0 <= i < |market| ==> Priceable(market[i], trends)
    decreases |market|
  {
    if market != [] {
      var (coin, t) := market[0];
      assert forall i :: 0 <= i < |market| - 1 ==> market[1..][i] == market[i + 1];
      if Priceable(market[0], trends) {
        PricesFromOk(acc[coin := Record(t, trends[coin])], market[1..], trends);
      }
    }
  }

  lemma {:induction false} PricesFromKeys(acc: map<string, PriceRecord>, market: seq<(string, Ticker)>, trends: map<string, real>)
    requires PricesFrom(acc, market, trends).Ok?
    ensures forall c :: c in PricesFrom(acc, market, trends).value <==> c in acc || exists i :: 0 <= i < |market| && market[i].0 == c
    decreases |market|
  {
    if market != [] {
      var (coin, t) := market[0];
      var rest := market[1..];
      var acc' := acc[coin := Record(t, trends[coin])];
      PricesFromKeys(acc', rest, trends);
      forall c ensures c in PricesFrom(acc, market, trends).value <==> c in acc || exists i :: 0 <= i < |market| && market[i].0 == c {
        if exists i :: 0 <= i < |rest| && rest[i].0 == c {
          var i :| 0 <= i < |rest| && rest[i].0 == c;
          assert market[i + 1].0 == c;
        }
        if exists i :: 0 <= i < |market| && market[i].0 == c {
          var i :| 0 <= i < |market| && market[i].0 == c;
          if i > 0 { assert rest[i - 1].0 == c; }
        }
      }
    }
  }

  lemma {:induction false} PricesFromRecords(acc: map<string, PriceRecord>, market: seq<(string, Ticker)>, trends: map<string, real>)
    requires DistinctCoins(market) && PricesFrom(acc, market, trends).Ok?
    requires forall i :: 0 <= i < |market| ==> Priceable(market[i], trends)
    ensures var p := PricesFrom(acc, market, trends).value;
      && (forall i :: 0 <= i < |market| ==> Priceable(market[i], trends) && market[i].0 in p && p[market[i].0] == Record(market[i].1, trends[market[i].0]))
      && (forall c :: c in acc && (forall i :: 0 <= i < |market| ==> market[i].0 != c) ==> c in p && p[c] == acc[c])
    decreases |market|
  {
    if market != [] {
      var (coin, t) := market[0];
      var rest := market[1..];
      assert forall i :: 0 <= i < |rest| ==> rest[i] == market[i + 1];
      PricesFromRecords(acc[coin := Record(t, trends[coin])], rest, trends);
    }
  }

  /**
   * Building the price records fails, with `MissingTrend`, exactly when some
   * listed coin has no trend record; a zero yesterday price does not stop
   * it. Otherwise every listed coin, and no other, has the record made from
   * its own ticker and trend.
   */
  lemma PricesSpec(market: seq<(string, Ticker)>, trends: map<string, real>)
    requires DistinctCoins(market)
    ensures Prices(market, trends).Ok? <==> forall i :: 0 <= i < |market| ==> market[i].0 in trends
    ensures Prices(market, trends).Ok? ==>
      var p := Prices(market, trends).value;
      && (forall c :: c in p <==> exists i :: 0 <= i < |market| && market[i].0 == c)
      && (forall i :: 0 <= i < |market| ==> market[i].0 in p && p[market[i].0] == Record(market[i].1, trends[market[i].0]))
  {
    PricesFromOk(map[], market, trends);
    if Prices(market, trends).Ok? {
      PricesFromKeys(map[], market, trends);
      PricesFromRecords(map[], market, trends);
    }
  }

  /** The loop of `finance()` over the instrument listing. */
  method BuildPrices(market: seq<(string, Ticker)>, trends: map<string, real>) returns (r: Result<map<string, PriceRecord>, FinanceError>)
    ensures r == Prices(market, trends)
  {
    var prices := map[];
    var i := 0;
    while i < |market|
      invariant 0 <= i <= |market|
      invariant PricesFrom(prices, market[i..], trends) == Prices(market, trends)
    {
      var (coin, t) := market[i];
      assert market[i..][0] == market[i] && market[i..][1..] == market[i + 1..];
      if coin !in trends {
        return Err(MissingTrend);
      }
      var yprice := trends[coin];
      var rate := if yprice == 0.0 then None else Some((t.price - yprice) / yprice);
      prices := prices[coin := PriceRecord(t.name, t.price, t.maxPrice, t.minPrice, rate)];
      i := i + 1;
    }
    return Ok(prices);
  }
}
