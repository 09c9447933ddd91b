/**
 * Average cost of a coin from its trade history, and the per-process cache
 * `getCost` keeps of it.
 */
module Costs {
  import opened Wrappers
  import opened Numeric

  /** The direction tag of a buy. */
  const Buy: string := "买入"

  /** One trade record: direction tag `t`, quantity `n`, monetary amount `s`. */
  datatype Trade = Trade(t: string, n: real, s: real)

  /** Which of the two numbers of a trade a fold adds up. */
  datatype Measure = Quantity | Amount

  function Of(tr: Trade, m: Measure): real
  {
    if m == Quantity then tr.n else tr.s
  }

  /** Reference sum: the number `m` over the buys (`buys`) or over all other records. */
  function Total(records: seq<Trade>, m: Measure, buys: bool): real
  {
    if records == [] then 0.0
    else (if (records[0].t == Buy) == buys then Of(records[0], m) else 0.0) + Total(records[1..], m, buys)
  }

  lemma {:induction false} TotalSnoc(records: seq<Trade>, x: Trade, m: Measure, buys: bool)
    ensures Total(records + [x], m, buys) == Total(records, m, buys) + if (x.t == Buy) == buys then Of(x, m) else 0.0
  {
    if records != [] {
      assert (records + [x])[1..] == records[1..] + [x];
      TotalSnoc(records[1..], x, m, buys);
    }
  }

  /**
   * The `reduce` of `getCost`: from 0, left to right, a buy adds its
   * number and any other record subtracts it. The result is the buys' total
   * minus the total of all other records.
   */
  function Net(records: seq<Trade>, m: Measure): (r: real)
    ensures r == Total(records, m, true) - Total(records, m, false)
  {
    if records == [] then 0.0
    else
      var init, b := records[..|records| - 1], records[|records| - 1];
      var a := Net(init, m);
      assert records == init + [b];
      TotalSnoc(init, b, m, true);
      TotalSnoc(init, b, m, false);
      if b.t == Buy then a + Of(b, m) else a - Of(b, m)
  }

  /**
   * `round2(net amount / net quantity)`; None where the source would divide
   * by a zero net quantity.
   */
  function AverageCost(records: seq<Trade>): (r: Option<real>)
    ensures r.Some? <==> Net(records, Quantity) != 0.0
  {
    var qty := Net(records, Quantity);
    if qty == 0.0 then None else Some(RoundTo(Net(records, Amount) / qty, 0.01))
  }

  /**
   * Where the net quantity is not 0, the average cost is the net amount per
   * unit rounded to 2 decimals: a whole number of hundredths, within half a
   * hundredth of the exact ratio.
   */
  lemma AverageCostRounding(records: seq<Trade>)
    requires Net(records, Quantity) != 0.0
    ensures var r := AverageCost(records).value;
      && IsWhole(r * 100.0)
      && -0.005 <= r - Net(records, Amount) / Net(records, Quantity) <= 0.005
  {
    RoundToSpec(Net(records, Amount) / Net(records, Quantity), 0.01);
  }

  /** `this.cost[coin]` is truthy: present and not 0. */
  predicate CacheHit(cache: map<string, real>, coin: string)
  {
    coin in cache && cache[coin] != 0.0
  }

  /**
   * What `getCost(coin)` returns when the cache is `cache`: a truthy cached
   * value as it is; otherwise a cost exactly when the fetched trades leave a
   * net quantity other than 0.
   */
  function LookupCost(cache: map<string, real>, fetch: string -> seq<Trade>, coin: string): (r: Option<real>)
    ensures CacheHit(cache, coin) ==> r == Some(cache[coin])
    ensures r.Some? <==> CacheHit(cache, coin) || Net(fetch(coin), Quantity) != 0.0
  {
    if CacheHit(cache, coin) then Some(cache[coin]) else AverageCost(fetch(coin))
  }

  /** The cache after `getCost(coin)`. */
  function AfterLookup(cache: map<string, real>, fetch: string -> seq<Trade>, coin: string): (r: map<string, real>)
    ensures LookupCost(cache, fetch, coin).Some? ==> coin in r && r[coin] == LookupCost(cache, fetch, coin).value
    ensures LookupCost(cache, fetch, coin).None? ==> r == cache
    ensures forall d :: d != coin ==> (d in r <==> d in cache) && (d in r ==> r[d] == cache[d])
  {
    if CacheHit(cache, coin) then cache
    else match AverageCost(fetch(coin))
      case None => cache
      case Some(v) => cache[coin := v]
  }

  /** The trade-history requests `getCost(coin)` issues: one, unless the cache hits. */
  function FetchesOf(cache: map<string, real>, coin: string): seq<string>
  {
    if CacheHit(cache, coin) then [] else [coin]
  }

  /**
   * A second `getCost(coin)` returns what the first returned. It is served
   * from the cache, without a request, exactly when the first result was a
   * number other than 0; a cached 0 is computed again from a fresh request.
   */
  lemma LookupTwice(cache: map<string, real>, fetch: string -> seq<Trade>, coin: string)
    ensures var after := AfterLookup(cache, fetch, coin);
      && LookupCost(after, fetch, coin) == LookupCost(cache, fetch, coin)
      && (CacheHit(after, coin) <==> LookupCost(cache, fetch, coin).Some? && LookupCost(cache, fetch, coin).value != 0.0)
      && AfterLookup(after, fetch, coin) == after
  {
  }

  /** Buys of 10 for 100 and sells of 4 for 50 leave 6 held for 50: 8.33 each. */
  lemma AverageCostExample()
    ensures AverageCost([Trade(Buy, 10.0, 100.0), Trade("卖出", 4.0, 50.0)]) == Some(8.33)
  {
    var records := [Trade(Buy, 10.0, 100.0), Trade("卖出", 4.0, 50.0)];
    assert records[..1] == [records[0]] && records[..1][..0] == [];
    assert "卖出"[0] != Buy[0];
    assert Net(records[..1], Quantity) == 10.0;
    assert Net(records[..1], Amount) == 100.0;
    assert Net(records, Quantity) == 6.0;
    assert Net(records, Amount) == 50.0;
    assert RoundHalfAway(50.0 / 6.0 / 0.01) == 833;
  }
}
