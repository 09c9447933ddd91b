/**
 * The join of `finance()`: held assets against price records, the value
 * threshold, and the cost lookup for every asset kept.
 */
module Valuation {
  import opened Wrappers
  import opened Numeric
  import opened Holdings
  import opened Market
  import opened Costs

  /** The finance response: its status and its flat key space, in key order. */
  datatype FinanceResponse = FinanceResponse(status: int, data: seq<(string, real)>)

  /** One element of the list `finance()` returns. */
  datatype Entry = Entry(balance: real, name: string, price: real, maxPrice: real, minPrice: real,
                         todayRate: real, costPrice: real)

  /** The smallest value, balance times price, an asset must exceed to be shown. */
  const MinValue: real := 5.0

  /** Price times balance exceeds `MinValue`. */
  predicate WorthShowing(price: real, balance: real)
  {
    price * balance > MinValue
  }

  /**
   * Asset `c` is kept: it has a balance, a price record whose price is not 0,
   * and is worth more than `MinValue`. (A missing balance makes the source's
   * product NaN, which is not greater than 5.)
   */
  predicate Included(h: Holdings, prices: map<string, PriceRecord>, c: string)
  {
    && c in h.fields && Balance in h.fields[c]
    && c in prices && prices[c].price != 0.0
    && WorthShowing(prices[c].price, h.fields[c][Balance])
  }

  /**
   * The entry of a kept asset whose today's rate is finite, the rate as a
   * percentage with 2 decimals.
   */
  function MakeEntry(h: Holdings, prices: map<string, PriceRecord>, c: string, cost: real): Entry
    requires Included(h, prices, c) && prices[c].todayRate.Some?
  {
    var p := prices[c];
    Entry(h.fields[c][Balance], p.name, p.price, p.maxPrice, p.minPrice, RoundTo(p.todayRate.value * 100.0, 0.01), cost)
  }

  /** The kept names, in the order of `names`. */
  function Selected(h: Holdings, prices: map<string, PriceRecord>, names: seq<string>): seq<string>
  {
    if names == [] then []
    else (if Included(h, prices, names[0]) then [names[0]] else []) + Selected(h, prices, names[1..])
  }

  lemma {:induction false} SelectedMembers(h: Holdings, prices: map<string, PriceRecord>, names: seq<string>)
    ensures forall c :: c in Selected(h, prices, names) <==> c in names && Included(h, prices, c)
    ensures |Selected(h, prices, names)| <= |names|
    ensures Distinct(names) ==> Distinct(Selected(h, prices, names))
  {
    if names != [] {
      SelectedMembers(h, prices, names[1..]);
      assert forall c :: c in names <==> c == names[0] || c in names[1..];
      if Distinct(names) {
        assert Distinct(names[1..]);
      }
    }
  }

  /**
   * The outcome of the filter loop over `names`: the entries pushed, the
   * cache afterwards, the coins whose trade history was fetched, and, if the
   * loop stopped at a kept coin, why: its today's rate or its cost is not a
   * finite number.
   */
  datatype Resolution = Resolution(entries: seq<Entry>, cache: map<string, real>, fetched: seq<string>, failed: Option<FinanceError>)

  /**
   * The filter loop over `names`. A kept coin's today's rate is evaluated
   * before its cost is asked for, as in the source's entry literal.
   */
  function Resolve(cache: map<string, real>, fetch: string -> seq<Trade>, h: Holdings,
                   prices: map<string, PriceRecord>, names: seq<string>): (r: Resolution)
    ensures r.failed.Some? ==> r.failed.value.ZeroYesterdayPrice? || r.failed.value.NoPosition?
    ensures |r.entries| <= |names|
    decreases |names|
  {
    if names == [] then Resolution([], cache, [], None)
    else
      var c := names[0];
      if !Included(h, prices, c) then Resolve(cache, fetch, h, prices, names[1..])
      else if prices[c].todayRate.None? then Resolution([], cache, [], Some(ZeroYesterdayPrice(c)))
      else match LookupCost(cache, fetch, c)
        case None => Resolution([], cache, FetchesOf(cache, c), Some(NoPosition(c)))
        case Some(v) =>
          var rest := Resolve(AfterLookup(cache, fetch, c), fetch, h, prices, names[1..]);
          Resolution([MakeEntry(h, prices, c, v)] + rest.entries, rest.cache, FetchesOf(cache, c) + rest.fetched, rest.failed)
  }

  /** The loop leaves the cache entry of every coin it does not keep as it was. */
  lemma {:induction false} ResolveFrame(cache: map<string, real>, fetch: string -> seq<Trade>, h: Holdings,
                                        prices: map<string, PriceRecord>, names: seq<string>)
    ensures var o := Resolve(cache, fetch, h, prices, names);
      forall d :: d !in Selected(h, prices, names) ==> (d in o.cache <==> d in cache) && (d in cache ==> o.cache[d] == cache[d])
    decreases |names|
  {
    if names != [] {
      var c := names[0];
      if !Included(h, prices, c) {
        ResolveFrame(cache, fetch, h, prices, names[1..]);
      } else if prices[c].todayRate.Some? && LookupCost(cache, fetch, c).Some? {
        ResolveFrame(AfterLookup(cache, fetch, c), fetch, h, prices, names[1..]);
      }
    }
  }

  lemma ResolveKept(cache: map<string, real>, fetch: string -> seq<Trade>, h: Holdings,
                    prices: map<string, PriceRecord>, names: seq<string>)
    requires names != [] && Included(h, prices, names[0]) && prices[names[0]].todayRate.Some?
    requires LookupCost(cache, fetch, names[0]).Some?
    ensures var c := names[0];
      var rest := Resolve(AfterLookup(cache, fetch, c), fetch, h, prices, names[1..]);
      && Resolve(cache, fetch, h, prices, names) ==
           Resolution([MakeEntry(h, prices, c, LookupCost(cache, fetch, c).value)] + rest.entries,
                      rest.cache, FetchesOf(cache, c) + rest.fetched, rest.failed)
      && Selected(h, prices, names) == [c] + Selected(h, prices, names[1..])
  {
  }

  lemma ResolveOther(cache: map<string, real>, fetch: string -> seq<Trade>, h: Holdings,
                     prices: map<string, PriceRecord>, names: seq<string>)
    requires names != []
    ensures !Included(h, prices, names[0]) ==>
      Resolve(cache, fetch, h, prices, names) == Resolve(cache, fetch, h, prices, names[1..])
    ensures Included(h, prices, names[0]) && prices[names[0]].todayRate.None? ==>
      Resolve(cache, fetch, h, prices, names) == Resolution([], cache, [], Some(ZeroYesterdayPrice(names[0])))
    ensures Included(h, prices, names[0]) && prices[names[0]].todayRate.Some? && LookupCost(cache, fetch, names[0]).None? ==>
      Resolve(cache, fetch, h, prices, names) == Resolution([], cache, FetchesOf(cache, names[0]), Some(NoPosition(names[0])))
  {
  }

  /**
   * The state of the filter loop part way through: the entries pushed and the
   * coins fetched so far, followed by what the loop over the remaining names
   * yields, make up the outcome of the whole loop.
   */
  predicate Continues(whole: Resolution, entries: seq<Entry>, fetched: seq<string>, rest: Resolution)
  {
    whole == Resolution(entries + rest.entries, rest.cache, fetched + rest.fetched, rest.failed)
  }

  lemma SkipStep(whole: Resolution, entries: seq<Entry>, fetched: seq<string>, cache: map<string, real>,
                 fetch: string -> seq<Trade>, h: Holdings, prices: map<string, PriceRecord>, names: seq<string>)
    requires names != [] && !Included(h, prices, names[0])
    requires Continues(whole, entries, fetched, Resolve(cache, fetch, h, prices, names))
    ensures Continues(whole, entries, fetched, Resolve(cache, fetch, h, prices, names[1..]))
  {
    ResolveOther(cache, fetch, h, prices, names);
  }

  lemma KeptStep(whole: Resolution, entries: seq<Entry>, fetched: seq<string>, cache: map<string, real>,
                 fetch: string -> seq<Trade>, h: Holdings, prices: map<string, PriceRecord>, names: seq<string>)
    requires names != [] && Included(h, prices, names[0]) && prices[names[0]].todayRate.Some?
    requires LookupCost(cache, fetch, names[0]).Some?
    requires Continues(whole, entries, fetched, Resolve(cache, fetch, h, prices, names))
    ensures var c := names[0];
      Continues(whole, entries + [MakeEntry(h, prices, c, LookupCost(cache, fetch, c).value)],
                fetched + FetchesOf(cache, c), Resolve(AfterLookup(cache, fetch, c), fetch, h, prices, names[1..]))
  {
    var c := names[0];
    var rest := Resolve(AfterLookup(cache, fetch, c), fetch, h, prices, names[1..]);
    var e := MakeEntry(h, prices, c, LookupCost(cache, fetch, c).value);
    ResolveKept(cache, fetch, h, prices, names);
    assert entries + ([e] + rest.entries) == entries + [e] + rest.entries;
    assert fetched + (FetchesOf(cache, c) + rest.fetched) == fetched + FetchesOf(cache, c) + rest.fetched;
  }

  lemma RateStep(whole: Resolution, entries: seq<Entry>, fetched: seq<string>, cache: map<string, real>,
                 fetch: string -> seq<Trade>, h: Holdings, prices: map<string, PriceRecord>, names: seq<string>)
    requires names != [] && Included(h, prices, names[0]) && prices[names[0]].todayRate.None?
    requires Continues(whole, entries, fetched, Resolve(cache, fetch, h, prices, names))
    ensures whole == Resolution(entries, cache, fetched, Some(ZeroYesterdayPrice(names[0])))
  {
    ResolveOther(cache, fetch, h, prices, names);
    assert entries + [] == entries && fetched + [] == fetched;
  }

  lemma FailStep(whole: Resolution, entries: seq<Entry>, fetched: seq<string>, cache: map<string, real>,
                 fetch: string -> seq<Trade>, h: Holdings, prices: map<string, PriceRecord>, names: seq<string>)
    requires names != [] && Included(h, prices, names[0]) && prices[names[0]].todayRate.Some?
    requires LookupCost(cache, fetch, names[0]).None?
    requires Continues(whole, entries, fetched, Resolve(cache, fetch, h, prices, names))
    ensures whole == Resolution(entries, cache, fetched + FetchesOf(cache, names[0]), Some(NoPosition(names[0])))
  {
    ResolveOther(cache, fetch, h, prices, names);
    assert entries + [] == entries;
  }

  lemma DoneStep(whole: Resolution, entries: seq<Entry>, fetched: seq<string>, cache: map<string, real>,
                 fetch: string -> seq<Trade>, h: Holdings, prices: map<string, PriceRecord>)
    requires Continues(whole, entries, fetched, Resolve(cache, fetch, h, prices, []))
    ensures whole == Resolution(entries, cache, fetched, None)
  {
    assert entries + [] == entries && fetched + [] == fetched;
  }

  /** Looking up one coin changes neither what another coin's lookup returns nor whether it hits. */
  lemma LookupElsewhere(cache: map<string, real>, fetch: string -> seq<Trade>, c: string, d: string)
    requires c != d
    ensures LookupCost(AfterLookup(cache, fetch, c), fetch, d) == LookupCost(cache, fetch, d)
    ensures CacheHit(AfterLookup(cache, fetch, c), d) == CacheHit(cache, d)
  {
  }

  /**
   * Over distinct names, the loop stops only at a kept coin: one whose
   * today's rate is not finite, or one that misses the cache and has no net
   * position. It fetches only kept coins that miss the cache.
   */
  lemma {:induction false} ResolveFailure(cache: map<string, real>, fetch: string -> seq<Trade>, h: Holdings,
                                          prices: map<string, PriceRecord>, names: seq<string>)
    requires Distinct(names)
    ensures var o, sel := Resolve(cache, fetch, h, prices, names), Selected(h, prices, names);
      && (o.failed.Some? ==> StopsAt(cache, fetch, prices, sel, o.failed.value))
      && (forall c :: c in o.fetched ==> c in sel && !CacheHit(cache, c))
    decreases |names|
  {
    if names != [] {
      var c, rest := names[0], names[1..];
      assert Distinct(rest) && c !in rest;
      SelectedMembers(h, prices, rest);
      if !Included(h, prices, c) {
        ResolveFailure(cache, fetch, h, prices, rest);
      } else if prices[c].todayRate.Some? && LookupCost(cache, fetch, c).Some? {
        var cache' := AfterLookup(cache, fetch, c);
        ResolveKept(cache, fetch, h, prices, names);
        ResolveFailure(cache', fetch, h, prices, rest);
        forall d | d in Selected(h, prices, rest)
          ensures LookupCost(cache', fetch, d) == LookupCost(cache, fetch, d) && CacheHit(cache', d) == CacheHit(cache, d)
        {
          LookupElsewhere(cache, fetch, c, d);
        }
      }
    }
  }

  /**
   * Why a pass may stop at a coin among the kept coins `sel`: its today's
   * rate is not finite, or its cost is missed in the cache and its trades
   * leave no net position.
   */
  predicate StopsAt(cache: map<string, real>, fetch: string -> seq<Trade>, prices: map<string, PriceRecord>,
                    sel: seq<string>, e: FinanceError)
  {
    match e
    case ZeroYesterdayPrice(c) => c in sel && c in prices && prices[c].todayRate.None?
    case NoPosition(c) =>
      && c in sel && c in prices && prices[c].todayRate.Some?
      && !CacheHit(cache, c) && AverageCost(fetch(c)).None?
    case _ => false
  }

  /** A loop that does not stop pushes one entry per kept coin. */
  lemma {:induction false} ResolveLength(cache: map<string, real>, fetch: string -> seq<Trade>, h: Holdings,
                                         prices: map<string, PriceRecord>, names: seq<string>)
    ensures var o := Resolve(cache, fetch, h, prices, names);
      o.failed.None? ==> |o.entries| == |Selected(h, prices, names)|
    decreases |names|
  {
    if names != [] {
      var c := names[0];
      if !Included(h, prices, c) {
        ResolveLength(cache, fetch, h, prices, names[1..]);
      } else if prices[c].todayRate.Some? && LookupCost(cache, fetch, c).Some? {
        ResolveLength(AfterLookup(cache, fetch, c), fetch, h, prices, names[1..]);
      }
    }
  }

  /** The first entry of a loop that does not stop and whose first name is kept. */
  lemma ResolveHead(cache: map<string, real>, fetch: string -> seq<Trade>, h: Holdings,
                    prices: map<string, PriceRecord>, names: seq<string>)
    requires Distinct(names) && names != [] && Included(h, prices, names[0])
    requires Resolve(cache, fetch, h, prices, names).failed.None?
    ensures var o, c := Resolve(cache, fetch, h, prices, names), names[0];
      && 0 < |o.entries| && prices[c].todayRate.Some?
      && o.entries[0] == MakeEntry(h, prices, c, o.entries[0].costPrice)
      && LookupCost(cache, fetch, c) == Some(o.entries[0].costPrice)
      && c in o.cache && o.cache[c] == o.entries[0].costPrice
  {
    var c, rest := names[0], names[1..];
    ResolveOther(cache, fetch, h, prices, names);
    assert prices[c].todayRate.Some? && LookupCost(cache, fetch, c).Some?;
    ResolveKept(cache, fetch, h, prices, names);
    assert c !in rest;
    SelectedMembers(h, prices, rest);
    ResolveFrame(AfterLookup(cache, fetch, c), fetch, h, prices, rest);
  }

  /**
   * Over distinct names, when the loop does not stop, its `k`-th entry is the
   * entry of the `k`-th kept coin, carrying the cost `getCost` returns for
   * that coin, which is also what the cache holds for it afterwards.
   */
  lemma {:induction false} ResolveEntry(cache: map<string, real>, fetch: string -> seq<Trade>, h: Holdings,
                                        prices: map<string, PriceRecord>, names: seq<string>, k: nat)
    requires Distinct(names)
    requires Resolve(cache, fetch, h, prices, names).failed.None?
    requires k < |Selected(h, prices, names)|
    ensures var o, c := Resolve(cache, fetch, h, prices, names), Selected(h, prices, names)[k];
      && k < |o.entries|
      && Included(h, prices, c) && prices[c].todayRate.Some?
      && o.entries[k] == MakeEntry(h, prices, c, o.entries[k].costPrice)
      && LookupCost(cache, fetch, c) == Some(o.entries[k].costPrice)
      && c in o.cache && o.cache[c] == o.entries[k].costPrice
    decreases |names|
  {
    var c, rest := names[0], names[1..];
    assert Distinct(rest) && c !in rest;
    ResolveOther(cache, fetch, h, prices, names);
    if !Included(h, prices, c) {
      assert Selected(h, prices, names) == Selected(h, prices, rest);
      ResolveEntry(cache, fetch, h, prices, rest, k);
    } else if k == 0 {
      ResolveHead(cache, fetch, h, prices, names);
    } else {
      assert prices[c].todayRate.Some? && LookupCost(cache, fetch, c).Some?;
      var cache' := AfterLookup(cache, fetch, c);
      ResolveKept(cache, fetch, h, prices, names);
      ResolveEntry(cache', fetch, h, prices, rest, k - 1);
      SelectedMembers(h, prices, rest);
      LookupElsewhere(cache, fetch, c, Selected(h, prices, rest)[k - 1]);
    }
  }

  /** The coins of `names` whose cost the cache `cache` misses, in order. */
  function Misses(cache: map<string, real>, names: seq<string>): (r: seq<string>)
    ensures forall c :: c in r <==> c in names && !CacheHit(cache, c)
    ensures Distinct(names) ==> Distinct(r)
  {
    if names == [] then []
    else
      var rest := Misses(cache, names[1..]);
      assert forall c :: c in names <==> c == names[0] || c in names[1..];
      assert Distinct(names) ==> Distinct(names[1..]);
      (if CacheHit(cache, names[0]) then [] else [names[0]]) + rest
  }

  lemma {:induction false} MissesFrame(a: map<string, real>, b: map<string, real>, names: seq<string>)
    requires forall d :: d in names ==> CacheHit(a, d) == CacheHit(b, d)
    ensures Misses(a, names) == Misses(b, names)
  {
    if names != [] {
      MissesFrame(a, b, names[1..]);
    }
  }

  /**
   * Over distinct names, a loop that does not stop fetches the trade history
   * of exactly the kept coins that miss the cache, each once, in the order
   * they are visited.
   */
  lemma {:induction false} ResolveFetched(cache: map<string, real>, fetch: string -> seq<Trade>, h: Holdings,
                                          prices: map<string, PriceRecord>, names: seq<string>)
    requires Distinct(names)
    ensures var o := Resolve(cache, fetch, h, prices, names);
      o.failed.None? ==> o.fetched == Misses(cache, Selected(h, prices, names))
    decreases |names|
  {
    if names != [] {
      var c, rest := names[0], names[1..];
      assert Distinct(rest) && c !in rest;
      if !Included(h, prices, c) {
        assert Selected(h, prices, names) == Selected(h, prices, rest);
        ResolveFetched(cache, fetch, h, prices, rest);
      } else if prices[c].todayRate.Some? && LookupCost(cache, fetch, c).Some? {
        var cache' := AfterLookup(cache, fetch, c);
        ResolveKept(cache, fetch, h, prices, names);
        ResolveFetched(cache', fetch, h, prices, rest);
        SelectedMembers(h, prices, rest);
        forall d | d in Selected(h, prices, rest)
          ensures CacheHit(cache', d) == CacheHit(cache, d)
        {
          LookupElsewhere(cache, fetch, c, d);
        }
        MissesFrame(cache', cache, Selected(h, prices, rest));
      }
    }
  }

  /** Everything one pass of `finance()` yields: its result, the cache, the trade fetches. */
  datatype Outcome = Outcome(result: Result<seq<Entry>, FinanceError>, cache: map<string, real>, fetched: seq<string>)

  function FinanceOutcome(cache: map<string, real>, fetch: string -> seq<Trade>, response: FinanceResponse,
                          market: seq<(string, Ticker)>, trends: map<string, real>): Outcome
  {
    if response.status != 1 then Outcome(Err(StatusNotOk), cache, [])
    else
      var h := Parse(response.data);
      match Prices(market, trends)
      case Err(e) => Outcome(Err(e), cache, [])
      case Ok(prices) =>
        var o := Resolve(cache, fetch, h, prices, h.order);
        Outcome(if o.failed.Some? then Err(o.failed.value) else Ok(o.entries), o.cache, o.fetched)
  }

  /**
   * Why a pass of `finance()` fails. A status other than 1 aborts it before
   * anything else, and only it gives `StatusNotOk`. A listed coin without a
   * trend record gives `MissingTrend`, before any trade request. Any other
   * failure names a coin the pass keeps: one whose yesterday price is 0, or
   * one whose cost misses the cache and whose trades leave no net position;
   * a zero yesterday price on a coin that is not kept stops nothing.
   */
  lemma FinanceFailure(cache: map<string, real>, fetch: string -> seq<Trade>, response: FinanceResponse,
                       market: seq<(string, Ticker)>, trends: map<string, real>)
    ensures var out := FinanceOutcome(cache, fetch, response, market, trends);
      && (out.result == Err(StatusNotOk) <==> response.status != 1)
      && (response.status != 1 ==> out == Outcome(Err(StatusNotOk), cache, []))
      && (out.result == Err(MissingTrend) <==>
            response.status == 1 && exists i :: 0 <= i < |market| && market[i].0 !in trends)
      && (out.result == Err(MissingTrend) ==> out == Outcome(Err(MissingTrend), cache, []))
      && (out.result.Err? && out.result.error != StatusNotOk && out.result.error != MissingTrend ==>
            && Prices(market, trends).Ok?
            && var h, prices := Parse(response.data), Prices(market, trends).value;
               StopsAt(cache, fetch, prices, Selected(h, prices, h.order), out.result.error))
  {
    PricesFromOk(map[], market, trends);
    if response.status == 1 && Prices(market, trends).Ok? {
      var h := Parse(response.data);
      ParseWellFormed(response.data);
      ResolveFailure(cache, fetch, h, Prices(market, trends).value, h.order);
    }
  }

  /**
   * Which assets a successful pass of `finance()` lists: exactly those whose
   * last `balance` key is present, that have a price record with a price
   * other than 0, and whose price times balance exceeds 5.
   */
  lemma FinanceInclusion(data: seq<(string, real)>, prices: map<string, PriceRecord>)
    ensures var h := Parse(data);
      forall c :: c in Selected(h, prices, h.order) <==>
        && LastValue(data, c, Balance).Some?
        && c in prices && prices[c].price != 0.0
        && WorthShowing(prices[c].price, LastValue(data, c, Balance).value)
  {
    var h := Parse(data);
    ParseWellFormed(data);
    SelectedMembers(h, prices, h.order);
    forall c
      ensures c in Selected(h, prices, h.order) <==>
        && LastValue(data, c, Balance).Some?
        && c in prices && prices[c].price != 0.0
        && WorthShowing(prices[c].price, LastValue(data, c, Balance).value)
    {
      ParseField(data, c, Balance);
      var last := LastValue(data, c, Balance);
      if last.Some? {
        assert c in h.fields && h.fields[c][Balance] == last.value;
        assert c in h.order;
        assert c in Selected(h, prices, h.order) <==> Included(h, prices, c);
      } else {
        assert !Included(h, prices, c);
      }
    }
  }

  /** Filtering keeps the order of the names: names that rise in `rank` still do once filtered. */
  lemma {:induction false} SelectedKeepsOrder(h: Holdings, prices: map<string, PriceRecord>, names: seq<string>,
                                              rank: string -> int)
    requires forall i, j :: 0 <= i < j < |names| ==> rank(names[i]) < rank(names[j])
    ensures forall k, l :: 0 <= k < l < |Selected(h, prices, names)| ==>
      rank(Selected(h, prices, names)[k]) < rank(Selected(h, prices, names)[l])
  {
    if names != [] {
      var rest := names[1..];
      forall i, j | 0 <= i < j < |rest|
        ensures rank(rest[i]) < rank(rest[j])
      {
        assert rest[i] == names[i + 1] && rest[j] == names[j + 1];
      }
      SelectedKeepsOrder(h, prices, rest, rank);
      var tail := Selected(h, prices, rest);
      if Included(h, prices, names[0]) {
        SelectedMembers(h, prices, rest);
        forall l | 0 <= l < |tail|
          ensures rank(names[0]) < rank(tail[l])
        {
          assert tail[l] in rest;
          var j :| 0 <= j < |rest| && rest[j] == tail[l];
          assert names[j + 1] == tail[l];
        }
        var sel := [names[0]] + tail;
        assert Selected(h, prices, names) == sel;
        forall k, l | 0 <= k < l < |sel|
          ensures rank(sel[k]) < rank(sel[l])
        {
          assert sel[l] == tail[l - 1];
          if k > 0 {
            assert sel[k] == tail[k - 1];
          }
        }
      } else {
        var sel := Selected(h, prices, names);
        assert sel == tail;
        forall k, l | 0 <= k < l < |sel|
          ensures rank(sel[k]) < rank(sel[l])
        {
          assert sel[k] == tail[k] && sel[l] == tail[l];
        }
      }
    }
  }

  /**
   * A successful pass of `finance()`: one entry per listed asset, in the
   * order of `my_coins`. Each entry copies the balance of the asset's last
   * `balance` key and the ticker's name, price, day high and day low,
   * carries today's rate, which is finite, as a percentage rounded to 2
   * places and the cost `getCost` returns, which the cache now holds.
   */
  lemma FinanceEntries(cache: map<string, real>, fetch: string -> seq<Trade>, response: FinanceResponse,
                       market: seq<(string, Ticker)>, trends: map<string, real>)
    requires FinanceOutcome(cache, fetch, response, market, trends).result.Ok?
    ensures response.status == 1 && Prices(market, trends).Ok?
    ensures var out, h, prices := FinanceOutcome(cache, fetch, response, market, trends), Parse(response.data), Prices(market, trends).value;
      var es, sel := out.result.value, Selected(h, prices, h.order);
      && |es| == |sel|
      && (forall k :: 0 <= k < |es| ==>
            var c, e := sel[k], es[k];
            && c in prices && prices[c].todayRate.Some?
            && Some(e.balance) == LastValue(response.data, c, Balance)
            && e.name == prices[c].name && e.price == prices[c].price
            && e.maxPrice == prices[c].maxPrice && e.minPrice == prices[c].minPrice
            && e.todayRate == RoundTo(prices[c].todayRate.value * 100.0, 0.01)
            && LookupCost(cache, fetch, c) == Some(e.costPrice)
            && c in out.cache && out.cache[c] == e.costPrice)
  {
    var h := Parse(response.data);
    ParseWellFormed(response.data);
    var prices := Prices(market, trends).value;
    var o := Resolve(cache, fetch, h, prices, h.order);
    ResolveLength(cache, fetch, h, prices, h.order);
    var sel := Selected(h, prices, h.order);
    forall k | 0 <= k < |o.entries|
      ensures && Some(o.entries[k].balance) == LastValue(response.data, sel[k], Balance)
              && Included(h, prices, sel[k]) && prices[sel[k]].todayRate.Some?
              && o.entries[k] == MakeEntry(h, prices, sel[k], o.entries[k].costPrice)
              && LookupCost(cache, fetch, sel[k]) == Some(o.entries[k].costPrice)
              && sel[k] in o.cache && o.cache[sel[k]] == o.entries[k].costPrice
    {
      ResolveEntry(cache, fetch, h, prices, h.order, k);
      ParseField(response.data, sel[k], Balance);
    }
  }

  /**
   * The listed assets come in the order in which their names first appear
   * among the keys of the finance response.
   */
  lemma FinanceOrder(data: seq<(string, real)>, prices: map<string, PriceRecord>)
    ensures var h := Parse(data);
      var sel := Selected(h, prices, h.order);
      forall k, l :: 0 <= k < l < |sel| ==> FirstIndex(data, sel[k]) < FirstIndex(data, sel[l])
  {
    var h := Parse(data);
    forall i, j | 0 <= i < j < |h.order|
      ensures FirstIndex(data, h.order[i]) < FirstIndex(data, h.order[j])
    {
      ParseOrderFirst(data, i, j);
    }
    SelectedKeepsOrder(h, prices, h.order, n => FirstIndex(data, n));
  }

  /**
   * The cache and the trade requests after a successful pass: entries of
   * unlisted coins are unchanged, and the trade history was fetched exactly
   * for the listed coins whose cached cost was 0 or absent, once each, in
   * list order.
   */
  lemma FinanceFetches(cache: map<string, real>, fetch: string -> seq<Trade>, response: FinanceResponse,
                       market: seq<(string, Ticker)>, trends: map<string, real>)
    requires FinanceOutcome(cache, fetch, response, market, trends).result.Ok?
    ensures response.status == 1 && Prices(market, trends).Ok?
    ensures var out, h, prices := FinanceOutcome(cache, fetch, response, market, trends), Parse(response.data), Prices(market, trends).value;
      var sel := Selected(h, prices, h.order);
      && (forall d :: d !in sel ==> (d in out.cache <==> d in cache) && (d in cache ==> out.cache[d] == cache[d]))
      && out.fetched == Misses(cache, sel)
  {
    var h := Parse(response.data);
    ParseWellFormed(response.data);
    var prices := Prices(market, trends).value;
    ResolveFrame(cache, fetch, h, prices, h.order);
    ResolveFetched(cache, fetch, h, prices, h.order);
  }

  /**
   * A successful pass of `finance()`, all of it: the entries
   * (`FinanceEntries`), their order (`FinanceOrder`), and the cache and the
   * trade requests (`FinanceFetches`).
   */
  lemma FinanceSpec(cache: map<string, real>, fetch: string -> seq<Trade>, response: FinanceResponse,
                    market: seq<(string, Ticker)>, trends: map<string, real>)
    requires FinanceOutcome(cache, fetch, response, market, trends).result.Ok?
    ensures response.status == 1 && Prices(market, trends).Ok?
    ensures var out, h, prices := FinanceOutcome(cache, fetch, response, market, trends), Parse(response.data), Prices(market, trends).value;
      var es, sel := out.result.value, Selected(h, prices, h.order);
      && |es| == |sel|
      && (forall k :: 0 <= k < |es| ==>
            var c, e := sel[k], es[k];
            && c in prices && prices[c].todayRate.Some?
            && Some(e.balance) == LastValue(response.data, c, Balance)
            && e.name == prices[c].name && e.price == prices[c].price
            && e.maxPrice == prices[c].maxPrice && e.minPrice == prices[c].minPrice
            && e.todayRate == RoundTo(prices[c].todayRate.value * 100.0, 0.01)
            && LookupCost(cache, fetch, c) == Some(e.costPrice)
            && c in out.cache && out.cache[c] == e.costPrice)
      && (forall k, l :: 0 <= k < l < |sel| ==> FirstIndex(response.data, sel[k]) < FirstIndex(response.data, sel[l]))
      && (forall d :: d !in sel ==> (d in out.cache <==> d in cache) && (d in cache ==> out.cache[d] == cache[d]))
      && out.fetched == Misses(cache, sel)
  {
    FinanceEntries(cache, fetch, response, market, trends);
    FinanceOrder(response.data, Prices(market, trends).value);
    FinanceFetches(cache, fetch, response, market, trends);
  }
}
