/** The display rows `format()` builds and the percentage-cell formatter of the table. */
module Rows {
  import opened Wrappers
  import opened Numeric
  import opened Valuation

  /**
   * One table row, in column order: name, balance, price, cost price,
   * today's rate, today's profit, total profit, profit rate. The profit rate
   * is None where the source divides by a cost price of 0.
   */
  datatype Row = Row(name: string, balance: real, price: real, costPrice: real, todayRate: real,
                     todayProfit: real, totalProfit: real, profitRate: Option<real>)

  /** Today's move in value: price times today's rate in percent times the balance. */
  function TodayMove(e: Entry): real
  {
    e.price * e.todayRate / 100.0 * e.balance
  }

  /** The gain over the cost price, times the balance. */
  function Gain(e: Entry): real
  {
    (e.price - e.costPrice) * e.balance
  }

  /** The gain over the cost price as a percentage of the cost price. */
  function GainPercent(e: Entry): real
    requires e.costPrice != 0.0
  {
    (e.price - e.costPrice) / e.costPrice * 100.0
  }

  /** Today's profit before the clamp: today's move, to whole units. */
  function EstimatedTodayProfit(e: Entry): real
  {
    RoundTo(TodayMove(e), 1.0)
  }

  /** Total profit: the gain, to whole units. */
  function TotalProfit(e: Entry): real
  {
    RoundTo(Gain(e), 1.0)
  }

  /** The profit rate in percent to 4 places; None where the cost price is 0. */
  function ProfitRate(e: Entry): (p: Option<real>)
    ensures p.Some? <==> e.costPrice != 0.0
  {
    if e.costPrice == 0.0 then None else Some(RoundTo(GainPercent(e), 0.0001))
  }

  /** Today's profit is a whole number within half a unit of today's move. */
  lemma TodayProfitRounding(e: Entry)
    ensures IsWhole(EstimatedTodayProfit(e))
    ensures -0.5 <= EstimatedTodayProfit(e) - TodayMove(e) <= 0.5
  {
    RoundToWhole(TodayMove(e));
  }

  /** The total profit is a whole number within half a unit of the gain. */
  lemma TotalProfitRounding(e: Entry)
    ensures IsWhole(TotalProfit(e))
    ensures -0.5 <= TotalProfit(e) - Gain(e) <= 0.5
  {
    RoundToWhole(Gain(e));
  }

  /**
   * Where the cost price is not 0, the profit rate has 4 decimals and lies
   * within half of the last of them of the gain over cost in percent.
   */
  lemma ProfitRateRounding(e: Entry)
    requires e.costPrice != 0.0
    ensures IsWhole(ProfitRate(e).value * 10000.0)
    ensures -0.00005 <= ProfitRate(e).value - GainPercent(e) <= 0.00005
  {
    RoundToSpec(GainPercent(e), 0.0001);
  }

  /** The row `format()` pushes for one entry. */
  function RowOf(e: Entry): (r: Row)
    ensures r.todayProfit <= r.totalProfit
    ensures r.name == e.name && r.balance == e.balance && r.price == e.price
    ensures r.costPrice == e.costPrice && r.todayRate == e.todayRate
    ensures r.profitRate == ProfitRate(e)
  {
    var todayProfit := EstimatedTodayProfit(e);
    var totalProfit := TotalProfit(e);
    Row(e.name, e.balance, e.price, e.costPrice, e.todayRate,
        if totalProfit < todayProfit then totalProfit else todayProfit, totalProfit, ProfitRate(e))
  }

  /**
   * The clamp: today's profit is the estimate when that does not exceed the
   * total profit and the total profit otherwise, so it never exceeds either.
   */
  lemma ClampRule(e: Entry)
    ensures RowOf(e).totalProfit == TotalProfit(e)
    ensures RowOf(e).todayProfit == Min(EstimatedTodayProfit(e), TotalProfit(e))
    ensures EstimatedTodayProfit(e) <= TotalProfit(e) ==> RowOf(e).todayProfit == EstimatedTodayProfit(e)
    ensures TotalProfit(e) < EstimatedTodayProfit(e) ==> RowOf(e).todayProfit == TotalProfit(e)
  {
  }

  /**
   * The formatter of the two percentage columns: `-` for 0, otherwise the
   * number as `show` writes it (JavaScript's number-to-text) followed by `%`.
   */
  function PercentCell(v: real, show: real -> string): (s: string)
    ensures s == "-" <==> v == 0.0
    ensures v != 0.0 ==> |s| >= 1 && s[|s| - 1] == '%' && s[..|s| - 1] == show(v)
  {
    if v == 0.0 then "-"
    else
      var s := show(v) + "%";
      assert s[|s| - 1] == '%' != "-"[0];
      s
  }

  /**
   * Balance 10 at price 2 bought at 1 with no move today: worth 20, a total
   * profit of 10, no profit today (the clamp does not apply), and `-` in
   * today's-rate cell.
   */
  lemma RowExample(show: real -> string)
    ensures var r := RowOf(Entry(10.0, "X", 2.0, 2.0, 2.0, 0.0, 1.0));
      r.totalProfit == 10.0 && r.todayProfit == 0.0 && PercentCell(r.todayRate, show) == "-"
  {
    assert RoundHalfAway(10.0) == 10;
    assert RoundHalfAway(0.0) == 0;
  }
}
