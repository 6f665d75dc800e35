/** The stock-out forecast: the daily series it is fitted on, the scan of the batch job and the scan of the
    alert. Days are day numbers; the fitted model's output is any list of numbers. */
module Forecast {
  import opened Prelude

  const MIN_HISTORY_DAYS := 7

  datatype StockoutForecast = StockoutForecast(daysToStockout: Option<nat>, stockoutDate: Option<int>,
                                               dailyForecast: seq<real>, historyDays: nat)

  // ---- The least day on which the forecast reaches the stock ----

  function Prefix(forecast: seq<real>, n: nat): real
    requires n <= |forecast|
  {
    if n == 0 then 0.0 else Prefix(forecast, n - 1) + forecast[n - 1]
  }

  /** Sell day by day until nothing is left. */
  function StockoutDay(forecast: seq<real>, stock: real): (d: Option<nat>)
    ensures d.Some? ==> d.value <= |forecast|
  {
    if stock <= 0.0 then Some(0)
    else if forecast == [] then None
    else
      var later := StockoutDay(forecast[1..], stock - forecast[0]);
      if later.None? then None else Some(later.value + 1)
  }

  lemma {:induction false} PrefixOfRest(forecast: seq<real>, n: nat)
    requires forecast != [] && n < |forecast|
    ensures Prefix(forecast, n + 1) == forecast[0] + Prefix(forecast[1..], n)
  {
    if n > 0 {
      PrefixOfRest(forecast, n - 1);
    }
  }

  /** Day d is the first one whose forecast total reaches the stock. */
  ghost predicate Reaches(forecast: seq<real>, stock: real, d: nat)
  {
    && d <= |forecast| && stock <= Prefix(forecast, d)
    && forall e :: 0 <= e < d ==> Prefix(forecast, e) < stock
  }

  lemma ReachesLater(forecast: seq<real>, stock: real, d: nat)
    requires forecast != [] && 0.0 < stock && 0 < d
    ensures Reaches(forecast, stock, d) <==> Reaches(forecast[1..], stock - forecast[0], d - 1)
  {
    if d <= |forecast| {
      PrefixOfRest(forecast, d - 1);
      forall e | 0 <= e < |forecast| ensures Prefix(forecast, e + 1) == forecast[0] + Prefix(forecast[1..], e) {
        PrefixOfRest(forecast, e);
      }
      if Reaches(forecast, stock, d) {
        forall e | 0 <= e < d - 1 ensures Prefix(forecast[1..], e) < stock - forecast[0] {
          assert Prefix(forecast, e + 1) < stock;
        }
      }
      if Reaches(forecast[1..], stock - forecast[0], d - 1) {
        forall e | 0 <= e < d ensures Prefix(forecast, e) < stock {
          if e > 0 {
            assert Prefix(forecast[1..], e - 1) < stock - forecast[0];
          }
        }
      }
    }
  }

  lemma {:induction false} DayIsFirstReach(forecast: seq<real>, stock: real, d: nat)
    ensures StockoutDay(forecast, stock) == Some(d) <==> Reaches(forecast, stock, d)
    decreases |forecast|
  {
    if stock <= 0.0 {
      assert Prefix(forecast, 0) == 0.0;
    } else if forecast != [] && d > 0 {
      DayIsFirstReach(forecast[1..], stock - forecast[0], d - 1);
      ReachesLater(forecast, stock, d);
    }
  }

  lemma {:induction false} NoDayReaches(forecast: seq<real>, stock: real, d: nat)
    requires StockoutDay(forecast, stock).None? && d <= |forecast|
    ensures Prefix(forecast, d) < stock
    decreases d
  {
    if d > 0 {
      NoDayReaches(forecast[1..], stock - forecast[0], d - 1);
      PrefixOfRest(forecast, d - 1);
    }
  }

  /** The answer is the least day whose prefix sum reaches the stock, and there is none exactly when no
      prefix sum does. */
  lemma StockoutIsFirstReach(forecast: seq<real>, stock: real)
    ensures forall d: nat :: StockoutDay(forecast, stock) == Some(d) <==> Reaches(forecast, stock, d)
    ensures StockoutDay(forecast, stock).None? <==> forall d :: 0 <= d <= |forecast| ==> Prefix(forecast, d) < stock
  {
    forall d: nat ensures StockoutDay(forecast, stock) == Some(d) <==> Reaches(forecast, stock, d) {
      DayIsFirstReach(forecast, stock, d);
    }
    if StockoutDay(forecast, stock).None? {
      forall d | 0 <= d <= |forecast| ensures Prefix(forecast, d) < stock {
        NoDayReaches(forecast, stock, d);
      }
    } else {
      var d := StockoutDay(forecast, stock).value;
      assert Reaches(forecast, stock, d);
      assert stock <= Prefix(forecast, d);
    }
  }

  /** a is not after b; no day at all is after every day. */
  predicate NotAfter(a: Option<nat>, b: Option<nat>)
  {
    b.Some? ==> a.Some? && a.value <= b.value
  }

  /** More stock never runs out earlier. */
  lemma {:induction false} MoreStockLastsLonger(forecast: seq<real>, less: real, more: real)
    requires less <= more
    ensures NotAfter(StockoutDay(forecast, less), StockoutDay(forecast, more))
    decreases |forecast|
  {
    if 0.0 < less && forecast != [] {
      MoreStockLastsLonger(forecast[1..], less - forecast[0], more - forecast[0]);
    }
  }

  function Earlier(d: Option<nat>, k: nat): Option<nat>
    requires d.Some? ==> k <= d.value
  {
    if d.None? then None else Some(d.value - k)
  }

  /** After selling exactly what the first k days forecast, the rest of the forecast runs out k days sooner,
      unless the stock was gone before that. */
  lemma {:induction false} SellingShifts(forecast: seq<real>, stock: real, k: nat)
    requires k <= |forecast|
    requires StockoutDay(forecast, stock).Some? ==> k <= StockoutDay(forecast, stock).value
    ensures StockoutDay(forecast[k..], stock - Prefix(forecast, k)) == Earlier(StockoutDay(forecast, stock), k)
    decreases k
  {
    if k == 0 {
      assert forecast[0..] == forecast;
    } else {
      SellingShifts(forecast[1..], stock - forecast[0], k - 1);
      PrefixOfRest(forecast, k - 1);
      assert forecast[1..][k - 1..] == forecast[k..];
    }
  }

  predicate NonNegative(s: seq<real>)
  {
    forall i :: 0 <= i < |s| ==> 0.0 <= s[i]
  }

  lemma {:induction false} PrefixGrows(forecast: seq<real>, a: nat, b: nat)
    requires NonNegative(forecast) && a <= b <= |forecast|
    ensures Prefix(forecast, a) <= Prefix(forecast, b)
  {
    if a < b {
      PrefixGrows(forecast, a, b - 1);
    }
  }

  /** Without negative days the stock stays gone: the totals that reach it are those from the answer on. */
  lemma OnceGoneStaysGone(forecast: seq<real>, stock: real, d: nat, e: nat)
    requires NonNegative(forecast) && StockoutDay(forecast, stock) == Some(d) && e <= |forecast|
    ensures stock <= Prefix(forecast, e) <==> d <= e
  {
    StockoutIsFirstReach(forecast, stock);
    assert Reaches(forecast, stock, d);
    if d <= e {
      PrefixGrows(forecast, d, e);
    }
  }

  // ---- The two scans ----

  /** The rest of the scan from day k, when the days before it have not reached the stock. */
  lemma ScanStep(forecast: seq<real>, stock: real, k: nat)
    requires k < |forecast| && forall e :: 0 <= e <= k ==> Prefix(forecast, e) < stock
    ensures stock <= Prefix(forecast, k + 1) ==> StockoutDay(forecast, stock) == Some(k + 1)
  {
    StockoutIsFirstReach(forecast, stock);
    if stock <= Prefix(forecast, k + 1) {
      assert Reaches(forecast, stock, k + 1);
    }
  }

  /** _days_until_stockout of the alert service. */
  method DaysUntilStockout(dailyForecast: seq<real>, currentStock: real) returns (days: Option<nat>)
    ensures days == StockoutDay(dailyForecast, currentStock)
  {
    if currentStock <= 0.0 {
      return Some(0);
    }
    var cumulative := 0.0;
    for i := 0 to |dailyForecast|
      invariant cumulative == Prefix(dailyForecast, i)
      invariant forall e :: 0 <= e <= i ==> Prefix(dailyForecast, e) < currentStock
    {
      cumulative := cumulative + dailyForecast[i];
      ScanStep(dailyForecast, currentStock, i);
      if currentStock <= cumulative {
        return Some(i + 1);
      }
    }
    StockoutIsFirstReach(dailyForecast, currentStock);
    return None;
  }

  function Clamped(model: seq<real>): (r: seq<real>)
    ensures |r| == |model| && NonNegative(r)
    ensures forall i :: 0 <= i < |r| ==> model[i] <= r[i] && (r[i] == model[i] || r[i] == 0.0)
  {
    seq(|model|, i requires 0 <= i < |model| => if model[i] < 0.0 then 0.0 else model[i])
  }

  /** What the batch job answers, given how long the series is and what the fitted model predicts. */
  function Forecasted(history: nat, currentStock: real, model: seq<real>, minHistory: int, today: int): StockoutForecast
  {
    if history < minHistory then StockoutForecast(None, None, [], history)
    else if currentStock <= 0.0 then StockoutForecast(Some(0), Some(today), [], history)
    else
      var d := StockoutDay(Clamped(model), currentStock);
      StockoutForecast(d, if d.Some? then Some(today + d.value) else None, Clamped(model), history)
  }

  /** What the answer says: on a short history nothing; without stock today; otherwise the first day on which the
      clamped forecast adds up to the stock, and the date that many days after today. */
  lemma ForecastSays(history: nat, stock: real, model: seq<real>, minHistory: int, today: int)
    ensures var f := Forecasted(history, stock, model, minHistory, today);
      && f.historyDays == history
      && (history < minHistory ==> f.daysToStockout.None? && f.stockoutDate.None? && f.dailyForecast == [])
      && (minHistory <= history && stock <= 0.0 ==>
            f.daysToStockout == Some(0) && f.stockoutDate == Some(today) && f.dailyForecast == [])
      && (minHistory <= history && 0.0 < stock ==>
            && f.dailyForecast == Clamped(model)
            && (forall d: nat :: f.daysToStockout == Some(d) <==> Reaches(f.dailyForecast, stock, d))
            && (forall d: nat :: f.stockoutDate == Some(today + d) <==> Reaches(f.dailyForecast, stock, d)))
    ensures Forecasted(history, 0.0, model, MIN_HISTORY_DAYS, today).daysToStockout.Some? <==> 7 <= history
  {
    StockoutIsFirstReach(Clamped(model), stock);
  }

  /** forecast_days_to_stockout of the batch job; model is what the fitted model predicts. */
  method ForecastDaysToStockout(dailySales: map<int, real>, currentStock: real, model: seq<real>, today: int,
                                minHistory: int := MIN_HISTORY_DAYS)
    returns (r: StockoutForecast)
    ensures r == Forecasted(|DailySeries(dailySales)|, currentStock, model, minHistory, today)
  {
    var series := DailySeries(dailySales);
    if |series| < minHistory {
      return StockoutForecast(None, None, [], |series|);
    }
    if currentStock <= 0.0 {
      return StockoutForecast(Some(0), Some(today), [], |series|);
    }
    var dailyForecast := Clamped(model);
    var cumulative := 0.0;
    for i := 0 to |dailyForecast|
      invariant cumulative == Prefix(dailyForecast, i)
      invariant forall e :: 0 <= e <= i ==> Prefix(dailyForecast, e) < currentStock
    {
      cumulative := cumulative + dailyForecast[i];
      ScanStep(dailyForecast, currentStock, i);
      if currentStock <= cumulative {
        return StockoutForecast(Some(i + 1), Some(today + i + 1), dailyForecast, |series|);
      }
    }
    StockoutIsFirstReach(dailyForecast, currentStock);
    return StockoutForecast(None, None, dailyForecast, |series|);
  }

  /** With no negative days there is an answer exactly when the whole forecast reaches the stock. */
  lemma WholeForecastDecides(forecast: seq<real>, stock: real)
    requires NonNegative(forecast)
    ensures StockoutDay(forecast, stock).Some? <==> stock <= Prefix(forecast, |forecast|)
  {
    StockoutIsFirstReach(forecast, stock);
    if StockoutDay(forecast, stock).Some? {
      OnceGoneStaysGone(forecast, stock, StockoutDay(forecast, stock).value, |forecast|);
    }
  }

  /** Whether the stored forecast can still speak for a stock that changed: on a short history there must be
      stock now; on a long one, it must not have been made with none and the model foresee selling all that
      is there now. */
  predicate ForecastCovers(history: nat, before: real, now: real, model: seq<real>, minHistory: int)
  {
    if history < minHistory then 0.0 < now
    else before <= 0.0 < now ==> Prefix(Clamped(model), |model|) < now
  }

  /** The alert crosses the stored forecast with the stock of the moment. It answers what the batch would answer
      for that stock exactly when the forecast covers it. */
  lemma AlertOnChangedStock(history: nat, before: real, now: real, model: seq<real>, minHistory: int, today: int)
    ensures StockoutDay(Forecasted(history, before, model, minHistory, today).dailyForecast, now)
         == Forecasted(history, now, model, minHistory, today).daysToStockout
      <==> ForecastCovers(history, before, now, model, minHistory)
  {
    WholeForecastDecides(Clamped(model), now);
  }

  /** With the same stock the two scans agree exactly when the history was long enough or there was stock: on
      a short history with nothing left the batch gives no answer and the alert says today. */
  lemma ScansAgree(history: nat, stock: real, model: seq<real>, minHistory: int, today: int)
    ensures var b := Forecasted(history, stock, model, minHistory, today);
      StockoutDay(b.dailyForecast, stock) == b.daysToStockout <==> minHistory <= history || 0.0 < stock
  {
    AlertOnChangedStock(history, stock, stock, model, minHistory, today);
  }

  /** Stock that arrives after a forecast made with none left: the alert announces no stock-out, and misses one
      exactly when the model foresees selling all that arrived. */
  lemma RestockedGetsNoAlert(history: nat, before: real, now: real, model: seq<real>, minHistory: int, today: int)
    requires minHistory <= history && before <= 0.0 < now
    ensures StockoutDay(Forecasted(history, before, model, minHistory, today).dailyForecast, now).None?
    ensures Forecasted(history, now, model, minHistory, today).daysToStockout.Some? <==> now <= Prefix(Clamped(model), |model|)
  {
    AlertOnChangedStock(history, before, now, model, minHistory, today);
    WholeForecastDecides(Clamped(model), now);
  }

  // ---- The daily series ----

  ghost predicate First(days: set<int>, d: int) { d in days && forall e :: e in days ==> d <= e }
  ghost predicate Final(days: set<int>, d: int) { d in days && forall e :: e in days ==> e <= d }

  lemma {:induction false} EndsExist(days: set<int>)
    requires days != {}
    ensures (exists d :: First(days, d)) && (exists d :: Final(days, d))
  {
    if forall x :: x !in days {
      assert false;
    }
    var x :| x in days;
    var rest := days - {x};
    if rest == {} {
      assert days == {x};
      assert First(days, x) && Final(days, x);
    } else {
      EndsExist(rest);
      var a, b :| First(rest, a) && Final(rest, b);
      assert forall e :: e in days ==> e == x || e in rest;
      assert First(days, if x < a then x else a);
      assert Final(days, if b < x then x else b);
    }
  }

  function MinDay(days: set<int>): (d: int)
    requires days != {}
    ensures First(days, d)
  {
    assert exists d :: d in days && forall e :: e in days ==> d <= e by {
      EndsExist(days);
      var d :| First(days, d);
      assert d in days;
    }
    var d :| d in days && forall e :: e in days ==> d <= e;
    d
  }

  function MaxDay(days: set<int>): (d: int)
    requires days != {}
    ensures Final(days, d)
  {
    assert exists d :: d in days && forall e :: e in days ==> e <= d by {
      EndsExist(days);
      var d :| Final(days, d);
      assert d in days;
    }
    var d :| d in days && forall e :: e in days ==> e <= d;
    d
  }

  function Sales(dailySales: map<int, real>, day: int): real
  {
    if day in dailySales then dailySales[day] else 0.0
  }

  /** _build_daily_series: one number for every day from the first sale to the last. */
  function DailySeries(dailySales: map<int, real>): seq<real>
  {
    if dailySales == map[] then []
    else
      var start, end := MinDay(dailySales.Keys), MaxDay(dailySales.Keys);
      seq(end - start + 1, i => Sales(dailySales, start + i))
  }

  function SalesTotal(dailySales: map<int, real>): real
  {
    if dailySales == map[] then 0.0
    else
      var d := MinDay(dailySales.Keys);
      dailySales[d] + SalesTotal(dailySales - {d})
  }

  function SalesFrom(dailySales: map<int, real>, start: int, n: nat): real
  {
    if n == 0 then 0.0 else SalesFrom(dailySales, start, n - 1) + Sales(dailySales, start + n - 1)
  }

  lemma {:induction false} DropDay(dailySales: map<int, real>, d: int, start: int, n: nat)
    requires d in dailySales
    ensures SalesFrom(dailySales, start, n)
         == SalesFrom(dailySales - {d}, start, n) + if start <= d < start + n then dailySales[d] else 0.0
  {
    if n > 0 {
      DropDay(dailySales, d, start, n - 1);
    }
  }

  lemma {:induction false} NoDays(start: int, n: nat)
    ensures SalesFrom(map[], start, n) == 0.0
  {
    if n > 0 {
      NoDays(start, n - 1);
    }
  }

  lemma {:induction false} RangeHoldsTotal(dailySales: map<int, real>, start: int, n: nat)
    requires forall d :: d in dailySales ==> start <= d < start + n
    ensures SalesFrom(dailySales, start, n) == SalesTotal(dailySales)
    decreases |dailySales|
  {
    if dailySales == map[] {
      NoDays(start, n);
    } else {
      var d := MinDay(dailySales.Keys);
      var rest := dailySales - {d};
      assert d in dailySales && rest.Keys == dailySales.Keys - {d};
      assert |rest| == |rest.Keys| && |dailySales| == |dailySales.Keys|;
      DropDay(dailySales, d, start, n);
      RangeHoldsTotal(rest, start, n);
    }
  }

  lemma {:induction false} PrefixIsRange(dailySales: map<int, real>, start: int, series: seq<real>, n: nat)
    requires n <= |series| && forall i :: 0 <= i < |series| ==> series[i] == Sales(dailySales, start + i)
    ensures Prefix(series, n) == SalesFrom(dailySales, start, n)
  {
    if n > 0 {
      PrefixIsRange(dailySales, start, series, n - 1);
    }
  }

  /** Every day has its place in the series. */
  lemma SeriesPlaces(dailySales: map<int, real>)
    requires dailySales != map[]
    ensures var series, start, end := DailySeries(dailySales), MinDay(dailySales.Keys), MaxDay(dailySales.Keys);
      && |series| == end - start + 1
      && (forall i :: 0 <= i < |series| ==> series[i] == Sales(dailySales, start + i))
      && (forall d :: d in dailySales ==> start <= d <= end)
  {
    forall d | d in dailySales ensures MinDay(dailySales.Keys) <= d <= MaxDay(dailySales.Keys) {
      assert d in dailySales.Keys;
    }
  }

  lemma SeriesTotal(dailySales: map<int, real>, start: int, series: seq<real>)
    requires forall i :: 0 <= i < |series| ==> series[i] == Sales(dailySales, start + i)
    requires forall d :: d in dailySales ==> start <= d < start + |series|
    ensures Prefix(series, |series|) == SalesTotal(dailySales)
  {
    PrefixIsRange(dailySales, start, series, |series|);
    RangeHoldsTotal(dailySales, start, |series|);
  }

  /** The series covers every day from the first sale to the last, has each day's sales at its place and
      zero on days without any, and adds up to the same total. */
  lemma SeriesKeepsTotal(dailySales: map<int, real>)
    requires dailySales != map[]
    ensures var series, start, end := DailySeries(dailySales), MinDay(dailySales.Keys), MaxDay(dailySales.Keys);
      && |series| == end - start + 1
      && (forall d :: d in dailySales ==> 0 <= d - start < |series| && series[d - start] == dailySales[d])
      && (forall i :: 0 <= i < |series| && start + i !in dailySales ==> series[i] == 0.0)
      && Prefix(series, |series|) == SalesTotal(dailySales)
  {
    var series, start := DailySeries(dailySales), MinDay(dailySales.Keys);
    SeriesPlaces(dailySales);
    SeriesTotal(dailySales, start, series);
    forall d | d in dailySales ensures 0 <= d - start < |series| && series[d - start] == dailySales[d] {
      assert series[d - start] == Sales(dailySales, start + (d - start));
    }
  }
}
