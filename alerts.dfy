/** The alert rules of monitoring/engine/alerts.py: threshold tests on
    price changes, entry/current prices of holdings, price volatility in a
    time window and the portfolio balance. Prices are reals; timestamps
    are minutes on a real clock. */
module Alerts {
  import opened Common

  /** The alert records; the price-change alert's `ticker` is always
      `None` and is not kept. */
  datatype Alert =
    | PriceChange(percent: real, from: real, to: real, time: real)
    | StopLoss(ticker: Option<string>, percent: real, entry: real, current: real)
    | TakeProfit(ticker: Option<string>, percent: real, entry: real, current: real)
    | Volatility(volPercent: real, windowMinutes: real, time: real)
    | LowBalance(balanceUsd: real, threshold: real)

  /** `percent_change(old, new)`: the ZeroDivisionError of an old price of
      zero is caught and gives 0.0. */
  function PercentChange(oldPrice: real, newPrice: real): (pc: real)
    ensures oldPrice == 0.0 ==> pc == 0.0
    ensures oldPrice != 0.0 ==> pc * oldPrice == (newPrice - oldPrice) * 100.0
  {
    if oldPrice == 0.0 then 0.0 else (newPrice - oldPrice) / oldPrice * 100.0
  }

  /** The sign of the change: a rise from a positive price is a positive
      change, a fall a negative one, no change is zero. */
  lemma PercentChangeSign(oldPrice: real, newPrice: real)
    requires oldPrice > 0.0
    ensures PercentChange(oldPrice, newPrice) > 0.0 <==> newPrice > oldPrice
    ensures PercentChange(oldPrice, newPrice) < 0.0 <==> newPrice < oldPrice
    ensures PercentChange(oldPrice, newPrice) == 0.0 <==> newPrice == oldPrice
  {
    var pc := PercentChange(oldPrice, newPrice);
    assert pc * oldPrice == (newPrice - oldPrice) * 100.0;
    if pc > 0.0 { assert pc * oldPrice > 0.0; }
    if pc < 0.0 { assert pc * oldPrice < 0.0; }
    if newPrice > oldPrice { assert (newPrice - oldPrice) * 100.0 > 0.0; }
    if newPrice < oldPrice { assert (newPrice - oldPrice) * 100.0 < 0.0; }
  }

  // ---------------------------------------------------------------------------
  // check_price_change

  const DefaultPriceThreshold: real := 3.0

  /** `check_price_change(price_history, threshold_percent)` on a list of
      (time, price) points. */
  function CheckPriceChange(history: seq<(real, real)>, threshold: real): (r: Option<Alert>)
    ensures |history| < 2 ==> r.None?
  {
    if |history| < 2 then None
    else
      var (t1, p1) := history[|history| - 2];
      var (t2, p2) := history[|history| - 1];
      var pc := PercentChange(p1, p2);
      if Abs(pc) >= threshold then Some(PriceChange(pc, p1, p2, t2)) else None
  }

  /** Only the last two points count; the alert fires exactly when the
      size of their percent change reaches the threshold, and it reports
      their prices and the time of the last one. */
  lemma PriceChangeUsesLastTwo(earlier: seq<(real, real)>, a: (real, real), b: (real, real), threshold: real)
    ensures CheckPriceChange(earlier + [a, b], threshold) == CheckPriceChange([a, b], threshold)
    ensures CheckPriceChange([a, b], threshold).Some? <==> Abs(PercentChange(a.1, b.1)) >= threshold
    ensures CheckPriceChange([a, b], threshold).Some? ==>
              CheckPriceChange([a, b], threshold).value == PriceChange(PercentChange(a.1, b.1), a.1, b.1, b.0)
  {
    var h := earlier + [a, b];
    assert h[|h| - 2] == a && h[|h| - 1] == b;
  }

  // ---------------------------------------------------------------------------
  // check_stop_take

  const DefaultStopPercent: real := 5.0
  const DefaultTakePercent: real := 10.0

  /** A holding; `None` stands for a missing key. */
  datatype Holding = Holding(ticker: Option<string>, entryPrice: Option<real>, currentPrice: Option<real>)

  /** A price of `None` or 0.0 is falsy. */
  predicate Priced(p: Option<real>) {
    p.Some? && p.value != 0.0
  }

  /** The alert for one holding: none for a falsy price, a stop loss at a
      fall of at least |stop| percent, else a take profit at a rise of at
      least |take| percent. */
  function HoldingAlert(h: Holding, stop: real, take: real): Option<Alert> {
    if !Priced(h.entryPrice) || !Priced(h.currentPrice) then None
    else
      var entry := h.entryPrice.value;
      var cur := h.currentPrice.value;
      var pc := PercentChange(entry, cur);
      if pc <= -Abs(stop) then Some(StopLoss(h.ticker, pc, entry, cur))
      else if pc >= Abs(take) then Some(TakeProfit(h.ticker, pc, entry, cur))
      else None
  }

  function AsSeq(o: Option<Alert>): seq<Alert> {
    if o.Some? then [o.value] else []
  }

  /** The alerts of a portfolio, in portfolio order. */
  function StopTake(portfolio: seq<Holding>, stop: real, take: real): seq<Alert>
    decreases |portfolio|
  {
    if portfolio == [] then []
    else StopTake(portfolio[..|portfolio| - 1], stop, take) + AsSeq(HoldingAlert(portfolio[|portfolio| - 1], stop, take))
  }

  /** `check_stop_take(portfolio, stop_percent, take_percent)`. */
  method CheckStopTake(portfolio: seq<Holding>, stop: real, take: real) returns (alerts: seq<Alert>)
    ensures alerts == StopTake(portfolio, stop, take)
  {
    alerts := [];
    var i := 0;
    while i < |portfolio|
      invariant 0 <= i <= |portfolio|
      invariant alerts == StopTake(portfolio[..i], stop, take)
    {
      var h := portfolio[i];
      assert portfolio[..i + 1][..i] == portfolio[..i];
      if Priced(h.entryPrice) && Priced(h.currentPrice) {
        var entry := h.entryPrice.value;
        var cur := h.currentPrice.value;
        var pc := PercentChange(entry, cur);
        if pc <= -Abs(stop) {
          alerts := alerts + [StopLoss(h.ticker, pc, entry, cur)];
        } else if pc >= Abs(take) {
          alerts := alerts + [TakeProfit(h.ticker, pc, entry, cur)];
        }
      }
      i := i + 1;
    }
    assert portfolio[..i] == portfolio;
  }

  /** A holding with a falsy price raises nothing; otherwise a stop loss
      fires exactly when the change is at most -|stop|, and a take profit
      exactly when it is not and the change is at least |take|. */
  lemma HoldingAlertRules(h: Holding, stop: real, take: real)
    ensures !Priced(h.entryPrice) || !Priced(h.currentPrice) ==> HoldingAlert(h, stop, take).None?
    ensures Priced(h.entryPrice) && Priced(h.currentPrice) ==>
              var pc := PercentChange(h.entryPrice.value, h.currentPrice.value);
              && (HoldingAlert(h, stop, take).Some? && HoldingAlert(h, stop, take).value.StopLoss? <==> pc <= -Abs(stop))
              && (HoldingAlert(h, stop, take).Some? && HoldingAlert(h, stop, take).value.TakeProfit? <==>
                    pc > -Abs(stop) && pc >= Abs(take))
              && (HoldingAlert(h, stop, take).None? <==> -Abs(stop) < pc < Abs(take))
    ensures HoldingAlert(h, stop, take).Some? ==>
              var a := HoldingAlert(h, stop, take).value;
              && (a.StopLoss? || a.TakeProfit?) && a.ticker == h.ticker
              && a.entry == h.entryPrice.value && a.current == h.currentPrice.value
  {
  }

  /** The alerts of two portfolios one after the other are the alerts of
      each, in order. */
  lemma {:induction false} StopTakeConcat(a: seq<Holding>, b: seq<Holding>, stop: real, take: real)
    ensures StopTake(a + b, stop, take) == StopTake(a, stop, take) + StopTake(b, stop, take)
    decreases |b|
  {
    if b == [] {
      assert a + b == a;
    } else {
      var b' := b[..|b| - 1];
      assert (a + b)[..|a + b| - 1] == a + b';
      assert (a + b)[|a + b| - 1] == b[|b| - 1];
      StopTakeConcat(a, b', stop, take);
    }
  }

  /** At most one alert per holding, in portfolio order: the alerts are
      the holdings' own alerts concatenated. */
  lemma {:induction false} OneAlertPerHolding(portfolio: seq<Holding>, stop: real, take: real)
    ensures |StopTake(portfolio, stop, take)| <= |portfolio|
    ensures forall a :: a in StopTake(portfolio, stop, take) ==>
              exists i :: 0 <= i < |portfolio| && HoldingAlert(portfolio[i], stop, take) == Some(a)
    decreases |portfolio|
  {
    if portfolio != [] {
      var init := portfolio[..|portfolio| - 1];
      OneAlertPerHolding(init, stop, take);
      forall a | a in StopTake(portfolio, stop, take)
        ensures exists i :: 0 <= i < |portfolio| && HoldingAlert(portfolio[i], stop, take) == Some(a)
      {
        if a in StopTake(init, stop, take) {
          var i :| 0 <= i < |init| && HoldingAlert(init[i], stop, take) == Some(a);
          assert portfolio[i] == init[i];
        } else {
          assert HoldingAlert(portfolio[|portfolio| - 1], stop, take) == Some(a);
        }
      }
    }
  }

  // ---------------------------------------------------------------------------
  // check_volatility

  const DefaultWindowMinutes: real := 60.0
  const DefaultVolThreshold: real := 2.5

  /** `[p for t, p in series if t >= start]`. */
  function InWindow(series: seq<(real, real)>, start: real): (w: seq<real>)
    ensures |w| <= |series|
    decreases |series|
  {
    if series == [] then []
    else (if series[0].0 >= start then [series[0].1] else []) + InWindow(series[1..], start)
  }

  /** The window holds the prices of exactly the points at or after
      `start`; a point at `start` itself is kept. */
  lemma {:induction false} InWindowMembers(series: seq<(real, real)>, start: real)
    ensures forall p :: p in InWindow(series, start) <==> exists i :: 0 <= i < |series| && series[i].0 >= start && series[i].1 == p
    decreases |series|
  {
    if series != [] {
      InWindowMembers(series[1..], start);
      var w := InWindow(series, start);
      var head := if series[0].0 >= start then [series[0].1] else [];
      assert w == head + InWindow(series[1..], start);
      forall p | p in w
        ensures exists i :: 0 <= i < |series| && series[i].0 >= start && series[i].1 == p
      {
        if p !in head {
          var i :| 0 <= i < |series[1..]| && series[1..][i].0 >= start && series[1..][i].1 == p;
          assert series[i + 1] == series[1..][i];
        }
      }
      forall i | 0 <= i < |series| && series[i].0 >= start
        ensures series[i].1 in w
      {
        if i > 0 {
          assert series[1..][i - 1] == series[i];
        }
      }
    }
  }

  function Sum(s: seq<real>): real
    decreases |s|
  {
    if s == [] then 0.0 else s[0] + Sum(s[1..])
  }

  /** `max(s)` of a non-empty list. */
  function Max(s: seq<real>): (m: real)
    requires s != []
    ensures m in s && forall x :: x in s ==> x <= m
    decreases |s|
  {
    if |s| == 1 then s[0]
    else
      var rest := Max(s[1..]);
      assert forall x :: x in s ==> x == s[0] || x in s[1..];
      if s[0] >= rest then s[0] else rest
  }

  /** `min(s)` of a non-empty list. */
  function Min(s: seq<real>): (m: real)
    requires s != []
    ensures m in s && forall x :: x in s ==> m <= x
    decreases |s|
  {
    if |s| == 1 then s[0]
    else
      var rest := Min(s[1..]);
      assert forall x :: x in s ==> x == s[0] || x in s[1..];
      if s[0] <= rest then s[0] else rest
  }

  /** The result of `check_volatility`: an alert, none, or the uncaught
      ZeroDivisionError of a window whose mean price is zero. */
  datatype VolCheck = NoAlert | Raised(alert: Alert) | DivisionByZero

  /** `check_volatility(price_series, window_minutes, vol_threshold_percent)`. */
  function CheckVolatility(series: seq<(real, real)>, window: real, threshold: real): VolCheck {
    if series == [] then NoAlert
    else
      var end := series[|series| - 1].0;
      var w := InWindow(series, end - window);
      if |w| < 2 then NoAlert
      else
        var mean := Sum(w) / (|w| as real);
        if mean == 0.0 then DivisionByZero
        else
          var vol := (Max(w) - Min(w)) / mean * 100.0;
          if vol >= threshold then Raised(Volatility(vol, window, end)) else NoAlert
  }

  /** No alert for an empty series, or when fewer than two points fall in
      the window ending at the last timestamp; otherwise, unless the mean
      is zero, the alert fires exactly when (max - min) / mean * 100 of the
      window reaches the threshold, stamped with the last timestamp. */
  lemma VolatilityRules(series: seq<(real, real)>, window: real, threshold: real)
    ensures series == [] ==> CheckVolatility(series, window, threshold) == NoAlert
    ensures series != [] ==>
              var end := series[|series| - 1].0;
              var w := InWindow(series, end - window);
              && (|w| < 2 ==> CheckVolatility(series, window, threshold) == NoAlert)
              && (|w| >= 2 && Sum(w) != 0.0 ==>
                    var vol := (Max(w) - Min(w)) / (Sum(w) / (|w| as real)) * 100.0;
                    (CheckVolatility(series, window, threshold).Raised? <==> vol >= threshold)
                    && (vol >= threshold ==> CheckVolatility(series, window, threshold).alert == Volatility(vol, window, end)))
              && (|w| >= 2 && Sum(w) == 0.0 ==> CheckVolatility(series, window, threshold) == DivisionByZero)
  {
    if series != [] {
      var w := InWindow(series, series[|series| - 1].0 - window);
      if |w| >= 2 {
        assert (Sum(w) / (|w| as real) == 0.0) == (Sum(w) == 0.0);
      }
    }
  }

  /** The last point always lies in its own window, for any non-negative
      window length, so a non-empty series has a non-empty window. */
  lemma LastPointInWindow(series: seq<(real, real)>, window: real)
    requires series != [] && window >= 0.0
    ensures series[|series| - 1].1 in InWindow(series, series[|series| - 1].0 - window)
  {
    LastKept(series, series[|series| - 1].0 - window);
  }

  lemma {:induction false} LastKept(series: seq<(real, real)>, start: real)
    requires series != [] && series[|series| - 1].0 >= start
    ensures series[|series| - 1].1 in InWindow(series, start)
    decreases |series|
  {
    if |series| > 1 {
      assert series[1..][|series[1..]| - 1] == series[|series| - 1];
      LastKept(series[1..], start);
    }
  }

  // ---------------------------------------------------------------------------
  // check_low_balance

  const DefaultLowBalance: real := 10.0

  /** `check_low_balance(portfolio_usd, threshold_usd)`. */
  function CheckLowBalance(balance: real, threshold: real): (r: Option<Alert>)
    ensures r.Some? <==> balance <= threshold
    ensures r.Some? ==> r.value.LowBalance? && r.value.balanceUsd == balance && r.value.threshold == threshold
  {
    if balance <= threshold then Some(LowBalance(balance, threshold)) else None
  }
}
