/**
 * The `Portfolio` object of src/backtester.py:39-192: cash, one FIFO
 * ledger per fund and an append-only trade log, updated in place by its
 * methods. Every method is proved to leave the object in exactly the
 * state the value model of the `Bookkeeping` and `Rebalancing` modules
 * computes from the old state, so the properties proved there hold of
 * the object.
 */
module Backtester {
  import opened Wrappers
  import opened Reals
  import opened Costs
  import opened Fifo
  import opened Weights
  import opened Bookkeeping
  import opened Rebalancing

  class Portfolio {
    const funds: seq<string>
    const rates: CostRates
    var cash: real
    var lots: map<string, seq<Lot>>
    var tradeLog: seq<Trade>

    /** The three mutable fields as a value. */
    function Snapshot(): Book
      reads this
    {
      Book(cash, lots, tradeLog)
    }

    /** Exactly the listed funds have a ledger, each of lots of its own fund with positive units. */
    ghost predicate Valid()
      reads this
    {
      WellFormed(Snapshot(), funds)
    }

    /** A portfolio over `funds` holding `cash`: every fund starts with an empty ledger and no trade is logged. */
    constructor (funds: seq<string>, cash: real, rates: CostRates)
      ensures this.funds == funds && this.rates == rates
      ensures Snapshot() == Opening(funds, cash)
      ensures Valid()
    {
      this.funds := funds;
      this.rates := rates;
      this.cash := cash;
      this.tradeLog := [];
      var ledgers: map<string, seq<Lot>> := map[];
      for i := 0 to |funds|
        invariant ledgers == map f | f in funds[..i] :: []
      {
        assert funds[..i + 1] == funds[..i] + [funds[i]];
        ledgers := ledgers[funds[i] := []];
      }
      assert funds[..|funds|] == funds;
      this.lots := ledgers;
      OpeningWellFormed(funds, cash);
    }

    /**
     * `total_value`: cash plus every fund's units at its price, the price
     * looked up before the ledger; the first lookup that fails is reported.
     * Nothing changes.
     */
    method TotalValue(navs: map<string, real>) returns (r: Result<real, Fault>)
      ensures r == Bookkeeping.TotalValue(Snapshot(), funds, navs)
    {
      var value := cash;
      var i := 0;
      while i < |funds|
        invariant 0 <= i <= |funds|
        invariant Holdings(Snapshot(), funds[..i], navs).Ok?
        invariant value == cash + Holdings(Snapshot(), funds[..i], navs).value
      {
        var f := funds[i];
        assert funds[..i + 1][..i] == funds[..i];
        if f !in navs {
          HoldingsFirstFault(Snapshot(), funds, navs, i + 1);
          return Err(MissingPrice(f));
        }
        if f !in lots {
          HoldingsFirstFault(Snapshot(), funds, navs, i + 1);
          return Err(UnknownFund(f));
        }
        value := value + SumUnits(lots[f]) * navs[f];
        i := i + 1;
      }
      assert funds[..|funds|] == funds;
      return Ok(value);
    }

    /** The exit-load rate of a holding period: the first tier that covers it, scanned in order, else 0. */
    method ScanExitLoad(holdingDays: int) returns (bps: real)
      ensures bps == ExitBps(rates.exitLoadSchedule, holdingDays)
    {
      var schedule := rates.exitLoadSchedule;
      bps := 0.0;
      var i := 0;
      while i < |schedule|
        invariant 0 <= i <= |schedule|
        invariant ExitBps(schedule, holdingDays) == ExitBps(schedule[i..], holdingDays)
        invariant bps == 0.0
      {
        assert schedule[i..][1..] == schedule[i + 1..];
        if holdingDays <= schedule[i].maxDays {
          bps := schedule[i].bps;
          return;
        }
        i := i + 1;
      }
    }

    /**
     * The slice the sell loop takes from `lot` while `unitsLeft` units are
     * still to sell: min(lot units, units left) units, their value at the
     * sale price and the three fees on that value, the exit load at the
     * rate of the lot's holding period. With them, the loop state `t`
     * advances to the state `Advance` gives.
     */
    method PriceSlice(date: int, lot: Lot, unitsLeft: real, sellNav: real, verbose: bool, ghost t: Tally)
      returns (useUnits: real, val: real, exitFee: real, sttFee: real, txnFee: real)
      requires unitsLeft > 0.0 && t.left == unitsLeft
      ensures Advance(rates, t, lot, date, sellNav, verbose)
           == Tally(unitsLeft - useUnits, t.soldUnits + useUnits, t.grossValue + val, t.exitLoadTotal + exitFee,
                    t.sttTotal + sttFee, t.txnTotal + txnFee, t.remaining + Shrunk(lot, useUnits),
                    if verbose then t.trace + [TraceLine(lot.date, useUnits, sellNav, exitFee, sttFee, txnFee)] else t.trace)
      ensures useUnits == Min(lot.units, unitsLeft)
    {
      useUnits := Min(lot.units, unitsLeft);
      val := useUnits * sellNav;
      var exitBps := ScanExitLoad(date - lot.date);
      exitFee := Fee(val, exitBps);
      sttFee := Fee(val, rates.sttSellBps);
      txnFee := Fee(val, rates.txnCostBps);
    }

    /**
     * The loop of `_apply_costs_on_sell` over the ledger `fifo`, oldest lot
     * first: while units are still to sell each lot gives up min(lot units,
     * units left), the slice is priced and added to the totals, and what is
     * left of the lot is kept; once nothing is left to sell the lots are kept
     * whole. The trace is collected only when `verbose`. It ends in the state
     * `Run` describes.
     */
    method SellFifo(fifo: seq<Lot>, date: int, unitsToSell: real, sellNav: real, verbose: bool)
      returns (unitsLeft: real, soldUnits: real, grossValue: real, exitLoadTotal: real, sttTotal: real, txnTotal: real,
               newFifo: seq<Lot>, fifoLog: seq<TraceLine>)
      ensures Tally(unitsLeft, soldUnits, grossValue, exitLoadTotal, sttTotal, txnTotal, newFifo, fifoLog)
           == TallyOf(Deplete(rates, fifo, date, unitsToSell, sellNav), Consume(fifo, unitsToSell).left, verbose)
    {
      unitsLeft := unitsToSell;
      exitLoadTotal, sttTotal, txnTotal := 0.0, 0.0, 0.0;
      grossValue, soldUnits, fifoLog := 0.0, 0.0, [];
      newFifo := [];
      var i := 0;
      while i < |fifo|
        invariant 0 <= i <= |fifo|
        invariant Tally(unitsLeft, soldUnits, grossValue, exitLoadTotal, sttTotal, txnTotal, newFifo, fifoLog)
               == Run(rates, fifo[..i], date, unitsToSell, sellNav, verbose)
      {
        var lot := fifo[i];
        ghost var t := Run(rates, fifo[..i], date, unitsToSell, sellNav, verbose);
        assert Run(rates, fifo[..i + 1], date, unitsToSell, sellNav, verbose) == Advance(rates, t, lot, date, sellNav, verbose) by {
          assert fifo[..i + 1] == fifo[..i] + [lot];
          RunSnoc(rates, fifo[..i], lot, date, unitsToSell, sellNav, verbose);
        }
        if unitsLeft <= 0.0 {
          newFifo := newFifo + [lot];
        } else {
          var useUnits, val, exitFee, sttFee, txnFee := PriceSlice(date, lot, unitsLeft, sellNav, verbose, t);
          grossValue := grossValue + val;
          exitLoadTotal := exitLoadTotal + exitFee;
          sttTotal := sttTotal + sttFee;
          txnTotal := txnTotal + txnFee;
          soldUnits := soldUnits + useUnits;
          if verbose {
            fifoLog := fifoLog + [TraceLine(lot.date, useUnits, sellNav, exitFee, sttFee, txnFee)];
          }
          var remaining := lot.units - useUnits;
          ghost var kept := newFifo;
          if remaining > 0.0 {
            newFifo := newFifo + [Lot(lot.date, lot.fund, remaining, lot.navAtBuy)];
          }
          assert newFifo == kept + Shrunk(lot, useUnits);
          unitsLeft := unitsLeft - useUnits;
        }
        i := i + 1;
      }
      assert fifo[..|fifo|] == fifo;
      RunIsDeplete(rates, fifo, date, unitsToSell, sellNav, verbose);
    }

    /**
     * `_apply_costs_on_sell`: sells from the fund's ledger oldest lot first
     * and reports exactly what `Deplete` computes, the trace only when
     * `verbose`; the fund's ledger is replaced by the lots kept. Nothing
     * else changes.
     */
    method ApplyCostsOnSell(date: int, fund: string, unitsToSell: real, sellNav: real, verbose: bool)
      returns (soldUnits: real, grossValue: real, totalCosts: real, netCash: real, fifoLog: seq<TraceLine>)
      requires fund in lots
      modifies this
      ensures fund in lots && lots == old(lots)[fund := lots[fund]] && cash == old(cash) && tradeLog == old(tradeLog)
      ensures var d := Deplete(rates, old(lots)[fund], date, unitsToSell, sellNav);
        && soldUnits == d.soldUnits
        && grossValue == d.grossValue
        && totalCosts == d.TotalCosts()
        && netCash == d.NetCash()
        && fifoLog == (if verbose then d.trace else [])
        && lots[fund] == d.remaining
    {
      var fifo := lots[fund];
      var unitsLeft, exitLoadTotal, sttTotal, txnTotal, newFifo;
      unitsLeft, soldUnits, grossValue, exitLoadTotal, sttTotal, txnTotal, newFifo, fifoLog
        := SellFifo(fifo, date, unitsToSell, sellNav, verbose);
      lots := lots[fund := newFifo];
      totalCosts := exitLoadTotal + sttTotal + txnTotal;
      netCash := grossValue - totalCosts;
    }

    /**
     * `sell`: a fund without a ledger is reported before anything changes;
     * otherwise the object moves to the book `SellBook` computes (ledger
     * depleted FIFO; when units were sold, proceeds credited and one SELL
     * trade logged), and stays well formed.
     */
    method Sell(date: int, fund: string, units: real, nav: real, verbose: bool) returns (fault: Option<Fault>)
      modifies this
      ensures var r := SellBook(rates, old(Snapshot()), date, fund, units, nav, verbose);
        && (r.Ok? ==> fault == None && Snapshot() == r.value)
        && (r.Err? ==> fault == Some(r.error) && Snapshot() == old(Snapshot()))
      ensures old(Valid()) ==> Valid()
    {
      if fund !in lots {
        return Some(UnknownFund(fund));
      }
      ghost var before := Snapshot();
      var soldUnits, grossValue, totalCosts, netCash, fifoLog := ApplyCostsOnSell(date, fund, units, nav, verbose);
      fault := None;
      if soldUnits > 0.0 {
        cash := cash + netCash;
        tradeLog := tradeLog + [Trade(date, fund, Action.Sell, soldUnits, nav, grossValue, totalCosts,
          Fee(grossValue, rates.sttSellBps), Fee(grossValue, rates.txnCostBps), netCash,
          if verbose then Some(fifoLog) else None)];
      }
      if WellFormed(before, funds) {
        SellKeepsWellFormed(rates, before, funds, date, fund, units, nav, verbose);
      }
    }

    /**
     * `buy`: nothing changes for a non-positive amount or a purchase of no
     * units; a fund without a ledger is reported otherwise; else the object
     * moves to the book `BuyBook` computes (one lot appended, the whole
     * amount paid, one BUY trade logged), and stays well formed.
     */
    method Buy(date: int, fund: string, cashToSpend: real, nav: real) returns (fault: Option<Fault>)
      requires cashToSpend > 0.0 ==> nav != 0.0
      modifies this
      ensures var r := BuyBook(rates, old(Snapshot()), date, fund, cashToSpend, nav);
        && (r.Ok? ==> fault == None && Snapshot() == r.value)
        && (r.Err? ==> fault == Some(r.error) && Snapshot() == old(Snapshot()))
      ensures old(Valid()) ==> Valid()
    {
      ghost var before := Snapshot();
      fault := None;
      if cashToSpend <= 0.0 {
        return;
      }
      var txnFee := Fee(cashToSpend, rates.txnCostBps);
      var netCash := cashToSpend - txnFee;
      var units := netCash / nav;
      if units <= 0.0 {
        return;
      }
      if fund !in lots {
        return Some(UnknownFund(fund));
      }
      lots := lots[fund := lots[fund] + [Lot(date, fund, units, nav)]];
      cash := cash - cashToSpend;
      tradeLog := tradeLog + [Trade(date, fund, Action.Buy, units, nav, cashToSpend, 0.0, 0.0, txnFee, -cashToSpend, None)];
      if fund in before.lots && WellFormed(before, funds) {
        BuyKeepsWellFormed(rates, before, funds, date, fund, cashToSpend, nav);
      }
    }

    /** `current_weights`: values the portfolio and divides each position by the total. Nothing changes. */
    method CurrentWeights(navs: map<string, real>) returns (r: Result<seq<Entry>, Fault>)
      ensures r == Bookkeeping.CurrentWeights(Snapshot(), funds, navs)
    {
      var total := TotalValue(navs);
      if total.Err? {
        return Err(total.error);
      }
      r := Ok(WeightsAt(lots, funds, navs, total.value));
    }

    /**
     * `rebalance`: values the portfolio once; a missing price or ledger is
     * reported before anything changes. Then every overweight fund, in
     * order, sells its excess capped per fund at `total * cap`, and every
     * underweight fund, in order, buys out of one budget of the post-sale
     * cash capped at `total * cap`. The object ends in the book
     * `RebalanceBook` computes and stays well formed.
     */
    method Rebalance(date: int, navs: map<string, real>, target: seq<Entry>, cap: real) returns (fault: Option<Fault>)
      requires NonZeroPrices(funds, navs)
      modifies this
      ensures var r := RebalanceBook(rates, funds, old(Snapshot()), date, navs, target, cap);
        && (r.Ok? ==> fault == None && Snapshot() == r.value)
        && (r.Err? ==> fault == Some(r.error) && Snapshot() == old(Snapshot()))
      ensures old(Valid()) ==> Valid()
    {
      ghost var start := Snapshot();
      var valuation := TotalValue(navs);
      if valuation.Err? {
        return Some(valuation.error);
      }
      var totalVal := valuation.value;
      var weights := CurrentWeights(navs);
      var currW := weights.value;
      assert Tradable(funds, start.lots, navs);
      var targetVal := Scale(target, totalVal);
      var currVal := Scale(currW, totalVal);
      SellOverweight(date, navs, target, currW, totalVal, cap, targetVal, currVal);
      BuyUnderweight(date, navs, target, currW, totalVal, cap, targetVal, currVal);
      assert Snapshot() == RebalanceAt(rates, funds, start, date, navs, target, cap, totalVal);
      fault := None;
      if WellFormed(start, funds) {
        RebalanceWellFormed(rates, funds, start, date, navs, target, cap);
      }
    }

    /** The sell loop of `rebalance`: every overweight fund, in order, sells its excess, capped per fund at `total * cap`. */
    method SellOverweight(date: int, navs: map<string, real>, target: seq<Entry>, currW: seq<Entry>, totalVal: real, cap: real,
                          targetVal: seq<Entry>, currVal: seq<Entry>)
      requires Tradable(funds, lots, navs)
      requires targetVal == Scale(target, totalVal) && currVal == Scale(currW, totalVal)
      modifies this
      ensures Snapshot() == SellPhase(rates, old(Snapshot()), funds, date, navs, target, currW, totalVal, cap)
    {
      ghost var start := Snapshot();
      for i := 0 to |funds|
        invariant Tradable(funds[..i], start.lots, navs)
        invariant Snapshot() == SellPhase(rates, start, funds[..i], date, navs, target, currW, totalVal, cap)
      {
        var f := funds[i];
        var delta := Get(targetVal, f, 0.0) - Get(currVal, f, 0.0);
        assert delta == Delta(target, currW, totalVal, f);
        SellPhaseStep(rates, start, funds, date, navs, target, currW, totalVal, cap, i);
        ghost var before := Snapshot();
        ghost var next := SellPhase(rates, start, funds[..i + 1], date, navs, target, currW, totalVal, cap);
        if delta < 0.0 {
          var valToSell := Min(-delta, totalVal * cap);
          var unitsToSell := valToSell / navs[f];
          assert next == SellFund(rates, before, date, f, unitsToSell, navs[f], false);
          var _ := Sell(date, f, unitsToSell, navs[f], false);
          assert Snapshot() == next;
        } else {
          assert before == next;
        }
      }
      assert funds[..|funds|] == funds;
    }

    /** The buy loop of `rebalance`: every underweight fund, in order, buys out of one shrinking budget. */
    method BuyUnderweight(date: int, navs: map<string, real>, target: seq<Entry>, currW: seq<Entry>, totalVal: real, cap: real,
                          targetVal: seq<Entry>, currVal: seq<Entry>)
      requires Tradable(funds, lots, navs)
      requires targetVal == Scale(target, totalVal) && currVal == Scale(currW, totalVal)
      modifies this
      ensures Snapshot() == BuyPhase(rates, old(Snapshot()), funds, date, navs, target, currW, totalVal, cap)
    {
      ghost var sold := Snapshot();
      var cashAvailable := Min(cash, totalVal * cap);
      ghost var budget := cashAvailable;
      for i := 0 to |funds|
        invariant Snapshot() == ApplyBuys(rates, sold, date, navs, BuyPlan(funds[..i], target, currW, totalVal, budget).orders)
        invariant cashAvailable == BuyPlan(funds[..i], target, currW, totalVal, budget).available
      {
        var f := funds[i];
        var delta := Get(targetVal, f, 0.0) - Get(currVal, f, 0.0);
        assert delta == Delta(target, currW, totalVal, f);
        BuyPhaseStep(rates, sold, funds, date, navs, target, currW, totalVal, budget, i);
        ghost var before := Snapshot();
        ghost var next := ApplyBuys(rates, sold, date, navs, BuyPlan(funds[..i + 1], target, currW, totalVal, budget).orders);
        if delta > 0.0 && cashAvailable > 0.0 {
          var spend := Min(delta, cashAvailable);
          assert next == BuyFund(rates, before, date, f, spend, navs[f]);
          var _ := Buy(date, f, spend, navs[f]);
          assert Snapshot() == next;
          cashAvailable := cashAvailable - spend;
        } else {
          assert before == next;
        }
      }
      assert funds[..|funds|] == funds;
    }
  }

  /** One more fund of the sell loop: the sell of that fund, if it is overweight, on top of the earlier ones. */
  lemma SellPhaseStep(rates: CostRates, book: Book, funds: seq<string>, date: int, navs: map<string, real>,
                      target: seq<Entry>, current: seq<Entry>, total: real, cap: real, k: int)
    requires Tradable(funds, book.lots, navs) && 0 <= k < |funds|
    ensures Tradable(funds[..k], book.lots, navs) && Tradable(funds[..k + 1], book.lots, navs)
    ensures funds[k] in SellPhase(rates, book, funds[..k], date, navs, target, current, total, cap).lots
    ensures var f := funds[k];
      var delta := Delta(target, current, total, f);
      var b := SellPhase(rates, book, funds[..k], date, navs, target, current, total, cap);
      && (delta < 0.0 ==> SellPhase(rates, book, funds[..k + 1], date, navs, target, current, total, cap)
                          == SellFund(rates, b, date, f, Min(-delta, total * cap) / navs[f], navs[f], false))
      && (delta >= 0.0 ==> SellPhase(rates, book, funds[..k + 1], date, navs, target, current, total, cap) == b)
  {
    SellOrdersStep(funds, target, current, total, cap, k);
    var p := SellOrders(funds[..k], target, current, total, cap);
    var f := funds[k];
    var delta := Delta(target, current, total, f);
    var q := SellOrders(funds[..k + 1], target, current, total, cap);
    if delta < 0.0 {
      var o := Order(f, Min(-delta, total * cap));
      assert q == p + [o];
      assert q[..|q| - 1] == p && q[|q| - 1] == o;
      assert ApplySells(rates, book, date, navs, q)
          == SellFund(rates, ApplySells(rates, book, date, navs, p), date, f, o.amount / navs[f], navs[f], false);
    } else {
      assert q == p;
    }
  }

  /** One more fund of the buy loop: the buy of that fund, if it is underweight and budget is left, on top of the earlier ones. */
  lemma BuyPhaseStep(rates: CostRates, sold: Book, funds: seq<string>, date: int, navs: map<string, real>,
                     target: seq<Entry>, current: seq<Entry>, total: real, budget: real, k: int)
    requires Tradable(funds, sold.lots, navs) && 0 <= k < |funds|
    ensures var f := funds[k];
      var delta := Delta(target, current, total, f);
      var p := BuyPlan(funds[..k], target, current, total, budget);
      var p' := BuyPlan(funds[..k + 1], target, current, total, budget);
      var b := ApplyBuys(rates, sold, date, navs, p.orders);
      && f in b.lots
      && (delta > 0.0 && p.available > 0.0 ==>
            && ApplyBuys(rates, sold, date, navs, p'.orders) == BuyFund(rates, b, date, f, Min(delta, p.available), navs[f])
            && p'.available == p.available - Min(delta, p.available))
      && (!(delta > 0.0 && p.available > 0.0) ==> p' == p)
  {
    BuyPlanStep(funds, target, current, total, budget, k);
    var p := BuyPlan(funds[..k], target, current, total, budget);
    var f := funds[k];
    var delta := Delta(target, current, total, f);
    if delta > 0.0 && p.available > 0.0 {
      var o := Order(f, Min(delta, p.available));
      assert (p.orders + [o])[..|p.orders|] == p.orders;
    }
  }
}
