/**
 * `Portfolio.rebalance` (src/backtester.py:173-192) on the value model of
 * the book: value the portfolio once, sell down every overweight fund by
 * at most the turnover cap, then buy into every underweight fund in fund
 * order out of one shared budget.
 */
module Rebalancing {
  import opened Wrappers
  import opened Reals
  import opened Costs
  import opened Fifo
  import opened Weights
  import opened Bookkeeping

  /** One trade of a rebalance: the value to sell, or the cash to spend, in one fund. */
  datatype Order = Order(fund: string, amount: real)

  /** The cash still available after some buys, and the buys so far. */
  datatype Plan = Plan(orders: seq<Order>, available: real)

  /** Target value minus current value of a fund; a fund missing from either series counts as 0. */
  function Delta(target: seq<Entry>, current: seq<Entry>, total: real, f: string): real
  {
    Get(Scale(target, total), f, 0.0) - Get(Scale(current, total), f, 0.0)
  }

  /** The sell loop: each overweight fund, in order, sells its excess value capped at `total * cap`. */
  function SellOrders(funds: seq<string>, target: seq<Entry>, current: seq<Entry>, total: real, cap: real): (r: seq<Order>)
    ensures forall i :: 0 <= i < |r| ==> r[i].fund in funds
  {
    if funds == [] then []
    else
      var a, f := funds[..|funds| - 1], funds[|funds| - 1];
      var delta := Delta(target, current, total, f);
      assert forall g :: g in a ==> g in funds;
      SellOrders(a, target, current, total, cap)
        + (if delta < 0.0 then [Order(f, Min(-delta, total * cap))] else [])
  }

  /**
   * The buy loop: each underweight fund, in order, gets its shortfall
   * capped at what is left of the budget, as long as some budget is left;
   * the budget goes down by every amount handed out.
   */
  function BuyPlan(funds: seq<string>, target: seq<Entry>, current: seq<Entry>, total: real, budget: real): (r: Plan)
    ensures forall i :: 0 <= i < |r.orders| ==> r.orders[i].fund in funds
  {
    if funds == [] then Plan([], budget)
    else
      var a, f := funds[..|funds| - 1], funds[|funds| - 1];
      var p := BuyPlan(a, target, current, total, budget);
      var delta := Delta(target, current, total, f);
      assert forall g :: g in a ==> g in funds;
      if delta > 0.0 && p.available > 0.0 then
        var spend := Min(delta, p.available);
        Plan(p.orders + [Order(f, spend)], p.available - spend)
      else p
  }

  /** Every order names a fund with a ledger and a non-zero price. */
  ghost predicate Executable(orders: seq<Order>, lots: map<string, seq<Lot>>, navs: map<string, real>)
  {
    forall i :: 0 <= i < |orders| ==> orders[i].fund in lots && orders[i].fund in navs && navs[orders[i].fund] != 0.0
  }

  /** The sells of a rebalance, one after the other, each selling `amount / nav` units without a trace. */
  function ApplySells(rates: CostRates, book: Book, date: int, navs: map<string, real>, orders: seq<Order>): (r: Book)
    requires Executable(orders, book.lots, navs)
    ensures r.lots.Keys == book.lots.Keys
  {
    if orders == [] then book
    else
      var o := orders[|orders| - 1];
      var b := ApplySells(rates, book, date, navs, orders[..|orders| - 1]);
      SellFund(rates, b, date, o.fund, o.amount / navs[o.fund], navs[o.fund], false)
  }

  /** The buys of a rebalance, one after the other. */
  function ApplyBuys(rates: CostRates, book: Book, date: int, navs: map<string, real>, orders: seq<Order>): (r: Book)
    requires Executable(orders, book.lots, navs)
    ensures r.lots.Keys == book.lots.Keys
  {
    if orders == [] then book
    else
      var o := orders[|orders| - 1];
      var b := ApplyBuys(rates, book, date, navs, orders[..|orders| - 1]);
      BuyFund(rates, b, date, o.fund, o.amount, navs[o.fund])
  }

  /** Every listed fund that has a price has a non-zero one. */
  ghost predicate NonZeroPrices(funds: seq<string>, navs: map<string, real>)
  {
    forall f :: f in funds && f in navs ==> navs[f] != 0.0
  }

  /** Every listed fund has a ledger and a non-zero price. */
  ghost predicate Tradable(funds: seq<string>, lots: map<string, seq<Lot>>, navs: map<string, real>)
  {
    forall f :: f in funds ==> f in lots && f in navs && navs[f] != 0.0
  }

  /** The sell loop of a rebalance, run against the opening weights `current`. */
  function SellPhase(rates: CostRates, book: Book, funds: seq<string>, date: int, navs: map<string, real>,
                     target: seq<Entry>, current: seq<Entry>, total: real, cap: real): (r: Book)
    requires Tradable(funds, book.lots, navs)
    ensures r.lots.Keys == book.lots.Keys
  {
    ApplySells(rates, book, date, navs, SellOrders(funds, target, current, total, cap))
  }

  /** The buy loop of a rebalance: one budget, the post-sale cash capped at `total * cap`. */
  function BuyPhase(rates: CostRates, sold: Book, funds: seq<string>, date: int, navs: map<string, real>,
                    target: seq<Entry>, current: seq<Entry>, total: real, cap: real): (r: Book)
    requires Tradable(funds, sold.lots, navs)
    ensures r.lots.Keys == sold.lots.Keys
  {
    ApplyBuys(rates, sold, date, navs, BuyPlan(funds, target, current, total, Min(sold.cash, total * cap)).orders)
  }

  /** Both loops of a rebalance, once the portfolio is valued at `total`. */
  function RebalanceAt(rates: CostRates, funds: seq<string>, book: Book, date: int, navs: map<string, real>,
                       target: seq<Entry>, cap: real, total: real): Book
    requires Tradable(funds, book.lots, navs)
  {
    var current := WeightsAt(book.lots, funds, navs, total);
    var sold := SellPhase(rates, book, funds, date, navs, target, current, total, cap);
    BuyPhase(rates, sold, funds, date, navs, target, current, total, cap)
  }

  /**
   * `rebalance`: a fund without a price makes the valuation raise before
   * anything changes; otherwise the sells run against the opening weights,
   * and the buys share a budget of the post-sale cash capped at
   * `total * cap`.
   */
  function RebalanceBook(rates: CostRates, funds: seq<string>, book: Book, date: int, navs: map<string, real>,
                         target: seq<Entry>, cap: real): Result<Book, Fault>
    requires NonZeroPrices(funds, navs)
  {
    var valuation := TotalValue(book, funds, navs);
    if valuation.Err? then Err(valuation.error)
    else Ok(RebalanceAt(rates, funds, book, date, navs, target, cap, valuation.value))
  }

  /** The amounts of some orders, added up. */
  function Amounts(orders: seq<Order>): real
  {
    if orders == [] then 0.0 else Amounts(orders[..|orders| - 1]) + orders[|orders| - 1].amount
  }

  // ----- lemmas -----

  /** Scaling a series scales what `get` returns, and a missing key still gives 0. */
  lemma {:induction false} GetScale(s: seq<Entry>, key: string, k: real)
    ensures Get(Scale(s, k), key, 0.0) == Get(s, key, 0.0) * k
  {
    if s != [] {
      assert forall i :: 0 <= i < |s| - 1 ==> Scale(s, k)[1..][i] == Scale(s[1..], k)[i];
      assert Scale(s, k)[1..] == Scale(s[1..], k);
      GetScale(s[1..], key, k);
    }
  }

  /** `Delta` is the difference of the weights times the total; a fund missing from the targets has target 0. */
  lemma DeltaOfWeights(target: seq<Entry>, current: seq<Entry>, total: real, f: string)
    ensures Delta(target, current, total, f) == Get(target, f, 0.0) * total - Get(current, f, 0.0) * total
    ensures (forall i :: 0 <= i < |target| ==> target[i].key != f) ==>
      Delta(target, current, total, f) == -(Get(current, f, 0.0) * total)
  {
    GetScale(target, f, total);
    GetScale(current, f, total);
    GetFirstMatch(target, f, 0.0);
  }

  /**
   * Sells: every order is for an overweight fund, sells at most its excess
   * and at most `total * cap`, and is positive when the cap is.
   */
  lemma {:induction false} SellOrdersBounded(funds: seq<string>, target: seq<Entry>, current: seq<Entry>, total: real, cap: real)
    ensures var r := SellOrders(funds, target, current, total, cap);
      && |r| <= |funds|
      && forall i :: 0 <= i < |r| ==>
        && Delta(target, current, total, r[i].fund) < 0.0
        && r[i].amount <= -Delta(target, current, total, r[i].fund)
        && r[i].amount <= total * cap
        && (total * cap > 0.0 ==> r[i].amount > 0.0)
  {
    if funds != [] {
      SellOrdersBounded(funds[..|funds| - 1], target, current, total, cap);
    }
  }

  /**
   * Sells come in fund order: the sells for the first `k` funds are the
   * first sells, and fund `k` adds its own sell exactly when it is
   * overweight.
   */
  lemma SellOrdersStep(funds: seq<string>, target: seq<Entry>, current: seq<Entry>, total: real, cap: real, k: int)
    requires 0 <= k < |funds|
    ensures var delta := Delta(target, current, total, funds[k]);
      SellOrders(funds[..k + 1], target, current, total, cap)
        == SellOrders(funds[..k], target, current, total, cap)
           + (if delta < 0.0 then [Order(funds[k], Min(-delta, total * cap))] else [])
  {
    assert funds[..k + 1][..k] == funds[..k];
  }

  /** The sells for a prefix of the funds are a prefix of the sells. */
  lemma {:induction false} SellOrdersPrefix(funds: seq<string>, target: seq<Entry>, current: seq<Entry>, total: real, cap: real, k: int)
    requires 0 <= k <= |funds|
    ensures var p := SellOrders(funds[..k], target, current, total, cap);
      var r := SellOrders(funds, target, current, total, cap);
      |p| <= |r| && r[..|p|] == p
  {
    if k < |funds| {
      var a := funds[..|funds| - 1];
      assert a[..k] == funds[..k];
      SellOrdersPrefix(a, target, current, total, cap, k);
      var q := SellOrders(a, target, current, total, cap);
      var p := SellOrders(funds[..k], target, current, total, cap);
      var r := SellOrders(funds, target, current, total, cap);
      assert r[..|q|] == q;
      assert r[..|p|] == q[..|p|];
    } else {
      assert funds[..k] == funds;
    }
  }

  /** The cap is applied fund by fund: two overweight funds each sell the full cap, twice the cap in total. */
  lemma SellCapIsPerFund()
    ensures var current := [Entry("A", 0.5), Entry("B", 0.5)];
      var r := SellOrders(["A", "B"], [], current, 100.0, 0.1);
      && r == [Order("A", 10.0), Order("B", 10.0)]
      && Amounts(r) == 20.0 > 100.0 * 0.1
  {
    var current := [Entry("A", 0.5), Entry("B", 0.5)];
    var funds := ["A", "B"];
    assert funds[..1] == ["A"];
    assert [Entry("A", 0.5), Entry("B", 0.5)][1..] == [Entry("B", 0.5)];
    DeltaOfWeights([], current, 100.0, "A");
    DeltaOfWeights([], current, 100.0, "B");
    assert [Order("A", 10.0), Order("B", 10.0)][..1] == [Order("A", 10.0)];
  }

  /**
   * Buys: the amounts handed out plus what is left make up the budget;
   * nothing is handed out from a non-positive budget and otherwise the
   * remainder never goes negative; every buy is positive and for an
   * underweight fund, and at most its shortfall.
   */
  lemma {:induction false} BuyPlanBudget(funds: seq<string>, target: seq<Entry>, current: seq<Entry>, total: real, budget: real)
    ensures var p := BuyPlan(funds, target, current, total, budget);
      && Amounts(p.orders) + p.available == budget
      && (budget <= 0.0 ==> p.orders == [] && p.available == budget)
      && (budget > 0.0 ==> p.available >= 0.0)
      && forall i :: 0 <= i < |p.orders| ==>
        && p.orders[i].amount > 0.0
        && Delta(target, current, total, p.orders[i].fund) > 0.0
        && p.orders[i].amount <= Delta(target, current, total, p.orders[i].fund)
  {
    if funds != [] {
      var a := funds[..|funds| - 1];
      BuyPlanBudget(a, target, current, total, budget);
      var p := BuyPlan(a, target, current, total, budget);
      var r := BuyPlan(funds, target, current, total, budget);
      if r != p {
        assert r.orders[..|p.orders|] == p.orders;
      }
    }
  }

  /** So the buys of a rebalance never hand out more than the budget, and nothing when it is not positive. */
  lemma BuysWithinBudget(funds: seq<string>, target: seq<Entry>, current: seq<Entry>, total: real, budget: real)
    ensures var p := BuyPlan(funds, target, current, total, budget);
      && 0.0 <= Amounts(p.orders) <= Max(budget, 0.0)
  {
    BuyPlanBudget(funds, target, current, total, budget);
    var p := BuyPlan(funds, target, current, total, budget);
    AmountsNonNegative(p.orders);
  }

  lemma {:induction false} AmountsNonNegative(orders: seq<Order>)
    requires forall i :: 0 <= i < |orders| ==> orders[i].amount > 0.0
    ensures Amounts(orders) >= 0.0
  {
    if orders != [] {
      AmountsNonNegative(orders[..|orders| - 1]);
    }
  }

  /**
   * Buys come in fund order: the plan for the first `k + 1` funds extends
   * the plan for the first `k` by a buy of fund `k` exactly when it is
   * underweight and some budget is left.
   */
  lemma BuyPlanStep(funds: seq<string>, target: seq<Entry>, current: seq<Entry>, total: real, budget: real, k: int)
    requires 0 <= k < |funds|
    ensures var p := BuyPlan(funds[..k], target, current, total, budget);
      var delta := Delta(target, current, total, funds[k]);
      BuyPlan(funds[..k + 1], target, current, total, budget)
        == if delta > 0.0 && p.available > 0.0
           then Plan(p.orders + [Order(funds[k], Min(delta, p.available))], p.available - Min(delta, p.available))
           else p
  {
    assert funds[..k + 1][..k] == funds[..k];
  }

  /** The buys for a prefix of the funds are a prefix of the buys. */
  lemma {:induction false} BuyPlanPrefix(funds: seq<string>, target: seq<Entry>, current: seq<Entry>, total: real, budget: real, k: int)
    requires 0 <= k <= |funds|
    ensures var p := BuyPlan(funds[..k], target, current, total, budget).orders;
      var r := BuyPlan(funds, target, current, total, budget).orders;
      |p| <= |r| && r[..|p|] == p
  {
    if k < |funds| {
      var a := funds[..|funds| - 1];
      assert a[..k] == funds[..k];
      BuyPlanPrefix(a, target, current, total, budget, k);
      var q := BuyPlan(a, target, current, total, budget).orders;
      var p := BuyPlan(funds[..k], target, current, total, budget).orders;
      var r := BuyPlan(funds, target, current, total, budget).orders;
      assert r[..|q|] == q;
      assert r[..|p|] == q[..|p|];
    } else {
      assert funds[..k] == funds;
    }
  }

  /** Buys never raise the cash, and lower it by at most the amounts handed out. */
  lemma {:induction false} ApplyBuysCash(rates: CostRates, book: Book, date: int, navs: map<string, real>, orders: seq<Order>)
    requires Executable(orders, book.lots, navs)
    requires forall i :: 0 <= i < |orders| ==> orders[i].amount > 0.0
    ensures var r := ApplyBuys(rates, book, date, navs, orders);
      book.cash - Amounts(orders) <= r.cash <= book.cash
  {
    if orders != [] {
      var a := orders[..|orders| - 1];
      assert Executable(a, book.lots, navs);
      ApplyBuysCash(rates, book, date, navs, a);
    }
  }

  /**
   * The buy phase of a rebalance never spends cash that is not there: it
   * never raises the cash, leaves non-negative cash non-negative, and
   * spends at most `total * cap`.
   */
  lemma BuyPhaseCash(rates: CostRates, sold: Book, funds: seq<string>, date: int, navs: map<string, real>,
                     target: seq<Entry>, current: seq<Entry>, total: real, cap: real)
    requires Tradable(funds, sold.lots, navs)
    ensures var r := BuyPhase(rates, sold, funds, date, navs, target, current, total, cap);
      && r.cash <= sold.cash
      && (sold.cash >= 0.0 ==> r.cash >= 0.0)
      && r.cash >= sold.cash - Max(total * cap, 0.0)
  {
    var budget := Min(sold.cash, total * cap);
    var plan := BuyPlan(funds, target, current, total, budget);
    BuyPlanBudget(funds, target, current, total, budget);
    BuysWithinBudget(funds, target, current, total, budget);
    ApplyBuysCash(rates, sold, date, navs, plan.orders);
  }

  /** The sells of a rebalance keep the book well formed. */
  lemma {:induction false} ApplySellsWellFormed(rates: CostRates, book: Book, funds: seq<string>, date: int, navs: map<string, real>, orders: seq<Order>)
    requires WellFormed(book, funds) && Executable(orders, book.lots, navs)
    ensures WellFormed(ApplySells(rates, book, date, navs, orders), funds)
  {
    if orders != [] {
      var a, o := orders[..|orders| - 1], orders[|orders| - 1];
      assert Executable(a, book.lots, navs);
      ApplySellsWellFormed(rates, book, funds, date, navs, a);
      SellKeepsWellFormed(rates, ApplySells(rates, book, date, navs, a), funds, date, o.fund, o.amount / navs[o.fund], navs[o.fund], false);
    }
  }

  /** The buys of a rebalance keep the book well formed. */
  lemma {:induction false} ApplyBuysWellFormed(rates: CostRates, book: Book, funds: seq<string>, date: int, navs: map<string, real>, orders: seq<Order>)
    requires WellFormed(book, funds) && Executable(orders, book.lots, navs)
    ensures WellFormed(ApplyBuys(rates, book, date, navs, orders), funds)
  {
    if orders != [] {
      var a, o := orders[..|orders| - 1], orders[|orders| - 1];
      assert Executable(a, book.lots, navs);
      ApplyBuysWellFormed(rates, book, funds, date, navs, a);
      BuyKeepsWellFormed(rates, ApplyBuys(rates, book, date, navs, a), funds, date, o.fund, o.amount, navs[o.fund]);
    }
  }

  /** A rebalance fails only for a missing price, and then before any trade. */
  lemma RebalanceOutcome(rates: CostRates, funds: seq<string>, book: Book, date: int, navs: map<string, real>,
                         target: seq<Entry>, cap: real)
    requires WellFormed(book, funds) && NonZeroPrices(funds, navs)
    ensures var r := RebalanceBook(rates, funds, book, date, navs, target, cap);
      && (r.Ok? <==> Priced(funds, navs))
      && (r.Err? ==> r.error.MissingPrice? && r.error.fund !in navs)
  {
    TotalValueOk(book, funds, navs);
  }

  /** Both loops of a rebalance keep a well-formed book well formed. */
  lemma RebalanceAtWellFormed(rates: CostRates, funds: seq<string>, book: Book, date: int, navs: map<string, real>,
                              target: seq<Entry>, cap: real, total: real)
    requires WellFormed(book, funds) && Tradable(funds, book.lots, navs)
    ensures WellFormed(RebalanceAt(rates, funds, book, date, navs, target, cap, total), funds)
  {
    var current := WeightsAt(book.lots, funds, navs, total);
    var sells := SellOrders(funds, target, current, total, cap);
    ApplySellsWellFormed(rates, book, funds, date, navs, sells);
    var sold := SellPhase(rates, book, funds, date, navs, target, current, total, cap);
    var plan := BuyPlan(funds, target, current, total, Min(sold.cash, total * cap));
    ApplyBuysWellFormed(rates, sold, funds, date, navs, plan.orders);
  }

  /** A successful rebalance of a well-formed book leaves a well-formed book. */
  lemma RebalanceWellFormed(rates: CostRates, funds: seq<string>, book: Book, date: int, navs: map<string, real>,
                            target: seq<Entry>, cap: real)
    requires WellFormed(book, funds) && NonZeroPrices(funds, navs)
    ensures var r := RebalanceBook(rates, funds, book, date, navs, target, cap);
      r.Ok? ==> WellFormed(r.value, funds)
  {
    TotalValueOk(book, funds, navs);
    if Priced(funds, navs) {
      RebalanceAtWellFormed(rates, funds, book, date, navs, target, cap, TotalValue(book, funds, navs).value);
    }
  }

  /**
   * A rebalance of a book with non-negative cash leaves non-negative cash,
   * and spends on buys at most `total * cap` of what the sells raised.
   */
  lemma RebalanceKeepsCash(rates: CostRates, funds: seq<string>, book: Book, date: int, navs: map<string, real>,
                           target: seq<Entry>, cap: real, total: real)
    requires Tradable(funds, book.lots, navs)
    ensures var current := WeightsAt(book.lots, funds, navs, total);
      var sold := SellPhase(rates, book, funds, date, navs, target, current, total, cap);
      var r := RebalanceAt(rates, funds, book, date, navs, target, cap, total);
      && r.cash <= sold.cash
      && (sold.cash >= 0.0 ==> r.cash >= 0.0)
      && r.cash >= sold.cash - Max(total * cap, 0.0)
  {
    var current := WeightsAt(book.lots, funds, navs, total);
    var sold := SellPhase(rates, book, funds, date, navs, target, current, total, cap);
    BuyPhaseCash(rates, sold, funds, date, navs, target, current, total, cap);
  }
}
