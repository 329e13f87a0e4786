/**
 * The state of a portfolio as a value, and what `sell`, `buy`,
 * `position_units`, `total_value` and `current_weights` do to it or read
 * from it (src/backtester.py:37-171). The Portfolio class keeps the same
 * three fields and is proved to move from one `Book` to the next exactly
 * as these functions say.
 */
module Bookkeeping {
  import opened Wrappers
  import opened Reals
  import opened Costs
  import opened Fifo
  import opened Weights

  datatype Action = Buy | Sell

  /** One entry of the trade log; `fifoLog` is the depletion trace of a verbose sale. */
  datatype Trade = Trade(
    date: int,
    fund: string,
    action: Action,
    units: real,
    nav: real,
    grossValue: real,
    exitLoad: real,
    stt: real,
    txnCost: real,
    netCashFlow: real,
    fifoLog: Option<seq<TraceLine>>)

  /** The lookups that raise: a fund without a ledger, a fund without a price. */
  datatype Fault = UnknownFund(fund: string) | MissingPrice(fund: string)

  /** Cash, the FIFO ledger of every fund and the trade log. */
  datatype Book = Book(cash: real, lots: map<string, seq<Lot>>, tradeLog: seq<Trade>)

  /** Exactly the listed funds have a ledger, and each ledger holds lots of its own fund with positive units. */
  ghost predicate WellFormed(book: Book, funds: seq<string>)
  {
    && (forall f :: f in book.lots <==> f in funds)
    && (forall f :: f in book.lots ==> IsLedger(book.lots[f], f))
  }

  ghost predicate Distinct(funds: seq<string>)
  {
    forall i, j :: 0 <= i < j < |funds| ==> funds[i] != funds[j]
  }

  /** A new portfolio: the given cash, an empty ledger per fund, no trades. */
  function Opening(funds: seq<string>, cash: real): Book
  {
    Book(cash, map f | f in funds :: [], [])
  }

  lemma OpeningWellFormed(funds: seq<string>, cash: real)
    ensures WellFormed(Opening(funds, cash), funds)
    ensures forall f :: f in funds ==> Opening(funds, cash).lots[f] == []
  {
  }

  // ----- sell -----

  /**
   * The SELL record of a sale: the `exitLoad` field is filled with the
   * total costs, while `stt` and `txnCost` are recomputed from the
   * aggregate gross value; the trace is attached only to verbose sales.
   */
  function SellTrade(rates: CostRates, date: int, fund: string, nav: real, d: Depletion, verbose: bool): Trade
  {
    Trade(date, fund, Sell, d.soldUnits, nav, d.grossValue, d.TotalCosts(),
      Fee(d.grossValue, rates.sttSellBps), Fee(d.grossValue, rates.txnCostBps), d.NetCash(),
      if verbose then Some(d.trace) else None)
  }

  /**
   * `sell` on a fund that has a ledger: the ledger is replaced by what the
   * FIFO sale leaves; if units were sold, the net proceeds are credited
   * and one SELL trade is logged.
   */
  function SellFund(rates: CostRates, book: Book, date: int, fund: string, units: real, nav: real, verbose: bool): Book
    requires fund in book.lots
  {
    Settle(rates, book, date, fund, nav, Deplete(rates, book.lots[fund], date, units, nav), verbose)
  }

  /** The book after the depletion `d` of one fund's ledger has been worked out. */
  function Settle(rates: CostRates, book: Book, date: int, fund: string, nav: real, d: Depletion, verbose: bool): Book
  {
    var b := book.(lots := book.lots[fund := d.remaining]);
    if d.soldUnits <= 0.0 then b
    else b.(cash := b.cash + d.NetCash(), tradeLog := b.tradeLog + [SellTrade(rates, date, fund, nav, d, verbose)])
  }

  /** `sell`: a fund without a ledger raises before anything changes. */
  function SellBook(rates: CostRates, book: Book, date: int, fund: string, units: real, nav: real, verbose: bool): Result<Book, Fault>
  {
    if fund in book.lots then Ok(SellFund(rates, book, date, fund, units, nav, verbose))
    else Err(UnknownFund(fund))
  }

  // ----- buy -----

  /** Units bought for `c` at `nav` once the transaction fee is taken. */
  function BuyUnits(rates: CostRates, c: real, nav: real): real
    requires nav != 0.0
  {
    (c - Fee(c, rates.txnCostBps)) / nav
  }

  /**
   * `buy` on a fund that has a ledger: nothing happens for a non-positive
   * amount or a purchase of no units; otherwise one lot is appended, the
   * whole amount leaves the cash and one BUY trade is logged.
   */
  function BuyFund(rates: CostRates, book: Book, date: int, fund: string, c: real, nav: real): Book
    requires fund in book.lots
    requires c > 0.0 ==> nav != 0.0
  {
    if c <= 0.0 then book
    else
      var units := BuyUnits(rates, c, nav);
      if units <= 0.0 then book
      else Book(
        book.cash - c,
        book.lots[fund := book.lots[fund] + [Lot(date, fund, units, nav)]],
        book.tradeLog + [Trade(date, fund, Buy, units, nav, c, 0.0, 0.0, Fee(c, rates.txnCostBps), -c, None)])
  }

  /** `buy`: the ledger is looked up only once the purchase is known not to be a no-op. */
  function BuyBook(rates: CostRates, book: Book, date: int, fund: string, c: real, nav: real): Result<Book, Fault>
    requires c > 0.0 ==> nav != 0.0
  {
    if fund in book.lots then Ok(BuyFund(rates, book, date, fund, c, nav))
    else if c <= 0.0 || BuyUnits(rates, c, nav) <= 0.0 then Ok(book)
    else Err(UnknownFund(fund))
  }

  // ----- valuation -----

  /** `position_units`. */
  function Position(book: Book, fund: string): Result<real, Fault>
  {
    if fund in book.lots then Ok(SumUnits(book.lots[fund])) else Err(UnknownFund(fund))
  }

  /**
   * The value of the positions in `funds`; per fund the price is looked up
   * before the ledger, and a value comes back only when every fund has both.
   */
  function Holdings(book: Book, funds: seq<string>, navs: map<string, real>): (r: Result<real, Fault>)
    ensures r.Ok? ==> forall f :: f in funds ==> f in navs && f in book.lots
  {
    if funds == [] then Ok(0.0)
    else
      var f := funds[|funds| - 1];
      match Holdings(book, funds[..|funds| - 1], navs)
      case Err(e) => Err(e)
      case Ok(v) =>
        if f !in navs then Err(MissingPrice(f))
        else if f !in book.lots then Err(UnknownFund(f))
        else
          assert funds == funds[..|funds| - 1] + [f];
          Ok(v + SumUnits(book.lots[f]) * navs[f])
  }

  /** Once a prefix of the funds fails to value, the whole list fails with the same fault. */
  lemma {:induction false} HoldingsFirstFault(book: Book, funds: seq<string>, navs: map<string, real>, k: int)
    requires 0 <= k <= |funds| && Holdings(book, funds[..k], navs).Err?
    ensures Holdings(book, funds, navs) == Holdings(book, funds[..k], navs)
  {
    if k < |funds| {
      var a := funds[..|funds| - 1];
      assert a[..k] == funds[..k];
      HoldingsFirstFault(book, a, navs, k);
    } else {
      assert funds[..k] == funds;
    }
  }

  /** `total_value`: cash plus every position at its price. */
  function TotalValue(book: Book, funds: seq<string>, navs: map<string, real>): Result<real, Fault>
  {
    match Holdings(book, funds, navs)
    case Err(e) => Err(e)
    case Ok(v) => Ok(book.cash + v)
  }

  /** The position value of every fund, as a series over the funds. */
  function PositionValues(lots: map<string, seq<Lot>>, funds: seq<string>, navs: map<string, real>): (r: seq<Entry>)
    requires forall f :: f in funds ==> f in navs && f in lots
    ensures |r| == |funds|
  {
    if funds == [] then []
    else
      var f := funds[|funds| - 1];
      PositionValues(lots, funds[..|funds| - 1], navs) + [Entry(f, SumUnits(lots[f]) * navs[f])]
  }

  /** The weight series for a known total: zeros if the total is not positive, else position value over total. */
  function WeightsAt(lots: map<string, seq<Lot>>, funds: seq<string>, navs: map<string, real>, total: real): seq<Entry>
    requires forall f :: f in funds ==> f in navs && f in lots
  {
    if total <= 0.0 then seq(|funds|, i requires 0 <= i < |funds| => Entry(funds[i], 0.0))
    else DivideBy(PositionValues(lots, funds, navs), total)
  }

  /** `current_weights`. */
  function CurrentWeights(book: Book, funds: seq<string>, navs: map<string, real>): Result<seq<Entry>, Fault>
  {
    match TotalValue(book, funds, navs)
    case Err(e) => Err(e)
    case Ok(total) => Ok(WeightsAt(book.lots, funds, navs, total))
  }

  ghost predicate Priced(funds: seq<string>, navs: map<string, real>)
  {
    forall f :: f in funds ==> f in navs
  }

  /** The position value of every fund, added up; written as a sum over the fund list. */
  function HoldingsSum(lots: map<string, seq<Lot>>, funds: seq<string>, navs: map<string, real>): real
    requires forall f :: f in funds ==> f in navs && f in lots
  {
    if funds == [] then 0.0
    else
      var f := funds[|funds| - 1];
      HoldingsSum(lots, funds[..|funds| - 1], navs) + SumUnits(lots[f]) * navs[f]
  }

  // ----- lemmas: sell -----

  /** A sale keeps the book well formed: the same funds, and ledgers without empty or foreign lots. */
  lemma SellKeepsWellFormed(rates: CostRates, book: Book, funds: seq<string>, date: int, fund: string, units: real, nav: real, verbose: bool)
    requires WellFormed(book, funds) && fund in book.lots
    ensures WellFormed(SellFund(rates, book, date, fund, units, nav, verbose), funds)
  {
    DepleteKeepsLedger(rates, book.lots[fund], date, units, nav, fund);
  }

  /**
   * A sale of a known fund leaves the book exactly as it was when no unit
   * is sold, which happens exactly for an empty ledger or a request <= 0.
   */
  lemma SellNoOp(rates: CostRates, book: Book, funds: seq<string>, date: int, fund: string, units: real, nav: real, verbose: bool)
    requires WellFormed(book, funds) && fund in book.lots
    ensures SellFund(rates, book, date, fund, units, nav, verbose) == book
        <==> book.lots[fund] == [] || units <= 0.0
  {
    var lots := book.lots[fund];
    DepleteNoOp(rates, lots, date, units, nav);
    var d := Deplete(rates, lots, date, units, nav);
    if d.soldUnits <= 0.0 {
      assert book.lots[fund := lots] == book.lots;
    } else {
      assert |SellFund(rates, book, date, fund, units, nav, verbose).tradeLog| == |book.tradeLog| + 1;
    }
  }

  /** Only the ledger of the fund sold changes. */
  lemma SellOtherLedgers(rates: CostRates, book: Book, date: int, fund: string, units: real, nav: real, verbose: bool, g: string)
    requires fund in book.lots && g != fund
    ensures var b := SellFund(rates, book, date, fund, units, nav, verbose);
      b.lots.Keys == book.lots.Keys && (g in book.lots ==> b.lots[g] == book.lots[g])
  {
  }

  /**
   * A sale from a ledger without empty lots that sells units: it sells min(requested,
   * held); the position falls by that much; the cash rises by gross value
   * minus exit load, STT and fee; and one SELL trade is logged whose
   * `exitLoad` holds all three costs, whose `stt` and `txnCost` are the
   * rates on the aggregate gross value (equal to the slice-by-slice sums),
   * and which carries the trace exactly when the sale is verbose.
   */
  lemma SellEffects(rates: CostRates, book: Book, date: int, fund: string, units: real, nav: real, verbose: bool)
    requires fund in book.lots && Positive(book.lots[fund])
    requires units > 0.0 && book.lots[fund] != []
    ensures var d := Deplete(rates, book.lots[fund], date, units, nav);
      var b := SellFund(rates, book, date, fund, units, nav, verbose);
      && d.soldUnits == Min(units, SumUnits(book.lots[fund])) && d.soldUnits > 0.0
      && b.lots == book.lots[fund := d.remaining]
      && Position(b, fund) == Ok(SumUnits(book.lots[fund]) - d.soldUnits)
      && b.cash == book.cash + d.grossValue - (d.exitLoadTotal + d.sttTotal + d.txnTotal)
      && |b.tradeLog| == |book.tradeLog| + 1 && b.tradeLog[..|book.tradeLog|] == book.tradeLog
      && var t := b.tradeLog[|book.tradeLog|];
         && t.action == Sell && t.fund == fund && t.date == date && t.nav == nav
         && t.units == d.soldUnits && t.grossValue == d.grossValue
         && t.grossValue == t.units * nav
         && t.stt == d.sttTotal && t.txnCost == d.txnTotal
         && t.exitLoad == d.exitLoadTotal + t.stt + t.txnCost
         && t.netCashFlow == b.cash - book.cash
         && (t.fifoLog.Some? <==> verbose)
         && (verbose ==> t.fifoLog.value == d.trace)
  {
    var lots := book.lots[fund];
    var d := Deplete(rates, lots, date, units, nav);
    assert d.soldUnits == Min(units, SumUnits(lots)) by {
      DepleteSoldUnits(rates, lots, date, units, nav);
    }
    assert d.soldUnits > 0.0 by {
      DepleteNoOp(rates, lots, date, units, nav);
    }
    assert SumUnits(d.remaining) == SumUnits(lots) - d.soldUnits by {
      DepleteConservesUnits(rates, lots, date, units, nav);
    }
    assert d.grossValue == d.soldUnits * nav
        && d.sttTotal == Fee(d.grossValue, rates.sttSellBps)
        && d.txnTotal == Fee(d.grossValue, rates.txnCostBps) by {
      DepleteTotals(rates, lots, date, units, nav);
    }
    var t := SellTrade(rates, date, fund, nav, d, verbose);
    assert SellFund(rates, book, date, fund, units, nav, verbose)
        == Book(book.cash + d.NetCash(), book.lots[fund := d.remaining], book.tradeLog + [t]);
  }

  // ----- lemmas: buy -----

  /** A non-positive amount, or one that buys no units, changes nothing, whether or not the fund is known. */
  lemma BuyNoOp(rates: CostRates, book: Book, date: int, fund: string, c: real, nav: real)
    requires c > 0.0 ==> nav != 0.0
    requires c <= 0.0 || BuyUnits(rates, c, nav) <= 0.0
    ensures BuyBook(rates, book, date, fund, c, nav) == Ok(book)
  {
  }

  /** A purchase that buys units of an unknown fund raises. */
  lemma BuyUnknownFund(rates: CostRates, book: Book, date: int, fund: string, c: real, nav: real)
    requires c > 0.0 && nav != 0.0 && BuyUnits(rates, c, nav) > 0.0 && fund !in book.lots
    ensures BuyBook(rates, book, date, fund, c, nav) == Err(UnknownFund(fund))
  {
  }

  /**
   * A purchase that buys units: the new lot goes to the end of the fund's
   * ledger; its units at the purchase price plus the fee make up exactly
   * the amount spent; the cash falls by exactly that amount; and the BUY
   * trade shows the amount as gross value, no exit load, no STT, the fee,
   * and a cash flow of minus the amount.
   */
  lemma BuyEffects(rates: CostRates, book: Book, date: int, fund: string, c: real, nav: real)
    requires fund in book.lots && c > 0.0 && nav != 0.0
    requires BuyUnits(rates, c, nav) > 0.0
    ensures var u := BuyUnits(rates, c, nav);
      var b := BuyFund(rates, book, date, fund, c, nav);
      && b.lots == book.lots[fund := book.lots[fund] + [Lot(date, fund, u, nav)]]
      && u * nav + Fee(c, rates.txnCostBps) == c
      && b.cash == book.cash - c
      && Position(b, fund) == Ok(SumUnits(book.lots[fund]) + u)
      && b.tradeLog == book.tradeLog + [Trade(date, fund, Buy, u, nav, c, 0.0, 0.0, Fee(c, rates.txnCostBps), -c, None)]
  {
    QuotientTimes(c - Fee(c, rates.txnCostBps), nav);
    SumUnitsSnoc(book.lots[fund], Lot(date, fund, BuyUnits(rates, c, nav), nav));
  }

  lemma QuotientTimes(x: real, d: real)
    requires d != 0.0
    ensures (x / d) * d == x
  {
  }

  /** A purchase keeps the book well formed. */
  lemma BuyKeepsWellFormed(rates: CostRates, book: Book, funds: seq<string>, date: int, fund: string, c: real, nav: real)
    requires WellFormed(book, funds) && fund in book.lots && (c > 0.0 ==> nav != 0.0)
    ensures WellFormed(BuyFund(rates, book, date, fund, c, nav), funds)
  {
  }

  // ----- lemmas: purchase-date order -----

  /** Every ledger lists its lots oldest first. */
  ghost predicate InDateOrder(book: Book)
  {
    forall f :: f in book.lots ==> Chronological(book.lots[f])
  }

  /** No lot of the book is dated after `date`. */
  ghost predicate BoughtBy(book: Book, date: int)
  {
    forall f :: f in book.lots ==> forall i :: 0 <= i < |book.lots[f]| ==> book.lots[f][i].date <= date
  }

  /** A purchase dated no earlier than any lot held keeps every ledger oldest first. */
  lemma BuyKeepsDateOrder(rates: CostRates, book: Book, date: int, fund: string, c: real, nav: real)
    requires fund in book.lots && (c > 0.0 ==> nav != 0.0)
    requires InDateOrder(book) && BoughtBy(book, date)
    ensures var b := BuyFund(rates, book, date, fund, c, nav);
      && b.lots.Keys == book.lots.Keys
      && InDateOrder(b) && BoughtBy(b, date)
  {
    var b := BuyFund(rates, book, date, fund, c, nav);
    if b != book {
      var ledger := book.lots[fund];
      var ledger' := ledger + [Lot(date, fund, BuyUnits(rates, c, nav), nav)];
      assert b.lots == book.lots[fund := ledger'];
      assert Chronological(ledger') && forall i :: 0 <= i < |ledger'| ==> ledger'[i].date <= date by {
        ChronologicalSnoc(ledger, Lot(date, fund, BuyUnits(rates, c, nav), nav));
      }
      forall f | f in b.lots
        ensures Chronological(b.lots[f]) && forall i :: 0 <= i < |b.lots[f]| ==> b.lots[f][i].date <= date
      {
        if f != fund {
          assert b.lots[f] == book.lots[f];
        }
      }
    }
  }

  /** A sale keeps every ledger oldest first, and brings no lot dated later than those held. */
  lemma SellKeepsDateOrder(rates: CostRates, book: Book, date: int, fund: string, units: real, nav: real, verbose: bool, bound: int)
    requires fund in book.lots && InDateOrder(book)
    ensures var b := SellFund(rates, book, date, fund, units, nav, verbose);
      && b.lots.Keys == book.lots.Keys
      && InDateOrder(b)
      && (BoughtBy(book, bound) ==> BoughtBy(b, bound))
  {
    var lots := book.lots[fund];
    var r := Deplete(rates, lots, date, units, nav).remaining;
    assert SellFund(rates, book, date, fund, units, nav, verbose).lots == book.lots[fund := r];
    DepleteKeepsDates(rates, lots, date, units, nav);
  }

  /** One call of `buy`: its date, fund, amount and price. */
  datatype Purchase = Purchase(date: int, fund: string, amount: real, nav: real)

  /** Every purchase of a positive amount has a non-zero price. */
  ghost predicate Payable(ps: seq<Purchase>)
  {
    forall i :: 0 <= i < |ps| ==> ps[i].amount > 0.0 ==> ps[i].nav != 0.0
  }

  /** The purchases are made oldest first. */
  ghost predicate Dated(ps: seq<Purchase>)
  {
    forall i, j :: 0 <= i < j < |ps| ==> ps[i].date <= ps[j].date
  }

  /** `buy` called for each purchase in turn, stopping at the first that raises. */
  function BuyAll(rates: CostRates, book: Book, ps: seq<Purchase>): Result<Book, Fault>
    requires Payable(ps)
    decreases |ps|
  {
    if ps == [] then Ok(book)
    else
      assert Payable(ps[1..]) by {
        assert forall i :: 0 <= i < |ps| - 1 ==> ps[1..][i] == ps[i + 1];
      }
      match BuyBook(rates, book, ps[0].date, ps[0].fund, ps[0].amount, ps[0].nav)
      case Err(e) => Err(e)
      case Ok(b) => BuyAll(rates, b, ps[1..])
  }

  /**
   * Purchases made oldest first, none older than the lots held, keep every
   * ledger oldest first, leave the same funds with a ledger, and hold no
   * lot dated after the last purchase.
   */
  lemma {:induction false} BuyAllKeepsDateOrder(rates: CostRates, book: Book, ps: seq<Purchase>, from: int, until: int)
    requires Payable(ps) && Dated(ps)
    requires InDateOrder(book) && BoughtBy(book, from) && from <= until
    requires forall i :: 0 <= i < |ps| ==> from <= ps[i].date <= until
    ensures var r := BuyAll(rates, book, ps);
      r.Ok? ==> r.value.lots.Keys == book.lots.Keys && InDateOrder(r.value) && BoughtBy(r.value, until)
    decreases |ps|
  {
    if ps != [] {
      var p, rest := ps[0], ps[1..];
      assert Payable(rest) by {
        assert forall i :: 0 <= i < |rest| ==> rest[i] == ps[i + 1];
      }
      assert Dated(rest) && forall i :: 0 <= i < |rest| ==> p.date <= rest[i].date <= until by {
        assert forall i :: 0 <= i < |rest| ==> rest[i] == ps[i + 1];
      }
      assert BuyAll(rates, book, ps) == match BuyBook(rates, book, p.date, p.fund, p.amount, p.nav)
        case Err(e) => Err(e)
        case Ok(b) => BuyAll(rates, b, rest);
      if p.fund in book.lots {
        var b := BuyFund(rates, book, p.date, p.fund, p.amount, p.nav);
        BuyKeepsDateOrder(rates, book, p.date, p.fund, p.amount, p.nav);
        BuyAllKeepsDateOrder(rates, b, rest, p.date, until);
      } else {
        var r := BuyBook(rates, book, p.date, p.fund, p.amount, p.nav);
        if r.Ok? {
          assert r.value == book;
          BuyAllKeepsDateOrder(rates, book, rest, from, until);
        }
      }
    }
  }

  /**
   * Purchases made oldest first into a new portfolio, then a sale of one
   * of its funds: the sale's trace lists lot dates oldest first, and every
   * ledger is still oldest first afterwards.
   */
  lemma PurchasesThenSale(rates: CostRates, funds: seq<string>, cash: real, ps: seq<Purchase>,
                          date: int, fund: string, units: real, nav: real, verbose: bool)
    requires Payable(ps) && Dated(ps) && fund in funds
    requires BuyAll(rates, Opening(funds, cash), ps).Ok?
    ensures var b := BuyAll(rates, Opening(funds, cash), ps).value;
      && fund in b.lots
      && (var t := Deplete(rates, b.lots[fund], date, units, nav).trace;
          forall i, j :: 0 <= i < j < |t| ==> t[i].lotDate <= t[j].lotDate)
      && InDateOrder(SellFund(rates, b, date, fund, units, nav, verbose))
  {
    var book := Opening(funds, cash);
    var b := BuyAll(rates, book, ps).value;
    if ps == [] {
      assert b == book;
    } else {
      BuyAllKeepsDateOrder(rates, book, ps, ps[0].date, ps[|ps| - 1].date);
    }
    assert fund in b.lots && InDateOrder(b);
    TraceChronological(rates, b.lots[fund], date, units, nav);
    SellKeepsDateOrder(rates, b, date, fund, units, nav, verbose, 0);
  }

  // ----- lemmas: valuation -----

  /** With every ledger present the valuation succeeds exactly when every fund has a price. */
  lemma {:induction false} HoldingsOk(book: Book, funds: seq<string>, navs: map<string, real>)
    requires forall f :: f in funds ==> f in book.lots
    ensures Holdings(book, funds, navs).Ok? <==> Priced(funds, navs)
  {
    if funds != [] {
      var a := funds[..|funds| - 1];
      assert forall f :: f in a ==> f in funds;
      HoldingsOk(book, a, navs);
      assert funds == a + [funds[|funds| - 1]];
    }
  }

  /** A successful valuation is the sum of the position values. */
  lemma {:induction false} HoldingsValue(book: Book, funds: seq<string>, navs: map<string, real>)
    requires Holdings(book, funds, navs).Ok?
    ensures Holdings(book, funds, navs).value == HoldingsSum(book.lots, funds, navs)
  {
    if funds != [] {
      HoldingsValue(book, funds[..|funds| - 1], navs);
    }
  }

  /** A failed valuation names a listed fund that has no price or no ledger, and with every ledger present it is a missing price. */
  lemma {:induction false} HoldingsFault(book: Book, funds: seq<string>, navs: map<string, real>)
    requires Holdings(book, funds, navs).Err?
    ensures var e := Holdings(book, funds, navs).error;
      && e.fund in funds
      && (e.MissingPrice? ==> e.fund !in navs)
      && (e.UnknownFund? ==> e.fund !in book.lots)
  {
    var a := funds[..|funds| - 1];
    if Holdings(book, a, navs).Err? {
      HoldingsFault(book, a, navs);
      assert forall f :: f in a ==> f in funds;
    }
  }

  /** `total_value` on a well-formed book: cash plus the sum of the position values, or a fund without a price. */
  lemma TotalValueOk(book: Book, funds: seq<string>, navs: map<string, real>)
    requires forall f :: f in funds ==> f in book.lots
    ensures TotalValue(book, funds, navs).Ok? <==> Priced(funds, navs)
    ensures Priced(funds, navs) ==> TotalValue(book, funds, navs) == Ok(book.cash + HoldingsSum(book.lots, funds, navs))
    ensures TotalValue(book, funds, navs).Err? ==>
      TotalValue(book, funds, navs).error.MissingPrice? && TotalValue(book, funds, navs).error.fund !in navs
  {
    HoldingsOk(book, funds, navs);
    if Priced(funds, navs) {
      HoldingsValue(book, funds, navs);
    } else {
      HoldingsFault(book, funds, navs);
    }
  }

  /** Position values of well-formed ledgers are never negative at non-negative prices, so neither is their sum. */
  lemma {:induction false} HoldingsSumNonNegative(book: Book, funds: seq<string>, navs: map<string, real>, a: seq<string>)
    requires WellFormed(book, funds) && Priced(funds, navs)
    requires forall f :: f in funds ==> navs[f] >= 0.0
    requires forall g :: g in a ==> g in funds
    ensures HoldingsSum(book.lots, a, navs) >= 0.0
  {
    if a != [] {
      var a', f := a[..|a| - 1], a[|a| - 1];
      assert forall g :: g in a' ==> g in a;
      HoldingsSumNonNegative(book, funds, navs, a');
      SumUnitsPositive(book.lots[f]);
      NonNegativeProduct(SumUnits(book.lots[f]), navs[f]);
    }
  }

  /** Replacing the ledger of a fund that is not listed does not change the sum. */
  lemma {:induction false} HoldingsSumOthers(lots: map<string, seq<Lot>>, funds: seq<string>, navs: map<string, real>, fund: string, ledger: seq<Lot>)
    requires forall f :: f in funds ==> f in navs && f in lots
    requires fund !in funds
    ensures HoldingsSum(lots[fund := ledger], funds, navs) == HoldingsSum(lots, funds, navs)
  {
    if funds != [] {
      var a := funds[..|funds| - 1];
      assert forall g :: g in a ==> g in funds;
      HoldingsSumOthers(lots, a, navs, fund, ledger);
    }
  }

  /**
   * Selling at the market price moves value from the position to the cash
   * and loses exactly the costs: the total value falls by exit load, STT
   * and fee (for funds listed once).
   */
  lemma SellValue(rates: CostRates, book: Book, funds: seq<string>, navs: map<string, real>, date: int, fund: string, units: real, verbose: bool)
    requires WellFormed(book, funds) && Distinct(funds) && Priced(funds, navs) && fund in funds
    ensures var d := Deplete(rates, book.lots[fund], date, units, navs[fund]);
      var v := TotalValue(SellFund(rates, book, date, fund, units, navs[fund], verbose), funds, navs);
      v.Ok? && v.value == book.cash + HoldingsSum(book.lots, funds, navs) - d.TotalCosts()
  {
    assert Positive(book.lots[fund]) by {
      assert IsLedger(book.lots[fund], fund);
    }
    SellAtMarket(rates, book, funds, navs, date, fund, units, verbose);
  }

  /** `SellValue` for any ledger without empty lots, once every listed fund has a price and a ledger. */
  lemma SellAtMarket(rates: CostRates, book: Book, funds: seq<string>, navs: map<string, real>, date: int, fund: string, units: real, verbose: bool)
    requires forall f :: f in funds ==> f in navs && f in book.lots
    requires Distinct(funds) && fund in funds && Positive(book.lots[fund])
    ensures TotalValue(SellFund(rates, book, date, fund, units, navs[fund], verbose), funds, navs)
         == Ok(book.cash + HoldingsSum(book.lots, funds, navs) - Deplete(rates, book.lots[fund], date, units, navs[fund]).TotalCosts())
  {
    var d := Deplete(rates, book.lots[fund], date, units, navs[fund]);
    assert SellFund(rates, book, date, fund, units, navs[fund], verbose) == Settle(rates, book, date, fund, navs[fund], d, verbose);
    DepleteAtMarket(rates, book.lots[fund], date, units, navs[fund]);
    SettleValue(rates, book, funds, navs, date, fund, d, verbose);
  }

  /** A sale from a ledger without empty lots conserves units, is worth its units at the price, and costs nothing when it sells nothing. */
  lemma DepleteAtMarket(rates: CostRates, lots: seq<Lot>, date: int, units: real, nav: real)
    requires Positive(lots)
    ensures var d := Deplete(rates, lots, date, units, nav);
      && SumUnits(d.remaining) == SumUnits(lots) - d.soldUnits
      && d.grossValue == d.soldUnits * nav
      && (d.soldUnits <= 0.0 ==> d.soldUnits == 0.0 && d.TotalCosts() == 0.0)
  {
    DepleteConservesUnits(rates, lots, date, units, nav);
    DepleteTotals(rates, lots, date, units, nav);
    DepleteNoOp(rates, lots, date, units, nav);
  }

  /** Settling a depletion that conserves units and is priced at the market changes the total value by minus its costs. */
  lemma SettleValue(rates: CostRates, book: Book, funds: seq<string>, navs: map<string, real>, date: int, fund: string, d: Depletion, verbose: bool)
    requires forall f :: f in funds ==> f in navs && f in book.lots
    requires Distinct(funds) && fund in funds
    requires SumUnits(d.remaining) == SumUnits(book.lots[fund]) - d.soldUnits
    requires d.grossValue == d.soldUnits * navs[fund]
    requires d.soldUnits <= 0.0 ==> d.soldUnits == 0.0 && d.TotalCosts() == 0.0
    ensures TotalValue(Settle(rates, book, date, fund, navs[fund], d, verbose), funds, navs)
         == Ok(book.cash + HoldingsSum(book.lots, funds, navs) - d.TotalCosts())
  {
    var b := Settle(rates, book, date, fund, navs[fund], d, verbose);
    SettleSum(rates, book, funds, navs, date, fund, d, verbose);
    TotalValueOk(b, funds, navs);
  }

  /** The cash and position values after settling, added up. */
  lemma SettleSum(rates: CostRates, book: Book, funds: seq<string>, navs: map<string, real>, date: int, fund: string, d: Depletion, verbose: bool)
    requires forall f :: f in funds ==> f in navs && f in book.lots
    requires Distinct(funds) && fund in funds
    requires SumUnits(d.remaining) == SumUnits(book.lots[fund]) - d.soldUnits
    requires d.grossValue == d.soldUnits * navs[fund]
    requires d.soldUnits <= 0.0 ==> d.soldUnits == 0.0 && d.TotalCosts() == 0.0
    ensures var b := Settle(rates, book, date, fund, navs[fund], d, verbose);
      && (forall f :: f in funds ==> f in b.lots)
      && b.cash + HoldingsSum(b.lots, funds, navs) == book.cash + HoldingsSum(book.lots, funds, navs) - d.TotalCosts()
  {
    var b := Settle(rates, book, date, fund, navs[fund], d, verbose);
    SettleCash(rates, book, date, fund, navs[fund], d, verbose);
    HoldingsSumSold(book.lots, funds, navs, fund, d.remaining, d.soldUnits);
    var held := HoldingsSum(book.lots, funds, navs);
    assert HoldingsSum(b.lots, funds, navs) == held - d.grossValue;
    if d.soldUnits <= 0.0 {
      assert b.cash == book.cash && d.grossValue == 0.0;
    } else {
      assert b.cash == book.cash + d.grossValue - d.TotalCosts();
    }
  }

  /** What settling a depletion does to the cash and the ledgers. */
  lemma SettleCash(rates: CostRates, book: Book, date: int, fund: string, nav: real, d: Depletion, verbose: bool)
    ensures var b := Settle(rates, book, date, fund, nav, d, verbose);
      && b.lots == book.lots[fund := d.remaining]
      && b.cash == (if d.soldUnits <= 0.0 then book.cash else book.cash + d.NetCash())
  {
  }

  /** Selling `sold` units of one listed fund lowers the sum by those units at that fund's price. */
  lemma HoldingsSumSold(lots: map<string, seq<Lot>>, funds: seq<string>, navs: map<string, real>, fund: string, ledger: seq<Lot>, sold: real)
    requires forall f :: f in funds ==> f in navs && f in lots
    requires fund in funds && Distinct(funds)
    requires SumUnits(ledger) == SumUnits(lots[fund]) - sold
    ensures HoldingsSum(lots[fund := ledger], funds, navs) == HoldingsSum(lots, funds, navs) - sold * navs[fund]
  {
    var n, delta := navs[fund], -(sold * navs[fund]);
    assert SumUnits(ledger) * n == SumUnits(lots[fund]) * n + delta by {
      Distributes(SumUnits(lots[fund]), SumUnits(ledger), sold, n);
    }
    HoldingsSumShift(lots, funds, navs, fund, ledger, delta);
  }

  /** Changing one listed fund's position value by `delta` changes the sum by `delta`. */
  lemma {:induction false} HoldingsSumShift(lots: map<string, seq<Lot>>, funds: seq<string>, navs: map<string, real>, fund: string, ledger: seq<Lot>, delta: real)
    requires forall f :: f in funds ==> f in navs && f in lots
    requires fund in funds && Distinct(funds)
    requires SumUnits(ledger) * navs[fund] == SumUnits(lots[fund]) * navs[fund] + delta
    ensures HoldingsSum(lots[fund := ledger], funds, navs) == HoldingsSum(lots, funds, navs) + delta
  {
    var a, f := funds[..|funds| - 1], funds[|funds| - 1];
    assert forall g :: g in a ==> g in funds;
    assert Distinct(a);
    if f == fund {
      assert fund !in a;
      HoldingsSumOthers(lots, a, navs, fund, ledger);
    } else {
      HoldingsSumShift(lots, a, navs, fund, ledger, delta);
    }
  }

  /** Buying at the market price loses exactly the transaction fee in total value (for funds listed once). */
  lemma BuyValue(rates: CostRates, book: Book, funds: seq<string>, navs: map<string, real>, date: int, fund: string, c: real)
    requires WellFormed(book, funds) && Distinct(funds) && Priced(funds, navs) && fund in funds
    requires c > 0.0 && navs[fund] != 0.0 && BuyUnits(rates, c, navs[fund]) > 0.0
    ensures var v := TotalValue(BuyFund(rates, book, date, fund, c, navs[fund]), funds, navs);
      v.Ok? && v.value == book.cash + HoldingsSum(book.lots, funds, navs) - Fee(c, rates.txnCostBps)
  {
    var b := BuyFund(rates, book, date, fund, c, navs[fund]);
    BuyHoldings(rates, book, funds, navs, date, fund, c);
    TotalValueOk(b, funds, navs);
  }

  /** The cash and position values after a purchase at the market price, added up. */
  lemma BuyHoldings(rates: CostRates, book: Book, funds: seq<string>, navs: map<string, real>, date: int, fund: string, c: real)
    requires WellFormed(book, funds) && Distinct(funds) && Priced(funds, navs) && fund in funds
    requires c > 0.0 && navs[fund] != 0.0 && BuyUnits(rates, c, navs[fund]) > 0.0
    ensures var b := BuyFund(rates, book, date, fund, c, navs[fund]);
      && (forall f :: f in funds ==> f in b.lots)
      && b.cash + HoldingsSum(b.lots, funds, navs) == book.cash + HoldingsSum(book.lots, funds, navs) - Fee(c, rates.txnCostBps)
  {
    var nav, fee := navs[fund], Fee(c, rates.txnCostBps);
    var lot := Lot(date, fund, BuyUnits(rates, c, nav), nav);
    var b := BuyFund(rates, book, date, fund, c, nav);
    assert b.lots == book.lots[fund := book.lots[fund] + [lot]] && b.cash == book.cash - c && lot.units * nav + fee == c by {
      BuyEffects(rates, book, date, fund, c, nav);
    }
    AppendLotValue(book.lots, funds, navs, fund, lot);
  }

  /** Appending a lot to one listed fund's ledger adds its units at that fund's price to the sum. */
  lemma AppendLotValue(lots: map<string, seq<Lot>>, funds: seq<string>, navs: map<string, real>, fund: string, lot: Lot)
    requires forall f :: f in funds ==> f in navs && f in lots
    requires Distinct(funds) && fund in funds
    ensures HoldingsSum(lots[fund := lots[fund] + [lot]], funds, navs) == HoldingsSum(lots, funds, navs) + lot.units * navs[fund]
  {
    var ledger := lots[fund] + [lot];
    SumUnitsSnoc(lots[fund], lot);
    Distributes(SumUnits(ledger), SumUnits(lots[fund]), lot.units, navs[fund]);
    HoldingsSumShift(lots, funds, navs, fund, ledger, lot.units * navs[fund]);
  }

  /** The weight series is labelled by the funds, in order. */
  lemma WeightsKeys(lots: map<string, seq<Lot>>, funds: seq<string>, navs: map<string, real>, total: real)
    requires forall f :: f in funds ==> f in navs && f in lots
    ensures Keys(WeightsAt(lots, funds, navs, total)) == funds
  {
    PositionValuesAt(lots, funds, navs);
  }

  /** Entry `i` of the position values is fund `i` with its units at its price. */
  lemma {:induction false} PositionValuesAt(lots: map<string, seq<Lot>>, funds: seq<string>, navs: map<string, real>)
    requires forall f :: f in funds ==> f in navs && f in lots
    ensures forall i :: 0 <= i < |funds| ==>
      PositionValues(lots, funds, navs)[i] == Entry(funds[i], SumUnits(lots[funds[i]]) * navs[funds[i]])
  {
    if funds != [] {
      var a := funds[..|funds| - 1];
      assert forall g :: g in a ==> g in funds;
      PositionValuesAt(lots, a, navs);
    }
  }

  /** Weight `i` is that of fund `i`: zero when the total is not positive, else its position value over the total. */
  lemma WeightsAtEntry(lots: map<string, seq<Lot>>, funds: seq<string>, navs: map<string, real>, total: real, i: int)
    requires forall f :: f in funds ==> f in navs && f in lots
    requires 0 <= i < |funds|
    ensures var w := WeightsAt(lots, funds, navs, total);
      && |w| == |funds| && w[i].key == funds[i]
      && w[i].value == if total <= 0.0 then 0.0 else SumUnits(lots[funds[i]]) * navs[funds[i]] / total
  {
    PositionValuesAt(lots, funds, navs);
  }

  /**
   * `current_weights`: all zeros when the total is not positive; otherwise
   * the weights add up to the invested share (total - cash) / total.
   */
  lemma WeightsSum(book: Book, funds: seq<string>, navs: map<string, real>)
    requires WellFormed(book, funds) && Priced(funds, navs)
    ensures var total := book.cash + HoldingsSum(book.lots, funds, navs);
      && CurrentWeights(book, funds, navs) == Ok(WeightsAt(book.lots, funds, navs, total))
      && (total <= 0.0 ==> forall i :: 0 <= i < |funds| ==> WeightsAt(book.lots, funds, navs, total)[i].value == 0.0)
      && (total > 0.0 ==> Sum(WeightsAt(book.lots, funds, navs, total)) == (total - book.cash) / total)
  {
    var total := book.cash + HoldingsSum(book.lots, funds, navs);
    TotalValueOk(book, funds, navs);
    if total > 0.0 {
      WeightsSumPrefix(book.lots, funds, navs, total);
    }
  }

  lemma WeightsSumPrefix(lots: map<string, seq<Lot>>, funds: seq<string>, navs: map<string, real>, total: real)
    requires forall f :: f in funds ==> f in navs && f in lots
    requires total > 0.0
    ensures Sum(WeightsAt(lots, funds, navs, total)) == HoldingsSum(lots, funds, navs) / total
  {
    PositionValuesSum(lots, funds, navs);
    SumDivideBy(PositionValues(lots, funds, navs), total);
  }

  /** The series of position values adds up to the holdings. */
  lemma {:induction false} PositionValuesSum(lots: map<string, seq<Lot>>, funds: seq<string>, navs: map<string, real>)
    requires forall f :: f in funds ==> f in navs && f in lots
    ensures Sum(PositionValues(lots, funds, navs)) == HoldingsSum(lots, funds, navs)
  {
    if funds != [] {
      var a := funds[..|funds| - 1];
      assert forall g :: g in a ==> g in funds;
      PositionValuesSum(lots, a, navs);
      var f := funds[|funds| - 1];
      SumSnoc(PositionValues(lots, a, navs), Entry(f, SumUnits(lots[f]) * navs[f]));
    }
  }

  /** At non-negative prices every weight of a well-formed book is non-negative. */
  lemma WeightsNonNegative(book: Book, funds: seq<string>, navs: map<string, real>, total: real)
    requires WellFormed(book, funds) && Priced(funds, navs)
    requires forall f :: f in funds ==> navs[f] >= 0.0
    ensures NonNegative(WeightsAt(book.lots, funds, navs, total))
  {
    forall i | 0 <= i < |funds|
      ensures WeightsAt(book.lots, funds, navs, total)[i].value >= 0.0
    {
      var f := funds[i];
      WeightsAtEntry(book.lots, funds, navs, total, i);
      SumUnitsPositive(book.lots[f]);
      NonNegativeProduct(SumUnits(book.lots[f]), navs[f]);
      if total > 0.0 {
        NonNegativeQuotient(SumUnits(book.lots[f]) * navs[f], total);
      }
    }
  }
}
