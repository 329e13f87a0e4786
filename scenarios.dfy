/**
 * The FIFO sale of tests/test_fifo_logic.py:8-25 worked out on the value
 * model: three purchases of 1000 at a price of 10 on 2023-01-01,
 * 2023-02-01 and 2023-03-01 (days 19358, 19389 and 19417 since
 * 1970-01-01), then a verbose sale of 150 units at 12 on 2023-04-01
 * (day 19448), under the default cost configuration.
 */
module Scenarios {
  import opened Wrappers
  import opened Costs
  import opened Fifo
  import opened Bookkeeping

  const Jan := 19358
  const Feb := 19389
  const Mar := 19417
  const Apr := 19448

  /** The ledger after the three purchases: 99.98 units per lot, the fee having taken 0.2 of each 1000. */
  lemma ThreePurchases()
    ensures var b := BuyFund(DefaultRates, BuyFund(DefaultRates, BuyFund(DefaultRates,
                       Opening(["FUND"], 0.0), Jan, "FUND", 1000.0, 10.0), Feb, "FUND", 1000.0, 10.0), Mar, "FUND", 1000.0, 10.0);
      && b.lots["FUND"] == [Lot(Jan, "FUND", 99.98, 10.0), Lot(Feb, "FUND", 99.98, 10.0), Lot(Mar, "FUND", 99.98, 10.0)]
      && b.cash == -3000.0
      && |b.tradeLog| == 3
  {
    var u := BuyUnits(DefaultRates, 1000.0, 10.0);
    assert u == 99.98;
    var b0 := Opening(["FUND"], 0.0);
    assert b0.lots["FUND"] == [];
    var b1 := BuyFund(DefaultRates, b0, Jan, "FUND", 1000.0, 10.0);
    assert b1.lots["FUND"] == [Lot(Jan, "FUND", 99.98, 10.0)];
    var b2 := BuyFund(DefaultRates, b1, Feb, "FUND", 1000.0, 10.0);
    assert b2.lots["FUND"] == [Lot(Jan, "FUND", 99.98, 10.0), Lot(Feb, "FUND", 99.98, 10.0)];
  }

  /**
   * The sale takes the whole January lot, then 50.02 units of the February
   * lot; the trace names the two lots in that order, fewer than 150 units
   * remain, and the SELL record shows a positive exit load and fee.
   */
  lemma FifoSellWithLogs()
    ensures var book := BuyFund(DefaultRates, BuyFund(DefaultRates, BuyFund(DefaultRates,
                          Opening(["FUND"], 0.0), Jan, "FUND", 1000.0, 10.0), Feb, "FUND", 1000.0, 10.0), Mar, "FUND", 1000.0, 10.0);
      var b := SellFund(DefaultRates, book, Apr, "FUND", 150.0, 12.0, true);
      && |b.tradeLog| == 4
      && var t := b.tradeLog[3];
      && t.action == Sell && t.units == 150.0
      && t.fifoLog.Some? && |t.fifoLog.value| == 2
      && t.fifoLog.value[0].lotDate == Jan && t.fifoLog.value[1].lotDate == Feb
      && b.lots["FUND"] == [Lot(Feb, "FUND", 49.96, 10.0), Lot(Mar, "FUND", 99.98, 10.0)]
      && SumUnits(b.lots["FUND"]) < 150.0
      && t.exitLoad > 0.0 && t.txnCost > 0.0
  {
    var jan, feb, mar := Lot(Jan, "FUND", 99.98, 10.0), Lot(Feb, "FUND", 99.98, 10.0), Lot(Mar, "FUND", 99.98, 10.0);
    var lots := [jan, feb, mar];
    ThreePurchases();
    var s1, s2 := Slice(jan, 99.98), Slice(feb, 50.02);
    var kept := Lot(Feb, "FUND", 49.96, 10.0);
    assert [jan] == [] + [jan] && [jan, feb] == [jan] + [feb] && lots == [jan, feb] + [mar];
    ConsumeSnoc([], jan, 150.0);
    assert Consume([jan], 150.0) == Walk([s1], [], 50.02);
    ConsumeSnoc([jan], feb, 150.0);
    assert Consume([jan, feb], 150.0) == Walk([s1, s2], [kept], 0.0);
    ConsumeSnoc([jan, feb], mar, 150.0);
    var w := Consume(lots, 150.0);
    assert w == Walk([s1, s2], [kept, mar], 0.0);
    assert [s1, s2] == [s1] + [s2] && [s1] == [] + [s1];
    var d := Deplete(DefaultRates, lots, Apr, 150.0, 12.0);
    SlicedUnitsSnoc([], s1);
    SlicedUnitsSnoc([s1], s2);
    assert d.soldUnits == 150.0;
    LinesSnoc(DefaultRates, [], s1, Apr, 12.0);
    LinesSnoc(DefaultRates, [s1], s2, Apr, 12.0);
    assert |d.trace| == 2 && d.trace[0].lotDate == Jan && d.trace[1].lotDate == Feb;
    assert ExitBps(DefaultRates.exitLoadSchedule, Apr - Jan) == 100.0;
    assert ExitBps(DefaultRates.exitLoadSchedule, Apr - Feb) == 100.0;
    SlicedExitLoadSnoc(DefaultRates, [], s1, Apr, 12.0);
    SlicedExitLoadSnoc(DefaultRates, [s1], s2, Apr, 12.0);
    assert d.exitLoadTotal == 18.0;
    SlicedGrossSnoc([], s1, 12.0);
    SlicedGrossSnoc([s1], s2, 12.0);
    assert d.grossValue == 1800.0;
    SlicedFeeSnoc([], s1, 12.0, 10.0);
    SlicedFeeSnoc([s1], s2, 12.0, 10.0);
    SlicedFeeSnoc([], s1, 12.0, 2.0);
    SlicedFeeSnoc([s1], s2, 12.0, 2.0);
    assert d.sttTotal == 1.8 && d.txnTotal == 0.36;
    assert [kept, mar] == [kept] + [mar] && [kept] == [] + [kept];
    SumUnitsSnoc([], kept);
    SumUnitsSnoc([kept], mar);
    assert SumUnits([kept, mar]) == 149.94;
  }
}
