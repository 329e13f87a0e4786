/**
 * The cost model of a sale or purchase: a tiered exit load looked up by
 * holding period, a securities-transaction tax and a transaction fee, each
 * a number of basis points of a gross value (src/backtester.py:96-106).
 */
module Costs {

  /** One exit-load tier: holdings of at most `maxDays` days pay `bps`. */
  datatype Tier = Tier(maxDays: int, bps: real)

  /** The cost configuration a portfolio is built with. */
  datatype CostRates = CostRates(exitLoadSchedule: seq<Tier>, sttSellBps: real, txnCostBps: real)

  /** The defaults of the source: one tier (up to 365 days, 100 bps), 10 bps STT, 2 bps fee. */
  const DefaultRates := CostRates([Tier(365, 100.0)], 10.0, 2.0)

  /** Tier `i` is the first one whose `maxDays` covers the holding period. */
  ghost predicate IsFirstMatch(schedule: seq<Tier>, holdingDays: int, i: int)
  {
    && 0 <= i < |schedule|
    && holdingDays <= schedule[i].maxDays
    && forall j :: 0 <= j < i ==> schedule[j].maxDays < holdingDays
  }

  /** No tier covers the holding period. */
  ghost predicate NoTierMatches(schedule: seq<Tier>, holdingDays: int)
  {
    forall j :: 0 <= j < |schedule| ==> schedule[j].maxDays < holdingDays
  }

  /**
   * The exit-load rate of a slice held `holdingDays` days: the schedule is
   * scanned in the order given and the first tier whose threshold is not
   * exceeded wins; past every tier the rate is 0.
   */
  function ExitBps(schedule: seq<Tier>, holdingDays: int): real
  {
    if schedule == [] then 0.0
    else if holdingDays <= schedule[0].maxDays then schedule[0].bps
    else ExitBps(schedule[1..], holdingDays)
  }

  /**
   * First match: the rate is that of the first covering tier, 0 when no
   * tier covers the holding period, and in every case 0 or the rate of
   * some tier of the schedule (the schedule is not sorted first).
   */
  lemma {:induction false} ExitBpsFirstMatch(schedule: seq<Tier>, holdingDays: int)
    ensures NoTierMatches(schedule, holdingDays) ==> ExitBps(schedule, holdingDays) == 0.0
    ensures forall i :: IsFirstMatch(schedule, holdingDays, i) ==> ExitBps(schedule, holdingDays) == schedule[i].bps
    ensures var bps := ExitBps(schedule, holdingDays);
      bps == 0.0 || exists i :: 0 <= i < |schedule| && schedule[i].bps == bps
  {
    if schedule != [] && holdingDays > schedule[0].maxDays {
      ExitBpsFirstMatch(schedule[1..], holdingDays);
      assert forall i :: IsFirstMatch(schedule, holdingDays, i) ==> IsFirstMatch(schedule[1..], holdingDays, i - 1);
      var bps := ExitBps(schedule, holdingDays);
      if bps != 0.0 {
        var k :| 0 <= k < |schedule| - 1 && schedule[1..][k].bps == bps;
        assert schedule[k + 1].bps == bps;
      }
    }
  }

  /** A fee of `bps` basis points on `value`. */
  function Fee(value: real, bps: real): real
  {
    value * (bps / 10000.0)
  }

  /**
   * A fee on a non-negative value is non-negative for a non-negative rate
   * and at most the value for a rate of at most 10,000 bps; no rate, no fee.
   * (Kept out of Fee's own contract so that proofs about sales do not have
   * to carry these implications for every fee they mention.)
   */
  lemma FeeBounds(value: real, bps: real)
    ensures value >= 0.0 && bps >= 0.0 ==> Fee(value, bps) >= 0.0
    ensures value >= 0.0 && bps <= 10000.0 ==> Fee(value, bps) <= value
    ensures bps == 0.0 || value == 0.0 ==> Fee(value, bps) == 0.0
  {
  }

  /** Every rate of the configuration is non-negative. */
  ghost predicate NonNegativeRates(rates: CostRates)
  {
    && rates.sttSellBps >= 0.0
    && rates.txnCostBps >= 0.0
    && forall i :: 0 <= i < |rates.exitLoadSchedule| ==> rates.exitLoadSchedule[i].bps >= 0.0
  }

  /** Whatever tier applies, exit load, STT and fee together stay within 10,000 bps. */
  ghost predicate BoundedRates(rates: CostRates)
  {
    && NonNegativeRates(rates)
    && rates.sttSellBps + rates.txnCostBps <= 10000.0
    && forall i :: 0 <= i < |rates.exitLoadSchedule| ==>
         rates.exitLoadSchedule[i].bps + rates.sttSellBps + rates.txnCostBps <= 10000.0
  }

  /** The exit-load rate of a non-negative schedule is non-negative and, under bounded rates, leaves room for STT and fee. */
  lemma ExitBpsBounds(rates: CostRates, holdingDays: int)
    requires NonNegativeRates(rates)
    ensures ExitBps(rates.exitLoadSchedule, holdingDays) >= 0.0
    ensures BoundedRates(rates) ==>
      ExitBps(rates.exitLoadSchedule, holdingDays) + rates.sttSellBps + rates.txnCostBps <= 10000.0
  {
    ExitBpsFirstMatch(rates.exitLoadSchedule, holdingDays);
  }

  /** The three fees of one sale slice are non-negative and, under bounded rates, never exceed the slice value. */
  lemma SliceFeesBounded(rates: CostRates, value: real, holdingDays: int)
    requires NonNegativeRates(rates) && value >= 0.0
    ensures var exitFee := Fee(value, ExitBps(rates.exitLoadSchedule, holdingDays));
      && exitFee >= 0.0
      && Fee(value, rates.sttSellBps) >= 0.0
      && Fee(value, rates.txnCostBps) >= 0.0
      && (BoundedRates(rates) ==> exitFee + Fee(value, rates.sttSellBps) + Fee(value, rates.txnCostBps) <= value)
  {
    var b := ExitBps(rates.exitLoadSchedule, holdingDays);
    ExitBpsBounds(rates, holdingDays);
    FeeBounds(value, b);
    FeeBounds(value, rates.sttSellBps);
    FeeBounds(value, rates.txnCostBps);
    if BoundedRates(rates) {
      FeeBounds(value, b + rates.sttSellBps + rates.txnCostBps);
      FeesAdd(value, b, rates.sttSellBps, rates.txnCostBps);
    }
  }

  /** A fee on a sum of values is the sum of the fees. */
  lemma FeeAdditive(a: real, b: real, bps: real)
    ensures Fee(a, bps) + Fee(b, bps) == Fee(a + b, bps)
  {
  }

  /** Three fees on one value add up to one fee at the summed rate. */
  lemma FeesAdd(value: real, b1: real, b2: real, b3: real)
    ensures Fee(value, b1) + Fee(value, b2) + Fee(value, b3) == Fee(value, b1 + b2 + b3)
  {
    assert b1 / 10000.0 + b2 / 10000.0 + b3 / 10000.0 == (b1 + b2 + b3) / 10000.0;
  }
}
