/**
 * The FIFO sell engine as a value computation (src/backtester.py:82-130).
 * `Consume` is the source's loop over the ledger written as a left fold of
 * `Step`, one step per lot, oldest first: it says which slice of which lot
 * the sale takes, which lots are kept and how many units are still to sell.
 * The slices are then priced (`SliceLine`) and added up field by field.
 * The Portfolio class runs the loop itself and is proved to return exactly
 * `Deplete`.
 */
module Fifo {
  import opened Reals
  import opened Costs

  /** A purchase lot; `date` is a day number. */
  datatype Lot = Lot(date: int, fund: string, units: real, navAtBuy: real)

  /** `units` taken from `lot` by one sale. */
  datatype Slice = Slice(lot: Lot, units: real)

  /** The state of the sell loop: slices taken, lots kept, units still to sell. */
  datatype Walk = Walk(slices: seq<Slice>, remaining: seq<Lot>, left: real)

  /** One line of the depletion trace: the lot's date, the units taken, the price and the three fees. */
  datatype TraceLine = TraceLine(lotDate: int, units: real, price: real, exitLoad: real, stt: real, txnCost: real)

  /** What a FIFO sale reports, with the ledger it leaves behind. */
  datatype Depletion = Depletion(
    soldUnits: real,
    grossValue: real,
    exitLoadTotal: real,
    sttTotal: real,
    txnTotal: real,
    remaining: seq<Lot>,
    trace: seq<TraceLine>)
  {
    function TotalCosts(): real { exitLoadTotal + sttTotal + txnTotal }
    function NetCash(): real { grossValue - TotalCosts() }
  }

  /** Units held over a ledger. */
  function SumUnits(lots: seq<Lot>): real
  {
    if lots == [] then 0.0 else SumUnits(lots[..|lots| - 1]) + lots[|lots| - 1].units
  }

  /** No lot of the ledger is empty. */
  ghost predicate Positive(lots: seq<Lot>)
  {
    forall i :: 0 <= i < |lots| ==> lots[i].units > 0.0
  }

  /** A ledger of `fund`: every lot belongs to it and holds units. */
  ghost predicate IsLedger(lots: seq<Lot>, fund: string)
  {
    forall i :: 0 <= i < |lots| ==> lots[i].fund == fund && lots[i].units > 0.0
  }

  /** Lots in non-decreasing purchase-date order. */
  ghost predicate Chronological(lots: seq<Lot>)
  {
    forall i, j :: 0 <= i < j < |lots| ==> lots[i].date <= lots[j].date
  }

  /** What is kept of `lot` once `use` of its units are sold: nothing unless units remain. */
  function Shrunk(lot: Lot, use: real): seq<Lot>
  {
    if lot.units - use > 0.0 then [lot.(units := lot.units - use)] else []
  }

  /**
   * One pass of the sell loop over `lot`. With nothing left to sell the lot
   * is kept as it is; otherwise min(lot units, units left) are taken, the
   * lot is kept with fewer units if any remain, and the units left shrink.
   */
  function Step(w: Walk, lot: Lot): Walk
  {
    if w.left <= 0.0 then Walk(w.slices, w.remaining + [lot], w.left)
    else
      var use := Min(lot.units, w.left);
      Walk(w.slices + [Slice(lot, use)], w.remaining + Shrunk(lot, use), w.left - use)
  }

  /** The sell loop over `lots`, oldest first, starting with `unitsToSell` units to sell. */
  function Consume(lots: seq<Lot>, unitsToSell: real): Walk
  {
    if lots == [] then Walk([], [], unitsToSell)
    else Step(Consume(lots[..|lots| - 1], unitsToSell), lots[|lots| - 1])
  }

  /** The priced trace line of one slice sold at `nav` on day `date`: its value pays each rate once. */
  function SliceLine(rates: CostRates, s: Slice, date: int, nav: real): TraceLine
  {
    var value := s.units * nav;
    TraceLine(s.lot.date, s.units, nav,
      Fee(value, ExitBps(rates.exitLoadSchedule, date - s.lot.date)),
      Fee(value, rates.sttSellBps),
      Fee(value, rates.txnCostBps))
  }

  function Lines(rates: CostRates, slices: seq<Slice>, date: int, nav: real): seq<TraceLine>
  {
    if slices == [] then []
    else Lines(rates, slices[..|slices| - 1], date, nav) + [SliceLine(rates, slices[|slices| - 1], date, nav)]
  }

  function SlicedUnits(slices: seq<Slice>): real
  {
    if slices == [] then 0.0 else SlicedUnits(slices[..|slices| - 1]) + slices[|slices| - 1].units
  }

  function SlicedGross(slices: seq<Slice>, nav: real): real
  {
    if slices == [] then 0.0 else SlicedGross(slices[..|slices| - 1], nav) + slices[|slices| - 1].units * nav
  }

  /** Exit load summed slice by slice, each slice at the rate of its own holding period. */
  function SlicedExitLoad(rates: CostRates, slices: seq<Slice>, date: int, nav: real): real
  {
    if slices == [] then 0.0
    else
      var s := slices[|slices| - 1];
      SlicedExitLoad(rates, slices[..|slices| - 1], date, nav)
        + Fee(s.units * nav, ExitBps(rates.exitLoadSchedule, date - s.lot.date))
  }

  /** A flat rate of `bps` summed slice by slice. */
  function SlicedFee(slices: seq<Slice>, nav: real, bps: real): real
  {
    if slices == [] then 0.0 else SlicedFee(slices[..|slices| - 1], nav, bps) + Fee(slices[|slices| - 1].units * nav, bps)
  }

  /** The report of a walk priced at `nav` on day `date`: its slices added up field by field. */
  function Report(rates: CostRates, w: Walk, date: int, nav: real): Depletion
  {
    Depletion(
      SlicedUnits(w.slices),
      SlicedGross(w.slices, nav),
      SlicedExitLoad(rates, w.slices, date, nav),
      SlicedFee(w.slices, nav, rates.sttSellBps),
      SlicedFee(w.slices, nav, rates.txnCostBps),
      w.remaining,
      Lines(rates, w.slices, date, nav))
  }

  /** The report of a FIFO sale of `unitsToSell` units at `nav` on day `date`. */
  function Deplete(rates: CostRates, lots: seq<Lot>, date: int, unitsToSell: real, nav: real): Depletion
  {
    Report(rates, Consume(lots, unitsToSell), date, nav)
  }

  // ----- appending one element -----

  lemma SumUnitsSnoc(lots: seq<Lot>, lot: Lot)
    ensures SumUnits(lots + [lot]) == SumUnits(lots) + lot.units
  {
    assert (lots + [lot])[..|lots|] == lots;
  }

  lemma SlicedUnitsSnoc(slices: seq<Slice>, s: Slice)
    ensures SlicedUnits(slices + [s]) == SlicedUnits(slices) + s.units
  {
    assert (slices + [s])[..|slices|] == slices;
  }

  lemma SlicedGrossSnoc(slices: seq<Slice>, s: Slice, nav: real)
    ensures SlicedGross(slices + [s], nav) == SlicedGross(slices, nav) + s.units * nav
  {
    assert (slices + [s])[..|slices|] == slices;
  }

  lemma SlicedExitLoadSnoc(rates: CostRates, slices: seq<Slice>, s: Slice, date: int, nav: real)
    ensures SlicedExitLoad(rates, slices + [s], date, nav)
         == SlicedExitLoad(rates, slices, date, nav) + Fee(s.units * nav, ExitBps(rates.exitLoadSchedule, date - s.lot.date))
  {
    assert (slices + [s])[..|slices|] == slices;
  }

  lemma SlicedFeeSnoc(slices: seq<Slice>, s: Slice, nav: real, bps: real)
    ensures SlicedFee(slices + [s], nav, bps) == SlicedFee(slices, nav, bps) + Fee(s.units * nav, bps)
  {
    assert (slices + [s])[..|slices|] == slices;
  }

  lemma LinesSnoc(rates: CostRates, slices: seq<Slice>, s: Slice, date: int, nav: real)
    ensures Lines(rates, slices + [s], date, nav) == Lines(rates, slices, date, nav) + [SliceLine(rates, s, date, nav)]
  {
    assert (slices + [s])[..|slices|] == slices;
  }

  /**
   * The sell loop's running state, written the way the loop keeps it: units
   * still to sell, the five sums, the lots kept and the trace collected so
   * far (empty unless the sale is verbose).
   */
  datatype Tally = Tally(left: real, soldUnits: real, grossValue: real, exitLoadTotal: real,
                         sttTotal: real, txnTotal: real, remaining: seq<Lot>, trace: seq<TraceLine>)

  /**
   * One pass of the sell loop over `lot`, totals and all: with nothing left
   * to sell the lot is kept; otherwise its slice is priced at `nav`, every
   * total grows by that slice's value or fee, what is left of the lot is
   * kept and, when `verbose`, the slice's line is traced.
   */
  function Advance(rates: CostRates, t: Tally, lot: Lot, date: int, nav: real, verbose: bool): Tally
  {
    if t.left <= 0.0 then t.(remaining := t.remaining + [lot])
    else
      var use := Min(lot.units, t.left);
      var value := use * nav;
      var exitFee := Fee(value, ExitBps(rates.exitLoadSchedule, date - lot.date));
      var sttFee := Fee(value, rates.sttSellBps);
      var txnFee := Fee(value, rates.txnCostBps);
      Tally(t.left - use, t.soldUnits + use, t.grossValue + value, t.exitLoadTotal + exitFee,
            t.sttTotal + sttFee, t.txnTotal + txnFee, t.remaining + Shrunk(lot, use),
            if verbose then t.trace + [TraceLine(lot.date, use, nav, exitFee, sttFee, txnFee)] else t.trace)
  }

  /** The sell loop with its running state over `lots`, oldest first. */
  function Run(rates: CostRates, lots: seq<Lot>, date: int, unitsToSell: real, nav: real, verbose: bool): Tally
  {
    if lots == [] then Tally(unitsToSell, 0.0, 0.0, 0.0, 0.0, 0.0, [], [])
    else Advance(rates, Run(rates, lots[..|lots| - 1], date, unitsToSell, nav, verbose), lots[|lots| - 1], date, nav, verbose)
  }

  /** A sale report seen as a loop state: `left` units still to sell, the trace kept only when `verbose`. */
  function TallyOf(d: Depletion, left: real, verbose: bool): Tally
  {
    Tally(left, d.soldUnits, d.grossValue, d.exitLoadTotal, d.sttTotal, d.txnTotal, d.remaining,
          if verbose then d.trace else [])
  }

  /** The running-state loop over a ledger with one more lot is one more pass. */
  lemma RunSnoc(rates: CostRates, lots: seq<Lot>, lot: Lot, date: int, unitsToSell: real, nav: real, verbose: bool)
    ensures Run(rates, lots + [lot], date, unitsToSell, nav, verbose)
         == Advance(rates, Run(rates, lots, date, unitsToSell, nav, verbose), lot, date, nav, verbose)
  {
    assert (lots + [lot])[..|lots|] == lots;
  }

  /**
   * The slice-by-slice report of a ledger with one more lot is one more
   * pass of the loop over the report of the ledger: `Deplete` and `Consume`
   * advance exactly as the loop's running state does.
   */
  lemma DepleteSnoc(rates: CostRates, lots: seq<Lot>, lot: Lot, date: int, unitsToSell: real, nav: real, verbose: bool)
    ensures TallyOf(Deplete(rates, lots + [lot], date, unitsToSell, nav), Consume(lots + [lot], unitsToSell).left, verbose)
         == Advance(rates, TallyOf(Deplete(rates, lots, date, unitsToSell, nav), Consume(lots, unitsToSell).left, verbose), lot, date, nav, verbose)
  {
    var w := Consume(lots, unitsToSell);
    assert Deplete(rates, lots, date, unitsToSell, nav) == Report(rates, w, date, nav);
    ConsumeSnoc(lots, lot, unitsToSell);
    if w.left > 0.0 {
      ReportTake(rates, w, lot, date, nav, verbose);
    } else {
      ReportKeep(rates, w, lot, date, nav, verbose);
    }
  }

  /** One loop step that keeps `lot` whole leaves the report's totals and trace as they were. */
  lemma ReportKeep(rates: CostRates, w: Walk, lot: Lot, date: int, nav: real, verbose: bool)
    requires w.left <= 0.0
    ensures TallyOf(Report(rates, Step(w, lot), date, nav), Step(w, lot).left, verbose)
         == Advance(rates, TallyOf(Report(rates, w, date, nav), w.left, verbose), lot, date, nav, verbose)
  {
    assert Step(w, lot) == Walk(w.slices, w.remaining + [lot], w.left);
  }

  /** One loop step that takes a slice of `lot` adds that slice's value and fees to the report and its line to the trace. */
  lemma ReportTake(rates: CostRates, w: Walk, lot: Lot, date: int, nav: real, verbose: bool)
    requires w.left > 0.0
    ensures TallyOf(Report(rates, Step(w, lot), date, nav), Step(w, lot).left, verbose)
         == Advance(rates, TallyOf(Report(rates, w, date, nav), w.left, verbose), lot, date, nav, verbose)
  {
    var s := Slice(lot, Min(lot.units, w.left));
    var w' := Walk(w.slices + [s], w.remaining + Shrunk(lot, s.units), w.left - s.units);
    assert Step(w, lot) == w';
    var d, e := Report(rates, w, date, nav), Report(rates, w', date, nav);
    var value := s.units * nav;
    var exitFee := Fee(value, ExitBps(rates.exitLoadSchedule, date - lot.date));
    var sttFee, txnFee := Fee(value, rates.sttSellBps), Fee(value, rates.txnCostBps);
    SlicedUnitsSnoc(w.slices, s);
    SlicedGrossSnoc(w.slices, s, nav);
    SlicedExitLoadSnoc(rates, w.slices, s, date, nav);
    SlicedFeeSnoc(w.slices, s, nav, rates.sttSellBps);
    SlicedFeeSnoc(w.slices, s, nav, rates.txnCostBps);
    LinesSnoc(rates, w.slices, s, date, nav);
    assert SliceLine(rates, s, date, nav) == TraceLine(lot.date, s.units, nav, exitFee, sttFee, txnFee);
    assert e == Depletion(d.soldUnits + s.units, d.grossValue + value, d.exitLoadTotal + exitFee,
                          d.sttTotal + sttFee, d.txnTotal + txnFee, w'.remaining,
                          d.trace + [TraceLine(lot.date, s.units, nav, exitFee, sttFee, txnFee)]);
  }

  /**
   * The loop's running state is the slice-by-slice report: the loop ends
   * with the units `Consume` leaves and exactly the totals, kept lots and
   * trace of `Deplete`.
   */
  lemma {:induction false} RunIsDeplete(rates: CostRates, lots: seq<Lot>, date: int, unitsToSell: real, nav: real, verbose: bool)
    ensures Run(rates, lots, date, unitsToSell, nav, verbose)
         == TallyOf(Deplete(rates, lots, date, unitsToSell, nav), Consume(lots, unitsToSell).left, verbose)
  {
    if lots != [] {
      var a, lot := lots[..|lots| - 1], lots[|lots| - 1];
      assert lots == a + [lot];
      RunIsDeplete(rates, a, date, unitsToSell, nav, verbose);
      DepleteSnoc(rates, a, lot, date, unitsToSell, nav, verbose);
    }
  }

  /** The sell loop over a ledger with one more lot is one more step. */
  lemma ConsumeSnoc(lots: seq<Lot>, lot: Lot, unitsToSell: real)
    ensures Consume(lots + [lot], unitsToSell) == Step(Consume(lots, unitsToSell), lot)
  {
    assert (lots + [lot])[..|lots|] == lots;
  }

  // ----- the walk -----

  /** Nothing to sell: every lot is kept as it is and no slice is taken. */
  lemma {:induction false} ConsumeIdle(lots: seq<Lot>, unitsToSell: real)
    requires unitsToSell <= 0.0
    ensures Consume(lots, unitsToSell) == Walk([], lots, unitsToSell)
  {
    if lots != [] {
      var a, x := lots[..|lots| - 1], lots[|lots| - 1];
      assert lots == a + [x];
      ConsumeIdle(a, unitsToSell);
      ConsumeSnoc(a, x, unitsToSell);
      assert Step(Walk([], a, unitsToSell), x) == Walk([], a + [x], unitsToSell);
    }
  }

  /**
   * Units are conserved: what remains is what was held less what was
   * taken, and the units still to sell are the request less what was taken.
   */
  lemma {:induction false} ConsumeConservesUnits(lots: seq<Lot>, unitsToSell: real)
    ensures var w := Consume(lots, unitsToSell);
      && SumUnits(w.remaining) == SumUnits(lots) - SlicedUnits(w.slices)
      && w.left == unitsToSell - SlicedUnits(w.slices)
  {
    if lots != [] {
      var a, x := lots[..|lots| - 1], lots[|lots| - 1];
      assert lots == a + [x];
      ConsumeConservesUnits(a, unitsToSell);
      SumUnitsSnoc(a, x);
      var w := Consume(a, unitsToSell);
      if w.left <= 0.0 {
        SumUnitsSnoc(w.remaining, x);
      } else {
        var use := Min(x.units, w.left);
        SlicedUnitsSnoc(w.slices, Slice(x, use));
        if x.units - use > 0.0 {
          SumUnitsSnoc(w.remaining, x.(units := x.units - use));
        } else {
          assert w.remaining + Shrunk(x, use) == w.remaining;
        }
      }
    }
  }

  /** On a ledger without empty lots the sale takes min(requested, held) units, and nothing for a request <= 0. */
  lemma {:induction false} ConsumeSoldUnits(lots: seq<Lot>, unitsToSell: real)
    requires Positive(lots)
    ensures SlicedUnits(Consume(lots, unitsToSell).slices)
         == if unitsToSell <= 0.0 then 0.0 else Min(unitsToSell, SumUnits(lots))
  {
    if unitsToSell <= 0.0 {
      ConsumeIdle(lots, unitsToSell);
    } else if lots != [] {
      var a, x := lots[..|lots| - 1], lots[|lots| - 1];
      assert lots == a + [x];
      assert Positive(a);
      ConsumeSoldUnits(a, unitsToSell);
      ConsumeConservesUnits(a, unitsToSell);
      SumUnitsSnoc(a, x);
      var w := Consume(a, unitsToSell);
      if w.left > 0.0 {
        SlicedUnitsSnoc(w.slices, Slice(x, Min(x.units, w.left)));
      }
    }
  }

  /** A ledger of `fund` stays a ledger of `fund`: no empty lot is kept and no lot changes hands. */
  lemma {:induction false} ConsumeKeepsLedger(lots: seq<Lot>, unitsToSell: real, fund: string)
    requires IsLedger(lots, fund)
    ensures IsLedger(Consume(lots, unitsToSell).remaining, fund)
  {
    if lots != [] {
      var a := lots[..|lots| - 1];
      assert IsLedger(a, fund);
      ConsumeKeepsLedger(a, unitsToSell, fund);
    }
  }

  /** The FIFO shape of a walk with `n` slices (see `ConsumeFifo`). */
  ghost predicate FifoShape(lots: seq<Lot>, w: Walk)
  {
    var n := |w.slices|;
    && n <= |lots|
    && (forall j :: 0 <= j < n ==> w.slices[j].lot == lots[j])
    && (forall j :: 0 <= j < n - 1 ==> w.slices[j].units == lots[j].units)
    && (|| w.remaining == lots[n..]
        || (0 < n && w.remaining == [lots[n - 1].(units := lots[n - 1].units - w.slices[n - 1].units)] + lots[n..]))
  }

  /**
   * FIFO shape of the walk. With n slices, the sale took lots[..n] in
   * order, used up every one of them but possibly the last, and kept
   * lots[n..] untouched behind, at most, the last of them with its units
   * reduced. While units are still to sell, every lot has been used up.
   * On a ledger without empty lots every slice takes a positive amount.
   */
  lemma {:induction false} ConsumeFifo(lots: seq<Lot>, unitsToSell: real)
    ensures var w := Consume(lots, unitsToSell);
      && FifoShape(lots, w)
      && (w.left > 0.0 ==>
            |w.slices| == |lots| && w.remaining == []
            && forall j :: 0 <= j < |lots| ==> w.slices[j].units == lots[j].units)
      && (Positive(lots) ==> forall j :: 0 <= j < |w.slices| ==> w.slices[j].units > 0.0)
  {
    if lots != [] {
      var a, x := lots[..|lots| - 1], lots[|lots| - 1];
      assert lots == a + [x];
      assert Positive(lots) ==> Positive(a);
      ConsumeFifo(a, unitsToSell);
      var w := Consume(a, unitsToSell);
      if w.left <= 0.0 {
        FifoIdleStep(a, x, w);
      } else {
        FifoTakeStep(a, x, w);
      }
    }
  }

  lemma FifoIdleStep(a: seq<Lot>, x: Lot, w: Walk)
    requires FifoShape(a, w) && w.left <= 0.0
    ensures FifoShape(a + [x], Step(w, x))
  {
    var n := |w.slices|;
    assert (a + [x])[n..] == a[n..] + [x];
    forall j | 0 <= j < n
      ensures w.slices[j].lot == (a + [x])[j]
    {
    }
    if w.remaining != a[n..] {
      assert w.remaining + [x] == [a[n - 1].(units := a[n - 1].units - w.slices[n - 1].units)] + (a[n..] + [x]);
    }
  }

  lemma FifoTakeStep(a: seq<Lot>, x: Lot, w: Walk)
    requires |w.slices| == |a| && w.remaining == [] && w.left > 0.0
    requires forall j :: 0 <= j < |a| ==> w.slices[j].lot == a[j] && w.slices[j].units == a[j].units
    ensures var w' := Step(w, x);
      && FifoShape(a + [x], w')
      && (w'.left > 0.0 ==>
            |w'.slices| == |a| + 1 && w'.remaining == []
            && forall j :: 0 <= j < |a| + 1 ==> w'.slices[j].units == (a + [x])[j].units)
      && (x.units > 0.0 ==> w'.slices[|a|].units > 0.0)
  {
    var lots := a + [x];
    var use := Min(x.units, w.left);
    var w' := Step(w, x);
    var n := |a| + 1;
    assert w'.slices == w.slices + [Slice(x, use)];
    assert w'.remaining == Shrunk(x, use);
    assert lots[n..] == [];
    forall j | 0 <= j < n
      ensures w'.slices[j].lot == lots[j]
    {
    }
    if x.units - use > 0.0 {
      assert w'.remaining == [lots[n - 1].(units := lots[n - 1].units - w'.slices[n - 1].units)] + lots[n..];
    }
  }

  // ----- pricing the slices -----

  /** Line j of the trace prices slice j. */
  lemma {:induction false} LinesAt(rates: CostRates, slices: seq<Slice>, date: int, nav: real)
    ensures var t := Lines(rates, slices, date, nav);
      |t| == |slices| && forall j :: 0 <= j < |t| ==> t[j] == SliceLine(rates, slices[j], date, nav)
  {
    if slices != [] {
      LinesAt(rates, slices[..|slices| - 1], date, nav);
    }
  }

  /** Line j of the trace shows the date of the lot of slice j and the units taken from it. */
  lemma {:induction false} LinesShape(rates: CostRates, slices: seq<Slice>, date: int, nav: real)
    ensures var t := Lines(rates, slices, date, nav);
      && |t| == |slices|
      && forall j :: 0 <= j < |t| ==> t[j].units == slices[j].units && t[j].lotDate == slices[j].lot.date
  {
    if slices != [] {
      LinesShape(rates, slices[..|slices| - 1], date, nav);
    }
  }

  /** The gross value added up slice by slice is the units taken times the price. */
  lemma {:induction false} SlicedGrossIsProduct(slices: seq<Slice>, nav: real)
    ensures SlicedGross(slices, nav) == SlicedUnits(slices) * nav
  {
    if slices != [] {
      var a := slices[..|slices| - 1];
      SlicedGrossIsProduct(a, nav);
      Distributes(SlicedUnits(a) + slices[|slices| - 1].units, SlicedUnits(a), slices[|slices| - 1].units, nav);
    }
  }

  /** A flat rate added up slice by slice is the rate applied once to the aggregate gross value. */
  lemma {:induction false} SlicedFeeIsFeeOfGross(slices: seq<Slice>, nav: real, bps: real)
    ensures SlicedFee(slices, nav, bps) == Fee(SlicedGross(slices, nav), bps)
  {
    if slices == [] {
      FeeBounds(0.0, bps);
    } else {
      var a := slices[..|slices| - 1];
      SlicedFeeIsFeeOfGross(a, nav, bps);
      FeeAdditive(SlicedGross(a, nav), slices[|slices| - 1].units * nav, bps);
    }
  }

  /** Slices that take non-negative units. */
  ghost predicate NonNegativeSlices(slices: seq<Slice>)
  {
    forall j :: 0 <= j < |slices| ==> slices[j].units >= 0.0
  }

  lemma {:induction false} SlicedGrossNonNegative(slices: seq<Slice>, nav: real)
    requires NonNegativeSlices(slices) && nav >= 0.0
    ensures SlicedUnits(slices) >= 0.0 && SlicedGross(slices, nav) >= 0.0
  {
    if slices != [] {
      var a, s := slices[..|slices| - 1], slices[|slices| - 1];
      assert NonNegativeSlices(a);
      SlicedGrossNonNegative(a, nav);
      NonNegativeProduct(s.units, nav);
    }
  }

  lemma {:induction false} SlicedFeeNonNegative(slices: seq<Slice>, nav: real, bps: real)
    requires NonNegativeSlices(slices) && nav >= 0.0 && bps >= 0.0
    ensures SlicedFee(slices, nav, bps) >= 0.0
  {
    if slices != [] {
      var a, s := slices[..|slices| - 1], slices[|slices| - 1];
      assert NonNegativeSlices(a);
      SlicedFeeNonNegative(a, nav, bps);
      NonNegativeProduct(s.units, nav);
      FeeBounds(s.units * nav, bps);
    }
  }

  lemma {:induction false} SlicedExitLoadNonNegative(rates: CostRates, slices: seq<Slice>, date: int, nav: real)
    requires NonNegativeRates(rates) && NonNegativeSlices(slices) && nav >= 0.0
    ensures SlicedExitLoad(rates, slices, date, nav) >= 0.0
  {
    if slices != [] {
      var a, s := slices[..|slices| - 1], slices[|slices| - 1];
      assert NonNegativeSlices(a);
      SlicedExitLoadNonNegative(rates, a, date, nav);
      NonNegativeProduct(s.units, nav);
      SliceFeesBounded(rates, s.units * nav, date - s.lot.date);
    }
  }

  /** Under bounded rates the three fees, added up slice by slice, never exceed the gross value. */
  lemma {:induction false} SlicedCostsWithinGross(rates: CostRates, slices: seq<Slice>, date: int, nav: real)
    requires BoundedRates(rates) && NonNegativeSlices(slices) && nav >= 0.0
    ensures SlicedExitLoad(rates, slices, date, nav) + SlicedFee(slices, nav, rates.sttSellBps)
          + SlicedFee(slices, nav, rates.txnCostBps) <= SlicedGross(slices, nav)
  {
    if slices != [] {
      var a, s := slices[..|slices| - 1], slices[|slices| - 1];
      var v := s.units * nav;
      var e := Fee(v, ExitBps(rates.exitLoadSchedule, date - s.lot.date));
      var t, x := Fee(v, rates.sttSellBps), Fee(v, rates.txnCostBps);
      assert e + t + x <= v by {
        NonNegativeProduct(s.units, nav);
        SliceFeesBounded(rates, v, date - s.lot.date);
      }
      assert SlicedExitLoad(rates, a, date, nav) + SlicedFee(a, nav, rates.sttSellBps)
           + SlicedFee(a, nav, rates.txnCostBps) <= SlicedGross(a, nav) by {
        assert NonNegativeSlices(a);
        SlicedCostsWithinGross(rates, a, date, nav);
      }
      SlicedLast(rates, slices, date, nav);
    }
  }

  /** The sums over some slices are the sums over all but the last plus the last slice's own value and fees. */
  lemma SlicedLast(rates: CostRates, slices: seq<Slice>, date: int, nav: real)
    requires slices != []
    ensures var a, s := slices[..|slices| - 1], slices[|slices| - 1];
      var v := s.units * nav;
      && SlicedExitLoad(rates, slices, date, nav) == SlicedExitLoad(rates, a, date, nav) + Fee(v, ExitBps(rates.exitLoadSchedule, date - s.lot.date))
      && SlicedFee(slices, nav, rates.sttSellBps) == SlicedFee(a, nav, rates.sttSellBps) + Fee(v, rates.sttSellBps)
      && SlicedFee(slices, nav, rates.txnCostBps) == SlicedFee(a, nav, rates.txnCostBps) + Fee(v, rates.txnCostBps)
      && SlicedGross(slices, nav) == SlicedGross(a, nav) + v
  {
  }

  lemma NonNegativeProduct(a: real, b: real)
    requires a >= 0.0 && b >= 0.0
    ensures a * b >= 0.0
  {
  }

  // ----- the whole sale -----

  /** Units are conserved: the ledger after a sale holds what it held before less the units sold. */
  lemma DepleteConservesUnits(rates: CostRates, lots: seq<Lot>, date: int, unitsToSell: real, nav: real)
    ensures var d := Deplete(rates, lots, date, unitsToSell, nav);
      SumUnits(d.remaining) == SumUnits(lots) - d.soldUnits
  {
    ConsumeConservesUnits(lots, unitsToSell);
  }

  /** On a ledger without empty lots a sale sells min(requested, held) units, and nothing for a request <= 0. */
  lemma DepleteSoldUnits(rates: CostRates, lots: seq<Lot>, date: int, unitsToSell: real, nav: real)
    requires Positive(lots)
    ensures Deplete(rates, lots, date, unitsToSell, nav).soldUnits
         == if unitsToSell <= 0.0 then 0.0 else Min(unitsToSell, SumUnits(lots))
  {
    ConsumeSoldUnits(lots, unitsToSell);
  }

  /** A ledger of `fund` stays one after a sale: in particular no zero-unit lot is kept. */
  lemma DepleteKeepsLedger(rates: CostRates, lots: seq<Lot>, date: int, unitsToSell: real, nav: real, fund: string)
    requires IsLedger(lots, fund)
    ensures IsLedger(Deplete(rates, lots, date, unitsToSell, nav).remaining, fund)
  {
    ConsumeKeepsLedger(lots, unitsToSell, fund);
  }

  /**
   * FIFO order of a sale. With n trace lines, line j shows lot j; every
   * traced lot but the last was used up; the ledger left is lots[n..]
   * behind, at most, the last traced lot with its units reduced (same
   * purchase date, fund and buy price).
   */
  lemma DepleteFifo(rates: CostRates, lots: seq<Lot>, date: int, unitsToSell: real, nav: real)
    ensures var d := Deplete(rates, lots, date, unitsToSell, nav);
      var n := |d.trace|;
      && n <= |lots|
      && (forall j :: 0 <= j < n ==> d.trace[j].lotDate == lots[j].date)
      && (forall j :: 0 <= j < n - 1 ==> d.trace[j].units == lots[j].units)
      && (|| d.remaining == lots[n..]
          || (0 < n && d.remaining == [lots[n - 1].(units := lots[n - 1].units - d.trace[n - 1].units)] + lots[n..]))
  {
    var w := Consume(lots, unitsToSell);
    var d := Deplete(rates, lots, date, unitsToSell, nav);
    assert d.trace == Lines(rates, w.slices, date, nav) && d.remaining == w.remaining;
    assert FifoShape(lots, w) by {
      ConsumeFifo(lots, unitsToSell);
    }
    assert |d.trace| == |w.slices| && forall j :: 0 <= j < |d.trace| ==>
      d.trace[j].units == w.slices[j].units && d.trace[j].lotDate == w.slices[j].lot.date by {
      LinesShape(rates, w.slices, date, nav);
    }
  }

  /** Line j of a sale's trace is lot j sold at the sale price, its exit load set by that lot's own holding period. */
  lemma DepletePricing(rates: CostRates, lots: seq<Lot>, date: int, unitsToSell: real, nav: real)
    ensures var d := Deplete(rates, lots, date, unitsToSell, nav);
      && |d.trace| <= |lots|
      && forall j :: 0 <= j < |d.trace| ==> d.trace[j] == SliceLine(rates, Slice(lots[j], d.trace[j].units), date, nav)
  {
    var w := Consume(lots, unitsToSell);
    assert Deplete(rates, lots, date, unitsToSell, nav) == Report(rates, w, date, nav);
    ConsumeFifo(lots, unitsToSell);
    LinesAt(rates, w.slices, date, nav);
  }

  /** The trace of a sale from a chronological ledger lists lot dates oldest first. */
  lemma TraceChronological(rates: CostRates, lots: seq<Lot>, date: int, unitsToSell: real, nav: real)
    requires Chronological(lots)
    ensures var t := Deplete(rates, lots, date, unitsToSell, nav).trace;
      forall i, j :: 0 <= i < j < |t| ==> t[i].lotDate <= t[j].lotDate
  {
    DepleteFifo(rates, lots, date, unitsToSell, nav);
  }

  /** A lot dated no earlier than those of a chronological ledger can go at its end. */
  lemma ChronologicalSnoc(lots: seq<Lot>, lot: Lot)
    requires Chronological(lots)
    requires forall i :: 0 <= i < |lots| ==> lots[i].date <= lot.date
    ensures Chronological(lots + [lot])
    ensures forall i :: 0 <= i < |lots + [lot]| ==> (lots + [lot])[i].date <= lot.date
  {
  }

  /**
   * What a sale leaves of a ledger carries the purchase dates of the
   * ledger's last lots, in order; so a chronological ledger stays
   * chronological.
   */
  lemma DepleteKeepsDates(rates: CostRates, lots: seq<Lot>, date: int, unitsToSell: real, nav: real)
    ensures var r := Deplete(rates, lots, date, unitsToSell, nav).remaining;
      && |r| <= |lots|
      && (forall k :: 0 <= k < |r| ==> r[k].date == lots[|lots| - |r| + k].date)
      && (Chronological(lots) ==> Chronological(r))
  {
    DepleteFifo(rates, lots, date, unitsToSell, nav);
  }

  /**
   * The report's totals: the gross value is the units sold times the price,
   * and STT and fee totals, summed slice by slice, equal the rate applied
   * once to the aggregate gross value.
   */
  lemma DepleteTotals(rates: CostRates, lots: seq<Lot>, date: int, unitsToSell: real, nav: real)
    ensures var d := Deplete(rates, lots, date, unitsToSell, nav);
      && d.grossValue == d.soldUnits * nav
      && d.sttTotal == Fee(d.grossValue, rates.sttSellBps)
      && d.txnTotal == Fee(d.grossValue, rates.txnCostBps)
  {
    var w := Consume(lots, unitsToSell);
    assert Deplete(rates, lots, date, unitsToSell, nav) == Report(rates, w, date, nav);
    SlicedGrossIsProduct(w.slices, nav);
    SlicedFeeIsFeeOfGross(w.slices, nav, rates.sttSellBps);
    SlicedFeeIsFeeOfGross(w.slices, nav, rates.txnCostBps);
  }

  /** Fees are never negative, and under bounded rates the net proceeds of a sale at a non-negative price are not either. */
  lemma DepleteCostsBounded(rates: CostRates, lots: seq<Lot>, date: int, unitsToSell: real, nav: real)
    requires NonNegativeRates(rates) && Positive(lots) && nav >= 0.0
    ensures var d := Deplete(rates, lots, date, unitsToSell, nav);
      && d.soldUnits >= 0.0 && d.grossValue >= 0.0
      && d.exitLoadTotal >= 0.0 && d.sttTotal >= 0.0 && d.txnTotal >= 0.0
      && (BoundedRates(rates) ==> d.NetCash() >= 0.0)
  {
    var w := Consume(lots, unitsToSell);
    assert Deplete(rates, lots, date, unitsToSell, nav) == Report(rates, w, date, nav);
    ConsumeFifo(lots, unitsToSell);
    assert NonNegativeSlices(w.slices);
    SlicedGrossNonNegative(w.slices, nav);
    SlicedExitLoadNonNegative(rates, w.slices, date, nav);
    SlicedFeeNonNegative(w.slices, nav, rates.sttSellBps);
    SlicedFeeNonNegative(w.slices, nav, rates.txnCostBps);
    if BoundedRates(rates) {
      SlicedCostsWithinGross(rates, w.slices, date, nav);
    }
  }

  /**
   * On a ledger without empty lots, nothing is sold exactly when the ledger
   * is empty or the request is not positive, and then the ledger is left
   * untouched, nothing is charged and nothing is traced.
   */
  lemma DepleteNoOp(rates: CostRates, lots: seq<Lot>, date: int, unitsToSell: real, nav: real)
    requires Positive(lots)
    ensures var d := Deplete(rates, lots, date, unitsToSell, nav);
      && (d.soldUnits <= 0.0 <==> lots == [] || unitsToSell <= 0.0)
      && (d.soldUnits <= 0.0 ==> d == Depletion(0.0, 0.0, 0.0, 0.0, 0.0, lots, []))
  {
    DepleteSoldUnits(rates, lots, date, unitsToSell, nav);
    SumUnitsPositive(lots);
    if unitsToSell <= 0.0 {
      ConsumeIdle(lots, unitsToSell);
    }
  }

  /** A ledger without empty lots holds a non-negative position, zero exactly when it is empty. */
  lemma {:induction false} SumUnitsPositive(lots: seq<Lot>)
    requires Positive(lots)
    ensures SumUnits(lots) >= 0.0
    ensures SumUnits(lots) == 0.0 <==> lots == []
  {
    if lots != [] {
      var a := lots[..|lots| - 1];
      assert Positive(a);
      SumUnitsPositive(a);
    }
  }
}
