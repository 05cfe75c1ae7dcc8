/** Market-data processing for one trading pair: the indicator dispatch per
    signal, the candle-colour confirmation history, the trading decision
    (indicator, take-profit override, suppression of the position already
    held), the limit price of the resulting order, the historical warm-up and
    the handling of one live candle. The current position is an input, as the
    account manager answers it. */
module MarketData {
  import opened Wrappers
  import opened Types
  import opened TradingPairs
  import Rounding
  import MA = MovingAverage
  import AccountManager

  datatype TradeSignal = MaCross | MaTrendReversal | MACD

  /** The colour history as a Rust `Vec`: its elements and its capacity. The
      capacity matters because the source compares it with the number of
      confirmation candles. */
  datatype ColorHistory = ColorHistory(colors: seq<CandleColor>, capacity: nat)

  /** `Vec::pop`: removes the newest (last) element, if any. */
  function Pop(h: ColorHistory): (r: ColorHistory)
    ensures r.capacity == h.capacity
    ensures |h.colors| > 0 ==> r.colors == h.colors[..|h.colors| - 1]
    ensures |h.colors| == 0 ==> r == h
  {
    if |h.colors| == 0 then h else h.(colors := h.colors[..|h.colors| - 1])
  }

  /** `Vec::push`: appends; a full vector of one-byte elements grows to twice
      its capacity, to at least the new length and to at least 8. */
  function Push(h: ColorHistory, c: CandleColor): (r: ColorHistory)
    requires |h.colors| <= h.capacity
    ensures r.colors == h.colors + [c] && |r.colors| <= r.capacity
    ensures |h.colors| < h.capacity ==> r.capacity == h.capacity
  {
    var cap := if |h.colors| < h.capacity then h.capacity
               else MA.Max(8, MA.Max(2 * h.capacity, |h.colors| + 1));
    ColorHistory(h.colors + [c], cap)
  }

  function ColorOf(prev: real, close: real): (c: CandleColor)
    ensures c == Green <==> prev <= close
  {
    if prev <= close then Green else Red
  }

  predicate AllSame(cs: seq<CandleColor>)
    requires |cs| > 0
  {
    forall i :: 0 <= i < |cs| ==> cs[i] == cs[0]
  }

  /** `trade_confirmation_via_previous_candles`. Without confirmation
      candles: no answer. Without a previous close: a negative answer and the
      history untouched. Otherwise the newest element is popped when the
      number of confirmation candles equals the capacity, the colour of this
      candle is pushed, and the answer is whether the history is one colour,
      and which. */
  function Confirm(h: ColorHistory, k: Option<nat>, close: real, prev: Option<real>)
    : (r: (Option<(bool, CandleColor)>, ColorHistory))
    requires |h.colors| <= h.capacity
    ensures k.None? ==> r == (None, h)
    ensures k.Some? && prev.None? ==> r == (Some((false, Green)), h)
    ensures k.Some? && prev.Some? ==>
      && var h1 := if k.value == h.capacity then Pop(h) else h;
      && r.1.colors == h1.colors + [ColorOf(prev.value, close)]
      && r.0 == Some((AllSame(r.1.colors), r.1.colors[0]))
    ensures |r.1.colors| <= r.1.capacity
  {
    if k.None? then (None, h)
    else if prev.None? then (Some((false, Green)), h)
    else
      var h1 := if k.value == h.capacity then Pop(h) else h;
      var h2 := Push(h1, ColorOf(prev.value, close));
      (Some((AllSame(h2.colors), h2.colors[0])), h2)
  }

  /** With the capacity equal to the number of confirmation candles, as the
      tracker is built, every step pops what the previous one pushed: the
      history never holds more than one colour, and the answer is always a
      confirmation of the newest candle's colour. */
  lemma ConfirmationSeesOnlyNewestCandle(h: ColorHistory, k: nat, close: real, prev: real)
    requires k >= 1 && h.capacity == k && |h.colors| <= 1
    ensures var r := Confirm(h, Some(k), close, Some(prev));
      && r.1.capacity == k && r.1.colors == [ColorOf(prev, close)]
      && r.0 == Some((true, ColorOf(prev, close)))
  {
  }

  /** Example: with three confirmation candles, a green one followed by a
      red one leaves the history just [Red], and the red candle alone counts
      as a confirmed run. */
  lemma ConfirmationAfterGreenThenRed()
    ensures var h0 := ColorHistory([], 3);
      var r1 := Confirm(h0, Some(3), 2.0, Some(1.0));
      var r2 := Confirm(r1.1, Some(3), 1.0, Some(2.0));
      r1.1.colors == [Green] && r2.1.colors == [Red] && r2.0 == Some((true, Red))
  {
    var h0 := ColorHistory([], 3);
    ConfirmationSeesOnlyNewestCandle(h0, 3, 2.0, 1.0);
    ConfirmationSeesOnlyNewestCandle(Confirm(h0, Some(3), 2.0, Some(1.0)).1, 3, 1.0, 2.0);
  }

  /** With zero confirmation candles the capacity never matches after the
      first push, so nothing is ever popped again and the history grows. */
  lemma ZeroConfirmationCandlesAccumulate(h: ColorHistory, close: real, prev: real)
    requires h.capacity >= 8 && |h.colors| <= h.capacity
    ensures var r := Confirm(h, Some(0), close, Some(prev));
      |r.1.colors| == |h.colors| + 1 && r.1.colors[..|h.colors|] == h.colors
  {
  }

  /** `MarketDataTracker`. */
  datatype Tracker = Tracker(
    slow: MA.MAData,
    fast: MA.MAData,
    macd: MA.Macd,
    signal: TradeSignal,
    history: ColorHistory,
    ema: bool,
    bvlt: bool,
    orderType: OrderType,
    limitOffset: Option<nat>,
    stopPercent: Option<real>,
    takeProfitPercent: Option<real>,
    confirmationCandles: Option<nat>,
    macdTrend: MA.MAData)

  /** What every tracker built by `NewTracker` keeps: well-formed
      averages, a limit offset whenever orders are limit orders, and the
      confirmation history pinned at one colour when confirmation candles
      are configured. */
  predicate TrackerInv(t: Tracker) {
    && MA.WellFormed(t.slow) && MA.WellFormed(t.fast) && MA.WellFormed(t.macdTrend)
    && MA.MacdInv(t.macd)
    && (t.orderType == Limit ==> t.limitOffset.Some?)
    && |t.history.colors| <= t.history.capacity
    && (t.confirmationCandles.Some? && t.confirmationCandles.value >= 1 ==>
          t.history.capacity == t.confirmationCandles.value && |t.history.colors| <= 1)
    && (t.confirmationCandles.None? ==> t.history == ColorHistory([], 0))
  }

  /** The tracker as `process_market_data_thread` builds it: unconfigured
      averages have zero candles, and the history's capacity is the number of
      confirmation candles. */
  function NewTracker(slowMa: Option<nat>, fastMa: Option<nat>, bvlt: bool, ema: bool, signal: TradeSignal,
                      orderType: OrderType, limitOffset: Option<nat>, stopPercent: Option<real>,
                      takeProfitPercent: Option<real>, confirmationCandles: Option<nat>,
                      macdTrendMa: Option<nat>): (t: Tracker)
    requires orderType == Limit ==> limitOffset.Some?
    ensures TrackerInv(t)
    ensures t.slow == MA.New(slowMa.UnwrapOr(0)) && t.fast == MA.New(fastMa.UnwrapOr(0))
    ensures t.macdTrend == MA.New(macdTrendMa.UnwrapOr(0)) && t.macd == MA.MacdNew()
    ensures t.history == ColorHistory([], confirmationCandles.UnwrapOr(0))
  {
    Tracker(MA.New(slowMa.UnwrapOr(0)), MA.New(fastMa.UnwrapOr(0)), MA.MacdNew(), signal,
            ColorHistory([], confirmationCandles.UnwrapOr(0)), ema, bvlt, orderType, limitOffset,
            stopPercent, takeProfitPercent, confirmationCandles, MA.New(macdTrendMa.UnwrapOr(0)))
  }

  /** The indicator part of `process_close_data`: the cross signal feeds both
      averages, the trend signal only the fast one, the MACD signal the MACD
      and, when one is configured, the trend average. */
  function FeedIndicators(t: Tracker, close: real): (r: Tracker)
    requires TrackerInv(t)
    ensures TrackerInv(r)
    ensures r == t.(slow := r.slow, fast := r.fast, macd := r.macd, macdTrend := r.macdTrend)
    ensures r.slow == (if t.signal == MaCross then MA.Compute(t.slow, close, t.ema) else t.slow)
    ensures r.fast == (if t.signal != MACD then MA.Compute(t.fast, close, t.ema) else t.fast)
    ensures r.macd == (if t.signal == MACD then MA.MacdCompute(t.macd, close) else t.macd)
    ensures r.macdTrend == (if t.signal == MACD then MA.Compute(t.macdTrend, close, t.ema) else t.macdTrend)
  {
    match t.signal
    case MaCross => t.(slow := MA.Compute(t.slow, close, t.ema), fast := MA.Compute(t.fast, close, t.ema))
    case MaTrendReversal => t.(fast := MA.Compute(t.fast, close, t.ema))
    case MACD =>
      var m := MA.MacdCompute(t.macd, close);
      if t.macdTrend.numCandles > 0 then t.(macd := m, macdTrend := MA.Compute(t.macdTrend, close, t.ema))
      else t.(macd := m)
  }

  /** The position the configured signal's detector asks for. */
  function Detect(tp: TradingPair, t: Tracker): PositionType {
    match t.signal
    case MaCross => MA.CrossDecision(t.fast, t.slow, tp.priceDps)
    case MaTrendReversal => MA.TrendDecision(t.slow, t.fast)
    case MACD => MA.MacdDecision(t.macd, t.macdTrend)
  }

  /** The take-profit override: a Long position whose close has risen by
      the take-profit percentage over its entry price. */
  predicate TakeProfitHit(t: Tracker, close: real, current: Option<(PositionType, real, real)>) {
    && t.takeProfitPercent.Some? && current.Some? && current.value.0 == Long
    && close >= current.value.2 + (current.value.2 / 100.0) * t.takeProfitPercent.value
  }

  function KindOf(current: Option<(PositionType, real, real)>): PositionType {
    if current.Some? then current.value.0 else NoPosition
  }

  /** Whether the confirmation backs the decision: always when none is
      configured, otherwise only a one-colour answer whose colour matches the
      decision's direction. */
  function Confirmed(decision: PositionType, confirmation: Option<(bool, CandleColor)>): bool {
    match confirmation
    case None => true
    case Some((same, color)) =>
      if decision == Long then color == Green && same
      else if decision == Short then color == Red && same
      else false
  }

  datatype Decision = Decision(position: PositionType, confirmed: bool, tracker: Tracker)

  /** `trading_decision`. A leveraged token never trades on its own signal:
      nothing is computed for it. Otherwise the detector's answer is
      overridden by Short on a take-profit hit, and suppressed when it is the
      position already held. The confirmation is computed and reported but
      does not change the decision. */
  function TradingDecision(tp: TradingPair, t: Tracker, close: real, prev: Option<real>,
                           current: Option<(PositionType, real, real)>): (r: Decision)
    requires TrackerInv(t)
    ensures TrackerInv(r.tracker)
    ensures tp.bvltType.Some? ==> r.position == NoPosition && r.tracker == t
    ensures r.tracker == t.(history := r.tracker.history)
    ensures r.position == NoPosition || r.position != KindOf(current)
    ensures tp.bvltType.None? && TakeProfitHit(t, close, current) ==> r.position == Short
    ensures tp.bvltType.None? && !TakeProfitHit(t, close, current) ==>
      r.position == (if Detect(tp, t) == KindOf(current) then NoPosition else Detect(tp, t))
    ensures tp.bvltType.None? ==>
      r.confirmed == Confirmed(Detect(tp, t), Confirm(t.history, t.confirmationCandles, close, prev).0)
  {
    if tp.bvltType.Some? then Decision(NoPosition, false, t)
    else
      var detected := Detect(tp, t);
      var (confirmation, history) := Confirm(t.history, t.confirmationCandles, close, prev);
      var cur := KindOf(current);
      var decision := if TakeProfitHit(t, close, current) then Short else detected;
      var confirmed := Confirmed(detected, confirmation);
      Decision(if decision == cur then NoPosition else decision, confirmed, t.(history := history))
  }

  /** The confirmation judges the detector's own answer: it does not depend on
      the position held, so a take-profit override never confirms itself. */
  lemma ConfirmationIgnoresPosition(tp: TradingPair, t: Tracker, close: real, prev: Option<real>,
                                    current: Option<(PositionType, real, real)>,
                                    current': Option<(PositionType, real, real)>)
    requires TrackerInv(t)
    ensures TradingDecision(tp, t, close, prev, current).confirmed
         == TradingDecision(tp, t, close, prev, current').confirmed
  {
  }

  /** The decision does not depend on the confirmation settings, the
      confirmation history or the previous close. */
  lemma DecisionIgnoresConfirmation(tp: TradingPair, t: Tracker, close: real, prev: Option<real>,
                                    current: Option<(PositionType, real, real)>,
                                    k: Option<nat>, h: ColorHistory, prev': Option<real>)
    requires TrackerInv(t) && TrackerInv(t.(confirmationCandles := k, history := h))
    ensures TradingDecision(tp, t, close, prev, current).position
         == TradingDecision(tp, t.(confirmationCandles := k, history := h), close, prev', current).position
  {
    var t' := t.(confirmationCandles := k, history := h);
    assert Detect(tp, t') == Detect(tp, t);
    assert TakeProfitHit(t', close, current) == TakeProfitHit(t, close, current);
  }

  /** Under the trend signal the slow average is never fed, so a tracker
      whose slow average starts empty keeps it empty and the trend detector
      never fires: only a take-profit hit can produce a decision. */
  lemma TrendSignalNeverFires(tp: TradingPair, t: Tracker, close: real, prev: Option<real>,
                              current: Option<(PositionType, real, real)>)
    requires TrackerInv(t) && t.signal == MaTrendReversal && t.slow == MA.New(t.slow.numCandles)
    ensures var fed := FeedIndicators(t, close);
      && fed.slow == t.slow
      && Detect(tp, fed) == NoPosition
      && (!TakeProfitHit(fed, close, current) ==> TradingDecision(tp, fed, close, prev, current).position == NoPosition)
  {
  }

  /** `process_close_data`: feed the indicators; unless trades are to be
      placed, stop there. Otherwise decide, and for a Long or Short decision
      build the order: 100 % of the balance, the tracker's stop percentage,
      and for limit orders a limit price `limitOffset` ticks above (Long) or
      below (Short) the close, rounded down to the price decimals. */
  function ProcessCloseData(tp: TradingPair, t: Tracker, close: real, prev: Option<real>, placeTrades: bool,
                            current: Option<(PositionType, real, real)>): (r: (Tracker, Option<AccountManager.OrderMsg>))
    requires TrackerInv(t)
    ensures TrackerInv(r.0)
    ensures !placeTrades ==> r == (FeedIndicators(t, close), None)
    ensures r.1.Some? ==>
      && placeTrades
      && var m := r.1.value;
      && m.position != NoPosition && m.position != KindOf(current)
      && m.position == TradingDecision(tp, FeedIndicators(t, close), close, prev, current).position
      && m.tp == tp && m.quantity == AccountManager.Percentage100 && m.stopPercent == t.stopPercent
      && !m.quit && AccountManager.MsgWellFormed(m)
      && (m.limitPrice.Some? <==> t.orderType == Limit)
      && (m.limitPrice.Some? ==> m.limitPrice.value == LimitPrice(tp, t, m.position, close))
    ensures placeTrades && r.1.None? ==>
      TradingDecision(tp, FeedIndicators(t, close), close, prev, current).position == NoPosition
  {
    var fed := FeedIndicators(t, close);
    if !placeTrades then (fed, None)
    else
      var d := TradingDecision(tp, fed, close, prev, current);
      if d.position == NoPosition then (d.tracker, None)
      else
        var limit := if t.orderType == Limit then Some(LimitPrice(tp, t, d.position, close)) else None;
        (d.tracker, Some(AccountManager.SpotTrade(tp, d.position, AccountManager.Percentage100, limit, t.stopPercent)))
  }

  /** The price `limitOffset` ticks above (Long) or below (Short) the close. */
  function LimitBound(tp: TradingPair, t: Tracker, position: PositionType, close: real): real
    requires t.limitOffset.Some?
  {
    var offset := tp.tickSize * t.limitOffset.value as real;
    if position == Long then close + offset else close - offset
  }

  /** The limit price of an order: its bound rounded down to the price decimals. */
  function LimitPrice(tp: TradingPair, t: Tracker, position: PositionType, close: real): real
    requires t.limitOffset.Some?
  {
    Rounding.Floor(LimitBound(tp, t, position, close), tp.priceDps)
  }

  /** A limit price is at most `limitOffset` ticks beyond the close, above
      for a Long and below for a Short: the greatest price on the pair's grid
      not above that bound. */
  lemma LimitPriceIsBestGridPrice(tp: TradingPair, t: Tracker, close: real, prev: Option<real>,
                                  current: Option<(PositionType, real, real)>, g: real)
    requires TrackerInv(t)
    requires ProcessCloseData(tp, t, close, prev, true, current).1.Some?
    requires t.orderType == Limit
    ensures var m := ProcessCloseData(tp, t, close, prev, true, current).1.value;
      var bound := LimitBound(tp, t, m.position, close);
      && m.limitPrice.value <= bound
      && Rounding.OnGrid(m.limitPrice.value, tp.priceDps)
      && (Rounding.OnGrid(g, tp.priceDps) && g <= bound ==> g <= m.limitPrice.value)
  {
    var m := ProcessCloseData(tp, t, close, prev, true, current).1.value;
    Rounding.FloorIsGreatestGridPoint(LimitBound(tp, t, m.position, close), tp.priceDps, g);
  }

  /** One historical candle: its parsed close (None when the text does not
      parse) and its close time. */
  datatype Stick = Stick(close: Option<real>, closeTime: nat)

  datatype WarmUpPanic = PreviousCloseUnparsable(index: nat)

  /** The historical warm-up loop from candle `i` on. `used` counts the
      candles processed so far; the "previous close" is looked up as candle
      `used - 1` of the whole list, which is the previous processed candle
      only while no candle has been skipped, and an unparsable candle there
      panics. Returns the tracker and the last processed close. */
  function WarmUpFrom(tp: TradingPair, t: Tracker, sticks: seq<Stick>, serverTime: nat, i: nat, used: nat,
                      prev: Option<real>): (r: Result<(Tracker, Option<real>), WarmUpPanic>)
    requires TrackerInv(t) && i <= |sticks| && used <= i
    ensures r.Ok? ==> TrackerInv(r.value.0)
    decreases |sticks| - i
  {
    if i == |sticks| then Ok((t, prev))
    else
      var s := sticks[i];
      if s.close.Some? && serverTime >= s.closeTime then
        if used > 0 && sticks[used - 1].close.None? then Err(PreviousCloseUnparsable(used - 1))
        else
          var t' := ProcessCloseData(tp, t, s.close.value, None, false, None).0;
          WarmUpFrom(tp, t', sticks, serverTime, i + 1, used + 1, Some(s.close.value))
      else WarmUpFrom(tp, t, sticks, serverTime, i + 1, used, prev)
  }

  function WarmUp(tp: TradingPair, t: Tracker, sticks: seq<Stick>, serverTime: nat)
    : (r: Result<(Tracker, Option<real>), WarmUpPanic>)
    requires TrackerInv(t)
    ensures r.Ok? ==> TrackerInv(r.value.0)
  {
    WarmUpFrom(tp, t, sticks, serverTime, 0, 0, None)
  }

  /** Feeding closes to the indicators in order, without trading. */
  function FeedAll(t: Tracker, closes: seq<real>): (r: Tracker)
    requires TrackerInv(t)
    ensures TrackerInv(r)
    decreases |closes|
  {
    if |closes| == 0 then t else FeedAll(FeedIndicators(t, closes[0]), closes[1..])
  }

  function Closes(sticks: seq<Stick>): (cs: seq<real>)
    requires forall i :: 0 <= i < |sticks| ==> sticks[i].close.Some?
    ensures |cs| == |sticks| && forall i :: 0 <= i < |sticks| ==> cs[i] == sticks[i].close.value
  {
    seq(|sticks|, i requires 0 <= i < |sticks| => sticks[i].close.value)
  }

  /** When every historical candle parses and has closed, the warm-up feeds
      all closes in order and ends with the last one as the previous close. */
  lemma {:induction false} WarmUpFeedsAllCloses(tp: TradingPair, t: Tracker, sticks: seq<Stick>, serverTime: nat,
                                                i: nat, prev: Option<real>)
    requires TrackerInv(t) && i <= |sticks|
    requires forall j :: 0 <= j < |sticks| ==> sticks[j].close.Some? && serverTime >= sticks[j].closeTime
    ensures var r := WarmUpFrom(tp, t, sticks, serverTime, i, i, prev);
      && r.Ok?
      && r.value.0 == FeedAll(t, Closes(sticks)[i..])
      && r.value.1 == (if i == |sticks| then prev else sticks[|sticks| - 1].close)
    decreases |sticks| - i
  {
    if i < |sticks| {
      var c := sticks[i].close.value;
      var t' := ProcessCloseData(tp, t, c, None, false, None).0;
      assert t' == FeedIndicators(t, c);
      assert Some(c) == sticks[i].close;
      assert WarmUpFrom(tp, t, sticks, serverTime, i, i, prev)
          == WarmUpFrom(tp, t', sticks, serverTime, i + 1, i + 1, sticks[i].close);
      WarmUpFeedsAllCloses(tp, t', sticks, serverTime, i + 1, sticks[i].close);
      var cs := Closes(sticks);
      assert cs[i..][1..] == cs[i + 1..];
      assert FeedAll(t, cs[i..]) == FeedAll(t', cs[i + 1..]);
    }
  }

  /** An unparsable first candle is skipped, but the third candle then looks
      up candle 0 as its previous close and the warm-up panics. */
  lemma SkippedFirstCandlePanics(tp: TradingPair, t: Tracker, a: real, b: real)
    requires TrackerInv(t)
    ensures WarmUp(tp, t, [Stick(None, 0), Stick(Some(a), 0), Stick(Some(b), 0)], 0)
            == Err(PreviousCloseUnparsable(0))
  {
    var sticks := [Stick(None, 0), Stick(Some(a), 0), Stick(Some(b), 0)];
    var t1 := ProcessCloseData(tp, t, a, None, false, None).0;
    assert WarmUpFrom(tp, t1, sticks, 0, 2, 1, Some(a)) == Err(PreviousCloseUnparsable(0));
    assert WarmUpFrom(tp, t, sticks, 0, 1, 0, None) == Err(PreviousCloseUnparsable(0));
    assert WarmUpFrom(tp, t, sticks, 0, 0, 0, None) == WarmUpFrom(tp, t, sticks, 0, 1, 0, None);
  }

  /** One live kline message: whether the candle has closed, and its close
      (None when the text does not parse). */
  datatype LiveCandle = LiveCandle(closed: bool, close: Option<real>)

  /** One live candle. Open candles are ignored; an unparsable close is read
      as -1 and ignored. The previous close passed in is the one the warm-up
      ended with: the live loop never updates it. */
  function LiveStep(tp: TradingPair, t: Tracker, c: LiveCandle, warmUpPrev: Option<real>,
                    current: Option<(PositionType, real, real)>): (r: (Tracker, Option<AccountManager.OrderMsg>))
    requires TrackerInv(t)
    ensures TrackerInv(r.0)
    ensures !c.closed || c.close.None? ==> r == (t, None)
    ensures c.closed && c.close.Some? && c.close.value > -1.0 ==>
      r == ProcessCloseData(tp, t, c.close.value, warmUpPrev, true, current)
  {
    if !c.closed then (t, None)
    else
      var close := c.close.UnwrapOr(-1.0);
      if close > -1.0 then ProcessCloseData(tp, t, close, warmUpPrev, true, current) else (t, None)
  }

  /** `process_market_data_thread`'s history request: the longer of the
      slow average and the MACD trend average. With neither configured the
      unwrap of the slow average panics. */
  function CandlesRequired(slowMa: Option<nat>, macdTrendMa: Option<nat>): (r: Option<nat>)
    ensures r.None? <==> slowMa.None? && macdTrendMa.UnwrapOr(0) == 0
    ensures r.Some? ==> r.value == MA.Max(slowMa.UnwrapOr(0), macdTrendMa.UnwrapOr(0))
  {
    if macdTrendMa.UnwrapOr(0) > slowMa.UnwrapOr(0) then Some(macdTrendMa.value)
    else if slowMa.None? then None
    else Some(slowMa.value)
  }

  datatype BvltPanic = NotThreePairs(count: nat) | SecondBasePair(index: nat) | NoBasePair

  /** `md_bvlt_process_thread`'s checks on a BASE:UP:DOWN group: exactly
      three pairs, exactly one of which is not a leveraged token (the base). */
  function BvltBase(pairs: seq<TradingPair>): (r: Result<nat, BvltPanic>)
    ensures r.Ok? <==> |pairs| == 3 && exists i :: (0 <= i < 3 && pairs[i].bvltType.None?
                       && forall j :: 0 <= j < 3 && j != i ==> pairs[j].bvltType.Some?)
    ensures r.Ok? ==> r.value < 3 && pairs[r.value].bvltType.None?
  {
    if |pairs| != 3 then Err(NotThreePairs(|pairs|))
    else BaseFrom(pairs, 0, None)
  }

  function BaseFrom(pairs: seq<TradingPair>, i: nat, base: Option<nat>): (r: Result<nat, BvltPanic>)
    requires i <= |pairs|
    requires base.Some? ==> base.value < i && pairs[base.value].bvltType.None?
    requires forall j :: 0 <= j < i && (base.None? || j != base.value) ==> pairs[j].bvltType.Some?
    ensures r.Ok? <==> (exists b :: (0 <= b < |pairs| && pairs[b].bvltType.None?
                        && forall j :: 0 <= j < |pairs| && j != b ==> pairs[j].bvltType.Some?))
    ensures r.Ok? ==> r.value < |pairs| && pairs[r.value].bvltType.None?
    decreases |pairs| - i
  {
    if i == |pairs| then
      if base.None? then Err(NoBasePair) else Ok(base.value)
    else if pairs[i].bvltType.None? then
      if base.Some? then Err(SecondBasePair(i)) else BaseFrom(pairs, i + 1, Some(i))
    else BaseFrom(pairs, i + 1, base)
  }
}
