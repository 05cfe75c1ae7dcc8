/** The trading threads: routing a trade signal to a spot or a margin trade,
    the spot trade's limit and stop prices, and the gather-then-trade state
    machine of the leveraged-token (BVLT) thread. The order routines these
    threads call (buy, sell, place a stop, cancel and sell everything) and
    the margin trade are recorded as calls, not executed; the only answer a
    thread looks at, whether a BVLT buy succeeded, is a parameter. */
module Trading {
  import opened Wrappers
  import opened Types
  import opened TradingPairs

  /** A message to a trading thread: the closing price of the candle that
      produced it, a trade action or (for the BVLT thread) a token pair, and
      whether the thread should quit. */
  datatype Msg = Msg(close: real, action: Option<PositionType>, pair: Option<TradingPair>, quit: bool)

  /** A call a thread makes. */
  datatype Call =
    | CancelAll(symbol: string)
    | Buy(symbol: string, stop: Option<real>, splitPct: nat, limit: Option<real>)
    | Sell(symbol: string, limit: Option<real>)
    | PlaceStop(symbol: string, stopPercent: real)
    | CancelAndSellAll(symbol: string)
    | MarginTrade(symbol: string, position: PositionType, close: real)

  /** The asserts and unwraps that end a trading thread. */
  datatype TradingPanic = NoPositionWanted | MissingAction | LimitWithoutOffset | MissingPair | NotBvlt

  /** What handling messages did: the calls made, in order, the panic that
      ended the thread, if any, and whether it returned on a quit message. */
  datatype Effect = Effect(calls: seq<Call>, panic: Option<TradingPanic>, exit: bool)

  /** The settings of a trading thread. */
  datatype Settings = Settings(
    tp: TradingPair, splitPct: nat, stopPercent: real, shorting: bool, leverage: Option<real>,
    orderType: OrderType, offset: Option<nat>)

  /** A limit price `offset` ticks above (`up`) or below the closing price;
      none for market orders, a panic for a limit order without an offset. */
  function LimitPrice(close: real, orderType: OrderType, offset: Option<nat>, tick: real, up: bool)
    : (r: Result<Option<real>, TradingPanic>)
    ensures r.Err? <==> orderType == Limit && offset.None?
    ensures r.Ok? ==> (r.value.None? <==> orderType == Market)
    ensures r.Ok? && r.value.Some? && tick >= 0.0 ==>
      (if up then r.value.value >= close else r.value.value <= close)
    ensures r.Ok? && r.value.Some? ==>
      (offset.Some? &&
       (if up then r.value.value - close else close - r.value.value) == offset.value as real * tick)
  {
    match orderType
    case Market => Ok(None)
    case Limit =>
      if offset.None? then Err(LimitWithoutOffset)
      else if up then Ok(Some(close + offset.value as real * tick))
      else Ok(Some(close - offset.value as real * tick))
  }

  /** The stop price of a spot buy: `stopPercent` percent below the close. */
  function SpotStop(close: real, stopPercent: real): (r: real)
    ensures close > 0.0 && stopPercent > 0.0 ==> r < close
    ensures close > 0.0 && stopPercent <= 100.0 ==> r >= 0.0
    ensures (close - r) * 100.0 == close * stopPercent
  {
    close - close * (stopPercent / 100.0)
  }

  /** `spot_trade`: cancel the pair's open orders, then buy (with a stop) for
      a Long or sell for a Short. The order's own result is only logged. */
  function SpotTrade(s: Settings, desired: PositionType, close: real): (r: Effect)
    ensures !r.exit
    ensures desired == NoPosition ==> r == Effect([], Some(NoPositionWanted), false)
    ensures desired != NoPosition ==> |r.calls| >= 1 && r.calls[0] == CancelAll(s.tp.symbol)
    ensures desired != NoPosition ==>
      (r.panic.Some? <==> s.orderType == Limit && s.offset.None?)
    ensures desired == Long && r.panic.None? ==>
      r.calls == [CancelAll(s.tp.symbol),
                  Buy(s.tp.symbol, Some(SpotStop(close, s.stopPercent)), s.splitPct,
                      LimitPrice(close, s.orderType, s.offset, s.tp.tickSize, true).value)]
    ensures desired == Short && r.panic.None? ==>
      r.calls == [CancelAll(s.tp.symbol),
                  Sell(s.tp.symbol, LimitPrice(close, s.orderType, s.offset, s.tp.tickSize, false).value)]
  {
    if desired == NoPosition then Effect([], Some(NoPositionWanted), false)
    else
      var cancel := [CancelAll(s.tp.symbol)];
      match LimitPrice(close, s.orderType, s.offset, s.tp.tickSize, desired == Long)
      case Err(p) => Effect(cancel, Some(p), false)
      case Ok(limit) =>
        if desired == Long then
          Effect(cancel + [Buy(s.tp.symbol, Some(SpotStop(close, s.stopPercent)), s.splitPct, limit)], None, false)
        else Effect(cancel + [Sell(s.tp.symbol, limit)], None, false)
  }

  /** Whether the thread trades on margin: when shorting or leverage is on. */
  predicate OnMargin(s: Settings) {
    s.shorting || s.leverage.Some?
  }

  /** One message of `trading_thread`. */
  function ThreadStep(s: Settings, m: Msg): (r: Effect)
    ensures r.exit <==> m.quit
    ensures m.quit ==> r == Effect([CancelAndSellAll(s.tp.symbol)], None, true)
    ensures !m.quit && m.action.None? ==> r == Effect([], Some(MissingAction), false)
    ensures !m.quit && m.action == Some(NoPosition) ==> r == Effect([], Some(NoPositionWanted), false)
    ensures !m.quit && m.action.Some? && m.action.value != NoPosition ==>
      (r == Effect([MarginTrade(s.tp.symbol, m.action.value, m.close)], None, false) <==> OnMargin(s))
    ensures !m.quit && m.action.Some? && m.action.value != NoPosition && !OnMargin(s) ==>
      r == SpotTrade(s, m.action.value, m.close)
  {
    if m.quit then Effect([CancelAndSellAll(s.tp.symbol)], None, true)
    else if m.action.None? then Effect([], Some(MissingAction), false)
    else if m.action.value == NoPosition then Effect([], Some(NoPositionWanted), false)
    else if OnMargin(s) then Effect([MarginTrade(s.tp.symbol, m.action.value, m.close)], None, false)
    else
      var r := SpotTrade(s, m.action.value, m.close);
      assert |r.calls| >= 1 && r.calls[0] == CancelAll(s.tp.symbol);
      r
  }

  /** `trading_thread`: handle the messages in order until one quits or panics. */
  function ThreadRun(s: Settings, msgs: seq<Msg>): (r: Effect)
    ensures r.exit ==> r.panic.None? && |r.calls| >= 1 && r.calls[|r.calls| - 1] == CancelAndSellAll(s.tp.symbol)
    ensures r.exit <==> exists i :: 0 <= i < |msgs| && msgs[i].quit
                                    && forall j :: 0 <= j < i ==> ThreadStep(s, msgs[j]).panic.None?
    ensures r.panic.None? && !r.exit ==> forall i :: 0 <= i < |msgs| ==> !msgs[i].quit
  {
    if |msgs| == 0 then Effect([], None, false)
    else
      var first := ThreadStep(s, msgs[0]);
      if first.panic.Some? || first.exit then first
      else
        var rest := ThreadRun(s, msgs[1..]);
        assert forall i :: 1 <= i < |msgs| ==> msgs[i] == msgs[1..][i - 1];
        Effect(first.calls + rest.calls, rest.panic, rest.exit)
  }

  /** Messages after a quit message are never handled. */
  lemma {:induction false} MessagesAfterQuitIgnored(s: Settings, pre: seq<Msg>, q: Msg, post: seq<Msg>)
    requires q.quit
    ensures ThreadRun(s, pre + [q] + post) == ThreadRun(s, pre + [q])
  {
    if |pre| == 0 {
      assert (pre + [q] + post)[0] == q && (pre + [q])[0] == q;
    } else {
      assert (pre + [q] + post)[0] == pre[0] && (pre + [q])[0] == pre[0];
      assert (pre + [q] + post)[1..] == pre[1..] + [q] + post;
      assert (pre + [q])[1..] == pre[1..] + [q];
      MessagesAfterQuitIgnored(s, pre[1..], q, post);
    }
  }

  /** A margin thread hands each Long or Short signal to the margin trade,
      one call per signal and nothing else. */
  lemma {:induction false} MarginThreadRoutesEverySignal(s: Settings, msgs: seq<Msg>)
    requires OnMargin(s)
    requires forall i :: 0 <= i < |msgs| ==> !msgs[i].quit && msgs[i].action.Some? && msgs[i].action.value != NoPosition
    ensures ThreadRun(s, msgs).panic.None?
    ensures ThreadRun(s, msgs).calls
            == seq(|msgs|, i requires 0 <= i < |msgs| => MarginTrade(s.tp.symbol, msgs[i].action.value, msgs[i].close))
  {
    if |msgs| > 0 {
      MarginThreadRoutesEverySignal(s, msgs[1..]);
    }
  }

  /** The settings of the BVLT thread. */
  datatype BvltSettings = BvltSettings(splitPct: nat, stopPercent: real, orderType: OrderType, offset: Option<nat>)

  /** What the BVLT thread has gathered: the direction of the last signal on
      the base pair and the latest UP and DOWN token pairs. */
  datatype Gather = Gather(kind: Option<BvltType>, up: Option<TradingPair>, down: Option<TradingPair>)

  const Empty := Gather(None, None, None)

  predicate Complete(g: Gather) {
    g.kind.Some? && g.up.Some? && g.down.Some?
  }

  /** Record one non-quit message: a Long signal asks for the UP token, a
      Short signal for the DOWN token; a message without a signal must carry
      a leveraged-token pair, stored by its kind. */
  function Record(g: Gather, m: Msg): (r: Result<Gather, TradingPanic>)
    ensures m.action == Some(Long) ==> r == Ok(g.(kind := Some(BvltUp)))
    ensures m.action == Some(Short) ==> r == Ok(g.(kind := Some(BvltDown)))
    ensures m.action == Some(NoPosition) ==> r == Err(NoPositionWanted)
    ensures m.action.None? && m.pair.None? ==> r == Err(MissingPair)
    ensures m.action.None? && m.pair.Some? && m.pair.value.bvltType.None? ==> r == Err(NotBvlt)
    ensures m.action.None? && m.pair.Some? && m.pair.value.bvltType == Some(BvltUp) ==>
      r == Ok(g.(up := m.pair))
    ensures m.action.None? && m.pair.Some? && m.pair.value.bvltType == Some(BvltDown) ==>
      r == Ok(g.(down := m.pair))
  {
    match m.action
    case Some(Long) => Ok(g.(kind := Some(BvltUp)))
    case Some(Short) => Ok(g.(kind := Some(BvltDown)))
    case Some(NoPosition) => Err(NoPositionWanted)
    case None =>
      if m.pair.None? then Err(MissingPair)
      else
        match m.pair.value.bvltType
        case None => Err(NotBvlt)
        case Some(BvltUp) => Ok(g.(up := m.pair))
        case Some(BvltDown) => Ok(g.(down := m.pair))
  }

  /** One trade round once everything is gathered. Going up: sell the DOWN
      token, cancel the UP token's orders, buy the UP token and, when the buy
      succeeds, place its stop. Going down: sell the UP token and buy the DOWN
      token at market, placing the stop on success. The limit prices are
      offsets from the closing price of the message that completed the round. */
  function Round(c: BvltSettings, kind: BvltType, up: TradingPair, down: TradingPair, close: real,
                 buyOk: bool): (r: Effect)
    ensures !r.exit
    ensures kind == BvltDown ==>
      r == Effect([Sell(up.symbol, None), Buy(down.symbol, None, c.splitPct, None)]
                  + (if buyOk then [PlaceStop(down.symbol, c.stopPercent)] else []), None, false)
    ensures kind == BvltUp ==> (r.panic.Some? <==> c.orderType == Limit && c.offset.None?)
    ensures kind == BvltUp && r.panic.None? ==>
      var sellLimit := LimitPrice(close, c.orderType, c.offset, down.tickSize, true).value;
      var buyLimit := LimitPrice(close, c.orderType, c.offset, up.tickSize, false).value;
      r.calls == [Sell(down.symbol, sellLimit), CancelAll(up.symbol), Buy(up.symbol, None, c.splitPct, buyLimit)]
                 + (if buyOk then [PlaceStop(up.symbol, c.stopPercent)] else [])
  {
    match kind
    case BvltDown =>
      var stop := if buyOk then [PlaceStop(down.symbol, c.stopPercent)] else [];
      Effect([Sell(up.symbol, None), Buy(down.symbol, None, c.splitPct, None)] + stop, None, false)
    case BvltUp =>
      match LimitPrice(close, c.orderType, c.offset, down.tickSize, true)
      case Err(p) => Effect([], Some(p), false)
      case Ok(sellLimit) =>
        var buyLimit := LimitPrice(close, c.orderType, c.offset, up.tickSize, false).value;
        var stop := if buyOk then [PlaceStop(up.symbol, c.stopPercent)] else [];
        Effect([Sell(down.symbol, sellLimit), CancelAll(up.symbol), Buy(up.symbol, None, c.splitPct, buyLimit)]
               + stop, None, false)
  }

  /** The cancel-and-sell calls of a quit: the UP token first, then DOWN. */
  function SellHeld(g: Gather): (r: seq<Call>)
    ensures |r| == (if g.up.Some? then 1 else 0) + (if g.down.Some? then 1 else 0)
    ensures g.up.Some? ==> r[0] == CancelAndSellAll(g.up.value.symbol)
    ensures g.down.Some? ==> r[|r| - 1] == CancelAndSellAll(g.down.value.symbol)
  {
    (if g.up.Some? then [CancelAndSellAll(g.up.value.symbol)] else [])
    + (if g.down.Some? then [CancelAndSellAll(g.down.value.symbol)] else [])
  }

  /** One message of `bvlt_trading_thread`: a quit sells what is held and
      returns; otherwise the message is recorded and, once the direction and
      both tokens are known, a round is traded and the gathered data cleared.
      Until then nothing is sent and the gathered data is kept. */
  function BvltStep(c: BvltSettings, g: Gather, m: Msg, buyOk: bool): (r: (Gather, Effect))
    ensures m.quit ==> r == (g, Effect(SellHeld(g), None, true))
    ensures !m.quit && Record(g, m).Err? ==> r.1 == Effect([], Some(Record(g, m).error), false)
    ensures !m.quit && Record(g, m).Ok? && !Complete(Record(g, m).value) ==>
      r == (Record(g, m).value, Effect([], None, false))
    ensures !m.quit && Record(g, m).Ok? && Complete(Record(g, m).value) ==>
      var h := Record(g, m).value;
      && r.1 == Round(c, h.kind.value, h.up.value, h.down.value, m.close, buyOk)
      && (r.1.panic.None? ==> r.0 == Empty)
  {
    if m.quit then (g, Effect(SellHeld(g), None, true))
    else
      match Record(g, m)
      case Err(p) => (g, Effect([], Some(p), false))
      case Ok(h) =>
        if Complete(h) then
          var e := Round(c, h.kind.value, h.up.value, h.down.value, m.close, buyOk);
          (if e.panic.None? then Empty else h, e)
        else (h, Effect([], None, false))
  }

  /** A signal after both tokens arrived trades at once, and so does the last
      token after a signal and the other token: at market the order of the
      three messages does not change the round, and both leave nothing gathered. */
  lemma GatherOrderDoesNotMatter(c: BvltSettings, sig: Msg, u: Msg, d: Msg, buyOk: bool)
    requires c.orderType == Market
    requires !sig.quit && sig.action.Some? && sig.action.value != NoPosition
    requires !u.quit && u.action.None? && u.pair.Some? && u.pair.value.bvltType == Some(BvltUp)
    requires !d.quit && d.action.None? && d.pair.Some? && d.pair.value.bvltType == Some(BvltDown)
    ensures var (g1, e1) := BvltStep(c, Empty, sig, buyOk);
      var (g2, e2) := BvltStep(c, g1, u, buyOk);
      var (g3, e3) := BvltStep(c, g2, d, buyOk);
      var (h1, f1) := BvltStep(c, Empty, u, buyOk);
      var (h2, f2) := BvltStep(c, h1, d, buyOk);
      var (h3, f3) := BvltStep(c, h2, sig, buyOk);
      && e1.calls == [] && e2.calls == [] && f1.calls == [] && f2.calls == []
      && e3 == f3 && g3 == Empty && h3 == Empty
      && e3.calls[0] == (if sig.action.value == Long then Sell(d.pair.value.symbol, None)
                         else Sell(u.pair.value.symbol, None))
  {
    var kind := if sig.action.value == Long then BvltUp else BvltDown;
    var up := u.pair.value;
    var down := d.pair.value;
    assert BvltStep(c, Empty, sig, buyOk).0 == Gather(Some(kind), None, None);
    assert BvltStep(c, Gather(Some(kind), None, None), u, buyOk).0 == Gather(Some(kind), Some(up), None);
    assert BvltStep(c, Empty, u, buyOk).0 == Gather(None, Some(up), None);
    assert BvltStep(c, Gather(None, Some(up), None), d, buyOk).0 == Gather(None, Some(up), Some(down));
    var e := Round(c, kind, up, down, d.close, buyOk);
    var f := Round(c, kind, up, down, sig.close, buyOk);
    assert e == f;
  }

  /** The latest signal wins: a Short signal after a Long one, before the
      tokens are complete, makes the round sell UP and buy DOWN. */
  lemma LatestSignalWins(c: BvltSettings, g: Gather, long: Msg, short: Msg, buyOk: bool)
    requires !long.quit && long.action == Some(Long) && !short.quit && short.action == Some(Short)
    requires g.up.Some? && g.down.None?
    ensures var (g1, _) := BvltStep(c, g, long, buyOk);
      var (g2, _) := BvltStep(c, g1, short, buyOk);
      g2 == Gather(Some(BvltDown), g.up, None)
  {
  }
}
