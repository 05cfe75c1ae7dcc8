/** Trading on an isolated margin account: the order builders of the margin
    module (short sell, close a short, close a long, enter a long, place a
    stop loss) and the `trade` procedure that closes the opposite position,
    sizes the new one from the account and protects it with a stop.
    Every exchange call happens at most once per trade; its answer is a field
    of `Answers`. What the procedure does is the list of requests it sends. */
module Margin {
  import opened Wrappers
  import opened Types
  import opened TradingPairs
  import opened Binance
  import Orders
  import Rounding

  /** The fields of the isolated account the procedure reads. */
  datatype Account = Account(
    baseFree: real, baseBorrowed: real, baseInterest: real,
    quoteFree: real, quoteNetAsset: real, indexPrice: real)

  /** An order response: its status and the average fill of its fills, if any. */
  datatype Reply = Reply(status: string, aveFill: Option<Orders.Fill>)

  /** The exchange's answer to each call the procedure can make. */
  datatype Answers = Answers(
    price: Result<real, int>,
    firstAccount: Result<Account, int>,
    closeReply: Result<Reply, int>,
    repay: Result<(), int>,
    secondAccount: Result<Account, int>,
    openReply: Result<Reply, int>)

  /** A request sent to the exchange. */
  datatype Action =
    | CancelAll(symbol: string)
    | MarginOrder(params: Params)
    | Repay(asset: string, amount: real)

  /** The source's asserts and unwraps that stop the trading thread. */
  datatype MarginPanic = LimitWithoutOffset | AccountUnavailable(code: int) | NoPositionWanted

  /** The requests sent, in order, and the panic that ended the procedure, if any.
      Without a panic the procedure simply returns. */
  datatype Outcome = Outcome(actions: seq<Action>, panic: Option<MarginPanic>)

  /** The fields every margin order carries. */
  predicate IsolatedOrder(p: Params, symbol: string, now: nat) {
    && Orders.HasSymbolAndTime(p, symbol, now)
    && "isIsolated" in p && p["isIsolated"] == Text("TRUE")
  }

  /** `short_sell`: borrow and sell `qty` in one order, at market without a
      price and as a good-till-cancelled limit order with one. */
  function ShortSellParams(symbol: string, qty: real, price: Option<real>, now: nat): (r: Params)
    ensures IsolatedOrder(r, symbol, now)
    ensures "side" in r && r["side"] == Text("SELL")
    ensures "sideEffectType" in r && r["sideEffectType"] == Text("MARGIN_BUY")
    ensures "quantity" in r && r["quantity"] == Num(qty)
    ensures "type" in r && r["type"] == (if price.None? then Text("MARKET") else Text("LIMIT"))
    ensures price.None? ==> "price" !in r && "timeInForce" !in r
    ensures price.Some? ==> "price" in r && r["price"] == Num(price.value)
                            && "timeInForce" in r && r["timeInForce"] == Text("GTC")
  {
    var p := map["timestamp" := Stamp(now), "symbol" := Text(symbol), "isIsolated" := Text("TRUE"),
                 "side" := Text("SELL"), "sideEffectType" := Text("MARGIN_BUY"), "quantity" := Num(qty)];
    if price.None? then p["type" := Text("MARKET")]
    else p["type" := Text("LIMIT")]["timeInForce" := Text("GTC")]["price" := Num(price.value)]
  }

  /** The market BUY of `close_short_position`; it carries no side effect, the
      debt is repaid by a separate request. */
  function CloseShortParams(symbol: string, qty: real, now: nat): (r: Params)
    ensures IsolatedOrder(r, symbol, now)
    ensures r.Keys == {"timestamp", "symbol", "isIsolated", "side", "type", "quantity"}
    ensures r["side"] == Text("BUY") && r["type"] == Text("MARKET") && r["quantity"] == Num(qty)
  {
    map["timestamp" := Stamp(now), "symbol" := Text(symbol), "isIsolated" := Text("TRUE"),
        "side" := Text("BUY"), "type" := Text("MARKET"), "quantity" := Num(qty)]
  }

  /** `close_short_position`: buy back, then repay `owed` of the base currency
      only when the purchase was accepted. It succeeds with the purchase's
      reply exactly when both requests succeed; otherwise the first error. */
  function CloseShort(tp: TradingPair, qty: real, owed: real, buy: Result<Reply, int>,
                      repay: Result<(), int>, now: nat): (r: (seq<Action>, Result<Reply, int>))
    ensures |r.0| >= 1 && r.0[0] == MarginOrder(CloseShortParams(tp.symbol, qty, now))
    ensures r.0[1..] == (if buy.Ok? then [Repay(tp.sellCurrency, owed)] else [])
    ensures r.1.Ok? <==> buy.Ok? && repay.Ok?
    ensures r.1.Ok? ==> r.1 == buy
    ensures buy.Err? ==> r.1 == Err(buy.error)
    ensures buy.Ok? && repay.Err? ==> r.1 == Err(repay.error)
  {
    var sent := [MarginOrder(CloseShortParams(tp.symbol, qty, now))];
    match buy
    case Err(code) => (sent, Err(code))
    case Ok(reply) =>
      var sent := sent + [Repay(tp.sellCurrency, owed)];
      match repay
      case Ok(_) => (sent, Ok(reply))
      case Err(code) => (sent, Err(code))
  }

  /** The SELL of `close_long_position`: at market without a price, otherwise
      a fill-or-kill limit order so that the debt can be repaid at once. */
  function CloseLongParams(symbol: string, qty: real, price: Option<real>, now: nat): (r: Params)
    ensures IsolatedOrder(r, symbol, now)
    ensures "side" in r && r["side"] == Text("SELL")
    ensures "quantity" in r && r["quantity"] == Num(qty)
    ensures "sideEffectType" !in r
    ensures "type" in r && r["type"] == (if price.None? then Text("MARKET") else Text("LIMIT"))
    ensures price.None? ==> "price" !in r && "timeInForce" !in r
    ensures price.Some? ==> "price" in r && r["price"] == Num(price.value)
                            && "timeInForce" in r && r["timeInForce"] == Text("FOK")
  {
    var p := map["timestamp" := Stamp(now), "symbol" := Text(symbol), "isIsolated" := Text("TRUE"),
                 "side" := Text("SELL"), "quantity" := Num(qty)];
    if price.None? then p["type" := Text("MARKET")]
    else p["type" := Text("LIMIT")]["timeInForce" := Text("FOK")]["price" := Num(price.value)]
  }

  /** The error `close_long_position` reports when the sale was accepted but
      nothing is owed or the order did not fill completely. */
  const NotRepaid: int := -1

  /** `close_long_position`: sell, then repay `owed` of the quote currency when
      something is owed and the sale FILLED. Success needs all three; an
      accepted sale without both conditions is the error NotRepaid, so closing
      a long without debt always reports an error. */
  function CloseLong(tp: TradingPair, qty: real, price: Option<real>, owed: Option<real>,
                     sell: Result<Reply, int>, repay: Result<(), int>, now: nat)
    : (r: (seq<Action>, Result<Reply, int>))
    ensures |r.0| >= 1 && r.0[0] == MarginOrder(CloseLongParams(tp.symbol, qty, price, now))
    ensures var repaying := sell.Ok? && owed.Some? && sell.value.status == "FILLED";
      r.0[1..] == (if repaying then [Repay(tp.buyCurrency, owed.value)] else [])
    ensures r.1.Ok? <==> sell.Ok? && owed.Some? && sell.value.status == "FILLED" && repay.Ok?
    ensures r.1.Ok? ==> r.1 == sell
    ensures sell.Err? ==> r.1 == Err(sell.error)
    ensures sell.Ok? && !(owed.Some? && sell.value.status == "FILLED") ==> r.1 == Err(NotRepaid)
  {
    var sent := [MarginOrder(CloseLongParams(tp.symbol, qty, price, now))];
    match sell
    case Err(code) => (sent, Err(code))
    case Ok(reply) =>
      if owed.Some? && reply.status == "FILLED" then
        var sent := sent + [Repay(tp.buyCurrency, owed.value)];
        match repay
        case Ok(_) => (sent, Ok(reply))
        case Err(code) => (sent, Err(code))
      else (sent, Err(NotRepaid))
  }

  /** The quantity a limit entry of `spend` buys at `price`: the budget
      divided by the price, rounded down to the pair's quantity precision. */
  function LimitEntryQty(spend: real, price: real, qtyDps: int): (r: real)
    requires price > 0.0
    ensures r * price <= spend
    ensures Rounding.OnGrid(r, qtyDps)
  {
    var q := spend / price;
    var r := Rounding.Floor(q, qtyDps);
    assert r * price <= spend by { Rounding.MulMonotone(r, q, price); }
    Rounding.FloorIsGreatestGridPoint(q, qtyDps, r);
    r
  }

  /** The limit quantity is the most the budget affords: every quantity on
      the pair's grid whose cost is within the budget is at most it. */
  lemma LimitEntryQtyIsGreatest(spend: real, price: real, qtyDps: int, g: real)
    requires price > 0.0
    requires Rounding.OnGrid(g, qtyDps) && g * price <= spend
    ensures g <= LimitEntryQty(spend, price, qtyDps)
  {
    Rounding.GeDiv(spend, g, price);
    Rounding.FloorIsGreatestGridPoint(spend / price, qtyDps, g);
  }

  /** `enter_long_position`: a BUY that borrows (side effect MARGIN_BUY) only
      when asked to. At market it spends `spend` of the quote currency; with a
      limit price it buys the quantity `spend` affords at that price. */
  function EnterLongParams(tp: TradingPair, spend: real, price: Option<real>, borrow: bool,
                           now: nat): (r: Params)
    requires price.Some? ==> price.value > 0.0
    ensures IsolatedOrder(r, tp.symbol, now)
    ensures "side" in r && r["side"] == Text("BUY")
    ensures ("sideEffectType" in r <==> borrow) && (borrow ==> r["sideEffectType"] == Text("MARGIN_BUY"))
    ensures price.None? ==>
      && "type" in r && r["type"] == Text("MARKET")
      && "quoteOrderQty" in r && r["quoteOrderQty"] == Num(spend) && "quantity" !in r
    ensures price.Some? ==>
      && "type" in r && r["type"] == Text("LIMIT")
      && "timeInForce" in r && r["timeInForce"] == Text("GTC")
      && "price" in r && r["price"] == Num(price.value) && "quoteOrderQty" !in r
      && "quantity" in r && r["quantity"] == Num(LimitEntryQty(spend, price.value, tp.qtyDps))
  {
    var p := EntryBase(tp.symbol, borrow, now);
    if price.None? then p["type" := Text("MARKET")]["quoteOrderQty" := Num(spend)]
    else
      var qty := LimitEntryQty(spend, price.value, tp.qtyDps);
      p["type" := Text("LIMIT")]["timeInForce" := Text("GTC")]["quantity" := Num(qty)]
       ["price" := Num(price.value)]
  }

  /** The fields an entry has whatever its type: a BUY, borrowing on request. */
  function EntryBase(symbol: string, borrow: bool, now: nat): (r: Params)
    ensures IsolatedOrder(r, symbol, now)
    ensures "side" in r && r["side"] == Text("BUY")
    ensures ("sideEffectType" in r <==> borrow) && (borrow ==> r["sideEffectType"] == Text("MARGIN_BUY"))
    ensures "quoteOrderQty" !in r && "quantity" !in r
  {
    var p := map["timestamp" := Stamp(now), "symbol" := Text(symbol), "isIsolated" := Text("TRUE"),
                 "side" := Text("BUY")];
    if borrow then p["sideEffectType" := Text("MARGIN_BUY")] else p
  }

  /** The quantity `place_stop_loss` protects: the filled quantity, less the
      commission when it was charged in the base currency, rounded down. */
  function StopQty(fill: Orders.Fill, tp: TradingPair): (r: real)
    ensures var held := if fill.commissionAsset == tp.sellCurrency then fill.qty - fill.commission
                        else fill.qty;
      && r <= held && held - r < 1.0 / Rounding.Scale(tp.qtyDps)
      && Rounding.OnGrid(r, tp.qtyDps)
      && forall g :: Rounding.OnGrid(g, tp.qtyDps) && g <= held ==> g <= r
  {
    var held := if fill.commissionAsset == tp.sellCurrency then fill.qty - fill.commission
                else fill.qty;
    var r := Rounding.Floor(held, tp.qtyDps);
    forall g | Rounding.OnGrid(g, tp.qtyDps) && g <= held
      ensures g <= r
    {
      Rounding.FloorIsGreatestGridPoint(held, tp.qtyDps, g);
    }
    Rounding.FloorIsGreatestGridPoint(held, tp.qtyDps, r);
    r
  }

  /** The trigger and limit prices of `place_stop_loss`: the trigger is
      `stopPercent` ticks below the average fill price, the limit one more
      tick below, each rounded down to the price precision. Despite its name
      `stopPercent` counts ticks, not percent. */
  function StopPrices(ave: real, stopPercent: real, tp: TradingPair): (r: (real, real))
    ensures var target := ave - stopPercent * tp.tickSize;
      r.0 <= target && target - r.0 < 1.0 / Rounding.Scale(tp.priceDps)
    ensures r.1 <= r.0 - tp.tickSize && r.0 - tp.tickSize - r.1 < 1.0 / Rounding.Scale(tp.priceDps)
    ensures Rounding.OnGrid(r.0, tp.priceDps) && Rounding.OnGrid(r.1, tp.priceDps)
    ensures forall g :: Rounding.OnGrid(g, tp.priceDps) && g <= ave - stopPercent * tp.tickSize ==> g <= r.0
    ensures forall g :: Rounding.OnGrid(g, tp.priceDps) && g <= r.0 - tp.tickSize ==> g <= r.1
  {
    var target := ave - stopPercent * tp.tickSize;
    var trigger := Rounding.Floor(target, tp.priceDps);
    var limit := Rounding.Floor(trigger - tp.tickSize, tp.priceDps);
    forall g | Rounding.OnGrid(g, tp.priceDps) && g <= target
      ensures g <= trigger
    {
      Rounding.FloorIsGreatestGridPoint(target, tp.priceDps, g);
    }
    forall g | Rounding.OnGrid(g, tp.priceDps) && g <= trigger - tp.tickSize
      ensures g <= limit
    {
      Rounding.FloorIsGreatestGridPoint(trigger - tp.tickSize, tp.priceDps, g);
    }
    Rounding.FloorIsGreatestGridPoint(target, tp.priceDps, trigger);
    Rounding.FloorIsGreatestGridPoint(trigger - tp.tickSize, tp.priceDps, limit);
    (trigger, limit)
  }

  /** `place_stop_loss`: a good-till-cancelled STOP_LOSS_LIMIT SELL of the
      held quantity at the prices above. */
  function StopLossParams(fill: Orders.Fill, tp: TradingPair, stopPercent: real, now: nat): (r: Params)
    ensures IsolatedOrder(r, tp.symbol, now)
    ensures r.Keys == {"timestamp", "symbol", "isIsolated", "side", "quantity", "type",
                       "price", "stopPrice", "timeInForce"}
    ensures r["side"] == Text("SELL") && r["type"] == Text("STOP_LOSS_LIMIT")
    ensures r["timeInForce"] == Text("GTC") && r["quantity"] == Num(StopQty(fill, tp))
    ensures var (trigger, limit) := StopPrices(fill.price, stopPercent, tp);
      r["stopPrice"] == Num(trigger) && r["price"] == Num(limit)
  {
    var (trigger, limit) := StopPrices(fill.price, stopPercent, tp);
    map["timestamp" := Stamp(now), "symbol" := Text(tp.symbol), "isIsolated" := Text("TRUE"),
        "side" := Text("SELL"), "quantity" := Num(StopQty(fill, tp)), "type" := Text("STOP_LOSS_LIMIT"),
        "price" := Num(limit), "stopPrice" := Num(trigger), "timeInForce" := Text("GTC")]
  }

  /** An average fill of 100 with a stop of 2 ticks of 0.01 at two decimal
      places triggers at 99.98 and is limited at 99.97. */
  lemma StopLossExample(tp: TradingPair, fill: Orders.Fill)
    requires tp.tickSize == 0.01 && tp.priceDps == 2 && fill.price == 100.0
    ensures StopPrices(fill.price, 2.0, tp) == (99.98, 99.97)
  {
    var s := Rounding.Scale(2);
    assert s == 100.0;
    assert Rounding.FloorIndex(99.98, 2) == 9998;
    assert Rounding.FloorIndex(99.97, 2) == 9997;
  }

  /** For a long the stop sits below the fill: the limit is at least a tick
      below the trigger, and the trigger is not above the fill price. */
  lemma LongStopBelowFill(ave: real, stopPercent: real, tp: TradingPair)
    requires stopPercent >= 0.0 && tp.tickSize > 0.0
    ensures var (trigger, limit) := StopPrices(ave, stopPercent, tp);
      limit < trigger <= ave
  {
    assert stopPercent * tp.tickSize >= 0.0;
  }

  /** The short side passes the negated stop, so its protective SELL triggers
      above the fill price: 100 with 2 ticks of 0.01 gives 100.02 and 100.01. */
  lemma ShortStopAboveFill(tp: TradingPair, fill: Orders.Fill)
    requires tp.tickSize == 0.01 && tp.priceDps == 2 && fill.price == 100.0
    ensures StopPrices(fill.price, -2.0, tp) == (100.02, 100.01)
    ensures StopLossParams(fill, tp, -2.0, 0)["side"] == Text("SELL")
  {
    var s := Rounding.Scale(2);
    assert s == 100.0;
    assert Rounding.FloorIndex(100.02, 2) == 10002;
    assert Rounding.FloorIndex(100.01, 2) == 10001;
  }

  /** The stop that follows an entry whose reply carries an average fill. */
  function StopAfter(reply: Result<Reply, int>, tp: TradingPair, stopPercent: real, now: nat)
    : (r: seq<Action>)
    ensures |r| <= 1
    ensures |r| == 1 <==> reply.Ok? && reply.value.aveFill.Some?
    ensures |r| == 1 ==> r[0] == MarginOrder(StopLossParams(reply.value.aveFill.value, tp, stopPercent, now))
  {
    if reply.Ok? && reply.value.aveFill.Some? then
      [MarginOrder(StopLossParams(reply.value.aveFill.value, tp, stopPercent, now))]
    else []
  }

  /** The base currency bought back to close a short: the debt plus the
      0.1% trading fee, rounded up to the quantity precision. */
  function BuyBackQty(acct: Account, qtyDps: int): (r: real)
    ensures var owed := acct.baseInterest + acct.baseBorrowed;
      && r >= owed + owed / 1000.0 && r - (owed + owed / 1000.0) < 1.0 / Rounding.Scale(qtyDps)
      && Rounding.OnGrid(r, qtyDps)
      && forall g :: Rounding.OnGrid(g, qtyDps) && g >= owed + owed / 1000.0 ==> g >= r
  {
    var owed := acct.baseInterest + acct.baseBorrowed;
    var r := Rounding.Ceil(owed + owed / 1000.0, qtyDps);
    forall g | Rounding.OnGrid(g, qtyDps) && g >= owed + owed / 1000.0
      ensures g >= r
    {
      Rounding.CeilIsLeastGridPoint(owed + owed / 1000.0, qtyDps, g);
    }
    Rounding.CeilIsLeastGridPoint(owed + owed / 1000.0, qtyDps, r);
    r
  }

  /** The quote currency a long spends: the free quote balance rounded down,
      then multiplied by the leverage and rounded down again. */
  function LongSpend(acct: Account, leverage: Option<real>, priceDps: int): real
  {
    var avail := Rounding.Floor(acct.quoteFree, priceDps);
    match leverage
    case None => avail
    case Some(l) => Rounding.Floor(avail * l, priceDps)
  }

  /** The base currency a short borrows and sells: the net quote balance in
      base currency at the index price, times the leverage (1 without),
      rounded down. */
  function BorrowQty(acct: Account, leverage: Option<real>, qtyDps: int): (r: real)
    requires acct.indexPrice > 0.0
    ensures var target := (acct.quoteNetAsset / acct.indexPrice) * leverage.UnwrapOr(1.0);
      && r <= target && target - r < 1.0 / Rounding.Scale(qtyDps)
      && Rounding.OnGrid(r, qtyDps)
      && forall g :: Rounding.OnGrid(g, qtyDps) && g <= target ==> g <= r
  {
    var target := (acct.quoteNetAsset / acct.indexPrice) * leverage.UnwrapOr(1.0);
    var r := Rounding.Floor(target, qtyDps);
    forall g | Rounding.OnGrid(g, qtyDps) && g <= target
      ensures g <= r
    {
      Rounding.FloorIsGreatestGridPoint(target, qtyDps, g);
    }
    Rounding.FloorIsGreatestGridPoint(target, qtyDps, r);
    r
  }

  /** The debt a short entry repays when closing a long: only with leverage
      and only when interest plus borrowed base is positive. */
  function ShortOwed(acct: Account, leverage: Option<real>): (r: Option<real>)
    ensures r.Some? <==> leverage.Some? && acct.baseInterest + acct.baseBorrowed > 0.0
    ensures r.Some? ==> r.value == acct.baseInterest + acct.baseBorrowed
  {
    if leverage.Some? && acct.baseInterest + acct.baseBorrowed > 0.0 then
      Some(acct.baseInterest + acct.baseBorrowed)
    else None
  }

  /** The limit price of an entry: `offset` ticks beyond the closing price,
      above it for a long and below it for a short; none for market orders.
      A limit order without an offset panics. */
  function EntryLimit(close: real, orderType: OrderType, offset: Option<nat>, tp: TradingPair,
                      long: bool): (r: Result<Option<real>, MarginPanic>)
    ensures r.Err? <==> orderType == Limit && offset.None?
    ensures r.Ok? ==> (r.value.None? <==> orderType == Market)
    ensures r.Ok? && orderType == Limit ==>
      r.value.value == (if long then close + offset.value as real * tp.tickSize
                        else close - offset.value as real * tp.tickSize)
  {
    match orderType
    case Market => Ok(None)
    case Limit =>
      if offset.None? then Err(LimitWithoutOffset)
      else if long then Ok(Some(close + offset.value as real * tp.tickSize))
      else Ok(Some(close - offset.value as real * tp.tickSize))
  }

  /** The inputs of a trade besides the exchange's answers. */
  datatype Request = Request(
    tp: TradingPair, close: real, leverage: Option<real>, orderType: OrderType,
    offset: Option<nat>, stopPercent: real, now: nat)

  /** What the inputs must satisfy for the limit quantity to be a number:
      a limit order needs a positive closing price and a non-negative tick,
      so that its limit price is positive. A market order needs nothing. */
  predicate Sane(q: Request) {
    q.orderType == Limit ==> q.close > 0.0 && q.tp.tickSize >= 0.0
  }

  /** A stop-loss order. */
  predicate IsStop(a: Action) {
    a.MarginOrder? && "type" in a.params && a.params["type"] == Text("STOP_LOSS_LIMIT")
  }

  /** An order that opens a long: a BUY that is not a stop. */
  predicate IsLongEntry(a: Action) {
    && a.MarginOrder? && "side" in a.params && a.params["side"] == Text("BUY")
    && !IsStop(a)
  }

  /** An order that opens a short: a SELL that borrows what it sells. */
  predicate IsShortSale(a: Action) {
    && a.MarginOrder? && "side" in a.params && a.params["side"] == Text("SELL")
    && "sideEffectType" in a.params && a.params["sideEffectType"] == Text("MARGIN_BUY")
    && !IsStop(a)
  }

  /** Step 2 of a long: read the account and buy back any short debt worth an
      order. None means the procedure returns here. */
  function CloseShortStage(q: Request, price: real, ans: Answers): (r: (seq<Action>, bool))
    ensures ans.firstAccount.Err? ==> r == ([], false)
    ensures (ans.firstAccount.Ok? &&
             price * BuyBackQty(ans.firstAccount.value, q.tp.qtyDps) < q.tp.minNotional) ==> r == ([], true)
    ensures (ans.firstAccount.Ok? &&
             price * BuyBackQty(ans.firstAccount.value, q.tp.qtyDps) >= q.tp.minNotional) ==>
      && |r.0| >= 1
      && r.0[0] == MarginOrder(CloseShortParams(q.tp.symbol, BuyBackQty(ans.firstAccount.value, q.tp.qtyDps), q.now))
      && (r.1 <==> ans.closeReply.Ok? && ans.repay.Ok?)
  {
    match ans.firstAccount
    case Err(_) => ([], false)
    case Ok(acct) =>
      var qty := BuyBackQty(acct, q.tp.qtyDps);
      if price * qty >= q.tp.minNotional then
        var (sent, res) := CloseShort(q.tp, qty, acct.baseInterest + acct.baseBorrowed,
                                      ans.closeReply, ans.repay, q.now);
        (sent, res.Ok?)
      else ([], true)
  }

  /** Steps 3 and 4 of a long: size the spend from a fresh account read and
      enter, then place the stop when the entry reports an average fill. */
  function EnterLongStage(q: Request, ans: Answers): (r: Outcome)
    requires Sane(q)
    ensures ans.secondAccount.Err? ==> r == Outcome([], None)
    ensures ans.secondAccount.Ok? && q.orderType == Limit && q.offset.None? ==>
      r == Outcome([], Some(LimitWithoutOffset))
    ensures ans.secondAccount.Ok? && !(q.orderType == Limit && q.offset.None?) ==>
      && r.panic.None?
      && var limit := EntryLimit(q.close, q.orderType, q.offset, q.tp, true).value;
         var spend := LongSpend(ans.secondAccount.value, q.leverage, q.tp.priceDps);
         r.actions == [MarginOrder(EnterLongParams(q.tp, spend, limit, q.leverage.Some?, q.now))]
                      + StopAfter(ans.openReply, q.tp, q.stopPercent, q.now)
  {
    match ans.secondAccount
    case Err(_) => Outcome([], None)
    case Ok(acct) =>
      var spend := LongSpend(acct, q.leverage, q.tp.priceDps);
      match EntryLimit(q.close, q.orderType, q.offset, q.tp, true)
      case Err(p) => Outcome([], Some(p))
      case Ok(limit) =>
        assert limit.Some? ==> limit.value >= q.close;
        var entry := MarginOrder(EnterLongParams(q.tp, spend, limit, q.leverage.Some?, q.now));
        Outcome([entry] + StopAfter(ans.openReply, q.tp, q.stopPercent, q.now), None)
  }

  /** The long branch of `trade` after the price was read. */
  function TradeLong(q: Request, price: real, ans: Answers): (r: Outcome)
    requires Sane(q)
    ensures var (closing, go) := CloseShortStage(q, price, ans);
      && |closing| <= |r.actions| <= |closing| + 2
      && r.actions[..|closing|] == closing
      && (!go ==> r.actions == closing && r.panic.None?)
      && (r.panic.Some? ==> r.panic.value == LimitWithoutOffset && r.actions == closing)
      && (|r.actions| > |closing| <==>
            go && ans.secondAccount.Ok? && !(q.orderType == Limit && q.offset.None?))
      && (|r.actions| > |closing| ==> IsLongEntry(r.actions[|closing|]))
      && (|r.actions| == |closing| + 2 ==> IsStop(r.actions[|closing| + 1]))
  {
    var (closing, go) := CloseShortStage(q, price, ans);
    if go then
      var entering := EnterLongStage(q, ans);
      Outcome(closing + entering.actions, entering.panic)
    else Outcome(closing, None)
  }

  /** Step 2 of a short: read the account and sell any long worth an order,
      repaying leveraged debt. The second component says whether the
      procedure goes on: it stops on an account error and on any sale error
      except insufficient balance; an unfilled or debt-free sale goes on. */
  function CloseLongStage(q: Request, price: real, ans: Answers): (r: Outcome)
    ensures ans.firstAccount.Err? ==> r == Outcome([], None)
    ensures ans.firstAccount.Ok? && q.orderType == Limit && q.offset.None? ==>
      r == Outcome([], Some(LimitWithoutOffset))
    ensures ans.firstAccount.Ok? && !(q.orderType == Limit && q.offset.None?) ==>
      var qty := Rounding.Floor(ans.firstAccount.value.baseFree, q.tp.qtyDps);
      var limit := EntryLimit(q.close, q.orderType, q.offset, q.tp, false).value;
      && r.panic.None?
      && (price * qty < q.tp.minNotional ==> r.actions == [])
      && (price * qty >= q.tp.minNotional ==>
            r.actions == CloseLong(q.tp, qty, limit, ShortOwed(ans.firstAccount.value, q.leverage),
                                   ans.closeReply, ans.repay, q.now).0)
  {
    match ans.firstAccount
    case Err(_) => Outcome([], None)
    case Ok(acct) =>
      match EntryLimit(q.close, q.orderType, q.offset, q.tp, false)
      case Err(p) => Outcome([], Some(p))
      case Ok(limit) =>
        var qty := Rounding.Floor(acct.baseFree, q.tp.qtyDps);
        if price * qty >= q.tp.minNotional then
          var sent := CloseLong(q.tp, qty, limit, ShortOwed(acct, q.leverage),
                                ans.closeReply, ans.repay, q.now).0;
          Outcome(sent, None)
        else Outcome([], None)
  }

  /** Whether the short branch goes on to borrow after step 2. */
  function ShortGoesOn(q: Request, price: real, ans: Answers): (r: bool)
    ensures ans.firstAccount.Err? ==> !r
    ensures ans.firstAccount.Ok? && !(q.orderType == Limit && q.offset.None?) ==>
      var qty := Rounding.Floor(ans.firstAccount.value.baseFree, q.tp.qtyDps);
      (price * qty < q.tp.minNotional ==> r) &&
      (price * qty >= q.tp.minNotional ==>
        var limit := EntryLimit(q.close, q.orderType, q.offset, q.tp, false).value;
        var res := CloseLong(q.tp, qty, limit, ShortOwed(ans.firstAccount.value, q.leverage),
                             ans.closeReply, ans.repay, q.now).1;
        (r <==> res.Ok? || res.error == InsufficientBalance))
  {
    match ans.firstAccount
    case Err(_) => false
    case Ok(acct) =>
      match EntryLimit(q.close, q.orderType, q.offset, q.tp, false)
      case Err(_) => false
      case Ok(limit) =>
        var qty := Rounding.Floor(acct.baseFree, q.tp.qtyDps);
        if price * qty >= q.tp.minNotional then
          var res := CloseLong(q.tp, qty, limit, ShortOwed(acct, q.leverage),
                               ans.closeReply, ans.repay, q.now).1;
          res.Ok? || res.error == InsufficientBalance
        else true
  }

  /** Step 3 of a short: read the account again (an error panics), borrow and
      sell what the collateral allows when that is worth an order, and stop
      the position when the sale reports an average fill. */
  function ShortSellStage(q: Request, price: real, ans: Answers): (r: Outcome)
    requires ans.secondAccount.Ok? ==> ans.secondAccount.value.indexPrice > 0.0
    requires !(q.orderType == Limit && q.offset.None?)
    ensures ans.secondAccount.Err? ==> r == Outcome([], Some(AccountUnavailable(ans.secondAccount.error)))
    ensures ans.secondAccount.Ok? ==> r.panic.None? && |r.actions| <= 2
    ensures |r.actions| >= 1 <==>
      ans.secondAccount.Ok?
      && price * BorrowQty(ans.secondAccount.value, q.leverage, q.tp.qtyDps) >= q.tp.minNotional
    ensures |r.actions| >= 1 ==> IsShortSale(r.actions[0])
    ensures |r.actions| == 2 ==> IsStop(r.actions[1])
  {
    match ans.secondAccount
    case Err(code) => Outcome([], Some(AccountUnavailable(code)))
    case Ok(acct) =>
      var qty := BorrowQty(acct, q.leverage, q.tp.qtyDps);
      var limit := EntryLimit(q.close, q.orderType, q.offset, q.tp, false).value;
      if price * qty >= q.tp.minNotional then
        Outcome([MarginOrder(ShortSellParams(q.tp.symbol, qty, limit, q.now))]
                + StopAfter(ans.openReply, q.tp, -q.stopPercent, q.now), None)
      else Outcome([], None)
  }

  /** The short branch of `trade` after the price was read. */
  function TradeShort(q: Request, price: real, ans: Answers): (r: Outcome)
    requires ans.secondAccount.Ok? ==> ans.secondAccount.value.indexPrice > 0.0
    ensures var closing := CloseLongStage(q, price, ans).actions;
      && |closing| <= |r.actions| <= |closing| + 2
      && r.actions[..|closing|] == closing
      && (r.panic.Some? ==> r.panic.value == LimitWithoutOffset || r.panic.value.AccountUnavailable?)
      && (r.panic == Some(LimitWithoutOffset) <==>
            ans.firstAccount.Ok? && q.orderType == Limit && q.offset.None?)
      && (|r.actions| > |closing| ==> ShortGoesOn(q, price, ans) && IsShortSale(r.actions[|closing|]))
      && (|r.actions| == |closing| + 2 ==> IsStop(r.actions[|closing| + 1]))
    ensures ShortGoesOn(q, price, ans) && ans.secondAccount.Err? ==>
      r.panic == Some(AccountUnavailable(ans.secondAccount.error))
  {
    var closing := CloseLongStage(q, price, ans);
    if closing.panic.Some? || !ShortGoesOn(q, price, ans) then closing
    else
      var selling := ShortSellStage(q, price, ans);
      Outcome(closing.actions + selling.actions, selling.panic)
  }

  /** `trade`: cancel the pair's open orders whatever the outcome, read the
      price (an error ends the trade), then go long or short. Asking for no
      position panics once the price was read. */
  function Trade(desired: PositionType, q: Request, ans: Answers): (r: Outcome)
    requires Sane(q)
    requires ans.secondAccount.Ok? ==> ans.secondAccount.value.indexPrice > 0.0
    ensures |r.actions| >= 1 && r.actions[0] == CancelAll(q.tp.symbol)
    ensures ans.price.Err? ==> r == Outcome([CancelAll(q.tp.symbol)], None)
    ensures ans.price.Ok? && desired == NoPosition ==>
      r == Outcome([CancelAll(q.tp.symbol)], Some(NoPositionWanted))
    ensures ans.price.Ok? && desired == Long ==>
      r.actions[1..] == TradeLong(q, ans.price.value, ans).actions
      && r.panic == TradeLong(q, ans.price.value, ans).panic
    ensures ans.price.Ok? && desired == Short ==>
      r.actions[1..] == TradeShort(q, ans.price.value, ans).actions
      && r.panic == TradeShort(q, ans.price.value, ans).panic
  {
    var cancel := [CancelAll(q.tp.symbol)];
    match ans.price
    case Err(_) => Outcome(cancel, None)
    case Ok(price) =>
      match desired
      case NoPosition => Outcome(cancel, Some(NoPositionWanted))
      case Long =>
        var o := TradeLong(q, price, ans);
        Outcome(cancel + o.actions, o.panic)
      case Short =>
        var o := TradeShort(q, price, ans);
        Outcome(cancel + o.actions, o.panic)
  }

  /** A long never spends more than the free quote balance times the
      leverage (1 without leverage). */
  lemma LongSpendWithinFunds(acct: Account, leverage: Option<real>, priceDps: int)
    requires leverage.UnwrapOr(1.0) >= 0.0
    ensures LongSpend(acct, leverage, priceDps) <= acct.quoteFree * leverage.UnwrapOr(1.0)
  {
    var avail := Rounding.Floor(acct.quoteFree, priceDps);
    if leverage.Some? {
      Rounding.MulMonotone(avail, acct.quoteFree, leverage.value);
    }
  }

  /** A limit entry of a long costs at most what the account can fund: at
      any positive limit price, its quantity times that price is within the
      free quote balance times the leverage. */
  lemma LongLimitEntryWithinFunds(acct: Account, leverage: Option<real>, tp: TradingPair, limit: real)
    requires limit > 0.0 && leverage.UnwrapOr(1.0) >= 0.0
    ensures var spend := LongSpend(acct, leverage, tp.priceDps);
      LimitEntryQty(spend, limit, tp.qtyDps) * limit <= acct.quoteFree * leverage.UnwrapOr(1.0)
  {
    LongSpendWithinFunds(acct, leverage, tp.priceDps);
  }

  /** Without leverage a short owes nothing, so `close_long_position` reports
      an error for every accepted sale; that error is not "insufficient
      balance", and the short signal ends after selling the long. */
  lemma UnleveragedShortStopsAfterSale(q: Request, price: real, ans: Answers)
    requires q.leverage.None? && !(q.orderType == Limit && q.offset.None?)
    requires ans.firstAccount.Ok? && ans.closeReply.Ok?
    requires price * Rounding.Floor(ans.firstAccount.value.baseFree, q.tp.qtyDps) >= q.tp.minNotional
    requires ans.secondAccount.Ok? ==> ans.secondAccount.value.indexPrice > 0.0
    ensures !ShortGoesOn(q, price, ans)
    ensures var qty := Rounding.Floor(ans.firstAccount.value.baseFree, q.tp.qtyDps);
      var limit := EntryLimit(q.close, q.orderType, q.offset, q.tp, false).value;
      TradeShort(q, price, ans) == Outcome([MarginOrder(CloseLongParams(q.tp.symbol, qty, limit, q.now))], None)
  {
    assert ShortOwed(ans.firstAccount.value, q.leverage).None?;
  }

  /** When the short debt worth buying back cannot be closed, a long signal
      sends nothing after the buy-back and its repayment: no entry, no stop. */
  lemma FailedBuyBackEndsLong(q: Request, price: real, ans: Answers)
    requires Sane(q) && ans.firstAccount.Ok?
    requires price * BuyBackQty(ans.firstAccount.value, q.tp.qtyDps) >= q.tp.minNotional
    requires ans.closeReply.Err? || ans.repay.Err?
    ensures var r := TradeLong(q, price, ans);
      var owed := ans.firstAccount.value.baseInterest + ans.firstAccount.value.baseBorrowed;
      var buy := MarginOrder(CloseShortParams(q.tp.symbol, BuyBackQty(ans.firstAccount.value, q.tp.qtyDps), q.now));
      r.panic.None? &&
      r.actions == (if ans.closeReply.Ok? then [buy, Repay(q.tp.sellCurrency, owed)] else [buy])
  {
    var acct := ans.firstAccount.value;
    var c := CloseShort(q.tp, BuyBackQty(acct, q.tp.qtyDps), acct.baseInterest + acct.baseBorrowed,
                        ans.closeReply, ans.repay, q.now);
    assert CloseShortStage(q, price, ans) == (c.0, false);
    assert c.0 == [c.0[0]] + c.0[1..];
  }
}
