/** The account manager's order side: the message other threads queue to
    it, position lookup, commission conversion, and what the order thread does
    with one message — wait for open orders to be cancelled, size the order
    from the local balance, check the exchange minimum, remember the stop
    percentage and build the order. Exchange answers are parameters. */
module AccountManager {
  import opened Wrappers
  import opened Strings
  import opened Types
  import opened TradingPairs
  import Rounding
  import Orders
  import Binance

  /** How much of the available balance an order should use. */
  datatype OrderQuantity =
    | Exact(qty: real)
    | PercentageAmount(percent: nat)
    | Percentage25
    | Percentage50
    | Percentage75
    | Percentage100

  /** A queued order. */
  datatype OrderMsg = OrderMsg(
    tp: TradingPair,
    orderType: OrderType,
    position: PositionType,
    quantity: OrderQuantity,
    limitPrice: Option<real>,
    stopPercent: Option<real>,
    quit: bool)

  /** A message says Limit exactly when it carries a limit price. */
  predicate MsgWellFormed(m: OrderMsg) {
    m.orderType == Limit <==> m.limitPrice.Some?
  }

  /** `AccountManager::spot_trade`: the order type follows from whether a limit
      price is given. */
  function SpotTrade(tp: TradingPair, position: PositionType, quantity: OrderQuantity,
                     limitPrice: Option<real>, stopPercent: Option<real>): (m: OrderMsg)
    ensures MsgWellFormed(m) && !m.quit
    ensures m.tp == tp && m.position == position && m.quantity == quantity
    ensures m.limitPrice == limitPrice && m.stopPercent == stopPercent
  {
    OrderMsg(tp, if limitPrice.None? then Market else Limit, position, quantity,
             limitPrice, stopPercent, false)
  }

  /** `AccountManager::get_position`: kind, quantity and price of the position
      held in a symbol, if any. */
  function GetPosition(positions: map<string, Position>, symbol: string): (r: Option<(PositionType, real, real)>)
    ensures r.None? <==> symbol !in positions
    ensures r.Some? ==> r.value.0 == positions[symbol].kind && r.value.1 == positions[symbol].qty
                        && r.value.2 == positions[symbol].price
  {
    if symbol in positions then
      var p := positions[symbol];
      Some((p.kind, p.qty, p.price))
    else None
  }

  /** `compute_commision_usdt`: a commission in USDT is taken as it is; one
      paid in the traded coin (the symbol starts with its name) is converted at
      the trade price; any other is converted at `usdtPrice`, the exchange's
      price of "<asset>USDT", and counts as 0 when that lookup fails. */
  function CommissionUsdt(asset: string, commission: real, price: real, symbol: string,
                          usdtPrice: Result<real, int>): (r: real)
    ensures asset == "USDT" ==> r == commission
    ensures asset != "USDT" && StartsWith(symbol, asset) ==> r == commission * price
    ensures asset != "USDT" && !StartsWith(symbol, asset) && usdtPrice.Ok? ==> r == commission * usdtPrice.value
    ensures asset != "USDT" && !StartsWith(symbol, asset) && usdtPrice.Err? ==> r == 0.0
    ensures commission >= 0.0 && price >= 0.0 && (usdtPrice.Ok? ==> usdtPrice.value >= 0.0) ==> r >= 0.0
  {
    if asset == "USDT" then commission
    else if StartsWith(symbol, asset) then commission * price
    else
      match usdtPrice
      case Ok(p) => commission * p
      case Err(_) => 0.0
  }

  /** For a USDT-quoted symbol whose base asset paid the commission, the trade
      price is the asset's USDT price. Converting at the trade price, whatever
      the lookup would have said, therefore gives what a trade on any other
      symbol gets when the lookup of "<asset>USDT" returns that same price. */
  lemma CommissionInBaseOfUsdtPair(asset: string, commission: real, price: real, lookup: Result<real, int>,
                                   other: string, otherPrice: real)
    requires asset != "USDT" && !StartsWith(other, asset)
    ensures CommissionUsdt(asset, commission, price, asset + "USDT", lookup)
            == CommissionUsdt(asset, commission, otherPrice, other, Ok(price))
            == commission * price
  {
    assert StartsWith(asset + "USDT", asset) by {
      assert (asset + "USDT")[..|asset|] == asset;
    }
  }

  /** The condition-variable wait after a cancel request. `clearedBy[k]` says
      whether the event handler has cleared the waiting flag by the (k+1)-th
      wake-up (each wake-up is a 5-second timed wait). */
  method CancelWait(openOrders: Result<nat, int>, cancel: Result<(), int>, waiting0: bool,
                    clearedBy: seq<bool>) returns (waiting: bool, wakeups: nat)
    requires |clearedBy| >= 4
    ensures wakeups <= 4
    ensures openOrders.Ok? && openOrders.value > 0 && cancel.Ok? ==> !waiting
    ensures openOrders.Ok? && openOrders.value > 0 && cancel.Err? ==> waiting && wakeups == 0
    ensures !(openOrders.Ok? && openOrders.value > 0) ==> waiting == waiting0 && wakeups == 0
    ensures wakeups > 0 ==> forall k :: 0 <= k < wakeups - 1 ==> !clearedBy[k]
    ensures openOrders.Ok? && openOrders.value > 0 && cancel.Ok? ==>
      1 <= wakeups && (wakeups == 4 || clearedBy[wakeups - 1])
  {
    waiting := waiting0;
    wakeups := 0;
    if openOrders.Ok? && openOrders.value > 0 {
      waiting := true;
      if cancel.Ok? {
        var retry := 0;
        while waiting && retry < 4
          invariant 0 <= retry <= 4
          invariant waiting ==> forall k :: 0 <= k < retry ==> !clearedBy[k]
          invariant !waiting ==> retry > 0 && clearedBy[retry - 1]
          invariant forall k :: 0 <= k < retry - 1 ==> !clearedBy[k]
        {
          waiting := !clearedBy[retry];
          retry := retry + 1;
        }
        wakeups := retry;
        if waiting {
          waiting := false;
        }
      }
    }
  }

  /** The share of the maximum a percentage quantity asks for. */
  function Fraction(q: OrderQuantity): (f: real)
    requires !q.Exact? && (q.PercentageAmount? ==> q.percent <= 100)
    ensures 0.0 <= f <= 1.0
  {
    match q
    case PercentageAmount(p) => p as real / 100.0
    case Percentage25 => 1.0 / 4.0
    case Percentage50 => 1.0 / 2.0
    case Percentage75 => 3.0 / 4.0
    case Percentage100 => 1.0
  }

  datatype OrderPanic = PercentageOver100(percent: nat) | MarketOrderWithoutPosition

  /** The unrounded quantity the order thread asks for. A Long can buy
      free/price coins and takes the requested share of that (an exact
      quantity is taken as given); anything else sells the whole free balance.
      A percentage over 100 is refused. */
  function Share(position: PositionType, quantity: OrderQuantity, free: real, price: real): (r: Result<real, OrderPanic>)
    requires position == Long ==> price != 0.0
    ensures r.Err? <==> position == Long && quantity.PercentageAmount? && quantity.percent > 100
    ensures position != Long ==> r == Ok(free)
    ensures position == Long && quantity.Exact? ==> r == Ok(quantity.qty)
    ensures r.Ok? && position == Long && !quantity.Exact? ==> r.value == free / price * Fraction(quantity)
  {
    if position != Long then Ok(free)
    else
      match quantity
      case Exact(q) => Ok(q)
      case PercentageAmount(p) =>
        if p > 100 then Err(PercentageOver100(p)) else Ok(free / price * Fraction(quantity))
      case _ => Ok(free / price * Fraction(quantity))
  }

  /** The requested quantity rounded down to the pair's quantity decimals. */
  function RequestedQty(position: PositionType, quantity: OrderQuantity, free: real, price: real,
                        qtyDps: int): (r: Result<real, OrderPanic>)
    requires position == Long ==> price != 0.0
    ensures r.Err? <==> Share(position, quantity, free, price).Err?
    ensures r.Ok? ==> r.value == Rounding.Floor(Share(position, quantity, free, price).value, qtyDps)
  {
    match Share(position, quantity, free, price)
    case Err(e) => Err(e)
    case Ok(s) => Ok(Rounding.Floor(s, qtyDps))
  }

  /** A percentage order never asks for more than the maximum, and never costs
      more than its share of the free balance: it is the largest quantity on
      the pair's grid within that share. */
  lemma RequestedQtyWithinBudget(position: PositionType, quantity: OrderQuantity, free: real,
                                 price: real, qtyDps: int, g: real)
    requires free >= 0.0 && price > 0.0
    requires !quantity.Exact? && (quantity.PercentageAmount? ==> quantity.percent <= 100)
    ensures var share := Share(position, quantity, free, price).value;
      var r := RequestedQty(position, quantity, free, price, qtyDps).value;
      && 0.0 <= r <= share <= (if position == Long then free / price else free)
      && (position == Long ==> r * price <= free * Fraction(quantity))
      && (Rounding.OnGrid(g, qtyDps) && g <= share ==> g <= r)
  {
    var share := Share(position, quantity, free, price).value;
    var r := RequestedQty(position, quantity, free, price, qtyDps).value;
    assert r == Rounding.Floor(share, qtyDps);
    Rounding.FloorIsGreatestGridPoint(share, qtyDps, g);
    if position == Long {
      LongShareBudget(free, price, Fraction(quantity), share, r);
    }
    Rounding.FloorNonNegative(share, qtyDps);
  }

  /** The share of what free/price buys, and any quantity not above it, stay within budget. */
  lemma LongShareBudget(free: real, price: real, f: real, share: real, r: real)
    requires free >= 0.0 && price > 0.0 && 0.0 <= f <= 1.0
    requires share == free / price * f && r <= share
    ensures 0.0 <= share <= free / price
    ensures r * price <= free * f
  {
    FractionOf(free / price, f);
    BudgetBound(r, free, price, f);
  }

  lemma FractionOf(x: real, f: real)
    requires x >= 0.0 && 0.0 <= f <= 1.0
    ensures 0.0 <= x * f <= x
  {
    assert x - x * f == x * (1.0 - f);
  }

  lemma BudgetBound(r: real, free: real, price: real, f: real)
    requires price > 0.0 && r <= free / price * f
    ensures r * price <= free * f
  {
    Rounding.MulMonotone(r, free / price * f, price);
    assert free / price * f * price == free * f;
  }

  /** Why a message produced no order. */
  datatype DropReason =
    | NoLocalBalance(asset: string)
    | NoPrice(code: int)
    | ZeroPrice
    | BelowMinNotional(cost: real)

  datatype OrderOutcome = Dropped(reason: DropReason) | Submitted(params: Binance.Params, qty: real)

  /** The asset a message spends: the quote currency when the order it
      becomes buys, the base currency when it sells (a limit order for no
      position sells too). */
  function SpentAsset(m: OrderMsg): (r: string)
    ensures var side := Orders.LimitOrderParams(m.tp.symbol, m.position, 0.0, 0.0, 0)["side"];
      r == (if side == Binance.Text("BUY") then m.tp.buyCurrency else m.tp.sellCurrency)
  {
    if m.position == Long then m.tp.buyCurrency else m.tp.sellCurrency
  }

  /** The order thread once the free balance and the price are known: refuse
      a Long at a zero price, size the order, refuse it below the pair's
      minimum notional, record the message's stop percentage in the shared
      slot, and build the order. */
  function PlaceAtPrice(m: OrderMsg, free: real, price: real, stopSlot: Option<real>, now: nat)
    : (r: Result<(OrderOutcome, Option<real>), OrderPanic>)
    requires MsgWellFormed(m)
    ensures r.Ok? && r.value.0.Dropped? ==> r.value.1 == stopSlot && !r.value.0.reason.NoLocalBalance?
                                             && !r.value.0.reason.NoPrice?
    ensures (m.position == Long && price == 0.0) <==> (r.Ok? && r.value.0.Dropped? && r.value.0.reason.ZeroPrice?)
    ensures !(m.position == Long && price == 0.0) ==>
      var q := RequestedQty(m.position, m.quantity, free, price, m.tp.qtyDps);
      && (q.Err? ==> r == Err(q.error))
      && (q.Ok? && price * q.value < m.tp.minNotional ==>
            && r.Ok? && r.value.0.Dropped? && r.value.0.reason.BelowMinNotional?
            && r.value.0.reason.cost == price * q.value)
      && (q.Ok? && price * q.value >= m.tp.minNotional ==>
            if m.orderType == Market && m.position == NoPosition then r == Err(MarketOrderWithoutPosition)
            else
              && r.Ok? && r.value.0.Submitted? && r.value.0.qty == q.value
              && r.value.0.params
                 == Orders.PlaceOrderQuantity(m.tp.symbol, m.position, q.value, m.limitPrice, now).value
              && r.value.1 == (if m.stopPercent.Some? then m.stopPercent else stopSlot))
  {
    if m.position == Long && price == 0.0 then Ok((Dropped(ZeroPrice), stopSlot))
    else
      match RequestedQty(m.position, m.quantity, free, price, m.tp.qtyDps)
      case Err(e) => Err(e)
      case Ok(qty) =>
        if price * qty < m.tp.minNotional then Ok((Dropped(BelowMinNotional(price * qty)), stopSlot))
        else
          var slot := if m.stopPercent.Some? then m.stopPercent else stopSlot;
          match Orders.PlaceOrderQuantity(m.tp.symbol, m.position, qty, m.limitPrice, now)
          case Err(_) => Err(MarketOrderWithoutPosition)
          case Ok(params) => Ok((Submitted(params, qty), slot))
  }

  /** The order thread after any cancellation wait: look up the balance of the
      spent asset, fix the price (the limit price, or the exchange's current
      price `marketPrice`), size the order, refuse it below the pair's minimum
      notional, record the message's stop percentage in the shared slot, and
      build the order. Returns the outcome and the slot's new value. */
  function PlaceFromBalance(m: OrderMsg, balances: map<string, Balance>, marketPrice: Result<real, int>,
                            stopSlot: Option<real>, now: nat): (r: Result<(OrderOutcome, Option<real>), OrderPanic>)
    requires MsgWellFormed(m)
    ensures SpentAsset(m) !in balances ==> r == Ok((Dropped(NoLocalBalance(SpentAsset(m))), stopSlot))
    ensures r.Ok? && r.value.0.Dropped? ==> r.value.1 == stopSlot
    ensures r.Ok? && r.value.0.Submitted? ==>
      && SpentAsset(m) in balances
      && (m.orderType == Market ==> marketPrice.Ok?)
      && var price := if m.orderType == Limit then m.limitPrice.value else marketPrice.value;
      && r.value.0.qty * price >= m.tp.minNotional
      && Orders.PlaceOrderQuantity(m.tp.symbol, m.position, r.value.0.qty, m.limitPrice, now)
         == Ok(r.value.0.params)
      && r.value.1 == (if m.stopPercent.Some? then m.stopPercent else stopSlot)
      && (m.position == Long ==> price != 0.0)
      && RequestedQty(m.position, m.quantity, balances[SpentAsset(m)].free, price, m.tp.qtyDps)
         == Ok(r.value.0.qty)
    ensures r.Err? ==> r.error == MarketOrderWithoutPosition || r.error.PercentageOver100?
    ensures (r.Ok? && r.value.0.Dropped? && r.value.0.reason.NoLocalBalance?) <==> SpentAsset(m) !in balances
    ensures (r.Ok? && r.value.0.Dropped? && r.value.0.reason.NoPrice?) <==>
      SpentAsset(m) in balances && m.orderType == Market && marketPrice.Err?
    ensures r.Ok? && r.value.0.Dropped? && r.value.0.reason.BelowMinNotional? ==>
      r.value.0.reason.cost < m.tp.minNotional
    ensures r.Err? && r.error.PercentageOver100? ==>
      m.position == Long && m.quantity == PercentageAmount(r.error.percent) && r.error.percent > 100
    ensures r.Err? && r.error == MarketOrderWithoutPosition ==>
      m.orderType == Market && m.position == NoPosition
    ensures SpentAsset(m) in balances && (m.orderType == Market ==> marketPrice.Ok?) ==>
      var price := if m.orderType == Limit then m.limitPrice.value else marketPrice.value;
      (m.position == Long && price == 0.0) <==> (r.Ok? && r.value.0.Dropped? && r.value.0.reason.ZeroPrice?)
    ensures SpentAsset(m) in balances && (m.orderType == Market ==> marketPrice.Ok?) ==>
      var price := if m.orderType == Limit then m.limitPrice.value else marketPrice.value;
      !(m.position == Long && price == 0.0) ==>
      var q := RequestedQty(m.position, m.quantity, balances[SpentAsset(m)].free, price, m.tp.qtyDps);
      && (q.Err? ==> r == Err(q.error))
      && (q.Ok? && price * q.value < m.tp.minNotional ==>
            && r.Ok? && r.value.0.Dropped? && r.value.0.reason.BelowMinNotional?
            && r.value.0.reason.cost == price * q.value)
      && (q.Ok? && price * q.value >= m.tp.minNotional ==>
            if m.orderType == Market && m.position == NoPosition then r == Err(MarketOrderWithoutPosition)
            else
              && r.Ok? && r.value.0.Submitted? && r.value.0.qty == q.value
              && r.value.0.params
                 == Orders.PlaceOrderQuantity(m.tp.symbol, m.position, q.value, m.limitPrice, now).value
              && r.value.1 == (if m.stopPercent.Some? then m.stopPercent else stopSlot))
  {
    var asset := SpentAsset(m);
    if asset !in balances then Ok((Dropped(NoLocalBalance(asset)), stopSlot))
    else
      var free := balances[asset].free;
      if m.orderType == Market && marketPrice.Err? then Ok((Dropped(NoPrice(marketPrice.error)), stopSlot))
      else
        var price := if m.orderType == Limit then m.limitPrice.value else marketPrice.value;
        PlaceAtPrice(m, free, price, stopSlot, now)
  }

  /** One pass of the order thread's loop for one message. The quit flag is
      only logged: the message is processed like any other. */
  method HandleOrder(m: OrderMsg, openOrders: Result<nat, int>, cancel: Result<(), int>,
                     waiting0: bool, clearedBy: seq<bool>, balances: map<string, Balance>,
                     marketPrice: Result<real, int>, stopSlot: Option<real>, now: nat)
    returns (waiting: bool, wakeups: nat, r: Result<(OrderOutcome, Option<real>), OrderPanic>)
    requires MsgWellFormed(m) && |clearedBy| >= 4
    ensures r == PlaceFromBalance(m, balances, marketPrice, stopSlot, now)
    ensures openOrders.Ok? && openOrders.value > 0 && cancel.Ok? ==>
      !waiting && 1 <= wakeups <= 4 && (wakeups == 4 || clearedBy[wakeups - 1])
    ensures openOrders.Ok? && openOrders.value > 0 && cancel.Err? ==> waiting && wakeups == 0
    ensures !(openOrders.Ok? && openOrders.value > 0) ==> waiting == waiting0 && wakeups == 0
    ensures SpentAsset(m) in balances && (m.orderType == Market ==> marketPrice.Ok?)
            && m.orderType == Limit && m.limitPrice.value != 0.0
            && RequestedQty(m.position, m.quantity, balances[SpentAsset(m)].free, m.limitPrice.value, m.tp.qtyDps).Ok?
            && m.limitPrice.value
               * RequestedQty(m.position, m.quantity, balances[SpentAsset(m)].free, m.limitPrice.value, m.tp.qtyDps).value
               >= m.tp.minNotional
            ==> r.Ok? && r.value.0.Submitted?
  {
    waiting, wakeups := CancelWait(openOrders, cancel, waiting0, clearedBy);
    r := PlaceFromBalance(m, balances, marketPrice, stopSlot, now);
  }

  /** Rust's `d as i8` for a `u8` value: values from 128 up wrap to negative. */
  function WrapI8(d: nat): (r: int)
    requires d < 256
    ensures -128 <= r < 128
    ensures (d - r) % 256 == 0
    ensures d < 128 ==> r == d
  {
    if d < 128 then d else d - 256
  }

  /** `submit_stop_order`'s prices: the trigger is `stopPercent` percent below
      the price paid, rounded down to the price decimals (passed through the
      `u8` to `i8` cast), and the limit is the trigger itself. */
  function StopPrices(paid: real, stopPercent: real, priceDps: nat): (r: (real, real))
    requires priceDps < 256
    ensures r.1 == r.0
    ensures r.0 <= paid - paid * stopPercent / 100.0
    ensures Rounding.OnGrid(r.0, WrapI8(priceDps))
    ensures forall g :: Rounding.OnGrid(g, WrapI8(priceDps)) && g <= paid - paid * stopPercent / 100.0 ==> g <= r.0
  {
    var d := WrapI8(priceDps);
    var t := Rounding.Floor(paid - paid * stopPercent / 100.0, d);
    forall g | Rounding.OnGrid(g, d) && g <= paid - paid * stopPercent / 100.0
      ensures g <= t
    {
      Rounding.FloorIsGreatestGridPoint(paid - paid * stopPercent / 100.0, d, g);
    }
    Rounding.FloorIsGreatestGridPoint(paid - paid * stopPercent / 100.0, d, t);
    (t, t)
  }

  /** The stop-limit order `submit_stop_order` sends. */
  function StopOrderParams(symbol: string, qty: real, paid: real, stopPercent: real,
                           priceDps: nat, now: nat): (r: Binance.Params)
    requires priceDps < 256
    ensures "type" in r && "side" in r && "stopPrice" in r && "price" in r && "quantity" in r && "symbol" in r
    ensures r["type"] == Binance.Text("STOP_LOSS_LIMIT") && r["side"] == Binance.Text("SELL")
    ensures r["symbol"] == Binance.Text(symbol)
    ensures r["stopPrice"] == r["price"] == Binance.Num(StopPrices(paid, stopPercent, priceDps).0)
    ensures r["quantity"] == Binance.Num(qty)
  {
    var (trigger, limit) := StopPrices(paid, stopPercent, priceDps);
    Orders.StopLimitParams(symbol, qty, trigger, limit, now)
  }

  /** Paid 100.00 with a 2 % stop at two decimals: trigger and limit are both 98.00. */
  lemma StopPricesExample()
    ensures StopPrices(100.0, 2.0, 2) == (98.0, 98.0)
  {
    assert 100.0 - 100.0 * 2.0 / 100.0 == 98.0;
    assert Rounding.Scale(2) == 100.0;
    assert Rounding.OnGrid(98.0, 2) by {
      assert 98.0 * Rounding.Scale(2) == 9800.0;
      assert (9800.0).Floor == 9800;
    }
    Rounding.FloorOfGridPoint(98.0, 2);
  }

  /** With 255 price decimals the cast gives -1, so the same 2 % stop on 100
      is rounded down to a multiple of ten: 90. */
  lemma StopPricesWrappedDecimals()
    ensures StopPrices(100.0, 2.0, 255) == (90.0, 90.0)
  {
    assert WrapI8(255) == -1;
    assert 100.0 - 100.0 * 2.0 / 100.0 == 98.0;
    assert Rounding.Scale(-1) == 1.0 / 10.0;
    assert 98.0 * Rounding.Scale(-1) == 9.8;
    assert (9.8).Floor == 9;
    assert Rounding.FloorIndex(98.0, -1) == 9;
  }
}
