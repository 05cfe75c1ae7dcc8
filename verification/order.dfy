/** Spot order construction: the query parameters of limit, market and
    stop-limit orders, and the commission-adjusted average price of a fill.
    Timestamps are the caller's clock reading `now` (milliseconds). */
module Orders {
  import opened Wrappers
  import opened Types
  import opened Binance

  /** One fill of an order response; the exchange's text fields are given as
      parsed numbers. */
  datatype Fill = Fill(price: real, qty: real, commission: real, commissionAsset: string)

  datatype OrderError = UnknownPosition

  /** `Fill::get_ave_price_with_commision`: what one unit cost once the
      commission is added, (qty·price + commission) / qty. A zero quantity has
      no such price. */
  function AvePriceWithCommission(f: Fill): (r: Option<real>)
    ensures r.None? <==> f.qty == 0.0
    ensures r.Some? ==> r.value * f.qty == f.qty * f.price + f.commission
  {
    if f.qty == 0.0 then None
    else
      var r := (f.qty * f.price + f.commission) / f.qty;
      assert r * f.qty == f.qty * f.price + f.commission;
      Some(r)
  }

  /** A non-negative commission never makes the adjusted price lower than the
      fill price, and with no commission the two are equal. */
  lemma CommissionRaisesPrice(f: Fill)
    requires f.qty > 0.0
    ensures f.commission >= 0.0 ==> AvePriceWithCommission(f).value >= f.price
    ensures f.commission == 0.0 ==> AvePriceWithCommission(f).value == f.price
  {
    var r := AvePriceWithCommission(f).value;
    assert (r - f.price) * f.qty == f.commission;
  }

  /** The keys every order of this module carries. */
  predicate HasSymbolAndTime(p: Params, symbol: string, now: nat) {
    "symbol" in p && p["symbol"] == Text(symbol) && "timestamp" in p && p["timestamp"] == Stamp(now)
  }

  /** `place_limit_order_internal`: a good-till-cancelled LIMIT order. The side
      is first set to SELL and then overwritten with BUY for a Long, so every
      other position — even no position — sells. */
  function LimitOrderParams(symbol: string, position: PositionType, qty: real, price: real,
                            now: nat): (r: Params)
    ensures r.Keys == {"symbol", "side", "timeInForce", "type", "quantity", "price", "timestamp"}
    ensures HasSymbolAndTime(r, symbol, now)
    ensures r["side"] == (if position == Long then Text("BUY") else Text("SELL"))
    ensures r["type"] == Text("LIMIT") && r["timeInForce"] == Text("GTC")
    ensures r["quantity"] == Num(qty) && r["price"] == Num(price)
  {
    var p := map["symbol" := Text(symbol), "side" := Text("SELL"), "timeInForce" := Text("GTC"),
                 "type" := Text("LIMIT"), "quantity" := Num(qty), "price" := Num(price)];
    var p := if position == Long then p["side" := Text("BUY")]
             else if position == Short then p["side" := Text("SELL")]
             else p;
    p["timestamp" := Stamp(now)]
  }

  /** The market-order part of `place_order_quantity`: BUY for Long, SELL for
      Short; no position is refused (a panic in the source). */
  function MarketOrderParams(symbol: string, position: PositionType, qty: real,
                             now: nat): (r: Result<Params, OrderError>)
    ensures r.Err? <==> position == NoPosition
    ensures r.Ok? ==>
      && r.value.Keys == {"symbol", "side", "quantity", "type", "timestamp"}
      && HasSymbolAndTime(r.value, symbol, now)
      && r.value["side"] == (if position == Long then Text("BUY") else Text("SELL"))
      && r.value["type"] == Text("MARKET") && r.value["quantity"] == Num(qty)
  {
    if position == NoPosition then Err(UnknownPosition)
    else
      var side := if position == Long then Text("BUY") else Text("SELL");
      Ok(map["symbol" := Text(symbol), "side" := side, "quantity" := Num(qty),
             "type" := Text("MARKET"), "timestamp" := Stamp(now)])
  }

  /** `place_order_quantity`: a limit order exactly when a limit price is given. */
  function PlaceOrderQuantity(symbol: string, position: PositionType, qty: real,
                              limit: Option<real>, now: nat): (r: Result<Params, OrderError>)
    ensures r.Ok? ==> {"symbol", "side", "quantity", "type", "timestamp"} <= r.value.Keys
    ensures r.Ok? ==> HasSymbolAndTime(r.value, symbol, now) && r.value["quantity"] == Num(qty)
    ensures r.Ok? ==> (r.value["type"] == Text("LIMIT") <==> limit.Some?)
    ensures limit.Some? ==> r.Ok? && "price" in r.value && r.value["price"] == Num(limit.value)
    ensures limit.None? ==> (r.Err? <==> position == NoPosition)
  {
    if limit.Some? then Ok(LimitOrderParams(symbol, position, qty, limit.value, now))
    else MarketOrderParams(symbol, position, qty, now)
  }

  /** The two order kinds agree on the side of a Long or a Short; for no
      position the limit order sells while the market order is refused. */
  lemma SidesAgree(symbol: string, position: PositionType, qty: real, price: real, now: nat)
    ensures position != NoPosition ==>
      LimitOrderParams(symbol, position, qty, price, now)["side"]
      == MarketOrderParams(symbol, position, qty, now).value["side"]
    ensures position == NoPosition ==>
      LimitOrderParams(symbol, position, qty, price, now)["side"] == Text("SELL")
      && MarketOrderParams(symbol, position, qty, now).Err?
  {
  }

  /** `place_stop_limit`: always a good-till-cancelled SELL of type
      STOP_LOSS_LIMIT that triggers at `trigger` and is priced at `limit`. */
  function StopLimitParams(symbol: string, qty: real, trigger: real, limit: real,
                           now: nat): (r: Params)
    ensures r.Keys == {"symbol", "side", "quantity", "type", "timeInForce", "stopPrice", "price", "timestamp"}
    ensures HasSymbolAndTime(r, symbol, now)
    ensures r["side"] == Text("SELL") && r["type"] == Text("STOP_LOSS_LIMIT")
    ensures r["timeInForce"] == Text("GTC")
    ensures r["quantity"] == Num(qty) && r["stopPrice"] == Num(trigger) && r["price"] == Num(limit)
  {
    map["symbol" := Text(symbol), "side" := Text("SELL"), "quantity" := Num(qty),
        "type" := Text("STOP_LOSS_LIMIT"), "timeInForce" := Text("GTC"),
        "stopPrice" := Num(trigger), "price" := Num(limit), "timestamp" := Stamp(now)]
  }

  /** A spot order sent through `send_order` keeps its symbol, side and
      timestamp and gains the ACK response type. */
  lemma SentOrderKeepsFields(cfg: ApiConfig, symbol: string, position: PositionType, qty: real,
                             limit: Option<real>, now: nat)
    requires "ORDER" in cfg.endpoints
    requires PlaceOrderQuantity(symbol, position, qty, limit, now).Ok?
    ensures var p := PlaceOrderQuantity(symbol, position, qty, limit, now).value;
      var q := SendOrder(cfg, p, false).value.params.value;
      HasSymbolAndTime(q, symbol, now) && q["side"] == p["side"]
      && q["newOrderRespType"] == Text("ACK")
  {
  }
}
