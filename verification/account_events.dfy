/** The account manager's event thread: the local view of balances and
    positions it keeps up to date from the user-data stream, the running
    trade bookkeeping (fills, average buy price, commission, profit and
    loss), the stop-loss it places once a buy has settled, and the release of
    an order waiting on a cancellation. Stream decoding and exchange lookups
    are parameters: an event arrives already decoded. */
module AccountEvents {
  import opened Wrappers
  import opened Types
  import Utils
  import Binance
  import AccountManager

  /** A decoded `executionReport`. `price` is the value of `priceText`;
      `usdtPrice` is the exchange's answer for the commission asset's USDT
      price, used only when the commission is in a third asset. */
  datatype Report = Report(
    symbol: string,
    side: string,
    orderType: string,
    status: string,
    cumlQty: real,
    price: real,
    priceText: string,
    commission: real,
    commissionAsset: string,
    usdtPrice: Result<real, int>)

  datatype Event =
    | BalanceUpdate(asset: string, delta: Option<real>)
    | AccountPosition(updated: seq<Balance>)
    | ExecutionReport(report: Report)
    | Unexpected

  datatype EventState = EventState(
    balances: map<string, Balance>,
    positions: map<string, Position>,
    waitingOnCancel: bool,
    cancelledOrder: bool,
    tradeBuyPrice: Option<real>,
    aveBuyPrice: Option<real>,
    tradeSellPrice: Option<real>,
    commissionUsdt: Option<real>,
    totalBuyQty: Option<real>,
    priceDps: Option<nat>,
    cumlPnl: real,
    cumlCommission: real,
    fills: nat,
    buyIsFilled: bool,
    buySymbol: string)

  /** The outcome of a completed sell, as written to the trade log. */
  datatype TradeResult = TradeResult(symbol: string, pnl: real, win: bool)

  datatype Effects = Effects(state: EventState, stopOrders: seq<Binance.Params>, result: Option<TradeResult>)

  /** The event thread's assertion that a bought symbol holds no position yet,
      and the unwrap of an average buy price a cancellation has cleared. */
  datatype EventPanic = PositionAlreadyOpen(symbol: string) | StopWithoutBuyPrice

  /** The facts the event thread relies on when it unwraps: an average buy
      price and a pending stop both come with the price decimals and the
      bought quantity, all set by the same buy fill. */
  predicate Inv(s: EventState) {
    && (s.aveBuyPrice.Some? ==> s.priceDps.Some? && s.totalBuyQty.Some?)
    && (s.buyIsFilled ==> s.priceDps.Some? && s.totalBuyQty.Some?)
    && (s.priceDps.Some? ==> s.priceDps.value < 256)
  }

  /** The balances kept at start-up: every asset with something free or
      locked, a later entry for the same asset replacing an earlier one. */
  function InitialBalances(remote: seq<Balance>): (r: map<string, Balance>)
    ensures forall a :: a in r ==> r[a].asset == a && (r[a].free != 0.0 || r[a].locked != 0.0)
  {
    if |remote| == 0 then map[]
    else
      var r := InitialBalances(remote[..|remote| - 1]);
      var b := remote[|remote| - 1];
      if b.free != 0.0 || b.locked != 0.0 then r[b.asset := b] else r
  }

  predicate Held(b: Balance) {
    b.free != 0.0 || b.locked != 0.0
  }

  /** An asset is kept exactly when some held balance names it, and it keeps
      the last such balance. */
  lemma {:induction false} InitialBalancesContents(remote: seq<Balance>, a: string)
    ensures a in InitialBalances(remote) <==> exists i :: 0 <= i < |remote| && remote[i].asset == a && Held(remote[i])
    ensures a in InitialBalances(remote) ==>
      exists i :: 0 <= i < |remote| && InitialBalances(remote)[a] == remote[i]
        && forall j :: i < j < |remote| ==> !(remote[j].asset == a && Held(remote[j]))
  {
    if |remote| > 0 {
      var init := remote[..|remote| - 1];
      InitialBalancesContents(init, a);
      var b := remote[|remote| - 1];
      if b.asset == a && Held(b) {
        assert remote[|remote| - 1] == b;
      } else {
        if exists i :: 0 <= i < |remote| && remote[i].asset == a && Held(remote[i]) {
          var i :| 0 <= i < |remote| && remote[i].asset == a && Held(remote[i]);
          assert i < |remote| - 1 && init[i] == remote[i];
        }
        if a in InitialBalances(remote) {
          var i :| 0 <= i < |init| && InitialBalances(init)[a] == init[i]
            && forall j :: i < j < |init| ==> !(init[j].asset == a && Held(init[j]));
          assert remote[i] == init[i];
          forall j | i < j < |remote| ensures !(remote[j].asset == a && Held(remote[j])) {
            if j < |init| { assert remote[j] == init[j]; }
          }
        }
      }
    }
  }

  function Start(remote: seq<Balance>): (s: EventState)
    ensures Inv(s) && s.waitingOnCancel && !s.buyIsFilled && s.fills == 0 && s.positions == map[]
  {
    EventState(InitialBalances(remote), map[], true, false, None, None, None, None, None, None,
               0.0, 0.0, 0, false, "NOSYMBOL")
  }

  /** Each updated balance replaces the local entry for its asset. */
  function Overwrite(balances: map<string, Balance>, updated: seq<Balance>): (r: map<string, Balance>)
    ensures r.Keys == balances.Keys + set b | b in updated :: b.asset
    decreases |updated|
  {
    if |updated| == 0 then balances
    else Overwrite(balances[updated[0].asset := updated[0]], updated[1..])
  }

  /** The commission of one fill, in USDT. */
  function FillCommission(r: Report): real {
    AccountManager.CommissionUsdt(r.commissionAsset, r.commission, r.price, r.symbol, r.usdtPrice)
  }

  /** One event of the user-data stream. `stopPercent` is the stop slot the
      order thread last set. */
  function Step(s: EventState, e: Event, stopPercent: Option<real>, now: nat): (r: Result<Effects, EventPanic>)
    requires Inv(s)
    ensures r.Err? <==>
      || (e.ExecutionReport? && e.report.status == "FILLED" && e.report.side == "BUY"
          && e.report.symbol in s.positions)
      || (e.AccountPosition? && |e.updated| > 0 && s.buyIsFilled && stopPercent.Some? && s.aveBuyPrice.None?)
    ensures r.Ok? ==> Inv(r.value.state)
    ensures r.Ok? && |r.value.stopOrders| > 0 ==> e.AccountPosition? && s.buyIsFilled && |r.value.stopOrders| == 1
    ensures r.Ok? && r.value.result.Some? ==> e.ExecutionReport? && e.report.status == "FILLED"
  {
    match e
    case Unexpected => Ok(Effects(s, [], None))
    case BalanceUpdate(asset, delta) =>
      if asset in s.balances then
        var b := s.balances[asset];
        Ok(Effects(s.(balances := s.balances[asset := b.(free := b.free + delta.UnwrapOr(0.0))]), [], None))
      else Ok(Effects(s, [], None))
    case AccountPosition(updated) => AccountPositionStep(s, updated, stopPercent, now)
    case ExecutionReport(rep) =>
      if rep.status == "CANCELED" then Ok(Effects(CanceledStep(s, rep), [], None))
      else if rep.status == "FILLED" then FilledStep(s, rep)
      else if rep.status == "PARTIALLY_FILLED" then Ok(Effects(PartialFillStep(s, rep), [], None))
      else Ok(Effects(s, [], None))
  }

  /** `outboundAccountPosition`: overwrite the updated balances; after a
      completed buy, place the stop (a panic without an average buy price);
      a pending cancellation releases the order thread. */
  function AccountPositionStep(s: EventState, updated: seq<Balance>, stopPercent: Option<real>, now: nat)
    : (r: Result<Effects, EventPanic>)
    requires Inv(s)
    ensures r.Err? <==> |updated| > 0 && s.buyIsFilled && stopPercent.Some? && s.aveBuyPrice.None?
    ensures r.Ok? ==> Inv(r.value.state) && r.value.result.None?
    ensures r.Ok? && |r.value.stopOrders| > 0 ==> s.buyIsFilled && |r.value.stopOrders| == 1
  {
    var balances := Overwrite(s.balances, updated);
    var stopDue := |updated| > 0 && s.buyIsFilled && stopPercent.Some?;
    if stopDue && s.aveBuyPrice.None? then Err(StopWithoutBuyPrice)
    else
      var stops := if stopDue then
        [AccountManager.StopOrderParams(s.buySymbol, s.totalBuyQty.value, s.aveBuyPrice.value,
                                        stopPercent.value, s.priceDps.value, now)]
        else [];
      var released := s.cancelledOrder;
      Ok(Effects(s.(balances := balances,
                    buyIsFilled := s.buyIsFilled && |updated| == 0,
                    waitingOnCancel := if released then false else s.waitingOnCancel,
                    cancelledOrder := false), stops, None))
  }

  /** A CANCELED report: the cancellation is noted, the fill count reset and
      the bought symbol's position dropped; unless a stop was cancelled, the
      trade's prices and commission are forgotten as well. */
  function CanceledStep(s: EventState, rep: Report): (r: EventState)
    requires Inv(s)
    ensures Inv(r)
  {
    var t := s.(cancelledOrder := true, fills := 0, positions := s.positions - {s.buySymbol});
    if rep.orderType != "STOP_LOSS_LIMIT" then
      t.(tradeBuyPrice := None, tradeSellPrice := None, aveBuyPrice := None, commissionUsdt := None)
    else t
  }

  /** A FILLED report. A buy records the average buy price over the fills
      and opens the position (a panic when one is already open); a sell
      closes the position and reports the trade's result when a buy price is
      known. Both add the fill's commission to the trade's and to the
      cumulative total. */
  function FilledStep(s: EventState, rep: Report): (r: Result<Effects, EventPanic>)
    requires Inv(s)
    ensures r.Err? <==> rep.side == "BUY" && rep.symbol in s.positions
    ensures r.Ok? ==> Inv(r.value.state) && r.value.stopOrders == []
  {
    var fills := s.fills + 1;
    var commission := s.commissionUsdt.UnwrapOr(0.0) + FillCommission(rep);
    var t := s.(commissionUsdt := Some(commission), cumlCommission := s.cumlCommission + commission);
    if rep.side == "BUY" then
      var ave := (rep.price + s.tradeBuyPrice.UnwrapOr(0.0)) / fills as real;
      if rep.symbol in s.positions then Err(PositionAlreadyOpen(rep.symbol))
      else
        Ok(Effects(t.(priceDps := Some(Utils.DecimalPlaces(rep.priceText)),
                      aveBuyPrice := Some(ave),
                      totalBuyQty := Some(rep.cumlQty),
                      buySymbol := rep.symbol,
                      fills := 0,
                      tradeBuyPrice := None,
                      buyIsFilled := true,
                      positions := s.positions[rep.symbol := Position(Long, rep.cumlQty, ave)]),
                   [], None))
    else
      var asp := (rep.price + s.tradeSellPrice.UnwrapOr(0.0)) / fills as real;
      var result := if s.aveBuyPrice.Some? then
          var abp := s.aveBuyPrice.value;
          Some(TradeResult(rep.symbol, rep.cumlQty * (asp - abp) - commission, abp < asp))
        else None;
      var pnl := if result.Some? then result.value.pnl else 0.0;
      Ok(Effects(t.(positions := s.positions - {s.buySymbol},
                    cumlPnl := s.cumlPnl + pnl,
                    fills := 0,
                    tradeSellPrice := None,
                    commissionUsdt := None), [], result))
  }

  /** A PARTIALLY_FILLED report: count the fill, add its commission, and add
      its price to the running buy or sell price sum. */
  function PartialFillStep(s: EventState, rep: Report): (r: EventState)
    requires Inv(s)
    ensures Inv(r)
  {
    var commission := s.commissionUsdt.UnwrapOr(0.0) + FillCommission(rep);
    var t := s.(fills := s.fills + 1, commissionUsdt := Some(commission),
                cumlCommission := s.cumlCommission + commission);
    if rep.side == "BUY" then
      t.(tradeBuyPrice := Some(rep.price + s.tradeBuyPrice.UnwrapOr(0.0)))
    else
      t.(tradeSellPrice := Some(rep.price + s.tradeSellPrice.UnwrapOr(0.0)))
  }

  /** An asset no update mentions keeps its entry. */
  lemma {:induction false} OverwriteKeepsUntouched(balances: map<string, Balance>, updated: seq<Balance>, a: string)
    requires a in balances
    requires forall i :: 0 <= i < |updated| ==> updated[i].asset != a
    ensures a in Overwrite(balances, updated) && Overwrite(balances, updated)[a] == balances[a]
    decreases |updated|
  {
    if |updated| > 0 {
      var next := balances[updated[0].asset := updated[0]];
      assert forall j :: 0 <= j < |updated[1..]| ==> updated[1..][j] == updated[j + 1];
      OverwriteKeepsUntouched(next, updated[1..], a);
    }
  }

  /** The last update for an asset is the entry it ends up with. */
  lemma {:induction false} OverwriteLastUpdateWins(balances: map<string, Balance>, updated: seq<Balance>, i: nat)
    requires i < |updated|
    requires forall j :: i < j < |updated| ==> updated[j].asset != updated[i].asset
    ensures updated[i].asset in Overwrite(balances, updated)
    ensures Overwrite(balances, updated)[updated[i].asset] == updated[i]
    decreases |updated|
  {
    var next := balances[updated[0].asset := updated[0]];
    assert forall j :: 0 <= j < |updated[1..]| ==> updated[1..][j] == updated[j + 1];
    if i == 0 {
      OverwriteKeepsUntouched(next, updated[1..], updated[0].asset);
    } else {
      OverwriteLastUpdateWins(next, updated[1..], i - 1);
    }
  }

  /** A balance update moves only the named asset's free amount, and only
      for an asset already known. */
  lemma BalanceUpdateTouchesOneAsset(s: EventState, asset: string, delta: Option<real>, stopPercent: Option<real>, now: nat)
    requires Inv(s)
    ensures var r := Step(s, BalanceUpdate(asset, delta), stopPercent, now);
      && r.Ok? && r.value.stopOrders == [] && r.value.state.balances.Keys == s.balances.Keys
      && r.value.state == s.(balances := r.value.state.balances)
      && (forall a :: a in s.balances && a != asset ==> r.value.state.balances[a] == s.balances[a])
      && (asset in s.balances ==>
           r.value.state.balances[asset].free == s.balances[asset].free + delta.UnwrapOr(0.0)
           && r.value.state.balances[asset].locked == s.balances[asset].locked)
  {
  }

  /** A sequence of events, stopped by the first panic. The stop orders of all
      steps are collected; `result` is the last completed trade. */
  function Run(s: EventState, es: seq<Event>, stopPercent: Option<real>, now: nat): (r: Result<Effects, EventPanic>)
    requires Inv(s)
    ensures r.Ok? ==> Inv(r.value.state)
    decreases |es|
  {
    if |es| == 0 then Ok(Effects(s, [], None))
    else
      match Step(s, es[0], stopPercent, now)
      case Err(p) => Err(p)
      case Ok(first) =>
        match Run(first.state, es[1..], stopPercent, now)
        case Err(p) => Err(p)
        case Ok(rest) =>
          Ok(Effects(rest.state, first.stopOrders + rest.stopOrders,
                     if rest.result.Some? then rest.result else first.result))
  }

  function Reports(reps: seq<Report>): (es: seq<Event>)
    ensures |es| == |reps| && forall i :: 0 <= i < |reps| ==> es[i] == ExecutionReport(reps[i])
  {
    seq(|reps|, i requires 0 <= i < |reps| => ExecutionReport(reps[i]))
  }

  predicate PartialBuy(r: Report) {
    r.status == "PARTIALLY_FILLED" && r.side == "BUY"
  }

  function SumPrices(reps: seq<Report>): real {
    if |reps| == 0 then 0.0 else reps[0].price + SumPrices(reps[1..])
  }

  /** Partial buy fills count up and add their prices to the running sum,
      touching no position. */
  lemma {:induction false} PartialBuysAccumulate(s: EventState, reps: seq<Report>, stopPercent: Option<real>, now: nat)
    requires Inv(s)
    requires forall i :: 0 <= i < |reps| ==> PartialBuy(reps[i])
    ensures var r := Run(s, Reports(reps), stopPercent, now);
      && r.Ok?
      && r.value.state.fills == s.fills + |reps|
      && r.value.state.tradeBuyPrice.UnwrapOr(0.0) == s.tradeBuyPrice.UnwrapOr(0.0) + SumPrices(reps)
      && (|reps| > 0 ==> r.value.state.tradeBuyPrice.Some?)
      && r.value.state.positions == s.positions
    decreases |reps|
  {
    if |reps| > 0 {
      var first := Step(s, ExecutionReport(reps[0]), stopPercent, now).value.state;
      assert Reports(reps)[1..] == Reports(reps[1..]);
      PartialBuysAccumulate(first, reps[1..], stopPercent, now);
    }
  }

  /** The average of a sequence of fill prices. */
  function Mean(prices: seq<real>): (m: real)
    requires |prices| > 0
  {
    SumOf(prices) / |prices| as real
  }

  function SumOf(xs: seq<real>): real {
    if |xs| == 0 then 0.0 else xs[0] + SumOf(xs[1..])
  }

  lemma {:induction false} SumOfAppend(xs: seq<real>, x: real)
    ensures SumOf(xs + [x]) == SumOf(xs) + x
  {
    if |xs| > 0 {
      assert (xs + [x])[1..] == xs[1..] + [x];
      SumOfAppend(xs[1..], x);
    }
  }

  function Prices(reps: seq<Report>): (ps: seq<real>)
    ensures |ps| == |reps| && forall i :: 0 <= i < |reps| ==> ps[i] == reps[i].price
  {
    seq(|reps|, i requires 0 <= i < |reps| => reps[i].price)
  }

  lemma {:induction false} SumPricesIsSumOf(reps: seq<Report>)
    ensures SumPrices(reps) == SumOf(Prices(reps))
  {
    if |reps| > 0 {
      assert Prices(reps)[1..] == Prices(reps[1..]);
      SumPricesIsSumOf(reps[1..]);
    }
  }

  /** After partial buy fills and the final fill of a fresh order, the
      position is opened at the mean price of all fills, and a stop becomes due. */
  lemma AveBuyPriceIsMeanOfFills(s: EventState, partials: seq<Report>, last: Report, stopPercent: Option<real>, now: nat)
    requires Inv(s) && s.fills == 0 && s.tradeBuyPrice.None?
    requires forall i :: 0 <= i < |partials| ==> PartialBuy(partials[i])
    requires last.status == "FILLED" && last.side == "BUY" && last.symbol !in s.positions
    ensures var mid := Run(s, Reports(partials), stopPercent, now);
      && mid.Ok?
      && var r := Step(mid.value.state, ExecutionReport(last), stopPercent, now);
      && r.Ok?
      && var ave := Mean(Prices(partials + [last]));
      && r.value.state.aveBuyPrice.Some? && r.value.state.aveBuyPrice.value == ave
      && r.value.state.positions == s.positions[last.symbol := Position(Long, last.cumlQty, ave)]
      && r.value.state.buyIsFilled && r.value.state.fills == 0 && r.value.state.buySymbol == last.symbol
  {
    PartialBuysAccumulate(s, partials, stopPercent, now);
    var m := Run(s, Reports(partials), stopPercent, now).value.state;
    SumPricesIsSumOf(partials);
    var all := Prices(partials + [last]);
    assert all == Prices(partials) + [last.price];
    SumOfAppend(Prices(partials), last.price);
    var ave := (last.price + m.tradeBuyPrice.UnwrapOr(0.0)) / (m.fills + 1) as real;
    assert ave == Mean(all);
    assert Step(m, ExecutionReport(last), stopPercent, now) == FilledStep(m, last);
  }

  /** The account update that follows a buy places the stop-loss below the
      average price paid, for the bought quantity, and clears the pending flag. */
  lemma AccountUpdateAfterBuyPlacesStop(s: EventState, b: Balance, stop: real, now: nat)
    requires Inv(s) && s.buyIsFilled && s.aveBuyPrice.Some?
    ensures var r := Step(s, AccountPosition([b]), Some(stop), now);
      && r.Ok? && !r.value.state.buyIsFilled
      && r.value.stopOrders == [AccountManager.StopOrderParams(s.buySymbol, s.totalBuyQty.value,
           s.aveBuyPrice.value, stop, s.priceDps.value, now)]
      && r.value.stopOrders[0]["stopPrice"]
         == Binance.Num(AccountManager.StopPrices(s.aveBuyPrice.value, stop, s.priceDps.value).0)
  {
  }

  /** Without a stop percentage the same update places nothing. */
  lemma AccountUpdateWithoutStop(s: EventState, updated: seq<Balance>, now: nat)
    requires Inv(s)
    ensures var r := Step(s, AccountPosition(updated), None, now);
      r.Ok? && r.value.stopOrders == [] && (|updated| > 0 ==> !r.value.state.buyIsFilled)
  {
  }

  /** The final sell fill closes the bought symbol's position; a trade result
      is produced exactly when an average buy price is known, and it is a win
      exactly when the average sell price is above it. */
  lemma SellFillClosesPosition(s: EventState, rep: Report, stopPercent: Option<real>, now: nat)
    requires Inv(s) && rep.status == "FILLED" && rep.side != "BUY"
    ensures var r := Step(s, ExecutionReport(rep), stopPercent, now);
      && r.Ok?
      && r.value.state.positions == s.positions - {s.buySymbol}
      && s.buySymbol !in r.value.state.positions
      && (r.value.result.Some? <==> s.aveBuyPrice.Some?)
      && r.value.state.fills == 0 && r.value.state.commissionUsdt.None?
      && var asp := (rep.price + s.tradeSellPrice.UnwrapOr(0.0)) / (s.fills + 1) as real;
      && var commission := s.commissionUsdt.UnwrapOr(0.0) + FillCommission(rep);
      && (r.value.result.Some? ==> (r.value.result.value.win <==> s.aveBuyPrice.value < asp))
      && (r.value.result.Some? ==>
            r.value.result.value.pnl == rep.cumlQty * (asp - s.aveBuyPrice.value) - commission)
      && r.value.state.cumlPnl == s.cumlPnl + (if r.value.result.Some? then r.value.result.value.pnl else 0.0)
      && r.value.state.cumlCommission == s.cumlCommission + commission
      && r.value.state.aveBuyPrice == s.aveBuyPrice
  {
  }

  /** With no commission, a win is exactly a positive profit. */
  lemma WinIffProfitWithoutCommission(s: EventState, rep: Report, stopPercent: Option<real>, now: nat)
    requires Inv(s) && rep.status == "FILLED" && rep.side != "BUY"
    requires s.aveBuyPrice.Some? && s.commissionUsdt.None? && FillCommission(rep) == 0.0 && rep.cumlQty > 0.0
    ensures var r := Step(s, ExecutionReport(rep), stopPercent, now).value;
      r.result.Some? && (r.result.value.win <==> r.result.value.pnl > 0.0)
  {
    var asp := (rep.price + s.tradeSellPrice.UnwrapOr(0.0)) / (s.fills + 1) as real;
    var abp := s.aveBuyPrice.value;
    var pnl := rep.cumlQty * (asp - abp);
    assert Step(s, ExecutionReport(rep), stopPercent, now).value.result.value.pnl == pnl;
    if abp < asp {
      assert pnl > 0.0;
    } else {
      assert asp - abp <= 0.0;
      assert pnl <= 0.0;
    }
  }

  /** A cancellation followed by the account update it triggers releases an
      order thread waiting on the cancel, and drops the bought symbol's position. */
  lemma CancelThenUpdateReleasesWaiter(s: EventState, rep: Report, updated: seq<Balance>, now: nat)
    requires Inv(s) && rep.status == "CANCELED"
    ensures var c := Step(s, ExecutionReport(rep), None, now);
      && c.Ok? && c.value.state.cancelledOrder
      && s.buySymbol !in c.value.state.positions
      && (rep.orderType == "STOP_LOSS_LIMIT" ==> c.value.state.aveBuyPrice == s.aveBuyPrice)
      && (rep.orderType != "STOP_LOSS_LIMIT" ==>
           c.value.state.aveBuyPrice.None? && c.value.state.tradeBuyPrice.None? && c.value.state.commissionUsdt.None?)
      && var u := Step(c.value.state, AccountPosition(updated), None, now);
      && u.Ok? && !u.value.state.waitingOnCancel && !u.value.state.cancelledOrder
  {
  }

  /** The running commission is added to the cumulative total at every fill,
      so two fills paying c each add 3c to it, not 2c. */
  lemma CumulativeCommissionCountsRunningTotal(s: EventState, r1: Report, r2: Report, now: nat)
    requires Inv(s) && s.commissionUsdt.None?
    requires PartialBuy(r1) && PartialBuy(r2)
    requires FillCommission(r1) == FillCommission(r2)
    ensures var c := FillCommission(r1);
      var first := Step(s, ExecutionReport(r1), None, now);
      && first.Ok?
      && var second := Step(first.value.state, ExecutionReport(r2), None, now);
      && second.Ok?
      && second.value.state.commissionUsdt == Some(2.0 * c)
      && second.value.state.cumlCommission == s.cumlCommission + 3.0 * c
  {
  }

  /** A buy that settles, a cancellation of some other order before the
      account update, and then the update with a stop set: the average buy
      price the stop needs has been cleared, and the event thread panics. */
  lemma CancelBeforeAccountUpdatePanics(s: EventState, buy: Report, cancel: Report, b: Balance, stop: real, now: nat)
    requires Inv(s) && buy.status == "FILLED" && buy.side == "BUY" && buy.symbol !in s.positions
    requires cancel.status == "CANCELED" && cancel.orderType != "STOP_LOSS_LIMIT"
    ensures Run(s, [ExecutionReport(buy), ExecutionReport(cancel), AccountPosition([b])], Some(stop), now)
            == Err(StopWithoutBuyPrice)
  {
    var es := [ExecutionReport(buy), ExecutionReport(cancel), AccountPosition([b])];
    var s1 := Step(s, es[0], Some(stop), now).value.state;
    assert s1.buyIsFilled;
    var s2 := Step(s1, es[1], Some(stop), now).value.state;
    assert s2.buyIsFilled && s2.aveBuyPrice.None?;
    assert Step(s2, AccountPosition([b]), Some(stop), now) == Err(StopWithoutBuyPrice);
    assert es[1..] == [ExecutionReport(cancel), AccountPosition([b])];
    assert es[1..][1..] == [AccountPosition([b])];
    assert Run(s2, es[1..][1..], Some(stop), now) == Err(StopWithoutBuyPrice);
  }

  /** A second buy fill for a symbol that already holds a position trips the
      event thread's assertion. */
  lemma SecondBuyOfSameSymbolPanics(s: EventState, buy: Report, stopPercent: Option<real>, now: nat)
    requires Inv(s) && buy.status == "FILLED" && buy.side == "BUY"
    requires s.fills == 0 && s.tradeBuyPrice.None? && buy.symbol !in s.positions
    ensures var first := Step(s, ExecutionReport(buy), stopPercent, now);
      first.Ok? && Step(first.value.state, ExecutionReport(buy), stopPercent, now) == Err(PositionAlreadyOpen(buy.symbol))
  {
  }
}
