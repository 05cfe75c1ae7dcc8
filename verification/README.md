# ct trading bot — a Dafny model of its decision and arithmetic core

This project models the sequential core of the `ct` crypto trading bot for
the Binance exchange, and proves properties of that model:

- the moving-average indicator engine (`MAData`, `MACD`) and its three
  signal detectors (moving-average cross, trend change, MACD);
- the market-data decision layer: candle-colour confirmation, take-profit
  override, per-signal indicator feeding, limit-price computation, the
  historical warm-up, and the validation of a strategy's options;
- the account manager: position lookup, commission normalisation, order
  sizing with the minimum-notional gate, the bounded cancel wait, stop-price
  arithmetic, and the account-event handler as a step function over a state
  record (balances, positions, fill trackers, the pending cancel and the
  waiting flag);
- order parameter construction for limit, market and stop-limit orders;
- the isolated-margin `trade` procedure and its order builders, and the
  spot and leveraged-token (BVLT) trading threads;
- the small parsers: trading-pair names, `decimal_places`, the endpoint
  list and Dryrun switch of the configuration, the enabled-strategy list,
  balance lookup, and the exchange client's URI routing and retry policy.

Prices, quantities and percentages are mathematical reals, so there is no
floating-point error; `math::round::floor` and `ceil` at `d` decimal places
are the exact floor and ceiling on the grid of multiples of 10^-d
(module `Rounding`). Everything the bot asks the exchange (a price, an
account read, an order reply) is a parameter of the function that uses
it. Panics that data can trigger (an `unwrap`, `assert!` or `expect` on a
value a caller or the exchange supplies) are `Err` results. The threads'
receive loops are step functions plus a fold over the messages received.

Modules, one per source file, plus shared helpers:

| module | file | models |
|---|---|---|
| `Wrappers`, `Strings`, `Rounding`, `Types` | wrappers.dfy, strings.dfy, rounding.dfy, types.dfy | Option/Result, the string functions of Rust's standard library, decimal rounding, shared enums and parameter maps |
| `MovingAverage` | ma.dfy | src/ma.rs |
| `MarketData` | process_md.dfy | src/process_md.rs (decision layer, warm-up, live step, BVLT grouping) |
| `StrategyOptions` | strategy_options.dfy | the option checks of `run_strategy` in src/process_md.rs |
| `AccountManager` | account_manager.dfy | src/account_manager.rs (position lookup, commission, order thread, stop order) |
| `AccountEvents` | account_events.dfy | the event handler of src/account_manager.rs |
| `Orders` | order.dfy | src/order.rs |
| `Margin` | margin.dfy | src/margin.rs |
| `Trading` | trading.dfy | src/trading.rs |
| `TradingPairs` | tradingpair.dfy | src/tradingpair.rs |
| `Utils` | utils.dfy | `decimal_places` of src/utils.rs |
| `Config` | config.dfy | src/config.rs |
| `Strategy` | strategy.dfy | src/strategy.rs |
| `Account` | account.dfy | src/account.rs |
| `Binance` | binance.dfy | request building in src/binance.rs |

### Behaviour reproduced as the code has it

- The trend-change detector compares the slow average's latest value with
  the fast average's history. Under the trend signal the slow average is
  never fed, so that detector never fires; only take-profit can trade
  (`MarketData.TrendSignalNeverFires`).
- The confirmation result only decides a log line. It never suppresses a
  decision (`MarketData.DecisionIgnoresConfirmation`).
- The history pops its newest entry whenever the confirmation count equals
  the vector's capacity. With a count K ≥ 1 it therefore holds one colour.
  With K = 0 the capacity grows on the first push, so it accumulates
  (`MarketData.ZeroConfirmationCandlesAccumulate`).
- During live streaming the previous close is the one the warm-up ended
  with; it is never updated (`MarketData.LiveStep`).
- In the warm-up, the previous close of candle `idx` is read from position
  `idx - 1` of the whole list. After an unparsable candle was skipped, that
  can be the unparsable one, and the unwrap panics
  (`MarketData.SkippedFirstCandlePanics`).
- A price's decimal count wraps at 256 when cast to `u8`
  (`Utils.DecimalPlacesWraps`). The event handler places the stop after a
  filled buy. It rounds the stop price at the decimal count of the fill
  price's text, converted from `u8` to `i8`, which wraps too
  (`AccountManager.StopPricesWrappedDecimals`).
- Every fill adds the trade's running commission total to the cumulative
  commission, not just its own commission. A fill's commission is therefore
  counted again at each later fill of the same trade
  (`AccountEvents.CumulativeCommissionCountsRunningTotal`).
- `close_long_position` reports an error when there is no debt to repay
  (`Margin.UnleveragedShortStopsAfterSale`).
- A short's stop is placed with the negated stop percentage, so it is a
  SELL above the fill price (`Margin.ShortStopAboveFill`).
- In the BVLT thread an Up round prices both limits from the close of the
  message that completed the round. A Down round always trades at market.
- A CANCELED report releases the order thread's wait only at the next
  account update, not at once (`AccountEvents.CancelThenUpdateReleasesWaiter`).

### Stop prices, and gaps in the source

- For a 100.00 fill, the event handler's stop with a 2 % stop percentage
  gives trigger and limit 98 and 98 (`AccountManager.StopPricesExample`).
  The margin module's stop with a 2-tick stop gives trigger 99.98 and
  limit 99.97 (`Margin.StopLossExample`).
- src/margin.rs and src/trading.rs are not declared as modules in
  src/main.rs. They call order routines that src/order.rs does not define
  (`buy`, `sell`, `get_average_fill`, `place_stop_loss`,
  `cancel_and_sell_all`) and a message type src/process_md.rs does not
  define. Those routines are recorded as calls (`Trading.Call`,
  `Margin.Action`), with their answers as parameters.
- `StrategyConfig` is not defined in src/config.rs. The exchange section's
  `version`, `margin_version` and secret fields that src/binance.rs reads
  are missing from `ExchangeConfig`. The model gives `Binance.ApiConfig`
  those fields.

## Model

| member | source | states |
|---|---|---|
| MovingAverage.New | src/ma.rs:61-69 | A new window of length N is empty and well formed, so it has no latest, penultimate or earlier value |
| MovingAverage.Compute | src/ma.rs:95-132 | With no candles configured nothing changes. Otherwise the window keeps at most N closes, newest first, and drops the oldest when full. When full, the history shifts: the old latest becomes penultimate and the old penultimate becomes the one before |
| MovingAverage.ComputeValue | src/ma.rs:107-129 | Once full, the latest value is the mean of the window (SMA) or close·w + prev·(1−w) with w = 2/(N+1), where prev is the old latest or else the window mean (EMA) |
| MovingAverage.WarmUpStep | src/ma.rs:96-107 | Feeding one more close keeps the window equal to the reversed last min(n, fed) closes, with a latest value exactly when n closes have been fed |
| MovingAverage.WarmUp | src/ma.rs:96-107 | After any sequence of closes the window holds the last min(N, count) of them, newest first, and latest is present exactly when N closes were fed |
| MovingAverage.SmaIsMeanOfLastN | src/ma.rs:107-115 | In SMA mode, after at least N closes, latest is the arithmetic mean of the last N closes |
| MovingAverage.SmaStep | src/ma.rs:107-115 | One SMA step on a warmed window gives the mean of the last N closes of the extended sequence |
| MovingAverage.EmaStepInRange | src/ma.rs:117-127 | An EMA step lies between the previous value and the new close |
| MovingAverage.FeedStaysInRange | src/ma.rs:95-132 | If all closes lie in [lo, hi], so do latest, penultimate and the one before, in both SMA and EMA mode |
| MovingAverage.MacdNew | src/ma.rs:34-42 | A new MACD has windows of 12, 26 and 9 candles in EMA mode and no values |
| MovingAverage.MacdCompute | src/ma.rs:44-57 | The MACD value is set only once the 26-window has a latest value, and then equals ema12 − ema26. The previous value takes the old MACD value, and the signal window is fed the new one. ema12 has a value whenever ema26 does |
| MovingAverage.MacdWarmUp | src/ma.rs:44-57 | From fresh, the MACD value exists from the 26th close on, the previous MACD value from the 27th, and the signal line from the 34th |
| MovingAverage.MacdDecision | src/ma.rs:136-207 | None without a MACD value, a previous value and a signal value. Long iff the MACD crosses above the signal and, when a trend average is configured, that average is present and not falling. Short iff it crosses below, with no trend gate |
| MovingAverage.TrendDecision | src/ma.rs:212-265 | None unless slow latest and the fast latest, penultimate and the one before are present. Long iff c > p and p < pp, Short iff c < p and p > pp, where c is the slow latest |
| MovingAverage.CrossDecision | src/ma.rs:270-322 | None unless fast latest, fast penultimate and slow latest are present. After flooring to the price decimals, Long iff f > s and f_prev < s, Short iff f < s and f_prev > s |
| MovingAverage.RoundedCrossIsExactCross | src/ma.rs:280-305 | A cross seen between the floored averages is also a cross of the unrounded averages, in the same direction |
| MovingAverage.TrendDecisionMirror | src/ma.rs:238-262 | Negating every average swaps the trend detector's Long and Short and keeps no position |
| MovingAverage.MacdDecisionMirror | src/ma.rs:158-203 | Without a trend gate, negating the MACD values and the signal line swaps Long and Short |
| MovingAverage.NoMacdSignalBeforeWarmUp | src/ma.rs:141-144 | With fewer than 34 closes fed, the MACD detector returns no position |
| MovingAverage.NoCrossBeforeWarmUp | src/ma.rs:275-278 | With fewer than N closes fed to the slow average, the cross detector returns no position, in SMA and EMA mode |
| MarketData.Push | src/process_md.rs:91-96 | Appending a colour keeps the length within the capacity, and the capacity only grows when the vector is full |
| MarketData.Confirm | src/process_md.rs:79-111 | None without a confirmation count. Without a previous close, (false, GREEN) with the history untouched. Otherwise the newest entry is popped when the count equals the capacity, the candle's colour is pushed, and the result is (all entries equal entry 0, entry 0) |
| MarketData.ConfirmationSeesOnlyNewestCandle | src/process_md.rs:87-103 | With a count K >= 1, capacity K and at most one stored colour, the history afterwards is exactly the new candle's colour, and the result is (true, that colour) |
| MarketData.ConfirmationAfterGreenThenRed | src/process_md.rs:87-103 | Example: with three confirmation candles, green then red leaves the history [Red] and reports it confirmed |
| MarketData.ZeroConfirmationCandlesAccumulate | src/process_md.rs:84-96 | With zero confirmation candles and a grown capacity, every candle appends and nothing is popped |
| MarketData.NewTracker | src/process_md.rs:356-371 | The tracker satisfies its invariant. Unconfigured averages have zero candles, and the history is empty with capacity equal to the confirmation count |
| MarketData.FeedIndicators | src/process_md.rs:230-245 | The cross signal feeds slow and fast averages, the trend signal only the fast one, and MACD the MACD and, when configured, the trend average. Every other indicator is unchanged and the invariant is kept |
| MarketData.TradingDecision | src/process_md.rs:119-217 | None for BVLT pairs, with the tracker untouched. Otherwise only the colour history changes. A Long position whose close reached the take-profit level gives Short. Otherwise the detector's answer is given unless it is the position already held. The result is None or differs from the current position. `confirmed` judges the detector's answer, before the take-profit override, against the confirmation |
| MarketData.ConfirmationIgnoresPosition | src/process_md.rs:143-163 | Whether a decision is confirmed does not depend on the position held, so a take-profit override is never what gets confirmed |
| MarketData.DecisionIgnoresConfirmation | src/process_md.rs:204-213 | The decision is the same whatever the confirmation count: confirmation only affects logging |
| MarketData.TrendSignalNeverFires | src/process_md.rs:235-237 | Under the trend signal the slow average stays empty, so only a take-profit hit can produce a decision |
| MarketData.ProcessCloseData | src/process_md.rs:221-296 | Without trading no order is produced. A decision gives a Percentage100 order with the tracker's stop percent. Its limit price is present iff the order type is Limit, and then floor(close ± tick·offset) with + for Long |
| MarketData.LimitPriceIsBestGridPrice | src/process_md.rs:260-280 | The limit price is the greatest price on the pair's price grid not above close + tick·offset for a Long, or close − tick·offset for a Short |
| MarketData.WarmUp | src/process_md.rs:385-426 | A warm-up that does not panic leaves a tracker satisfying its invariant |
| MarketData.WarmUpFeedsAllCloses | src/process_md.rs:385-426 | When every candle parses and is closed, the warm-up feeds exactly the candles' closes to the indicators, in order, and ends with the last close |
| MarketData.SkippedFirstCandlePanics | src/process_md.rs:389-396 | An unparsable first candle followed by two parsable ones makes the warm-up panic on candle 0 |
| MarketData.LiveStep | src/process_md.rs:438-504 | Open candles and unparsable closes change nothing. A closed candle whose close parsed is processed with the previous close the warm-up ended with |
| MarketData.CandlesRequired | src/process_md.rs:377-381 | The history request asks for the larger of the slow and trend lengths, and fails only when neither is configured |
| MarketData.BvltBase | src/process_md.rs:528-590 | A BASE:UP:DOWN group is accepted iff it has three pairs of which exactly one is not a leveraged token, and the result is that pair's index |
| MarketData.BaseFrom | src/process_md.rs:528-590 | The scan finds the single non-leveraged pair, or fails on a second one |
| StrategyOptions.ParseUnsigned | src/process_md.rs:646-662 | Parsing a `u8`/`u16`: succeeds iff the text is an optional '+' followed by one or more digits whose value is at most the maximum, and gives that value |
| StrategyOptions.ParseDecimalRoundTrip | src/process_md.rs:646-662 | Every value within range parses back from its decimal digits, with or without '+' |
| StrategyOptions.ParseRejects | src/process_md.rs:646-662 | An empty text, a lone sign, a negative number and a value above the maximum are refused |
| StrategyOptions.DigitsOfDecimal | src/process_md.rs:646-662 | Reading back the decimal digits of n gives n |
| StrategyOptions.ParseBool | src/process_md.rs:691-696 | Only "true" and "false" parse as booleans |
| StrategyOptions.OptUnsigned | src/process_md.rs:779-814 | An absent option is accepted as none; a present one must parse, or the error names it |
| StrategyOptions.OptPercent | src/process_md.rs:734-765 | An absent percentage is none; a present one must parse and lie in (0, 100] |
| StrategyOptions.SignalOf | src/process_md.rs:767-777 | "trend", "cross" and "macd", in any ASCII case, name the three signals; anything else is unsupported |
| StrategyOptions.SignalOfIgnoresCase | src/process_md.rs:767-777 | SignalOf agrees with the source's chain of `eq_ignore_ascii_case` comparisons |
| StrategyOptions.OrderTypeOf | src/process_md.rs:705-719 | Exactly "Market" or "Limit"; an absent order type means Market |
| StrategyOptions.Get | src/process_md.rs:705-708 | A member lookup is present iff the key is |
| StrategyOptions.ParseHeader | src/process_md.rs:644-702 | Accepted iff TimeFrame, Pairs and Signal are present, SlowMA and FastMA parse as `u16` when present, and EMA is "true" or "false" when present. The pair list joined by ',' is the Pairs entry. BVLT mode iff the first item holds ':'. EMA is on iff given as "true". The lengths are the parsed values |
| StrategyOptions.ParseOrderType | src/process_md.rs:704-731 | Succeeds iff the order type is known and any LimitOffset of a Limit order parses as `u8`. An offset exists iff the type is Limit, and defaults to 2 |
| StrategyOptions.ParsePercents | src/process_md.rs:733-765 | StopPercent and TakeProfitPercent are each absent or in (0, 100] |
| StrategyOptions.ParseSignal | src/process_md.rs:767-814 | Accepted iff the signal is known, ConfirmationCandles (when present) parses as `u8`, is at most 10 and comes with MACD, and MacdTrendMa (when present) parses as `u16` and comes with MACD. The values returned are the parsed ones |
| StrategyOptions.SplitPct | src/process_md.rs:816-818 | Each of n pairs gets the integer share p of 100 with p·n ≤ 100 < (p+1)·n |
| StrategyOptions.Parse | src/process_md.rs:642-818 | The options are accepted iff every stage accepts, in the source's order, and the result collects each stage's values |
| StrategyOptions.AcceptedOptions | src/process_md.rs:642-818 | Accepted options have an offset exactly for Limit, percentages in (0, 100], at most 10 confirmation candles and only with MACD, a share that fits 100 %, and build a tracker satisfying its invariant |
| StrategyOptions.MacdOnlyOptionsRefused | src/process_md.rs:779-814 | ConfirmationCandles or MacdTrendMa with another signal makes the whole parse fail |
| AccountManager.GetPosition | src/account_manager.rs:65-75 | The stored (type, quantity, price) for the symbol, or None when absent |
| AccountManager.CommissionUsdt | src/account_manager.rs:81-111 | A USDT commission is unchanged. For another asset, it is commission × trade price when the symbol starts with the asset's name. Otherwise it is commission × the looked-up USDT price, or 0 when the lookup fails. Non-negative inputs give a non-negative value |
| AccountManager.CommissionInBaseOfUsdtPair | src/account_manager.rs:88-96 | For any asset other than USDT, a commission on the asset's own USDT pair is converted at the trade price. That equals what a trade on any symbol not starting with the asset gets when the asset's USDT price lookup returns that price: commission × price |
| AccountManager.CancelWait | src/account_manager.rs:142-173 | There are at most 4 wake-ups, and each wake-up before the last found the flag still set. With open orders and a successful cancel there is at least one wake-up, the flag ends false, and the wait stopped either after the 4th wake-up or at the first one that found the flag cleared. With a failed cancel the flag stays true and there is no wait. Without open orders nothing changes |
| AccountManager.Share | src/account_manager.rs:207-235 | Long takes the asked share of free/price (an exact quantity as given); other positions sell all that is free. A percentage above 100 panics |
| AccountManager.RequestedQty | src/account_manager.rs:207-235 | The share rounded down to the quantity decimals |
| AccountManager.RequestedQtyWithinBudget | src/account_manager.rs:207-235 | For a percentage, non-negative funds and a positive price, the quantity is non-negative and at most the share. The share is at most free/price for Long and free otherwise. A Long costs at most its fraction of the free balance. The quantity is the greatest grid quantity not above the share |
| AccountManager.LongShareBudget | src/account_manager.rs:207-235 | A share f of free/price, and any quantity below it, costs at most f·free |
| AccountManager.Fraction | src/account_manager.rs:221-232 | The presets and any percentage of at most 100 give a fraction in [0, 1] |
| AccountManager.SpentAsset | src/account_manager.rs:176-181 | The balance an order draws on is the quote currency when the order buys and the base currency when it sells |
| AccountManager.PlaceAtPrice | src/account_manager.rs:207-277 | Once the free balance and price are known: a Long at a zero price is dropped, exactly then. A sizing error is the panic. A size below the minimum notional is dropped with that cost. At or above it, a market order without a position panics and every other order is submitted with the rounded requested quantity, the parameters of `place_order_quantity` and the message's stop in the slot. A drop keeps the slot |
| AccountManager.PlaceFromBalance | src/account_manager.rs:175-277 | Each outcome is tied to its condition. The command is dropped for no local balance exactly when the spent asset has none, and for no price exactly when a market order's price read fails. A Long at a zero price is dropped. A sizing error is returned as the panic. A size below the minimum notional is dropped with that cost. Otherwise a market order without a position panics and every other order is submitted with the rounded requested quantity, the parameters of `place_order_quantity` and the message's stop in the slot. A dropped command keeps the stop slot |
| AccountManager.HandleOrder | src/account_manager.rs:124-277 | The outcome is that of sizing and placing from the balances. A limit order with a balance, a non-zero price and a size at or above the minimum notional is submitted. After a successful cancel of open orders the waiting flag is false after 1 to 4 wake-ups, ending at the 4th or at the first that found the flag cleared. After a failed cancel the flag is true with no wait. Without open orders the flag is unchanged |
| AccountManager.StopPrices | src/account_manager.rs:286-292 | The trigger is the greatest grid price not above paid − paid·stop/100, on the grid of the given `u8` decimal count read as `i8`. The event handler passes the decimal count of the fill price's text. The limit equals the trigger |
| AccountManager.WrapI8 | src/account_manager.rs:286-292 | The `as i8` cast: the value congruent modulo 256 in [−128, 127] |
| AccountManager.StopPricesExample | src/account_manager.rs:286-292 | A 100.00 fill with a 2 % stop at 2 decimals gives trigger and limit 98 |
| AccountManager.StopPricesWrappedDecimals | src/account_manager.rs:286-292 | 255 decimals are read as −1, so a 2 % stop on 100 rounds down to a multiple of 10: trigger and limit 90 |
| AccountManager.StopOrderParams | src/account_manager.rs:279-293 | The stop order is a stop-limit SELL of the filled quantity at those prices |
| AccountManager.SpotTrade | src/account_manager.rs:788-811 | The message sent to the order thread carries its arguments unchanged, and its order type is Limit iff a limit price is given |
| AccountEvents.InitialBalances | src/account_manager.rs:361-372 | Only assets with something free or locked are kept, each under its own name |
| AccountEvents.InitialBalancesContents | src/account_manager.rs:361-372 | An asset is kept iff some held balance names it, and it keeps the last such balance |
| AccountEvents.Start | src/account_manager.rs:386-398 | The handler starts waiting on a cancel, with no filled buy, no fills and no positions, and satisfies the state invariant |
| AccountEvents.Overwrite | src/account_manager.rs:437-451 | The assets afterwards are the old ones plus every updated asset |
| AccountEvents.OverwriteKeepsUntouched | src/account_manager.rs:437-451 | An asset no update names keeps its balance |
| AccountEvents.OverwriteLastUpdateWins | src/account_manager.rs:437-451 | An updated asset gets the values of its last update |
| AccountEvents.Step | src/account_manager.rs:405-640 | An event panics iff it is a FILLED BUY of a symbol with a position, or an account update that owes a stop while no average buy price is known. Otherwise the invariant is kept. At most one stop is requested, only on an account update after a filled buy. A trade result comes only from a FILLED report |
| AccountEvents.BalanceUpdateTouchesOneAsset | src/account_manager.rs:411-433 | A balance update adds the delta to the free amount of a known asset only, and changes nothing else |
| AccountEvents.AccountPositionStep | src/account_manager.rs:434-488 | An account update overwrites balances, requests one stop after a filled buy when a stop percent is set, and panics iff a stop is due with no average buy price |
| AccountEvents.CanceledStep | src/account_manager.rs:510-523 | A CANCELED report keeps the state invariant |
| AccountEvents.FilledStep | src/account_manager.rs:524-609 | A FILLED report panics iff it is a BUY of a symbol that already has a position. Otherwise it leaves no stop pending and keeps the invariant |
| AccountEvents.PartialFillStep | src/account_manager.rs:610-636 | A partial fill keeps the state invariant |
| AccountEvents.Run | src/account_manager.rs:405-640 | Handling events in order, stopping at the first panic, keeps the invariant |
| AccountEvents.PartialBuysAccumulate | src/account_manager.rs:610-636 | After n partial BUY fills the trackers hold the sum of their prices and n fills |
| AccountEvents.AveBuyPriceIsMeanOfFills | src/account_manager.rs:542-568 | After partial BUY fills and a final FILLED BUY, the average buy price is the mean of all fill prices. The symbol gets a Long position of the cumulative quantity at that price, the buy is marked filled and the fill count restarts |
| AccountEvents.AccountUpdateAfterBuyPlacesStop | src/account_manager.rs:460-476 | After a filled buy with a known price, an account update with a stop percent requests exactly one stop order for the buy's symbol, quantity and average price, and clears the filled flag |
| AccountEvents.AccountUpdateWithoutStop | src/account_manager.rs:460-465 | Without a stop percent an account update requests no stop, and a non-empty update clears the filled flag |
| AccountEvents.SellFillClosesPosition | src/account_manager.rs:569-609 | A FILLED SELL removes the buy symbol's position and resets the fill count and commission. It records a trade result iff a buy price is known. The result's pnl is qty·(average sell − average buy) − the trade's commission, and it is a win iff the buy price is below the average sell price. The pnl is added to the cumulative pnl and the commission to the cumulative commission |
| AccountEvents.WinIffProfitWithoutCommission | src/account_manager.rs:578-590 | Without commission, a sell is recorded as a win iff its profit qty·(sell − buy) is positive |
| AccountEvents.CancelThenUpdateReleasesWaiter | src/account_manager.rs:479-523 | A CANCELED report removes the position and sets the cancelled flag, and clears the buy trackers unless the cancelled order was a stop. Only the next account update clears the waiting flag |
| AccountEvents.CumulativeCommissionCountsRunningTotal | src/account_manager.rs:614-627 | Two partial fills with commission c each give a running total of 2c but a cumulative total of 3c |
| AccountEvents.CancelBeforeAccountUpdatePanics | src/account_manager.rs:460-523 | A filled buy, then a CANCELED non-stop order, then an account update with a stop percent panics: the cancel cleared the buy price the stop needs |
| AccountEvents.SecondBuyOfSameSymbolPanics | src/account_manager.rs:558-560 | A second filled BUY of a symbol with a position panics |
| Orders.AvePriceWithCommission | src/order.rs:125-128 | The adjusted unit price p' satisfies p'·qty = qty·price + commission, and is undefined for a zero quantity |
| Orders.CommissionRaisesPrice | src/order.rs:125-128 | A non-negative commission never lowers the adjusted price, and zero commission leaves it at the price |
| Orders.LimitOrderParams | src/order.rs:131-163 | A LIMIT, GTC order with exactly the symbol, side, quantity, price and timestamp keys; BUY for Long and SELL for anything else |
| Orders.MarketOrderParams | src/order.rs:175-197 | A MARKET order, BUY for Long and SELL for Short; no position panics |
| Orders.PlaceOrderQuantity | src/order.rs:165-199 | A limit order iff a limit price is given, with that price. Every order carries symbol, side, quantity, type and timestamp |
| Orders.SidesAgree | src/order.rs:138-184 | Limit and market orders agree on the side of Long and Short. For no position the limit order sells and the market order panics |
| Orders.StopLimitParams | src/order.rs:201-234 | Always a GTC STOP_LOSS_LIMIT SELL with stopPrice the trigger and price the limit |
| Orders.SentOrderKeepsFields | src/binance.rs:830-848 | Sending a spot order keeps its parameters and adds only the ACK response type |
| Margin.ShortSellParams | src/margin.rs:23-53 | An isolated SELL that borrows (MARGIN_BUY), at market without a price and GTC limit with one |
| Margin.CloseShortParams | src/margin.rs:61-79 | An isolated market BUY of the quantity with no other keys |
| Margin.CloseShort | src/margin.rs:61-97 | Buy, then repay the debt only if the buy succeeded. Ok iff both succeed, else the first error |
| Margin.CloseLongParams | src/margin.rs:102-133 | An isolated SELL without side effect, at market or as a fill-or-kill (FOK) limit |
| Margin.CloseLong | src/margin.rs:102-158 | Sell, then repay only if there is a debt and the sale is FILLED. Ok iff all three hold and the repay succeeds; with no debt the result is an error |
| Margin.LimitEntryQty | src/margin.rs:188-192 | The limit quantity is on the pair's quantity grid and costs at most the spend |
| Margin.LimitEntryQtyIsGreatest | src/margin.rs:188-192 | Every grid quantity affordable with the spend is at most the limit quantity |
| Margin.EnterLongParams | src/margin.rs:162-201 | An isolated BUY that borrows iff asked: quoteOrderQty = spend at market, the limit quantity at a GTC limit |
| Margin.EntryBase | src/margin.rs:170-183 | The fields every entry has: symbol, time, isolation, BUY, and MARGIN_BUY iff borrowing |
| Margin.StopQty | src/margin.rs:217-222 | The greatest grid quantity at most the filled quantity less a commission paid in the base currency |
| Margin.StopPrices | src/margin.rs:227-232 | The trigger is the greatest grid price at most ave − stop·tick, and the limit the greatest at most trigger − tick |
| Margin.StopLossParams | src/margin.rs:205-255 | A GTC STOP_LOSS_LIMIT SELL of StopQty at those prices, with exactly the stop keys |
| Margin.StopLossExample | src/margin.rs:227-232 | A 100 fill with a 2-tick stop of 0.01 gives 99.98 and 99.97 |
| Margin.LongStopBelowFill | src/margin.rs:227-232 | For a non-negative stop the limit sits at least a tick below the fill price |
| Margin.ShortStopAboveFill | src/margin.rs:612-620 | The negated stop of a short gives a SELL triggered above the fill |
| Margin.StopAfter | src/margin.rs:605-630 | A stop follows an entry exactly when its reply carries an average fill |
| Margin.BuyBackQty | src/margin.rs:314-320 | The least grid quantity covering the debt plus 0.1 % commission |
| Margin.BorrowQty | src/margin.rs:583-592 | The greatest grid quantity at most net quote/index price times the leverage (1 without) |
| Margin.ShortOwed | src/margin.rs:480-495 | A debt to repay exists only with leverage and positive interest plus borrowed |
| Margin.EntryLimit | src/margin.rs:415-421 | None at market, a panic for a limit without offset, else close plus offset ticks |
| Margin.CloseShortStage | src/margin.rs:305-382 | A failed account read stops the long. A buy-back below the minimum notional is skipped and the long goes on. Otherwise the buy-back is sent, and the long goes on iff it and its repay succeed |
| Margin.EnterLongStage | src/margin.rs:384-466 | A failed account read stops with nothing sent. A limit without offset panics. Otherwise the entry order for the computed spend is sent, followed by the stop derived from its reply |
| Margin.TradeLong | src/margin.rs:299-467 | The close-short actions come first. When that stage stops, nothing follows and there is no panic. The only panic is a limit order without an offset, and it sends nothing more. Further requests are sent exactly when the stage goes on, the second account read succeeds and the limit price is known. They are at most one entry BUY, followed at most by one stop-loss |
| Margin.CloseLongStage | src/margin.rs:474-573 | A failed account read stops with nothing sent. A limit without offset panics. Otherwise the free base, rounded down, is sold through `close_long_position` when it is worth the minimum notional; when it is not, nothing is sent |
| Margin.ShortGoesOn | src/margin.rs:474-573 | The short continues when nothing was worth selling, or when closing the long succeeded or failed with the insufficient-balance code −2010. A failed account read stops it |
| Margin.ShortSellStage | src/margin.rs:575-656 | A failed second account read panics. Otherwise there is no panic. A request is sent exactly when the account was read and the borrowed quantity is worth at least the minimum notional at the price. The first request is a borrowing SELL and a second one is a stop-loss |
| Margin.TradeShort | src/margin.rs:468-657 | The close-long actions come first. The only panics are a limit order without an offset, raised exactly when such an order finds the first account read successful, and an unavailable second account, which is what a failed second read gives when the short goes on. A short sale is sent only when the short goes on, as one borrowing SELL right after the close-long actions, followed at most by one stop-loss |
| Margin.Trade | src/margin.rs:258-662 | Open orders are always cancelled first. A failed price read ends the trade. No position panics. Long and Short take their branches |
| Margin.LongSpendWithinFunds | src/margin.rs:396-413 | The spend never exceeds the free quote balance times the leverage |
| Margin.LongLimitEntryWithinFunds | src/margin.rs:396-421 | A limit entry never costs more than the free quote balance times the leverage |
| Margin.UnleveragedShortStopsAfterSale | src/margin.rs:136-151 | Without leverage there is no debt to repay, so closing the long reports an error even when the sale is accepted. The short then ends right after that one sale, with no panic |
| Margin.FailedBuyBackEndsLong | src/margin.rs:322-361 | When the buy-back or its repay fails, the long ends after the buy-back order |
| Trading.LimitPrice | src/trading.rs:41-47 | None at market, a panic without an offset; otherwise the offset in ticks above (Long) or below (Short) the close |
| Trading.SpotStop | src/trading.rs:38-39 | The stop lies stop % below the close: (close − stop)·100 = close·stop |
| Trading.SpotTrade | src/trading.rs:17-92 | Cancel the pair's orders, then buy with that stop and limit for Long or sell for Short. No position panics |
| Trading.ThreadStep | src/trading.rs:111-154 | A quit cancels and sells everything and exits. A missing or None action panics. The margin trade is called iff shorting or leverage is on, else the spot trade |
| Trading.ThreadRun | src/trading.rs:98-155 | The thread exits iff some message quits with none before it panicking, and then its last call is cancel-and-sell |
| Trading.MessagesAfterQuitIgnored | src/trading.rs:114-125 | Messages after a quit have no effect |
| Trading.MarginThreadRoutesEverySignal | src/trading.rs:127-153 | A margin thread makes exactly one margin-trade call per Long or Short signal |
| Trading.Record | src/trading.rs:211-257 | A Long signal sets Up and a Short sets Down. A pair message stores an Up or Down token; anything else panics |
| Trading.Round | src/trading.rs:263-377 | Up sells DOWN (limit above the close), cancels and buys UP (limit below), and stops it on success. Down sells UP and buys DOWN at market, with its stop on success |
| Trading.SellHeld | src/trading.rs:184-209 | A quit cancels and sells UP then DOWN, whichever is held |
| Trading.BvltStep | src/trading.rs:166-389 | A round is traded only when direction, UP and DOWN are all known, and then everything is cleared. Otherwise nothing is sent and the gathered data is kept |
| Trading.GatherOrderDoesNotMatter | src/trading.rs:259-387 | At market, signal-then-tokens and tokens-then-signal give the same round and both clear the state |
| Trading.LatestSignalWins | src/trading.rs:211-257 | A later Short signal overrides an earlier Long before the round is complete |
| TradingPairs.Classify | src/tradingpair.rs:37-45 | Up iff the base ends in "UP", Down iff it ends in "DOWN", otherwise none |
| TradingPairs.UpDownExclusive | src/tradingpair.rs:37-45 | No base ends in both "UP" and "DOWN" |
| TradingPairs.New | src/tradingpair.rs:24-53 | A missing filter or a name without '/' fails. Otherwise the name is kept, and the symbol is the name with every '/' removed, which is its '/'-pieces run together. The '/'-free base and quote start the name with a '/' between them. The BVLT type classifies the base and the filters' values are copied |
| TradingPairs.NewOfBaseQuote | src/tradingpair.rs:25-36 | "base/quote" with '/'-free parts gives symbol base+quote, base currency base and quote currency quote |
| Utils.DecimalPlaces | src/utils.rs:28-36 | The result is below 256 and at most the text's length; 0 without a '.' |
| Utils.TrailingZerosIgnored | src/utils.rs:29 | Appending zeros never changes the decimal count |
| Utils.DecimalPlacesOfDecimal | src/utils.rs:28-36 | whole.f followed by zeros has \|f\| mod 256 decimals when f does not end in 0 |
| Utils.DecimalPlacesWraps | src/utils.rs:34 | 256 decimals count as 0 |
| Config.ParseEndpoint | src/config.rs:81-83 | An item without '=' fails. Otherwise the key and value are the pieces around the first '=', and extra pieces are ignored |
| Config.ParseEndpoints | src/config.rs:78-84 | The list is accepted iff every ','-separated item has a '=' |
| Config.ParseItems | src/config.rs:78-84 | The items are accepted iff every one has a '='. A refusal names one of the items |
| Config.ParsedKeys | src/config.rs:80-84 | The map's keys are exactly the items' keys |
| Config.LastDuplicateWins | src/config.rs:80-84 | Each key maps to the value of the last item naming it |
| Config.Dryrun | src/config.rs:89-101 | Dryrun is on only when present and "true" or "yes" ignoring case |
| Config.DryrunComparesIgnoringCase | src/config.rs:89-101 | Dryrun agrees with the `eq_ignore_ascii_case` comparisons with "true" and "yes" |
| Config.DryrunIgnoresCase | src/config.rs:91-93 | Dryrun depends on the entry only up to ASCII case |
| Config.New | src/config.rs:40-122 | The configuration is accepted iff the three sections and the required entries exist, the endpoints parse and the strategies are supported; the result holds those values |
| Strategy.SupportedIgnoresCase | src/strategy.rs:12-18 | An item is supported iff it equals "ScalpMA" ignoring ASCII case |
| Strategy.FromStrCs | src/strategy.rs:10-22 | The list is accepted iff every ','-separated item is supported. The error is the first item that is not. The mask stays empty |
| Strategy.FromJoinedItems | src/strategy.rs:12-19 | A list joined from ','-free items is accepted iff each item is supported |
| Strategy.EmptyListRejected | src/strategy.rs:12-18 | The empty list is refused, because it is one empty item |
| Account.GetBalance | src/account.rs:79-88 | The free amount of the first balance matching ignoring case, None when none matches |
| Account.GetLockedBalance | src/account.rs:90-99 | The locked amount of the same first match, None when none matches |
| Account.FindIgnoresQueryCase | src/account.rs:83 | Queries equal up to ASCII case find the same balance |
| Account.FrontBalanceWins | src/account.rs:80-85 | A matching balance in front shadows every later one |
| Binance.UriShape | src/binance.rs:69-87 | Every URI is the base address, '/', and a path ending in "/endpoint" |
| Binance.UriDeterminesRoute | src/binance.rs:69-87 | With distinct '/'-free versions, equal URIs for an endpoint mean equal routes (spot, cross or isolated margin) |
| Binance.Send | src/binance.rs:56-107 | `post`/`put` refuse isolated without margin; otherwise the request has the verb, the parameters and the route's URI, and is signed iff asked with parameters |
| Binance.GetRequest | src/binance.rs:208-252 | `get` never refuses and is signed iff there are parameters and signing is asked |
| Binance.DeleteRequest | src/binance.rs:163-206 | `delete` never refuses and is signed iff signing is asked |
| Binance.PostAndGetAgree | src/binance.rs:65-87 | Where `post` succeeds, `get` builds the same request apart from the verb; where it refuses, `get` still builds one |
| Binance.GetRetries | src/binance.rs:254-279 | At most five attempts: the first Ok among the first four, else the fifth result as it is |
| Binance.SendOrder | src/binance.rs:830-848 | The ORDER endpoint must exist. The order is posted signed with newOrderRespType=ACK added |
| Binance.SendStopOrder | src/binance.rs:797-809 | A stop order is posted signed to the spot ORDER endpoint |
| Rounding.FloorIsGreatestGridPoint | src/margin.rs:221 | `round::floor` gives the greatest multiple of 10^-d not above its input |
| Rounding.CeilIsLeastGridPoint | src/margin.rs:320 | `round::ceil` gives the least multiple of 10^-d not below its input |

## Left out

- Network I/O: HTTP request execution, the websocket streams with their
  connect, reconnect and ping loops, and the listen key. Answers from the
  exchange are parameters.
- Threads, channels, the `Barrier` and the condition variable's timing.
  The cancel wait is a flag plus a retry counter bounded by 4.
- HMAC signing, logger setup, trade-log writes and INI file loading. The
  INI contents are a map given to `Config.New`.
- JSON decoding of responses and its panics; the serde data structures.
  Only the fields the core reads are modelled.
- Floating point. Prices are reals, so NaN, infinities and rounding error
  do not arise. Text-to-`f64` parsing is a parameter.
- Division by zero of `f64`, which gives an infinite or NaN quantity in the
  source. The model requires instead:
  - `AccountManager.Share` and `AccountManager.RequestedQty`: a non-zero
    price for a Long;
  - `Margin.LimitEntryQty`: a positive price;
  - `Margin.EnterLongStage`, `Margin.TradeLong`, `Margin.Trade` and
    `Margin.FailedBuyBackEndsLong` (through `Margin.Sane`): for a Limit
    order, a positive close and a non-negative tick size, so that the limit
    price is positive;
  - `Margin.ShortSellStage`, `Margin.TradeShort`, `Margin.Trade` and
    `Margin.UnleveragedShortStopsAfterSale` and `Margin.BorrowQty`: a positive index price in the
    second account read, which `Margin.BorrowQty` divides by.
  `AccountManager.PlaceFromBalance` drops a command with a zero price.
- Timestamps are a natural-number parameter; `SystemTime` is not read.
- The `u32` fill counter of the event handler does not wrap; it is a `nat`.
- `PercentageAmount` holds a `u8` in the source and a `nat` here, checked
  against 100 as the source's assert does.
- The capacity growth of a `Vec` is the standard library's doubling policy
  for one-byte elements. It only matters for a confirmation count of 0.
- The result of the cancel-all request in `trade` and `spot_trade` is
  ignored by the source and not modelled.
- `MarketData.NewTracker` stands for the tracker construction inside
  `process_market_data_thread`; the rest of that thread is I/O.
- The exchange-information lookups that `TradingPair::new` makes are
  parameters (the three filters).
- Margin.ShortSellStage: states the panic, when a sale is sent and the kind
  of each request, not the quantity and prices inside them, to keep its proof
  small. Those follow from `Margin.ShortSellParams`, `Margin.BorrowQty` and
  `Margin.StopAfter`.
- Margin.TradeLong: states the order and kind of the requests sent, not
  their quantities and prices. Those are stated by `Margin.CloseShortStage`,
  `Margin.EnterLongStage` and the parameter builders.
- Margin.TradeShort: states the order and kind of the requests sent, not
  their quantities and prices. Those are stated by `Margin.CloseLongStage`,
  `Margin.ShortSellStage` and the parameter builders.
- Utils.DecimalPlaces: counts characters after the '.', where the source's
  `len()` counts UTF-8 bytes. The two agree on ASCII price text, which is
  what the exchange sends.
- Margin.LongSpend: carries no contract of its own.
  `Margin.LongSpendWithinFunds` and `Margin.LongLimitEntryWithinFunds`
  state its bound.
- Binance.Uri: carries no contract of its own. `Binance.UriShape` and
  `Binance.UriDeterminesRoute` state its properties.
- MovingAverage.Compute: states the window and history facts. The values
  are stated by `MovingAverage.ComputeValue`.
