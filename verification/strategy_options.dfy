/** The option checks `run_strategy` makes on a strategy section before any
    thread starts: integer, boolean and percentage options are parsed, the
    order type and signal are recognised, and options that only make sense
    for one signal or order type are refused elsewhere. Every refusal is a
    panic of the source; here it is an error naming the option. Parsing of
    floating-point text is a parameter. */
module StrategyOptions {
  import opened Wrappers
  import opened Strings
  import opened Types
  import MarketData

  /** Rust's `u8::MAX` and `u16::MAX`. */
  const U8Max: nat := 255
  const U16Max: nat := 65535

  predicate IsDigit(c: char) {
    '0' <= c <= '9'
  }

  predicate AllDigits(s: string) {
    forall i :: 0 <= i < |s| ==> IsDigit(s[i])
  }

  /** The value of a string of decimal digits, most significant first. */
  function DigitsValue(s: string): nat
    requires AllDigits(s)
    decreases |s|
  {
    if |s| == 0 then 0
    else 10 * DigitsValue(s[..|s| - 1]) + (s[|s| - 1] as int - '0' as int)
  }

  /** `str::parse` for an unsigned type whose maximum is `max`: one optional
      leading '+', then at least one decimal digit and nothing else, and a
      value not above the maximum. */
  function ParseUnsigned(s: string, max: nat): (r: Option<nat>)
    ensures r.Some? ==> r.value <= max
    ensures r.Some? ==> |s| > 0 && (AllDigits(s) || (s[0] == '+' && AllDigits(s[1..])))
    ensures r.Some? <==> (
      || (|s| > 0 && AllDigits(s) && DigitsValue(s) <= max)
      || (|s| > 1 && s[0] == '+' && AllDigits(s[1..]) && DigitsValue(s[1..]) <= max))
  {
    var digits := if |s| > 0 && s[0] == '+' then s[1..] else s;
    if |digits| == 0 || !AllDigits(digits) then None
    else
      var v := DigitsValue(digits);
      if v <= max then Some(v) else None
  }

  /** The decimal digits of a natural number, without leading zeros. */
  function ToDecimal(n: nat): (s: string)
    ensures |s| > 0 && AllDigits(s)
  {
    if n < 10 then [('0' as int + n) as char]
    else ToDecimal(n / 10) + [('0' as int + n % 10) as char]
  }

  /** Reading back the digits of n gives n. */
  lemma {:induction false} DigitsOfDecimal(n: nat)
    ensures DigitsValue(ToDecimal(n)) == n
  {
    var s := ToDecimal(n);
    if n >= 10 {
      DigitsOfDecimal(n / 10);
      assert s[..|s| - 1] == ToDecimal(n / 10);
    }
  }

  /** Every value in range parses back from its decimal form, with or
      without a '+' sign. */
  lemma ParseDecimalRoundTrip(n: nat, max: nat)
    requires n <= max
    ensures ParseUnsigned(ToDecimal(n), max) == Some(n)
    ensures ParseUnsigned("+" + ToDecimal(n), max) == Some(n)
  {
    DigitsOfDecimal(n);
    var s := ToDecimal(n);
    assert ('+' as int - '0' as int) < 0;
    assert s[0] != '+' by { assert IsDigit(s[0]); }
    assert ("+" + s)[1..] == s;
  }

  /** Neither a sign alone, nor a minus sign, nor a value above the maximum
      is accepted. */
  lemma ParseRejects(n: nat, max: nat)
    requires n > max
    ensures ParseUnsigned("+", max).None? && ParseUnsigned("", max).None?
    ensures ParseUnsigned("-" + ToDecimal(n), max).None?
    ensures ParseUnsigned(ToDecimal(n), max).None?
  {
    DigitsOfDecimal(n);
    var s := "-" + ToDecimal(n);
    assert !IsDigit(s[0]);
  }

  /** Rust's `bool::from_str`: exactly "true" or "false". */
  function ParseBool(s: string): (r: Option<bool>)
    ensures r == Some(true) <==> s == "true"
    ensures r == Some(false) <==> s == "false"
  {
    if s == "true" then Some(true) else if s == "false" then Some(false) else None
  }

  datatype StrategyError =
    | NotANumber(key: string)
    | Missing(key: string)
    | NotABool(value: string)
    | UnexpectedOrderType(value: string)
    | NotAPercentage(key: string)
    | UnsupportedSignal(value: string)
    | TooManyConfirmationCandles(count: nat)
    | OnlyForMacd(key: string)

  datatype Options = Options(
    slowMa: Option<nat>,
    fastMa: Option<nat>,
    timeFrame: string,
    pairs: seq<string>,
    bvltMode: bool,
    ema: bool,
    signal: MarketData.TradeSignal,
    orderType: OrderType,
    limitOffset: Option<nat>,
    stopPercent: Option<real>,
    takeProfitPercent: Option<real>,
    confirmationCandles: Option<nat>,
    macdTrendMa: Option<nat>,
    splitPct: nat)

  /** The default limit offset, in ticks. */
  const DefaultLimitRange: nat := 2

  /** An optional unsigned option: absent is fine, present must parse. */
  function OptUnsigned(members: map<string, string>, key: string, max: nat): (r: Result<Option<nat>, StrategyError>)
    ensures key !in members ==> r == Ok(None)
    ensures key in members ==> (r.Ok? <==> ParseUnsigned(members[key], max).Some?)
    ensures key in members && r.Ok? ==> r.value == ParseUnsigned(members[key], max)
    ensures r.Err? ==> r.error == NotANumber(key)
  {
    if key !in members then Ok(None)
    else
      match ParseUnsigned(members[key], max)
      case None => Err(NotANumber(key))
      case Some(v) => Ok(Some(v))
  }

  /** An optional percentage: absent is fine, present must parse and lie in (0, 100]. */
  function OptPercent(members: map<string, string>, key: string, parseF64: string -> Option<real>)
    : (r: Result<Option<real>, StrategyError>)
    ensures key !in members ==> r == Ok(None)
    ensures key in members ==> (r.Ok? <==> parseF64(members[key]).Some? && 0.0 < parseF64(members[key]).value <= 100.0)
    ensures key in members && r.Ok? ==> r.value == parseF64(members[key])
  {
    if key !in members then Ok(None)
    else
      match parseF64(members[key])
      case None => Err(NotANumber(key))
      case Some(v) => if v <= 0.0 || v > 100.0 then Err(NotAPercentage(key)) else Ok(Some(v))
  }

  /** The signal names, ignoring ASCII case: the name lower-cased is one of
      "trend", "cross" and "macd". */
  function SignalOf(name: string): (r: Option<MarketData.TradeSignal>)
    ensures r == Some(MarketData.MaTrendReversal) <==> Lower(name) == "trend"
    ensures r == Some(MarketData.MaCross) <==> Lower(name) == "cross"
    ensures r == Some(MarketData.MACD) <==> Lower(name) == "macd"
  {
    var l := Lower(name);
    if l == "trend" then Some(MarketData.MaTrendReversal)
    else if l == "cross" then Some(MarketData.MaCross)
    else if l == "macd" then Some(MarketData.MACD)
    else None
  }

  /** SignalOf is the source's chain of case-insensitive comparisons. */
  lemma SignalOfIgnoresCase(name: string)
    ensures SignalOf(name) == Some(MarketData.MaTrendReversal) <==> EqIgnoreAsciiCase(name, "trend")
    ensures SignalOf(name) == Some(MarketData.MaCross) <==> EqIgnoreAsciiCase(name, "cross")
    ensures SignalOf(name) == Some(MarketData.MACD) <==> EqIgnoreAsciiCase(name, "macd")
  {
    assert Lower("trend") == "trend";
    assert Lower("cross") == "cross";
    assert Lower("macd") == "macd";
  }

  /** Exactly "Market" or "Limit"; absent means Market. */
  function OrderTypeOf(v: Option<string>): (r: Option<OrderType>)
    ensures r == Some(Market) <==> v.None? || v.value == "Market"
    ensures r == Some(Limit) <==> v.Some? && v.value == "Limit"
  {
    var ot := v.UnwrapOr("Market");
    if ot == "Market" then Some(Market) else if ot == "Limit" then Some(Limit) else None
  }

  function Get(members: map<string, string>, key: string): (r: Option<string>)
    ensures r.Some? <==> key in members
    ensures r.Some? ==> r.value == members[key]
  {
    if key in members then Some(members[key]) else None
  }

  /** The first options `run_strategy` reads: the averages' lengths, the
      time frame, the pair list, the EMA switch, and the presence of a signal. */
  datatype Header = Header(slowMa: Option<nat>, fastMa: Option<nat>, timeFrame: string, pairs: seq<string>,
                           bvltMode: bool, ema: bool)

  function ParseHeader(members: map<string, string>): (r: Result<Header, StrategyError>)
    ensures r.Ok? ==>
      && var h := r.value;
      && "TimeFrame" in members && "Pairs" in members && "Signal" in members
      && h.timeFrame == members["TimeFrame"]
      && |h.pairs| >= 1 && Join(h.pairs, ',') == members["Pairs"]
      && (forall i :: 0 <= i < |h.pairs| ==> ',' !in h.pairs[i])
      && (h.bvltMode <==> ':' in h.pairs[0])
      && (h.ema <==> "EMA" in members && members["EMA"] == "true")
      && h.slowMa == (if "SlowMA" in members then ParseUnsigned(members["SlowMA"], U16Max) else None)
      && h.fastMa == (if "FastMA" in members then ParseUnsigned(members["FastMA"], U16Max) else None)
      && (h.slowMa.Some? ==> h.slowMa.value <= U16Max) && (h.fastMa.Some? ==> h.fastMa.value <= U16Max)
    ensures "TimeFrame" !in members || "Pairs" !in members || "Signal" !in members ==> r.Err?
    ensures r.Ok? <==>
      && ("SlowMA" in members ==> ParseUnsigned(members["SlowMA"], U16Max).Some?)
      && ("FastMA" in members ==> ParseUnsigned(members["FastMA"], U16Max).Some?)
      && ("EMA" in members ==> ParseBool(members["EMA"]).Some?)
      && "TimeFrame" in members && "Pairs" in members && "Signal" in members
  {
    match OptUnsigned(members, "SlowMA", U16Max)
    case Err(e) => Err(e)
    case Ok(slowMa) =>
    match OptUnsigned(members, "FastMA", U16Max)
    case Err(e) => Err(e)
    case Ok(fastMa) =>
    if "TimeFrame" !in members then Err(Missing("TimeFrame"))
    else if "Pairs" !in members then Err(Missing("Pairs"))
    else
      var pairs := Split(members["Pairs"], ',');
      var emaText := Get(members, "EMA").UnwrapOr("false");
      match ParseBool(emaText)
      case None => Err(NotABool(emaText))
      case Some(ema) =>
      if "Signal" !in members then Err(Missing("Signal"))
      else
        JoinSplit(members["Pairs"], ',');
        Ok(Header(slowMa, fastMa, members["TimeFrame"], pairs, ':' in pairs[0], ema))
  }

  /** The order type, and for limit orders the offset in ticks (2 unless given). */
  function ParseOrderType(members: map<string, string>): (r: Result<(OrderType, Option<nat>), StrategyError>)
    ensures r.Ok? <==> (OrderTypeOf(Get(members, "OrderType")).Some?
      && (OrderTypeOf(Get(members, "OrderType")) == Some(Limit) && "LimitOffset" in members ==>
            ParseUnsigned(members["LimitOffset"], U8Max).Some?))
    ensures r.Ok? ==>
      && r.value.0 == OrderTypeOf(Get(members, "OrderType")).value
      && (r.value.1.Some? <==> r.value.0 == Limit)
      && (r.value.0 == Limit && "LimitOffset" !in members ==> r.value.1 == Some(DefaultLimitRange))
      && (r.value.0 == Limit && "LimitOffset" in members ==> r.value.1 == ParseUnsigned(members["LimitOffset"], U8Max))
  {
    match OrderTypeOf(Get(members, "OrderType"))
    case None => Err(UnexpectedOrderType(members["OrderType"]))
    case Some(orderType) =>
      if orderType == Market then Ok((Market, None))
      else
        match OptUnsigned(members, "LimitOffset", U8Max)
        case Err(e) => Err(e)
        case Ok(offset) => Ok((Limit, Some(offset.UnwrapOr(DefaultLimitRange))))
  }

  /** The stop and take-profit percentages. */
  function ParsePercents(members: map<string, string>, parseF64: string -> Option<real>)
    : (r: Result<(Option<real>, Option<real>), StrategyError>)
    ensures r.Ok? <==> OptPercent(members, "StopPercent", parseF64).Ok? && OptPercent(members, "TakeProfitPercent", parseF64).Ok?
    ensures r.Ok? ==> r.value == (OptPercent(members, "StopPercent", parseF64).value,
                                  OptPercent(members, "TakeProfitPercent", parseF64).value)
  {
    match OptPercent(members, "StopPercent", parseF64)
    case Err(e) => Err(e)
    case Ok(stop) =>
      match OptPercent(members, "TakeProfitPercent", parseF64)
      case Err(e) => Err(e)
      case Ok(takeProfit) => Ok((stop, takeProfit))
  }

  /** The signal, and the two options only the MACD signal accepts: at most
      10 confirmation candles, and a trend average. */
  function ParseSignal(members: map<string, string>): (r: Result<(MarketData.TradeSignal, Option<nat>, Option<nat>), StrategyError>)
    requires "Signal" in members
    ensures r.Ok? ==>
      && SignalOf(members["Signal"]) == Some(r.value.0)
      && r.value.1 == (if "ConfirmationCandles" in members then ParseUnsigned(members["ConfirmationCandles"], U8Max) else None)
      && r.value.2 == (if "MacdTrendMa" in members then ParseUnsigned(members["MacdTrendMa"], U16Max) else None)
      && (r.value.1.Some? ==> r.value.1.value <= 10 && r.value.0 == MarketData.MACD)
      && (r.value.2.Some? ==> r.value.0 == MarketData.MACD)
    ensures SignalOf(members["Signal"]).None? ==> r.Err?
    ensures (SignalOf(members["Signal"]) != Some(MarketData.MACD)
             && ("ConfirmationCandles" in members || "MacdTrendMa" in members)) ==> r.Err?
    ensures ("ConfirmationCandles" in members && ParseUnsigned(members["ConfirmationCandles"], U8Max).Some?
             && ParseUnsigned(members["ConfirmationCandles"], U8Max).value > 10) ==> r.Err?
    ensures r.Ok? <==>
      && SignalOf(members["Signal"]).Some?
      && ("ConfirmationCandles" in members ==>
            && ParseUnsigned(members["ConfirmationCandles"], U8Max).Some?
            && ParseUnsigned(members["ConfirmationCandles"], U8Max).value <= 10
            && SignalOf(members["Signal"]) == Some(MarketData.MACD))
      && ("MacdTrendMa" in members ==>
            && ParseUnsigned(members["MacdTrendMa"], U16Max).Some?
            && SignalOf(members["Signal"]) == Some(MarketData.MACD))
  {
    match SignalOf(members["Signal"])
    case None => Err(UnsupportedSignal(members["Signal"]))
    case Some(signal) =>
      match OptUnsigned(members, "ConfirmationCandles", U8Max)
      case Err(e) => Err(e)
      case Ok(confirmation) =>
        if confirmation.Some? && confirmation.value > 10 then Err(TooManyConfirmationCandles(confirmation.value))
        else if confirmation.Some? && signal != MarketData.MACD then Err(OnlyForMacd("ConfirmationCandles"))
        else
          match OptUnsigned(members, "MacdTrendMa", U16Max)
          case Err(e) => Err(e)
          case Ok(macdTrendMa) =>
            if macdTrendMa.Some? && signal != MarketData.MACD then Err(OnlyForMacd("MacdTrendMa"))
            else Ok((signal, confirmation, macdTrendMa))
  }

  /** Each of n pairs gets the whole-number share of 100 %. */
  function SplitPct(n: nat): (p: nat)
    requires n >= 1
    ensures p * n <= 100 < (p + 1) * n
  {
    100 / n
  }

  /** `run_strategy`'s checks, in the source's order: the first failing
      stage decides the error. */
  function Parse(members: map<string, string>, parseF64: string -> Option<real>): (r: Result<Options, StrategyError>)
    ensures r.Ok? <==>
      && ParseHeader(members).Ok? && ParseOrderType(members).Ok?
      && ParsePercents(members, parseF64).Ok? && ParseSignal(members).Ok?
    ensures r.Ok? ==>
      && var h := ParseHeader(members).value;
      && var (orderType, limitOffset) := ParseOrderType(members).value;
      && var (stop, takeProfit) := ParsePercents(members, parseF64).value;
      && var (signal, confirmation, macdTrendMa) := ParseSignal(members).value;
      && r.value == Options(h.slowMa, h.fastMa, h.timeFrame, h.pairs, h.bvltMode, h.ema, signal, orderType,
                            limitOffset, stop, takeProfit, confirmation, macdTrendMa, SplitPct(|h.pairs|))
  {
    match ParseHeader(members)
    case Err(e) => Err(e)
    case Ok(h) =>
    match ParseOrderType(members)
    case Err(e) => Err(e)
    case Ok((orderType, limitOffset)) =>
    match ParsePercents(members, parseF64)
    case Err(e) => Err(e)
    case Ok((stop, takeProfit)) =>
    match ParseSignal(members)
    case Err(e) => Err(e)
    case Ok((signal, confirmation, macdTrendMa)) =>
      Ok(Options(h.slowMa, h.fastMa, h.timeFrame, h.pairs, h.bvltMode, h.ema, signal, orderType,
                 limitOffset, stop, takeProfit, confirmation, macdTrendMa, SplitPct(|h.pairs|)))
  }

  /** What accepted options guarantee to the threads they configure. */
  lemma AcceptedOptions(members: map<string, string>, parseF64: string -> Option<real>)
    requires Parse(members, parseF64).Ok?
    ensures var o := Parse(members, parseF64).value;
      && (o.limitOffset.Some? <==> o.orderType == Limit)
      && (o.limitOffset.Some? ==> o.limitOffset.value <= U8Max)
      && (o.stopPercent.Some? ==> 0.0 < o.stopPercent.value <= 100.0)
      && (o.takeProfitPercent.Some? ==> 0.0 < o.takeProfitPercent.value <= 100.0)
      && (o.confirmationCandles.Some? ==> o.confirmationCandles.value <= 10 && o.signal == MarketData.MACD)
      && (o.macdTrendMa.Some? ==> o.signal == MarketData.MACD)
      && o.splitPct * |o.pairs| <= 100
      && MarketData.TrackerInv(MarketData.NewTracker(o.slowMa, o.fastMa, o.bvltMode, o.ema, o.signal, o.orderType,
           o.limitOffset, o.stopPercent, o.takeProfitPercent, o.confirmationCandles, o.macdTrendMa))
  {
    var (orderType, limitOffset) := ParseOrderType(members).value;
    if limitOffset.Some? {
      if "LimitOffset" in members { assert limitOffset == ParseUnsigned(members["LimitOffset"], U8Max); }
    }
  }

  /** Any option only the MACD signal accepts is refused with another signal. */
  lemma MacdOnlyOptionsRefused(members: map<string, string>, parseF64: string -> Option<real>)
    requires "Signal" in members && SignalOf(members["Signal"]) != Some(MarketData.MACD)
    requires "ConfirmationCandles" in members || "MacdTrendMa" in members
    ensures Parse(members, parseF64).Err?
  {
  }
}
