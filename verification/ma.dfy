/** The indicator engine: a moving average over a bounded window of closing
    prices (simple or exponential), the MACD built from three of them, and the
    three signal detectors that turn indicator values into a position to take. */
module MovingAverage {
  import opened Wrappers
  import opened Types
  import Rounding

  /** One moving average. `acc` holds the window of closes, newest first;
      `latest`, `penultimate` and `penPenultimate` are the last three values
      of the average. */
  datatype MAData = MAData(
    latest: Option<real>,
    penultimate: Option<real>,
    penPenultimate: Option<real>,
    acc: seq<real>,
    numCandles: nat)

  /** A fresh average over `n` candles: empty window, no values. */
  function New(n: nat): (r: MAData)
    ensures WellFormed(r) && r.numCandles == n && |r.acc| == 0
  {
    MAData(None, None, None, [], n)
  }

  /** What every average reachable from `New` satisfies: the window never
      outgrows N, there is a value exactly when the window is full, and the
      history fills in order. */
  predicate WellFormed(m: MAData) {
    && |m.acc| <= m.numCandles
    && (m.latest.Some? <==> m.numCandles > 0 && |m.acc| == m.numCandles)
    && (m.penultimate.Some? ==> m.latest.Some?)
    && (m.penPenultimate.Some? ==> m.penultimate.Some?)
  }

  function Sum(s: seq<real>): real {
    if |s| == 0 then 0.0 else s[0] + Sum(s[1..])
  }

  /** The weight of the newest close in an exponential average over n candles. */
  function Weight(n: nat): (w: real)
    requires n > 0
    ensures 0.0 < w <= 1.0
  {
    2.0 / (n as real + 1.0)
  }

  /** The exponential average step: the newest close weighted by `Weight`,
      the previous value by the rest. */
  function EmaStep(close: real, prev: real, n: nat): real
    requires n > 0
  {
    close * Weight(n) + prev * (1.0 - Weight(n))
  }

  /** Records a new value and shifts the history back by one. */
  function Update(m: MAData, v: real): MAData {
    m.(penPenultimate := m.penultimate, penultimate := m.latest, latest := Some(v))
  }

  /** `MAData::compute`. With N = 0 nothing changes. Otherwise the oldest
      close is dropped when the window is full, the new close goes in front,
      and once the window is full a new value is recorded: the mean of the
      window, or in EMA mode the EMA step from the previous value (the mean
      when there is none yet). */
  function Compute(m: MAData, close: real, ema: bool): (r: MAData)
    ensures m.numCandles == 0 ==> r == m
    ensures r.numCandles == m.numCandles
    ensures WellFormed(m) ==> WellFormed(r)
    ensures m.numCandles > 0 && |m.acc| <= m.numCandles ==>
      && |r.acc| == (if |m.acc| == m.numCandles then m.numCandles else |m.acc| + 1)
      && r.acc[0] == close
      && forall i :: 0 < i < |r.acc| ==> r.acc[i] == m.acc[i - 1]
    ensures m.numCandles > 0 && |r.acc| == m.numCandles ==>
      && r.penPenultimate == m.penultimate
      && r.penultimate == m.latest
      && r.latest.Some?
    ensures m.numCandles > 0 && |r.acc| != m.numCandles ==>
      r.latest == m.latest && r.penultimate == m.penultimate && r.penPenultimate == m.penPenultimate
  {
    if m.numCandles == 0 then m
    else
      var kept := if |m.acc| == m.numCandles then m.acc[..|m.acc| - 1] else m.acc;
      var acc := [close] + kept;
      var m' := m.(acc := acc);
      if |acc| == m.numCandles then
        var mean := Sum(acc) / (m.numCandles as real);
        if ema then
          var prev := m.latest.UnwrapOr(mean);
          Update(m', EmaStep(close, prev, m.numCandles))
        else Update(m', mean)
      else m'
  }

  /** The value recorded once the window is full: the mean of the window, or
      in EMA mode the EMA step from the previous value (the mean when there
      is none yet). */
  lemma ComputeValue(m: MAData, close: real, ema: bool)
    requires m.numCandles > 0 && |Compute(m, close, ema).acc| == m.numCandles
    ensures var r := Compute(m, close, ema);
      && r.latest.Some?
      && (!ema ==> r.latest.value == Sum(r.acc) / (m.numCandles as real))
      && (ema ==> r.latest.value
                  == EmaStep(close, m.latest.UnwrapOr(Sum(r.acc) / (m.numCandles as real)), m.numCandles))
  {
  }

  /** The average after the closes are fed in order. */
  function Feed(m: MAData, closes: seq<real>, ema: bool): (r: MAData)
    ensures r.numCandles == m.numCandles
    decreases |closes|
  {
    if |closes| == 0 then m
    else Compute(Feed(m, closes[..|closes| - 1], ema), closes[|closes| - 1], ema)
  }

  function Min(a: int, b: int): int {
    if a <= b then a else b
  }

  /** What warm-up promises after the closes `fed`: the window holds the
      newest min(k, N) of them, newest first, and there is a value exactly
      once N have been fed. */
  predicate WarmedBy(m: MAData, n: nat, fed: seq<real>) {
    && m.numCandles == n
    && WellFormed(m)
    && |m.acc| == Min(|fed|, n)
    && (forall i :: 0 <= i < |m.acc| ==> m.acc[i] == fed[|fed| - 1 - i])
    && (m.latest.Some? <==> |fed| >= n)
  }

  /** One more close keeps the warm-up picture. */
  lemma WarmUpStep(m: MAData, n: nat, fed: seq<real>, close: real, ema: bool)
    requires n > 0 && WarmedBy(m, n, fed)
    ensures WarmedBy(Compute(m, close, ema), n, fed + [close])
  {
    var r := Compute(m, close, ema);
    var fed' := fed + [close];
    forall i | 0 <= i < |r.acc|
      ensures r.acc[i] == fed'[|fed'| - 1 - i]
    {
      if i > 0 {
        assert r.acc[i] == m.acc[i - 1];
      }
    }
  }

  /** Warm-up: fed from scratch, the window holds the newest min(k, N) closes
      newest first, and there is a value exactly once N closes have been fed. */
  lemma {:induction false} WarmUp(n: nat, closes: seq<real>, ema: bool)
    requires n > 0
    ensures WarmedBy(Feed(New(n), closes, ema), n, closes)
    decreases |closes|
  {
    if |closes| > 0 {
      var init := closes[..|closes| - 1];
      var last := closes[|closes| - 1];
      WarmUp(n, init, ema);
      WarmUpStep(Feed(New(n), init, ema), n, init, last, ema);
      DropLastAppend(closes);
    }
  }

  lemma SumSnoc(s: seq<real>, x: real)
    ensures Sum(s + [x]) == Sum(s) + x
  {
    if |s| > 0 {
      assert (s + [x])[1..] == s[1..] + [x];
    }
  }

  /** A sequence and its reverse have the same sum. */
  lemma {:induction false} SumReverse(a: seq<real>, b: seq<real>)
    requires |a| == |b|
    requires forall i :: 0 <= i < |a| ==> a[i] == b[|b| - 1 - i]
    ensures Sum(a) == Sum(b)
    decreases |a|
  {
    if |a| > 0 {
      var b' := b[..|b| - 1];
      SumReverse(a[1..], b');
      assert b == b' + [b[|b| - 1]];
      SumSnoc(b', b[|b| - 1]);
    }
  }

  /** In simple mode the value is the mean of the last N closes fed. */
  lemma SmaIsMeanOfLastN(n: nat, closes: seq<real>)
    requires n > 0 && |closes| >= n
    ensures var r := Feed(New(n), closes, false);
      r.latest.Some? && r.latest.value == Sum(closes[|closes| - n..]) / (n as real)
  {
    var init := closes[..|closes| - 1];
    var last := closes[|closes| - 1];
    DropLastAppend(closes);
    WarmUp(n, init, false);
    SmaStep(Feed(New(n), init, false), n, init, last, closes);
  }

  lemma DropLastAppend(s: seq<real>)
    requires |s| > 0
    ensures s[..|s| - 1] + [s[|s| - 1]] == s
  {
  }

  /** A close that fills (or keeps full) a warmed-up simple average makes its
      value the mean of the newest N closes. */
  lemma SmaStep(m: MAData, n: nat, fed: seq<real>, close: real, all: seq<real>)
    requires n > 0 && WarmedBy(m, n, fed) && |fed| + 1 >= n && all == fed + [close]
    ensures var r := Compute(m, close, false);
      r.latest.Some? && r.latest.value == Sum(all[|all| - n..]) / (n as real)
  {
    WarmUpStep(m, n, fed, close, false);
    var r := Compute(m, close, false);
    ComputeValue(m, close, false);
    var window := all[|all| - n..];
    forall i | 0 <= i < n
      ensures r.acc[i] == window[n - 1 - i]
    {
      assert window[n - 1 - i] == all[|all| - 1 - i];
    }
    SumReverse(r.acc, window);
  }

  predicate InRange(s: seq<real>, lo: real, hi: real) {
    forall i :: 0 <= i < |s| ==> lo <= s[i] <= hi
  }

  predicate OptInRange(v: Option<real>, lo: real, hi: real) {
    v.Some? ==> lo <= v.value <= hi
  }

  lemma {:induction false} SumBounds(s: seq<real>, lo: real, hi: real)
    requires InRange(s, lo, hi)
    ensures (|s| as real) * lo <= Sum(s) <= (|s| as real) * hi
    decreases |s|
  {
    if |s| > 0 {
      SumBounds(s[1..], lo, hi);
      assert (|s| as real) * lo == lo + (|s[1..]| as real) * lo;
      assert (|s| as real) * hi == hi + (|s[1..]| as real) * hi;
    }
  }

  /** The mean of values in a range lies in that range. */
  lemma MeanInRange(s: seq<real>, n: nat, lo: real, hi: real)
    requires n > 0 && |s| == n && InRange(s, lo, hi)
    ensures lo <= Sum(s) / (n as real) <= hi
  {
    SumBounds(s, lo, hi);
    Rounding.GeDiv(Sum(s), lo, n as real);
    Rounding.LeDiv(Sum(s), hi, n as real);
  }

  /** One EMA step between two values in a range stays in that range. */
  lemma EmaStepInRange(close: real, prev: real, n: nat, lo: real, hi: real)
    requires n > 0 && lo <= close <= hi && lo <= prev <= hi
    ensures lo <= EmaStep(close, prev, n) <= hi
  {
    var w := Weight(n);
    var d := close - prev;
    assert prev * (1.0 - w) == prev - prev * w;
    assert close * w - prev * w == w * d;
    assert EmaStep(close, prev, n) == prev + w * d;
    if d >= 0.0 {
      FractionOf(w, d);
    } else {
      FractionOf(w, -d);
      assert w * (-d) == -(w * d);
    }
  }

  lemma FractionOf(w: real, d: real)
    requires 0.0 < w <= 1.0 && d >= 0.0
    ensures 0.0 <= w * d <= d
  {
    assert d - w * d == (1.0 - w) * d;
  }

  /** Every value an average takes lies within the range of the closes fed to it. */
  lemma {:induction false} FeedStaysInRange(n: nat, closes: seq<real>, ema: bool, lo: real, hi: real)
    requires InRange(closes, lo, hi)
    ensures var r := Feed(New(n), closes, ema);
      && InRange(r.acc, lo, hi)
      && OptInRange(r.latest, lo, hi)
      && OptInRange(r.penultimate, lo, hi)
      && OptInRange(r.penPenultimate, lo, hi)
    decreases |closes|
  {
    if |closes| > 0 {
      var init := closes[..|closes| - 1];
      var close := closes[|closes| - 1];
      FeedStaysInRange(n, init, ema, lo, hi);
      var m := Feed(New(n), init, ema);
      var r := Feed(New(n), closes, ema);
      if n > 0 {
        WarmUp(n, init, ema);
        assert InRange(r.acc, lo, hi) by {
          forall i | 0 <= i < |r.acc| ensures lo <= r.acc[i] <= hi {
            if i > 0 {
              assert r.acc[i] == m.acc[i - 1];
            }
          }
        }
        if |r.acc| == n {
          ComputeValue(m, close, ema);
          MeanInRange(r.acc, n, lo, hi);
          if ema {
            EmaStepInRange(close, m.latest.UnwrapOr(Sum(r.acc) / (n as real)), n, lo, hi);
          }
        }
      }
    }
  }

  /** The MACD indicator: 12- and 26-candle EMAs of the close, their
      difference (the MACD value, current and previous), and a 9-candle EMA of
      that difference (the signal line). */
  datatype Macd = Macd(
    ema12: MAData,
    ema26: MAData,
    signal: MAData,
    macdLatest: Option<real>,
    macdPrevious: Option<real>)

  /** What every MACD reachable from `MacdNew` satisfies. In particular the
      12-candle EMA has a value whenever the 26-candle one does, so the
      difference can always be formed. */
  predicate MacdInv(m: Macd) {
    && m.ema12.numCandles == 12 && m.ema26.numCandles == 26 && m.signal.numCandles == 9
    && WellFormed(m.ema12) && WellFormed(m.ema26) && WellFormed(m.signal)
    && |m.ema12.acc| == Min(|m.ema26.acc|, 12)
    && (m.macdLatest.Some? <==> m.ema26.latest.Some?)
    && (m.macdPrevious.Some? ==> m.macdLatest.Some?)
  }

  function MacdNew(): (r: Macd)
    ensures MacdInv(r)
    ensures r.macdLatest.None? && r.macdPrevious.None? && r.signal.latest.None?
  {
    Macd(New(12), New(26), New(9), None, None)
  }

  /** `MACD::compute`: both EMAs take the close; once the slow one has a value
      the MACD value is recomputed, the old one (if any) becomes the previous
      value, and the signal line takes the new value. */
  function MacdCompute(m: Macd, close: real): (r: Macd)
    requires MacdInv(m)
    ensures MacdInv(r)
    ensures r.ema12 == Compute(m.ema12, close, true) && r.ema26 == Compute(m.ema26, close, true)
    ensures r.ema26.latest.None? ==>
      r.macdLatest == m.macdLatest && r.macdPrevious == m.macdPrevious && r.signal == m.signal
    ensures r.ema26.latest.Some? ==>
      && r.ema12.latest.Some?
      && r.macdLatest == Some(r.ema12.latest.value - r.ema26.latest.value)
      && r.macdPrevious == (if m.macdLatest.Some? then m.macdLatest else m.macdPrevious)
      && r.signal == Compute(m.signal, r.macdLatest.value, true)
  {
    var e12 := Compute(m.ema12, close, true);
    var e26 := Compute(m.ema26, close, true);
    var m' := m.(ema12 := e12, ema26 := e26);
    if e26.latest.Some? then
      var previous := if m.macdLatest.Some? then m.macdLatest else m.macdPrevious;
      var macd := e12.latest.value - e26.latest.value;
      m'.(macdPrevious := previous, macdLatest := Some(macd),
          signal := Compute(m.signal, macd, true))
    else m'
  }

  function MacdFeed(m: Macd, closes: seq<real>): (r: Macd)
    requires MacdInv(m)
    ensures MacdInv(r)
    decreases |closes|
  {
    if |closes| == 0 then m
    else MacdCompute(MacdFeed(m, closes[..|closes| - 1]), closes[|closes| - 1])
  }

  function Max(a: int, b: int): int {
    if a >= b then a else b
  }

  /** MACD warm-up: the MACD value exists from the 26th close on, the previous
      value from the 27th, and the signal line from the 34th (26 + 9 - 1). */
  lemma {:induction false} MacdWarmUp(closes: seq<real>)
    ensures var r := MacdFeed(MacdNew(), closes);
      && |r.ema26.acc| == Min(|closes|, 26)
      && |r.signal.acc| == Min(Max(|closes| - 25, 0), 9)
      && (r.macdLatest.Some? <==> |closes| >= 26)
      && (r.macdPrevious.Some? <==> |closes| >= 27)
      && (r.signal.latest.Some? <==> |closes| >= 34)
    decreases |closes|
  {
    if |closes| > 0 {
      MacdWarmUp(closes[..|closes| - 1]);
    }
  }

  /** A value crosses above a level: it was below and is now above. */
  predicate CrossedAbove(prev: real, cur: real, level: real) {
    prev < level && cur > level
  }

  /** A value crosses below a level: it was above and is now below. */
  predicate CrossedBelow(prev: real, cur: real, level: real) {
    prev > level && cur < level
  }

  /** The trend filter of the MACD strategy lets a Long through: with no
      filter configured (N = 0) always, otherwise only when the trend average
      has two values and is not falling. */
  predicate TrendAllowsLong(trend: MAData) {
    trend.numCandles > 0 ==>
      trend.latest.Some? && trend.penultimate.Some? && trend.latest.value >= trend.penultimate.value
  }

  /** `trading_decision_macd`: Long when the MACD value crosses above the
      signal line and the trend filter allows it; Short when it crosses below;
      otherwise no position. */
  function MacdDecision(m: Macd, trend: MAData): (r: PositionType)
    ensures r == Long <==>
      m.macdLatest.Some? && m.signal.latest.Some? && m.macdPrevious.Some?
      && CrossedAbove(m.macdPrevious.value, m.macdLatest.value, m.signal.latest.value)
      && TrendAllowsLong(trend)
    ensures r == Short <==>
      m.macdLatest.Some? && m.signal.latest.Some? && m.macdPrevious.Some?
      && CrossedBelow(m.macdPrevious.value, m.macdLatest.value, m.signal.latest.value)
  {
    if m.macdLatest.Some? && m.signal.latest.Some? && m.macdPrevious.Some? then
      var signal := m.signal.latest.value;
      var prev := m.macdPrevious.value;
      var macd := m.macdLatest.value;
      if macd > signal && prev < signal then
        if trend.numCandles > 0 then
          if trend.latest.Some? && trend.penultimate.Some? && trend.latest.value >= trend.penultimate.value
          then Long
          else NoPosition
        else Long
      else if macd < signal && prev > signal then Short
      else NoPosition
    else NoPosition
  }

  /** `trading_decision_ma_trend_change`: needs the slow value and three fast
      values. With c the SLOW average's latest value and p, pp the fast
      average's two previous values: Long when c > p and p < pp, Short when
      c < p and p > pp. */
  function TrendDecision(slow: MAData, fast: MAData): (r: PositionType)
    ensures r != NoPosition ==>
      slow.latest.Some? && fast.latest.Some? && fast.penultimate.Some? && fast.penPenultimate.Some?
    ensures r == Long <==>
      slow.latest.Some? && fast.latest.Some? && fast.penultimate.Some? && fast.penPenultimate.Some?
      && slow.latest.value > fast.penultimate.value && fast.penultimate.value < fast.penPenultimate.value
    ensures r == Short <==>
      slow.latest.Some? && fast.latest.Some? && fast.penultimate.Some? && fast.penPenultimate.Some?
      && slow.latest.value < fast.penultimate.value && fast.penultimate.value > fast.penPenultimate.value
  {
    if slow.latest.None? || fast.latest.None? || fast.penultimate.None? || fast.penPenultimate.None?
    then NoPosition
    else
      var c := slow.latest.value;
      var p := fast.penultimate.value;
      var pp := fast.penPenultimate.value;
      if c > p && p < pp then Long
      else if c < p && p > pp then Short
      else NoPosition
  }

  /** `trading_decision_ma_cross`: the fast average's latest and previous
      values and the slow average's latest value, each rounded down to the
      pair's price decimals; Long when the fast one crosses above the slow one,
      Short when it crosses below. */
  function CrossDecision(fast: MAData, slow: MAData, dps: int): (r: PositionType)
    ensures r == Long <==>
      fast.latest.Some? && slow.latest.Some? && fast.penultimate.Some?
      && CrossedAbove(Rounding.Floor(fast.penultimate.value, dps), Rounding.Floor(fast.latest.value, dps),
                      Rounding.Floor(slow.latest.value, dps))
    ensures r == Short <==>
      fast.latest.Some? && slow.latest.Some? && fast.penultimate.Some?
      && CrossedBelow(Rounding.Floor(fast.penultimate.value, dps), Rounding.Floor(fast.latest.value, dps),
                      Rounding.Floor(slow.latest.value, dps))
  {
    if fast.latest.Some? && slow.latest.Some? && fast.penultimate.Some? then
      var f := Rounding.Floor(fast.latest.value, dps);
      var fPrev := Rounding.Floor(fast.penultimate.value, dps);
      var s := Rounding.Floor(slow.latest.value, dps);
      if f > s && fPrev < s then Long
      else if f < s && fPrev > s then Short
      else NoPosition
    else NoPosition
  }

  /** A cross of the rounded values is a cross of the exact values: rounding
      can hide a cross but never invent one. */
  lemma RoundedCrossIsExactCross(fast: MAData, slow: MAData, dps: int)
    ensures CrossDecision(fast, slow, dps) == Long ==>
      CrossedAbove(fast.penultimate.value, fast.latest.value, slow.latest.value)
    ensures CrossDecision(fast, slow, dps) == Short ==>
      CrossedBelow(fast.penultimate.value, fast.latest.value, slow.latest.value)
  {
    var r := CrossDecision(fast, slow, dps);
    if r == Long || r == Short {
      var f := fast.latest.value;
      var fp := fast.penultimate.value;
      var s := slow.latest.value;
      if f <= s { Rounding.FloorMonotone(f, s, dps); }
      if s <= f { Rounding.FloorMonotone(s, f, dps); }
      if fp <= s { Rounding.FloorMonotone(fp, s, dps); }
      if s <= fp { Rounding.FloorMonotone(s, fp, dps); }
    }
  }

  /** An average with every value negated. */
  function Negate(m: MAData): MAData {
    m.(latest := NegOpt(m.latest), penultimate := NegOpt(m.penultimate),
       penPenultimate := NegOpt(m.penPenultimate))
  }

  function NegOpt(v: Option<real>): (r: Option<real>)
    ensures r.Some? <==> v.Some?
    ensures r.Some? ==> r.value == -v.value
  {
    match v
    case None => None
    case Some(x) => Some(-x)
  }

  function Opposite(p: PositionType): PositionType {
    match p
    case Long => Short
    case Short => Long
    case NoPosition => NoPosition
  }

  /** The trend detector is symmetric: mirroring every value swaps Long and Short. */
  lemma TrendDecisionMirror(slow: MAData, fast: MAData)
    ensures TrendDecision(Negate(slow), Negate(fast)) == Opposite(TrendDecision(slow, fast))
  {
  }

  /** Without a trend filter the MACD detector is symmetric too: mirroring the
      MACD and signal values swaps Long and Short. */
  lemma MacdDecisionMirror(m: Macd, trend: MAData)
    requires trend.numCandles == 0
    ensures MacdDecision(m.(macdLatest := NegOpt(m.macdLatest), macdPrevious := NegOpt(m.macdPrevious),
                            signal := Negate(m.signal)), trend)
            == Opposite(MacdDecision(m, trend))
  {
  }

  /** The MACD detector gives nothing before the signal line has a value,
      that is before 34 closes. */
  lemma NoMacdSignalBeforeWarmUp(closes: seq<real>, trend: MAData)
    requires |closes| < 34
    ensures MacdDecision(MacdFeed(MacdNew(), closes), trend) == NoPosition
  {
    MacdWarmUp(closes);
  }

  /** The cross detector gives nothing before the slow average has N closes. */
  lemma NoCrossBeforeWarmUp(fast: MAData, n: nat, closes: seq<real>, dps: int)
    requires n > 0 && |closes| < n
    ensures CrossDecision(fast, Feed(New(n), closes, false), dps) == NoPosition
    ensures CrossDecision(fast, Feed(New(n), closes, true), dps) == NoPosition
  {
    WarmUp(n, closes, false);
    WarmUp(n, closes, true);
  }
}
