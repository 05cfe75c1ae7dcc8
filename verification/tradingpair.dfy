/** A trading pair such as "BTC/USDT": the exchange symbol, the two
    currencies, whether it is a leveraged token (BVLT) and its exchange
    filters. The filters come from exchange queries; their answers are
    parameters here. */
module TradingPairs {
  import opened Wrappers
  import opened Strings

  /** A leveraged token that goes up (…UP) or down (…DOWN) with its underlying. */
  datatype BvltType = BvltUp | BvltDown

  /** The lot-size filter: quantity decimal places and smallest quantity. */
  datatype LotSizeFilter = LotSizeFilter(decimalPlaces: int, minQty: real)

  /** The price filter: price decimal places and price increment. */
  datatype PriceFilter = PriceFilter(decimalPlaces: int, tickSize: real)

  /** The fields of a pair; reading a field is the source's getter. */
  datatype TradingPair = TradingPair(
    name: string,
    symbol: string,
    sellCurrency: string,
    buyCurrency: string,
    bvltType: Option<BvltType>,
    priceDps: int,
    qtyDps: int,
    minOrder: real,
    tickSize: real,
    minNotional: real)

  /** Why a pair could not be built (each is a panic in the source). */
  datatype PairError = NoLotSizeFilter | NoPriceFilter | NoMinNotional | NoSeparator

  /** The BVLT kind of a base currency: Up for a name ending in "UP",
      Down for one ending in "DOWN", none otherwise. */
  function Classify(base: string): (r: Option<BvltType>)
    ensures r == Some(BvltUp) <==> EndsWith(base, "UP")
    ensures r == Some(BvltDown) <==> EndsWith(base, "DOWN")
    ensures r == None <==> !EndsWith(base, "UP") && !EndsWith(base, "DOWN")
  {
    UpDownExclusive(base);
    if EndsWith(base, "UP") then Some(BvltUp)
    else if EndsWith(base, "DOWN") then Some(BvltDown)
    else None
  }

  /** No name ends in both "UP" and "DOWN", since their last letters differ. */
  lemma UpDownExclusive(base: string)
    ensures !(EndsWith(base, "UP") && EndsWith(base, "DOWN"))
  {
    if EndsWith(base, "UP") {
      assert base[|base| - 1] == "UP"[1];
    }
  }

  /** `TradingPair::new`: the three filters are looked up for the symbol first
      (their absence panics), then the name must contain a '/'. */
  function New(n: string, lot: Option<LotSizeFilter>, price: Option<PriceFilter>,
               minNotional: Option<real>): (r: Result<TradingPair, PairError>)
    ensures r.Ok? <==> lot.Some? && price.Some? && minNotional.Some? && '/' in n
    ensures lot.None? ==> r == Err(NoLotSizeFilter)
    ensures r.Ok? ==>
      var p := r.value;
      && p.name == n
      && p.symbol == RemoveAll(n, '/') == Concat(Split(n, '/'))
      && '/' !in p.symbol && '/' !in p.sellCurrency && '/' !in p.buyCurrency
      && StartsWith(n, p.sellCurrency + "/" + p.buyCurrency)
      && p.bvltType == Classify(p.sellCurrency)
      && p.qtyDps == lot.value.decimalPlaces && p.minOrder == lot.value.minQty
      && p.priceDps == price.value.decimalPlaces && p.tickSize == price.value.tickSize
      && p.minNotional == minNotional.value
  {
    var parts := Split(n, '/');
    var symbol := RemoveAll(n, '/');
    SplitSingle(n, '/');
    RemoveAllIsConcatOfSplit(n, '/');
    if lot.None? then Err(NoLotSizeFilter)
    else if price.None? then Err(NoPriceFilter)
    else if minNotional.None? then Err(NoMinNotional)
    else if |parts| < 2 then Err(NoSeparator)
    else
      SplitPrefix(n, '/');
      Ok(TradingPair(n, symbol, parts[0], parts[1], Classify(parts[0]),
                     price.value.decimalPlaces, lot.value.decimalPlaces,
                     lot.value.minQty, price.value.tickSize, minNotional.value))
  }

  /** With a separator present, the first two pieces and the separator between
      them start the input. */
  lemma SplitPrefix(s: string, c: char)
    requires c in s
    ensures var p := Split(s, c);
      |p| >= 2 && StartsWith(s, p[0] + [c] + p[1])
  {
    SplitHead(s, c);
    var p := Split(s, c);
    var rest := p[1..];
    if |rest| == 1 {
      assert Join(rest, c) == p[1];
    } else {
      assert Join(rest, c) == p[1] + [c] + Join(rest[1..], c);
    }
    assert s == p[0] + [c] + p[1] + s[|p[0] + [c] + p[1]|..];
  }

  /** A name "base/quote" whose parts hold no '/' yields exactly those parts,
      and the symbol is the two parts run together. */
  lemma NewOfBaseQuote(base: string, quote: string, lot: LotSizeFilter,
                       price: PriceFilter, minNotional: real)
    requires '/' !in base && '/' !in quote
    ensures var r := New(base + "/" + quote, Some(lot), Some(price), Some(minNotional));
      r.Ok? && r.value.sellCurrency == base && r.value.buyCurrency == quote
      && r.value.symbol == base + quote
  {
    var n := base + "/" + quote;
    assert Join([base, quote], '/') == n;
    SplitJoin([base, quote], '/');
    RemoveAllIsConcatOfSplit(n, '/');
    assert [base, quote][1..] == [quote];
    assert Concat([quote]) == quote;
  }
}
