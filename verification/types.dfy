/** Plain data shared by several parts of the bot: the kind of position held,
    a held position, an asset balance, the order type and a candle's colour. */
module Types {

  /** The source's `PositionType`; its third variant `None` is called
      `NoPosition` here so that it cannot be confused with `Option.None`. */
  datatype PositionType = Long | Short | NoPosition

  /** A held position: its kind, quantity and average entry price. */
  datatype Position = Position(kind: PositionType, qty: real, price: real)

  /** The free and locked amounts of one asset. */
  datatype Balance = Balance(asset: string, free: real, locked: real)

  /** Market or limit order. */
  datatype OrderType = Market | Limit

  /** Whether a candle closed at or above the previous close (Green) or below it (Red). */
  datatype CandleColor = Green | Red
}
