/**
 * The exchange records the risk strategy reads: trades of the market's
 * history, order-book entries, account balances and open orders, plus the
 * trend the strategy derives and the side of the order it submits.
 */
module Market {

  /** One trade of the history; `bidAmount` and `askAmount` are the exchange's
      `bid_amount` and `ask_amount`. The timestamp is not read by the strategy. */
  datatype TradeRecord = TradeRecord(price: real, bidAmount: real, askAmount: real)

  /** The numeric fields of a trade a statistic can be taken over (the `key`
      argument of the averaging helpers). */
  datatype Field = Price | BidAmount | AskAmount

  /** `element[key]`. */
  function Value(t: TradeRecord, key: Field): (value: real)
  {
    match key
    case Price => t.price
    case BidAmount => t.bidAmount
    case AskAmount => t.askAmount
  }

  /** One level of an order-book side: its price `level`, the amount offered
      there (the exchange's `bid` or `ask` field) and its `count`. */
  datatype BookEntry = BookEntry(level: real, amount: real, count: real)

  /** Both sides of the book, each best-first. */
  datatype OrderBook = OrderBook(bids: seq<BookEntry>, asks: seq<BookEntry>)

  /** A balance of one currency of the account. */
  datatype Balance = Balance(currency: string, amount: real)

  /** An open order of the account, in some market. */
  datatype OpenOrder = OpenOrder(orderId: nat, marketId: nat)

  /** The direction `determineTrend` reports. */
  datatype Trend = Buy | Sell | Sideways

  /** The side of a submitted limit order. */
  datatype OrderSide = BuyOrder | SellOrder

  /** `side === "BUY" ? ORDERSIDES.BUY : ORDERSIDES.SELL`. */
  function OrderSideOf(trend: Trend): (side: OrderSide)
    ensures side == BuyOrder <==> trend == Buy
  {
    if trend == Buy then BuyOrder else SellOrder
  }
}
