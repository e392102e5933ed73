/**
  The engine's event records and the closed sum type that carries them
  through the event queue. Prices and quantities of the base asset are
  exact reals (the engine uses IEEE doubles); order and fill quantities are
  unbounded integers; time points are integers.
*/
module Events {

  /** New market data for one symbol. */
  datatype MarketEvent = MarketEvent(
    symbol: string,
    price: real,
    qty: real,
    timestampMs: int,
    isBuyerMatch: bool)

  /** A trading signal from a strategy; it carries no data. */
  datatype SignalEvent = SignalEvent

  /**
    An order submitted to the market. `timestamp` is not a field of the
    engine's order record, but the order book's comparators read one, so
    the model carries it here.
  */
  datatype OrderEvent = OrderEvent(
    symbol: string,
    orderId: string,
    quantity: int,
    isBuy: bool,
    price: real,
    timestamp: int)

  /** The result of executing (part of) an order. */
  datatype FillEvent = FillEvent(
    symbol: string,
    orderId: string,
    filledQty: int,
    orderQty: int,
    isBuy: bool,
    fillPrice: real,
    timestamp: int)

  /** The four kinds of event the queue carries. */
  datatype Event =
    | Market(market: MarketEvent)
    | Signal(signal: SignalEvent)
    | Order(order: OrderEvent)
    | Fill(fill: FillEvent)
}
