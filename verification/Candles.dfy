/** One OHLCV candle. Prices are exact reals; the program's floats are never NaN here. */
module Candles {
  datatype Candle = Candle(
    open: real, high: real, low: real, close: real,
    tOpen: real, tClose: real, volume: real)

  /** What the tick aggregator guarantees of every candle it closes. */
  predicate WellFormed(c: Candle) {
    && 0.0 < c.low
    && c.low <= c.open <= c.high
    && c.low <= c.close <= c.high
  }
}
