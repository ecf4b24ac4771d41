/** Closed one-minute candles and the price bar every indicator reads. */
module Candles {
  import opened Sequences

  const MINUTE_MS: int := 60_000

  datatype Ohlc = Ohlc(open: real, high: real, low: real, close: real)

  /** The price relations `ClosedCandle.__post_init__` enforces. */
  type Bar = b: Ohlc | 0.0 < b.low <= b.open <= b.high && b.low <= b.close <= b.high
    witness Ohlc(1.0, 1.0, 1.0, 1.0)

  /** A bar that opens and closes at one price. */
  function Flat(low: real, high: real, close: real): Bar
    requires 0.0 < low <= close <= high
  {
    Ohlc(close, high, low, close)
  }

  /** `extension` stands for the provider-specific source fields, compared as a whole. */
  datatype CandleRow = CandleRow(
    provider: nat, instrument: nat, symbol: nat, openMs: int, bar: Bar,
    baseVolume: real, quoteVolume: Option<real>, extension: nat)
  {
    function CloseMs(): int { openMs + MINUTE_MS - 1 }
  }

  type ClosedCandle = c: CandleRow | 0 <= c.openMs && c.openMs % MINUTE_MS == 0
    witness CandleRow(0, 0, 0, 0, Ohlc(1.0, 1.0, 1.0, 1.0), 0.0, None, 0)

  predicate OpensBefore(a: ClosedCandle, b: ClosedCandle) { a.openMs <= b.openMs }

  /** Every minute from the first candle on is present. */
  ghost predicate GapFree(cs: seq<ClosedCandle>) {
    forall i :: 0 <= i < |cs| ==> cs[i].openMs == cs[0].openMs + i * MINUTE_MS
  }
}
