/**
 * The BingX ticker responses: the first book ticker, the first price ticker
 * and a ticker's first trade.
 */
module BingxTickers {
  import opened Wrappers

  datatype RawBookTicker = RawBookTicker(
    symbol: string,
    eventType: string,
    time: int,
    askPrice: string,
    askAmount: string,
    bidPrice: string,
    bidAmount: string)

  datatype RawTrade = RawTrade(
    timestamp: int,
    tradeId: string,
    price: string,
    amount: string,
    kind: int,
    volume: string)

  datatype RawPriceTicker = RawPriceTicker(symbol: string, trades: seq<RawTrade>)

  /** The head of a list, or the given error for an empty one. */
  function First<T>(xs: seq<T>, missing: string): (r: Result<T>)
    ensures r.Ok? <==> |xs| >= 1
    ensures r.Ok? ==> r.value == xs[0]
    ensures r.Err? ==> r.error == missing
  {
    if |xs| < 1 then Err(missing) else Ok(xs[0])
  }

  /** `RawBookTickers.LastTicker`. */
  function LastBookTicker(t: seq<RawBookTicker>): (r: Result<RawBookTicker>)
    ensures r.Ok? <==> |t| >= 1
    ensures r.Ok? ==> r.value == t[0]
    ensures r.Err? ==> r.error == "missing tickers"
  {
    First(t, "missing tickers")
  }

  /** `RawPriceTickers.LastTicker`. */
  function LastPriceTicker(t: seq<RawPriceTicker>): (r: Result<RawPriceTicker>)
    ensures r.Ok? <==> |t| >= 1
    ensures r.Ok? ==> r.value == t[0]
    ensures r.Err? ==> r.error == "missing tickers"
  {
    First(t, "missing tickers")
  }

  /** `RawPriceTicker.LastTrade`. */
  function LastTrade(t: RawPriceTicker): (r: Result<RawTrade>)
    ensures r.Ok? <==> |t.trades| >= 1
    ensures r.Ok? ==> r.value == t.trades[0]
    ensures r.Err? ==> r.error == "missing trades"
  {
    First(t.trades, "missing trades")
  }

  /** The last trade price is read through both selectors: it fails exactly when there
      is no price ticker or the first has no trade, and is then the first ticker's first trade. */
  lemma LastTradeOfLastTicker(t: seq<RawPriceTicker>)
    ensures (LastPriceTicker(t).Ok? && LastTrade(LastPriceTicker(t).value).Ok?)
            <==> (|t| >= 1 && |t[0].trades| >= 1)
    ensures |t| >= 1 && |t[0].trades| >= 1 ==>
            LastTrade(LastPriceTicker(t).value).value == t[0].trades[0]
  {
  }
}
