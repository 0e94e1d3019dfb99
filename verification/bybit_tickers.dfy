/**
 * The Bybit market-ticker response: the first ticker of the list, remembered
 * once read.
 */
module BybitTickers {
  import opened Wrappers

  /** The ticker fields the model keeps; the response has many more, none of which is read here. */
  datatype RawTicker = RawTicker(
    symbol: string,
    lastPrice: string,
    bestAskPrice: string,
    bestAskQty: string,
    bestBidPrice: string,
    bestBidQty: string)

  class RawTickersResult {
    var category: string
    var list: seq<RawTicker>
    var latestTicker: Option<RawTicker>

    constructor (category: string, list: seq<RawTicker>)
      ensures this.category == category && this.list == list && latestTicker == None
    {
      this.category := category;
      this.list := list;
      latestTicker := None;
    }

    /** What `LatestTicker` answers in the current state. */
    function Answer(): Result<RawTicker>
      reads this
    {
      if latestTicker.Some? then Ok(latestTicker.value)
      else if |list| < 1 then Err("no tickers found")
      else Ok(list[0])
    }

    /** `LatestTicker`: the remembered ticker, or else the head of the list, which is
        remembered; an empty list is an error and remembers nothing. */
    method LatestTicker() returns (r: Result<RawTicker>)
      modifies this`latestTicker
      ensures r == old(Answer()) && r == Answer()
      ensures old(latestTicker).None? && |list| >= 1 ==> r == Ok(list[0]) && latestTicker == Some(list[0])
      ensures old(latestTicker).None? && |list| < 1 ==> r == Err("no tickers found") && latestTicker.None?
      ensures old(latestTicker).Some? ==> r == Ok(old(latestTicker).value) && latestTicker == old(latestTicker)
    {
      if latestTicker.Some? {
        return Ok(latestTicker.value);
      }
      if |list| < 1 {
        return Err("no tickers found");
      }
      latestTicker := Some(list[0]);
      return Ok(list[0]);
    }
  }
}
