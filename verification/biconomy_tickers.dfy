/**
 * The Biconomy market-ticker response: the ticker of a symbol is looked up
 * once and then remembered.
 */
module BiconomyTickers {
  import opened Wrappers

  datatype RawTicker = RawTicker(
    symbol: string,
    change: string,
    deal: string,
    high: string,
    low: string,
    volume24h: string,
    lastPrice: string,
    ask: string,
    bid: string)

  const NoTickersFound := "no tickers found"

  /** The first ticker of the given symbol, if any (`lo.Find`). */
  function FindBySymbol(tickers: seq<RawTicker>, symbol: string): (r: Option<RawTicker>)
    ensures r.Some? <==> exists i :: 0 <= i < |tickers| && tickers[i].symbol == symbol
    ensures r.Some? ==> exists i :: 0 <= i < |tickers| && tickers[i] == r.value &&
                          r.value.symbol == symbol &&
                          forall j :: 0 <= j < i ==> tickers[j].symbol != symbol
  {
    if |tickers| == 0 then None
    else if tickers[0].symbol == symbol then Some(tickers[0])
    else
      var rest := FindBySymbol(tickers[1..], symbol);
      assert forall i :: 1 <= i < |tickers| ==> tickers[i] == tickers[1..][i - 1];
      rest
  }

  class RawTickersResult {
    var tickers: seq<RawTicker>
    var latestTicker: Option<RawTicker>

    constructor (tickers: seq<RawTicker>)
      ensures this.tickers == tickers && latestTicker == None
    {
      this.tickers := tickers;
      latestTicker := None;
    }

    /** What `LatestTicker(symbol)` answers in the current state. */
    function Answer(symbol: string): Result<RawTicker>
      reads this
    {
      if latestTicker.Some? then Ok(latestTicker.value)
      else if |tickers| < 1 then Err(NoTickersFound)
      else match FindBySymbol(tickers, symbol)
        case None => Err(NoTickersFound)
        case Some(t) => Ok(t)
    }

    /** `LatestTicker`: the remembered ticker if there is one, whatever the symbol;
        otherwise the first ticker of the symbol, which is then remembered. A miss
        leaves nothing remembered; asking again gives the same answer. */
    method LatestTicker(symbol: string) returns (r: Result<RawTicker>)
      modifies this`latestTicker
      ensures r == old(Answer(symbol))
      ensures r == Answer(symbol)
      ensures old(latestTicker).Some? ==> latestTicker == old(latestTicker)
      ensures old(latestTicker).None? ==> latestTicker == (if r.Ok? then Some(r.value) else None)
      ensures r.Ok? ==> forall s :: Answer(s) == r
    {
      if latestTicker.Some? {
        return Ok(latestTicker.value);
      }
      var err := Err(NoTickersFound);
      if |tickers| < 1 {
        return err;
      }
      var ticker := FindBySymbol(tickers, symbol);
      if ticker.None? {
        return err;
      }
      latestTicker := ticker;
      return Ok(ticker.value);
    }
  }
}
