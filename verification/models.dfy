/**
 * Market data shared by the trader and the exchange clients: a bid/ask
 * spread, a ticker snapshot and an order book whose best prices are
 * remembered once read.
 */
module Models {
  import opened Wrappers

  /** Best ask, best bid and their difference, as built by `NewSpread`. */
  datatype Spread = Spread(ask: real, bid: real, diff: real)

  /** `NewSpread`: parse the ask, then the bid. Nothing checks that the ask is
      above the bid, so a crossed book gives a negative `diff`. */
  function NewSpread(ask: string, bid: string, parse: Parser): (r: Result<Spread>)
    ensures r.Ok? <==> parse(ask).Ok? && parse(bid).Ok?
    ensures r.Ok? ==> r.value.ask == parse(ask).value && r.value.bid == parse(bid).value
    ensures r.Ok? ==> r.value.diff == r.value.ask - r.value.bid
    ensures parse(ask).Err? ==> r == Err("failed parse ask price: " + ask)
    ensures parse(ask).Ok? && parse(bid).Err? ==> r == Err("failed parse bid price: " + bid)
  {
    match parse(ask)
    case Err(_) => Err("failed parse ask price: " + ask)
    case Ok(askPrice) =>
      match parse(bid)
      case Err(_) => Err("failed parse bid price: " + bid)
      case Ok(bidPrice) => Ok(Spread(askPrice, bidPrice, askPrice - bidPrice))
  }

  /** A crossed quote (ask below bid) is accepted, with a negative difference. */
  lemma CrossedSpreadAccepted(ask: string, bid: string, parse: Parser)
    requires parse(ask).Ok? && parse(bid).Ok?
    requires parse(ask).value < parse(bid).value
    ensures NewSpread(ask, bid, parse).Ok?
    ensures NewSpread(ask, bid, parse).value.diff < 0.0
  {
  }

  /** A ticker snapshot, every figure still as the exchange's text. */
  datatype Ticker = Ticker(symbol: string, lastPrice: string, bestAsk: string, bestBid: string)

  /** `Ticker.Spread`: the best ask is the ask and the best bid the bid, never swapped. */
  function TickerSpread(t: Ticker, parse: Parser): (r: Result<Spread>)
    ensures r.Ok? <==> parse(t.bestAsk).Ok? && parse(t.bestBid).Ok?
    ensures r.Ok? ==> r.value.ask == parse(t.bestAsk).value && r.value.bid == parse(t.bestBid).value
    ensures parse(t.bestAsk).Err? ==> r == Err("failed parse ask price: " + t.bestAsk)
  {
    NewSpread(t.bestAsk, t.bestBid, parse)
  }

  /** `Ticker.Price`: the parsed last price, or an error quoting the raw text. */
  function TickerPrice(t: Ticker, parse: Parser): (r: Result<real>)
    ensures r.Ok? <==> parse(t.lastPrice).Ok?
    ensures r.Ok? ==> r.value == parse(t.lastPrice).value
    ensures r.Err? ==> r.error == "failed parse last price: " + t.lastPrice
  {
    match parse(t.lastPrice)
    case Ok(price) => Ok(price)
    case Err(_) => Err("failed parse last price: " + t.lastPrice)
  }

  /** The price of the first level of one side of a book: 0 for an empty side,
      an error for a head level with fewer than two fields. */
  function HeadPrice(levels: seq<seq<string>>, parse: Parser): (r: Result<real>)
    ensures |levels| == 0 ==> r == Ok(0.0)
    ensures r.Err? <==> |levels| > 0 && (|levels[0]| < 2 || parse(levels[0][0]).Err?)
    ensures |levels| > 0 && r.Ok? ==> r == parse(levels[0][0])
  {
    if |levels| == 0 then Ok(0.0)
    else if |levels[0]| < 2 then Err("invalid order book")
    else parse(levels[0][0])
  }

  /** Only the price field of the first level is read: the quantity and every
      deeper level can change without changing the result. */
  lemma HeadPriceReadsOnlyTopPrice(a: seq<seq<string>>, b: seq<seq<string>>, parse: Parser)
    requires |a| > 0 && |b| > 0
    requires |a[0]| >= 2 && |b[0]| >= 2
    requires a[0][0] == b[0][0]
    ensures HeadPrice(a, parse) == HeadPrice(b, parse)
  {
  }

  /** What `Ask`/`Bid` return: the remembered price if there is one, else the head price. */
  function BestPrice(memo: Option<real>, levels: seq<seq<string>>, parse: Parser): (r: Result<real>)
    ensures memo.Some? ==> r == Ok(memo.value)
    ensures memo.None? && |levels| == 0 ==> r == Ok(0.0)
    ensures memo.None? && |levels| > 0 && |levels[0]| < 2 ==> r == Err("invalid order book")
    ensures memo.None? && |levels| > 0 && |levels[0]| >= 2 ==> r == parse(levels[0][0])
  {
    if memo.Some? then Ok(memo.value) else HeadPrice(levels, parse)
  }

  /** What `Ask`/`Bid` remember afterwards: a price is stored only when it was
      parsed from a head level; an empty side or an error stores nothing. */
  function Remembered(memo: Option<real>, levels: seq<seq<string>>, parse: Parser): (m: Option<real>)
    ensures memo.Some? ==> m == memo
    ensures memo.None? ==> (m.Some? <==> |levels| > 0 && |levels[0]| >= 2 && parse(levels[0][0]).Ok?)
    ensures m.Some? ==> BestPrice(memo, levels, parse) == Ok(m.value)
  {
    if memo.Some? then memo
    else if |levels| > 0 && |levels[0]| >= 2 && parse(levels[0][0]).Ok? then Some(parse(levels[0][0]).value)
    else None
  }

  /** An order book snapshot. The best ask and best bid are parsed on first use
      and remembered (`bestAsk`, `bestBid`). */
  class OrderBook {
    var symbol: string
    var asks: seq<seq<string>>
    var bids: seq<seq<string>>
    var bestAsk: Option<real>
    var bestBid: Option<real>
    /** `strconv.ParseFloat`. */
    const parse: Parser

    /** The remembered prices agree with the book they were read from. */
    ghost predicate Valid()
      reads this
    {
      && (bestAsk.Some? ==> HeadPrice(asks, parse) == Ok(bestAsk.value))
      && (bestBid.Some? ==> HeadPrice(bids, parse) == Ok(bestBid.value))
    }

    constructor (symbol: string, asks: seq<seq<string>>, bids: seq<seq<string>>, parse: Parser)
      ensures this.symbol == symbol && this.asks == asks && this.bids == bids && this.parse == parse
      ensures bestAsk == None && bestBid == None
      ensures Valid()
    {
      this.symbol := symbol;
      this.asks := asks;
      this.bids := bids;
      this.parse := parse;
      bestAsk := None;
      bestBid := None;
    }

    /** `Ask`: the best ask, remembered after the first successful parse. */
    method Ask() returns (r: Result<real>)
      modifies this`bestAsk
      ensures r == BestPrice(old(bestAsk), asks, parse)
      ensures bestAsk == Remembered(old(bestAsk), asks, parse)
      ensures old(Valid()) ==> Valid() && r == HeadPrice(asks, parse)
    {
      if bestAsk.Some? {
        return Ok(bestAsk.value);
      }
      if |asks| == 0 {
        return Ok(0.0);
      }
      if |asks[0]| < 2 {
        return Err("invalid order book");
      }
      var askPrice := parse(asks[0][0]);
      if askPrice.Err? {
        return askPrice;
      }
      bestAsk := Some(askPrice.value);
      return askPrice;
    }

    /** `Bid`: the same as `Ask`, on the bid side. */
    method Bid() returns (r: Result<real>)
      modifies this`bestBid
      ensures r == BestPrice(old(bestBid), bids, parse)
      ensures bestBid == Remembered(old(bestBid), bids, parse)
      ensures old(Valid()) ==> Valid() && r == HeadPrice(bids, parse)
    {
      if bestBid.Some? {
        return Ok(bestBid.value);
      }
      if |bids| == 0 {
        return Ok(0.0);
      }
      if |bids[0]| < 2 {
        return Err("invalid order book");
      }
      var bidPrice := parse(bids[0][0]);
      if bidPrice.Err? {
        return bidPrice;
      }
      bestBid := Some(bidPrice.value);
      return bidPrice;
    }

    /** `Spread`: ask minus bid, with no sign check. An ask error is returned
        before the bid side is looked at. */
    method Spread() returns (r: Result<real>)
      modifies this`bestAsk, this`bestBid
      ensures var a := BestPrice(old(bestAsk), asks, parse);
              var b := BestPrice(old(bestBid), bids, parse);
              r == (if a.Err? then Err(a.error) else if b.Err? then Err(b.error) else Ok(a.value - b.value))
      ensures bestAsk == Remembered(old(bestAsk), asks, parse)
      ensures BestPrice(old(bestAsk), asks, parse).Err? ==> bestBid == old(bestBid)
      ensures BestPrice(old(bestAsk), asks, parse).Ok? ==> bestBid == Remembered(old(bestBid), bids, parse)
      ensures old(Valid()) ==> Valid()
    {
      var askPrice := Ask();
      if askPrice.Err? {
        return Err(askPrice.error);
      }
      var bidPrice := Bid();
      if bidPrice.Err? {
        return Err(bidPrice.error);
      }
      return Ok(askPrice.value - bidPrice.value);
    }
  }
}
