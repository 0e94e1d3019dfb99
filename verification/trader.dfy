/**
 * One trading iteration: cancel the open orders, read the exchange and
 * oracle tickers, choose a price and a quantity, then place a Sell and a Buy
 * order at them. Every error ends the iteration at once. The two exchange
 * clients are one recording gateway whose replies are inputs.
 */
module Trader {
  import opened Wrappers
  import opened Models
  import opened Rand
  import opened Quote

  datatype Action = Buy | Sell

  datatype Order = Order(symbol: string, price: string, qty: string, action: Action)

  /** The trader's two clients: the exchange it trades on and the price oracle. */
  datatype Client = Exchange | Oracle

  datatype Request =
    | CancelAll(symbol: string)
    | LatestTicker(symbol: string)
    | Place(order: Order)

  datatype Call = Call(client: Client, request: Request)

  /** What each client answers to the call at a given position of the call log. */
  datatype Replies = Replies(
    cancel: (nat, Client, string) -> Outcome,
    ticker: (nat, Client, string) -> Result<Ticker>,
    place: (nat, Client, Order) -> Outcome)

  /** Both clients, recording every call in the order it is made. */
  class Gateways {
    const replies: Replies
    var log: seq<Call>

    constructor (replies: Replies)
      ensures this.replies == replies && log == []
    {
      this.replies := replies;
      log := [];
    }

    method CancelAllOrders(client: Client, symbol: string) returns (err: Outcome)
      modifies this
      ensures log == old(log) + [Call(client, CancelAll(symbol))]
      ensures err == replies.cancel(|old(log)|, client, symbol)
    {
      err := replies.cancel(|log|, client, symbol);
      log := log + [Call(client, CancelAll(symbol))];
    }

    method GetLatestTicker(client: Client, symbol: string) returns (r: Result<Ticker>)
      modifies this
      ensures log == old(log) + [Call(client, LatestTicker(symbol))]
      ensures r == replies.ticker(|old(log)|, client, symbol)
    {
      r := replies.ticker(|log|, client, symbol);
      log := log + [Call(client, LatestTicker(symbol))];
    }

    method PlaceOrder(client: Client, order: Order) returns (err: Outcome)
      modifies this
      ensures log == old(log) + [Call(client, Place(order))]
      ensures err == replies.place(|old(log)|, client, order)
    {
      err := replies.place(|log|, client, order);
      log := log + [Call(client, Place(order))];
    }
  }

  /** The trader's settings. */
  datatype TraderInput = TraderInput(
    symbol: string,
    oracleSymbol: string,
    candleHeight: real,
    spreadMarginMin: real,
    spreadMarginMax: real,
    tradeQtyMin: real,
    tradeQtyMax: real,
    priceDecimals: int,
    amountDecimals: int)

  /** The price and quantity of both orders, as text. */
  datatype TradeParams = TradeParams(shouldTrade: bool, price: string, qty: string)

  /** What `TradeOnce` gives back: whether the (empty) output is present, and the error. */
  datatype TradeOnceResult = TradeOnceResult(hasOutput: bool, err: Outcome)

  /** A call that returns, or `Hangs` when the supplied draws ran out before a
      candidate was accepted (the source would go on drawing, and with equal
      bounds it never returns). */
  datatype Ends<T> = Ends(value: T) | Hangs

  function OrderFor(input: TraderInput, params: TradeParams, action: Action): Order
  {
    Order(input.symbol, params.price, params.qty, action)
  }

  // ---- What an iteration does, as functions of the replies and the draws ----

  /** The price and quantity once both prices are known: the price from the
      first draws, the quantity from the draws after them. */
  function ParamsFrom(input: TraderInput, format: Format, spread: Spread, last: real, oracle: real,
                      draws: seq<real>): (r: Step<TradeParams>)
    ensures r.Done? ==> r.value.shouldTrade
    ensures var range := PriceRange(spread, last, oracle, input.candleHeight, input.spreadMarginMin,
                                    input.spreadMarginMax, format);
            (r.Failed? <==> range.Err?) && (r.Failed? ==> r.error == range.error)
  {
    match RandPriceInSpread(spread, last, oracle, input.candleHeight, input.spreadMarginMin,
                            input.spreadMarginMax, format, draws)
    case Failed(e) => Failed(e)
    case Stuck => Stuck
    case Done(price) =>
      match FirstAccepted(input.tradeQtyMin, input.tradeQtyMax, draws[price.used..], 0)
      case None => Stuck
      case Some(qty) =>
        Done(TradeParams(true, format(price.value, input.priceDecimals), format(qty.value, input.amountDecimals)))
  }

  /** `getTradeParams` from log position `pos`: its result and the calls it makes. */
  function TradeParamsRun(input: TraderInput, parse: Parser, format: Format, replies: Replies, pos: nat,
                          draws: seq<real>): (r: (Step<TradeParams>, seq<Call>))
    ensures 1 <= |r.1| <= 2
    ensures r.1[0] == Call(Exchange, LatestTicker(input.symbol))
    ensures |r.1| == 2 ==> r.1[1] == Call(Oracle, LatestTicker(input.oracleSymbol))
  {
    var exchangeRead := Call(Exchange, LatestTicker(input.symbol));
    var oracleRead := Call(Oracle, LatestTicker(input.oracleSymbol));
    match replies.ticker(pos, Exchange, input.symbol)
    case Err(e) => (Failed(e), [exchangeRead])
    case Ok(ticker) =>
      match TickerPrice(ticker, parse)
      case Err(e) => (Failed(e), [exchangeRead])
      case Ok(lastPrice) =>
        match TickerSpread(ticker, parse)
        case Err(e) => (Failed(e), [exchangeRead])
        case Ok(spread) =>
          match replies.ticker(pos + 1, Oracle, input.oracleSymbol)
          case Err(e) => (Failed(e), [exchangeRead, oracleRead])
          case Ok(oracleTicker) =>
            match TickerPrice(oracleTicker, parse)
            case Err(e) => (Failed(e), [exchangeRead, oracleRead])
            case Ok(oraclePrice) =>
              (ParamsFrom(input, format, spread, lastPrice, oraclePrice, draws), [exchangeRead, oracleRead])
  }

  /** `getTradeParams` step by step: the oracle is read exactly when the exchange
      ticker, its last price and its spread were all obtained; each failing step
      returns its own error; otherwise the parameters come from the two prices. */
  lemma ParamsStepByStep(input: TraderInput, parse: Parser, format: Format, replies: Replies, pos: nat,
                         draws: seq<real>)
    ensures var r := TradeParamsRun(input, parse, format, replies, pos, draws);
            var t := replies.ticker(pos, Exchange, input.symbol);
            |r.1| == 2 <==> t.Ok? && TickerPrice(t.value, parse).Ok? && TickerSpread(t.value, parse).Ok?
    ensures var r := TradeParamsRun(input, parse, format, replies, pos, draws);
            var t := replies.ticker(pos, Exchange, input.symbol);
            t.Err? ==> r.0 == Failed(t.error)
    ensures var r := TradeParamsRun(input, parse, format, replies, pos, draws);
            var t := replies.ticker(pos, Exchange, input.symbol);
            t.Ok? && TickerPrice(t.value, parse).Err? ==> r.0 == Failed(TickerPrice(t.value, parse).error)
    ensures var r := TradeParamsRun(input, parse, format, replies, pos, draws);
            var t := replies.ticker(pos, Exchange, input.symbol);
            t.Ok? && TickerPrice(t.value, parse).Ok? && TickerSpread(t.value, parse).Err? ==>
              r.0 == Failed(TickerSpread(t.value, parse).error)
    ensures var r := TradeParamsRun(input, parse, format, replies, pos, draws);
            var o := replies.ticker(pos + 1, Oracle, input.oracleSymbol);
            |r.1| == 2 && o.Err? ==> r.0 == Failed(o.error)
    ensures var r := TradeParamsRun(input, parse, format, replies, pos, draws);
            var o := replies.ticker(pos + 1, Oracle, input.oracleSymbol);
            |r.1| == 2 && o.Ok? && TickerPrice(o.value, parse).Err? ==> r.0 == Failed(TickerPrice(o.value, parse).error)
    ensures var r := TradeParamsRun(input, parse, format, replies, pos, draws);
            var t := replies.ticker(pos, Exchange, input.symbol);
            var o := replies.ticker(pos + 1, Oracle, input.oracleSymbol);
            t.Ok? && TickerPrice(t.value, parse).Ok? && TickerSpread(t.value, parse).Ok? &&
            o.Ok? && TickerPrice(o.value, parse).Ok? ==>
              r.0 == ParamsFrom(input, format, TickerSpread(t.value, parse).value, TickerPrice(t.value, parse).value,
                                TickerPrice(o.value, parse).value, draws)
  {
  }

  /** Placing the Sell at log position `at` and, only if it succeeds, the Buy after it. */
  function PlaceOrdersRun(input: TraderInput, replies: Replies, at: nat, p: TradeParams)
    : (r: (Ends<TradeOnceResult>, seq<Call>))
    ensures r.0.Ends? && 1 <= |r.1| <= 2
    ensures r.1[0] == Call(Exchange, Place(OrderFor(input, p, Sell)))
    ensures |r.1| == 2 <==> r.0.value.hasOutput
    ensures |r.1| == 2 ==> r.1[1] == Call(Exchange, Place(OrderFor(input, p, Buy)))
    ensures !r.0.value.hasOutput ==> r.0.value.err.Fail?
  {
    var sell := OrderFor(input, p, Sell);
    var buy := OrderFor(input, p, Buy);
    match replies.place(at, Exchange, sell)
    case Fail(e) => (Ends(TradeOnceResult(false, Fail(e))), [Call(Exchange, Place(sell))])
    case Pass =>
      (Ends(TradeOnceResult(true, replies.place(at + 1, Exchange, buy))),
       [Call(Exchange, Place(sell)), Call(Exchange, Place(buy))])
  }

  /** `TradeOnce` from log position `pos`: its result and the calls it makes. */
  function TradeOnceRun(input: TraderInput, parse: Parser, format: Format, replies: Replies, pos: nat,
                        draws: seq<real>): (r: (Ends<TradeOnceResult>, seq<Call>))
    ensures 1 <= |r.1| <= 5
    ensures r.1[0] == Call(Exchange, CancelAll(input.symbol))
    ensures r.0.Hangs? <==>
              replies.cancel(pos, Exchange, input.symbol).Pass? &&
              TradeParamsRun(input, parse, format, replies, pos + 1, draws).0.Stuck?
  {
    var cancel := Call(Exchange, CancelAll(input.symbol));
    match replies.cancel(pos, Exchange, input.symbol)
    case Fail(e) => (Ends(TradeOnceResult(false, Fail(e))), [cancel])
    case Pass =>
      var run := TradeParamsRun(input, parse, format, replies, pos + 1, draws);
      var lookups := run.1;
      match run.0
      case Stuck => (Hangs, [cancel] + lookups)
      case Failed(e) => (Ends(TradeOnceResult(false, Fail(e))), [cancel] + lookups)
      case Done(p) =>
        var legs := PlaceOrdersRun(input, replies, pos + 1 + |lookups|, p);
        (legs.0, [cancel] + lookups + legs.1)
  }

  /** The orders placed in a call log, in order. */
  function PlacedOrders(calls: seq<Call>): seq<Order>
  {
    if |calls| == 0 then []
    else (if calls[0].request.Place? then [calls[0].request.order] else []) + PlacedOrders(calls[1..])
  }

  lemma {:induction false} PlacedOrdersAppend(a: seq<Call>, b: seq<Call>)
    ensures PlacedOrders(a + b) == PlacedOrders(a) + PlacedOrders(b)
    decreases |a|
  {
    if |a| == 0 {
      assert a + b == b;
    } else {
      var c := a + b;
      assert c[0] == a[0] && c[1..] == a[1..] + b;
      PlacedOrdersAppend(a[1..], b);
      assert PlacedOrders(c) == (if a[0].request.Place? then [a[0].request.order] else []) + PlacedOrders(c[1..]);
    }
  }

  /** Ticker reads place no order. */
  lemma NoOrdersInLookups(input: TraderInput, parse: Parser, format: Format, replies: Replies, pos: nat,
                          draws: seq<real>)
    ensures PlacedOrders(TradeParamsRun(input, parse, format, replies, pos, draws).1) == []
  {
    var calls := TradeParamsRun(input, parse, format, replies, pos, draws).1;
    assert !calls[0].request.Place?;
    if |calls| == 2 {
      assert !calls[1].request.Place?;
      assert calls[1..][1..] == [];
      assert PlacedOrders(calls[1..]) == [];
    } else {
      assert calls[1..] == [];
    }
  }

  /** The orders placed by the two legs: the Sell, and the Buy only when the Sell went through. */
  lemma PlacedLegs(input: TraderInput, replies: Replies, at: nat, p: TradeParams)
    ensures var legs := PlaceOrdersRun(input, replies, at, p);
            PlacedOrders(legs.1) ==
              if legs.0.value.hasOutput then [OrderFor(input, p, Sell), OrderFor(input, p, Buy)]
              else [OrderFor(input, p, Sell)]
  {
    var sell := Call(Exchange, Place(OrderFor(input, p, Sell)));
    var buy := Call(Exchange, Place(OrderFor(input, p, Buy)));
    match replies.place(at, Exchange, sell.request.order)
    case Fail(_) =>
      assert PlacedOrders([sell]) == [sell.request.order] + PlacedOrders([sell][1..]);
      assert [sell][1..] == [];
    case Pass =>
      assert PlacedOrders([sell, buy]) == [sell.request.order] + PlacedOrders([sell, buy][1..]);
      assert [sell, buy][1..] == [buy];
      assert PlacedOrders([buy]) == [buy.request.order] + PlacedOrders([buy][1..]);
      assert [buy][1..] == [];
  }

  /** The orders of an iteration are those of its two legs, when it gets that far, and none otherwise. */
  lemma {:induction false} OrdersOfRun(input: TraderInput, parse: Parser, format: Format, replies: Replies,
                                       pos: nat, draws: seq<real>)
    ensures var run := TradeOnceRun(input, parse, format, replies, pos, draws);
            var params := TradeParamsRun(input, parse, format, replies, pos + 1, draws);
            PlacedOrders(run.1) ==
              if replies.cancel(pos, Exchange, input.symbol).Pass? && params.0.Done?
              then PlacedOrders(PlaceOrdersRun(input, replies, pos + 1 + |params.1|, params.0.value).1)
              else []
  {
    var cancel := Call(Exchange, CancelAll(input.symbol));
    assert PlacedOrders([cancel]) == [];
    var params := TradeParamsRun(input, parse, format, replies, pos + 1, draws);
    NoOrdersInLookups(input, parse, format, replies, pos + 1, draws);
    PlacedOrdersAppend([cancel], params.1);
    if params.0.Done? {
      var legs := PlaceOrdersRun(input, replies, pos + 1 + |params.1|, params.0.value);
      PlacedOrdersAppend([cancel] + params.1, legs.1);
    }
  }

  /** The orders of an iteration: none, a Sell, or a Sell then a Buy; every one
      for the trader's symbol, and both at the same price and quantity. */
  lemma {:induction false} SellThenBuy(input: TraderInput, parse: Parser, format: Format, replies: Replies,
                                       pos: nat, draws: seq<real>)
    ensures var orders := PlacedOrders(TradeOnceRun(input, parse, format, replies, pos, draws).1);
            |orders| <= 2 &&
            (|orders| >= 1 ==> orders[0].action == Sell && orders[0].symbol == input.symbol) &&
            (|orders| == 2 ==> orders[1] == orders[0].(action := Buy))
    ensures var run := TradeOnceRun(input, parse, format, replies, pos, draws);
            var orders := PlacedOrders(run.1);
            |orders| >= 1 ==>
              var params := TradeParamsRun(input, parse, format, replies, pos + 1, draws).0;
              params.Done? && orders[0].price == params.value.price && orders[0].qty == params.value.qty
  {
    OrdersOfRun(input, parse, format, replies, pos, draws);
    var params := TradeParamsRun(input, parse, format, replies, pos + 1, draws);
    if replies.cancel(pos, Exchange, input.symbol).Pass? && params.0.Done? {
      PlacedLegs(input, replies, pos + 1 + |params.1|, params.0.value);
    }
  }

  /** If cancelling fails, that error is returned, nothing else is called and no order is placed. */
  lemma CancelFailureStops(input: TraderInput, parse: Parser, format: Format, replies: Replies, pos: nat,
                           draws: seq<real>)
    requires replies.cancel(pos, Exchange, input.symbol).Fail?
    ensures var run := TradeOnceRun(input, parse, format, replies, pos, draws);
            run.0 == Ends(TradeOnceResult(false, replies.cancel(pos, Exchange, input.symbol))) &&
            run.1 == [Call(Exchange, CancelAll(input.symbol))] &&
            PlacedOrders(run.1) == []
  {
  }

  /** Every iteration starts by cancelling; if reading a ticker or a price, or deciding the
      price range, fails, that error is returned and no order is placed. */
  lemma {:induction false} NoOrderWithoutParams(input: TraderInput, parse: Parser, format: Format, replies: Replies,
                                                pos: nat, draws: seq<real>)
    ensures TradeOnceRun(input, parse, format, replies, pos, draws).1[0] == Call(Exchange, CancelAll(input.symbol))
    ensures var params := TradeParamsRun(input, parse, format, replies, pos + 1, draws).0;
            var run := TradeOnceRun(input, parse, format, replies, pos, draws);
            replies.cancel(pos, Exchange, input.symbol).Pass? && params.Failed? ==>
              run.0 == Ends(TradeOnceResult(false, Fail(params.error))) && PlacedOrders(run.1) == []
  {
    var cancel := Call(Exchange, CancelAll(input.symbol));
    var lookups := TradeParamsRun(input, parse, format, replies, pos + 1, draws).1;
    NoOrdersInLookups(input, parse, format, replies, pos + 1, draws);
    assert PlacedOrders([cancel]) == [];
    PlacedOrdersAppend([cancel], lookups);
  }

  /** The two legs end; they give an output exactly when both orders were placed, with the
      error of the last order placed. */
  lemma LegsOutcome(input: TraderInput, replies: Replies, at: nat, p: TradeParams)
    ensures var legs := PlaceOrdersRun(input, replies, at, p);
            var orders := PlacedOrders(legs.1);
            legs.0.Ends? && (legs.0.value.hasOutput <==> |orders| == 2) &&
            (|orders| == 2 ==>
               legs.0 == Ends(TradeOnceResult(true, replies.place(at + |legs.1| - 1, Exchange, orders[1])))) &&
            (|orders| == 1 ==>
               legs.0 == Ends(TradeOnceResult(false, replies.place(at + |legs.1| - 1, Exchange, orders[0]))) &&
               legs.0.value.err.Fail?)
  {
    PlacedLegs(input, replies, at, p);
  }

  /** The output is present exactly when both orders were placed; the error is then the Buy's. */
  lemma {:induction false} OutputOnlyAfterBothOrders(input: TraderInput, parse: Parser, format: Format,
                                                     replies: Replies, pos: nat, draws: seq<real>)
    ensures var run := TradeOnceRun(input, parse, format, replies, pos, draws);
            run.0.Ends? && run.0.value.hasOutput <==> |PlacedOrders(run.1)| == 2
    ensures var run := TradeOnceRun(input, parse, format, replies, pos, draws);
            var orders := PlacedOrders(run.1);
            |orders| == 2 ==>
              run.0 == Ends(TradeOnceResult(true, replies.place(pos + |run.1| - 1, Exchange, orders[1])))
    ensures var run := TradeOnceRun(input, parse, format, replies, pos, draws);
            var orders := PlacedOrders(run.1);
            |orders| == 1 ==>
              run.0 == Ends(TradeOnceResult(false, replies.place(pos + |run.1| - 1, Exchange, orders[0]))) &&
              run.0.value.err.Fail?
  {
    OrdersOfRun(input, parse, format, replies, pos, draws);
    var run := TradeOnceRun(input, parse, format, replies, pos, draws);
    var params := TradeParamsRun(input, parse, format, replies, pos + 1, draws);
    if replies.cancel(pos, Exchange, input.symbol).Pass? && params.0.Done? {
      var at := pos + 1 + |params.1|;
      var legs := PlaceOrdersRun(input, replies, at, params.0.value);
      assert run == (legs.0, [Call(Exchange, CancelAll(input.symbol))] + params.1 + legs.1);
      LegsOutcome(input, replies, at, params.0.value);
    } else {
      assert PlacedOrders(run.1) == [];
      assert !(run.0.Ends? && run.0.value.hasOutput);
    }
  }

  /** Parameters that are chosen carry a price drawn strictly inside the quote range
      and a quantity drawn strictly between the quantity bounds, both printed. */
  lemma ParamsDrawnInside(input: TraderInput, format: Format, spread: Spread, last: real, oracle: real,
                          draws: seq<real>)
    requires UnitDraws(draws)
    requires ParamsFrom(input, format, spread, last, oracle, draws).Done?
    ensures var p := ParamsFrom(input, format, spread, last, oracle, draws).value;
            var range := QuoteRange(spread, last, oracle, input.candleHeight, input.spreadMarginMin,
                                    input.spreadMarginMax);
            exists price: real, qty: real ::
              range.min < price < range.max &&
              ((input.tradeQtyMin < qty < input.tradeQtyMax) || (input.tradeQtyMax < qty < input.tradeQtyMin)) &&
              p.price == format(price, input.priceDecimals) && p.qty == format(qty, input.amountDecimals)
  {
    var h, lo, hi := input.candleHeight, input.spreadMarginMin, input.spreadMarginMax;
    var price := RandPriceInSpread(spread, last, oracle, h, lo, hi, format, draws).value;
    DrawnPriceInsideRange(spread, last, oracle, h, lo, hi, format, draws);
    var rest := draws[price.used..];
    assert UnitDraws(rest) by {
      forall k | 0 <= k < |rest| ensures 0.0 <= rest[k] < 1.0 {
        assert rest[k] == draws[price.used + k];
      }
    }
    AcceptedStrictlyBetween(input.tradeQtyMin, input.tradeQtyMax, rest);
    var qty := FirstAccepted(input.tradeQtyMin, input.tradeQtyMax, rest, 0).value;
  }

  // ---- The trader ----

  class Trader {
    const input: TraderInput
    const parse: Parser
    const format: Format
    const venues: Gateways

    constructor (input: TraderInput, parse: Parser, format: Format, venues: Gateways)
      ensures this.input == input && this.parse == parse && this.format == format && this.venues == venues
    {
      this.input := input;
      this.parse := parse;
      this.format := format;
      this.venues := venues;
    }

    /** `cancelAllOrders`: cancel every open order of the symbol on the exchange. */
    method CancelAllOrders() returns (err: Outcome)
      modifies venues
      ensures venues.log == old(venues.log) + [Call(Exchange, CancelAll(input.symbol))]
      ensures err == venues.replies.cancel(|old(venues.log)|, Exchange, input.symbol)
    {
      err := venues.CancelAllOrders(Exchange, input.symbol);
    }

    /** `placeOrder`: one order of the symbol at the given price and quantity. */
    method PlaceOrder(params: TradeParams, action: Action) returns (err: Outcome)
      modifies venues
      ensures venues.log == old(venues.log) + [Call(Exchange, Place(OrderFor(input, params, action)))]
      ensures err == venues.replies.place(|old(venues.log)|, Exchange, OrderFor(input, params, action))
    {
      err := venues.PlaceOrder(Exchange, Order(input.symbol, params.price, params.qty, action));
    }

    /** `getRandPriceInSpread`: the range, then a price drawn strictly inside it. */
    method GetRandPriceInSpread(spread: Spread, lastPrice: real, oraclePrice: real, draws: seq<real>)
      returns (r: Step<Draw>)
      ensures r == RandPriceInSpread(spread, lastPrice, oraclePrice, input.candleHeight,
                                     input.spreadMarginMin, input.spreadMarginMax, format, draws)
      ensures UnitDraws(draws) && r.Done? ==>
                var range := QuoteRange(spread, lastPrice, oraclePrice, input.candleHeight,
                                        input.spreadMarginMin, input.spreadMarginMax);
                range.min < r.value.value < range.max
    {
      var range := PriceRange(spread, lastPrice, oraclePrice, input.candleHeight,
                              input.spreadMarginMin, input.spreadMarginMax, format);
      if range.Err? {
        return Failed(range.error);
      }
      var price := RandInRange(range.value.min, range.value.max, draws);
      if price.None? {
        return Stuck;
      }
      r := Done(price.value);
      if UnitDraws(draws) {
        AcceptedStrictlyBetween(range.value.min, range.value.max, draws);
      }
    }

    /** `getRandQty`: a quantity drawn strictly between the configured bounds. */
    method GetRandQty(draws: seq<real>) returns (r: Option<Draw>)
      ensures r == FirstAccepted(input.tradeQtyMin, input.tradeQtyMax, draws, 0)
      ensures UnitDraws(draws) && r.Some? ==>
                (input.tradeQtyMin < r.value.value < input.tradeQtyMax) ||
                (input.tradeQtyMax < r.value.value < input.tradeQtyMin)
    {
      r := RandInRange(input.tradeQtyMin, input.tradeQtyMax, draws);
      if UnitDraws(draws) && r.Some? {
        AcceptedStrictlyBetween(input.tradeQtyMin, input.tradeQtyMax, draws);
      }
    }

    /** `getTradeParams`: read the exchange ticker, its last price and spread, then the
        oracle ticker and its price, and choose price and quantity. */
    method GetTradeParams(draws: seq<real>) returns (r: Step<TradeParams>)
      modifies venues
      ensures var run := TradeParamsRun(input, parse, format, venues.replies, |old(venues.log)|, draws);
              r == run.0 && venues.log == old(venues.log) + run.1
    {
      var ticker := venues.GetLatestTicker(Exchange, input.symbol);
      if ticker.Err? {
        return Failed(ticker.error);
      }
      var lastPrice := TickerPrice(ticker.value, parse);
      if lastPrice.Err? {
        return Failed(lastPrice.error);
      }
      var spread := TickerSpread(ticker.value, parse);
      if spread.Err? {
        return Failed(spread.error);
      }
      var oracleTicker := venues.GetLatestTicker(Oracle, input.oracleSymbol);
      if oracleTicker.Err? {
        return Failed(oracleTicker.error);
      }
      var oraclePrice := TickerPrice(oracleTicker.value, parse);
      if oraclePrice.Err? {
        return Failed(oraclePrice.error);
      }
      var price := GetRandPriceInSpread(spread.value, lastPrice.value, oraclePrice.value, draws);
      if price.Failed? {
        return Failed(price.error);
      } else if price.Stuck? {
        return Stuck;
      }
      var qty := GetRandQty(draws[price.value.used..]);
      if qty.None? {
        return Stuck;
      }
      r := Done(TradeParams(true, format(price.value.value, input.priceDecimals),
                                  format(qty.value.value, input.amountDecimals)));
    }

    /** `TradeOnce`: cancel, choose the parameters, Sell, then Buy. */
    method TradeOnce(draws: seq<real>) returns (r: Ends<TradeOnceResult>)
      modifies venues
      ensures var run := TradeOnceRun(input, parse, format, venues.replies, |old(venues.log)|, draws);
              r == run.0 && venues.log == old(venues.log) + run.1
    {
      ghost var pos := |venues.log|;
      var err := CancelAllOrders();
      if err.Fail? {
        return Ends(TradeOnceResult(false, err));
      }
      ghost var lookups := TradeParamsRun(input, parse, format, venues.replies, pos + 1, draws);
      var params := GetTradeParams(draws);
      assert params == lookups.0;
      assert venues.log == old(venues.log) + [Call(Exchange, CancelAll(input.symbol))] + lookups.1;
      if params.Failed? {
        return Ends(TradeOnceResult(false, Fail(params.error)));
      } else if params.Stuck? {
        return Hangs;
      }
      ghost var legs := PlaceOrdersRun(input, venues.replies, pos + 1 + |lookups.1|, params.value);
      assert TradeOnceRun(input, parse, format, venues.replies, pos, draws) ==
             (legs.0, [Call(Exchange, CancelAll(input.symbol))] + lookups.1 + legs.1);
      err := PlaceOrder(params.value, Sell);
      if err.Fail? {
        return Ends(TradeOnceResult(false, err));
      }
      err := PlaceOrder(params.value, Buy);
      assert venues.log == old(venues.log) + [Call(Exchange, CancelAll(input.symbol))] + lookups.1 + legs.1;
      return Ends(TradeOnceResult(true, err));
    }

    /** `DoIteration`: `TradeOnce`, keeping only its error. */
    method DoIteration(draws: seq<real>) returns (r: Ends<Outcome>)
      modifies venues
      ensures var run := TradeOnceRun(input, parse, format, venues.replies, |old(venues.log)|, draws);
              venues.log == old(venues.log) + run.1 &&
              r == (if run.0.Hangs? then Hangs else Ends(run.0.value.err))
    {
      var result := TradeOnce(draws);
      if result.Hangs? {
        return Hangs;
      }
      return Ends(result.value.err);
    }
  }
}
