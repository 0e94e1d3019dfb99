# vmm-bot market-making core, modelled in Dafny

vmm-bot is a volume market maker. It repeatedly cancels its open orders on an
exchange, reads the exchange ticker and a reference ("oracle") ticker, picks a
random price inside a quote range and a random quantity, and places a Sell
order and then a Buy order at that price and quantity. An interval executor
runs a configured number of such iterations every interval, with random
sleeps spread over the interval's slack time.

This project models:

- the quote-range resolver and one trading iteration (`Quote`, `Trader`);
- the interval executor (`Executor`);
- the market-data helpers: spread, ticker accessors and the order book with
  its remembered best prices (`Models`);
- the random-in-range helpers (`Rand`);
- the per-exchange ticker selectors (`BiconomyTickers`, `BybitTickers`,
  `BingxTickers`) and the Bybit error rewrite (`BybitAdapter`);
- the BingX and Biconomy request-signing hooks (`BingxAuth`, `BiconomyAuth`),
  built on the canonical form listing (`Forms`) and the string helpers they
  use (`Strings`).

Modelling choices:

- Prices are `real`. Go errors are strings (`Result.Err`, `Outcome.Fail`).
- Calls into code outside the model are function-valued parameters:
  - float parsing (`Parser`) and fixed-point printing (`Format`);
  - HMAC-SHA256 (RFC 2104) and MD5 (RFC 1321);
  - the exchange clients. These are the `Replies` of a recording `Gateways`
    object: each reply is a function of the call's position in the call log,
    the client and the arguments.
- The random generator is replaced by the draws it would produce: uniform
  draws in [0, 1) for `RandInRange`, one normal sample for
  `RandGaussianInRange`. `RandInRange` retries until a candidate differs from
  both bounds. When the supplied draws run out before a candidate is
  accepted, the model reports that (`Stuck`, `Hangs`). With equal bounds the
  source would indeed never return; with distinct bounds it would draw again.
- The executor's clock readings, random sleep numbers, iteration durations and
  iteration results are inputs (`Tick`). A sleep is the random number modulo
  the slack, which is a value in [0, slack) as `rand.Int63n` gives.

Facts about the range decision worth knowing when reading the model:

- The biased last-price envelope multiplies both limits by
  `1 + direction * h/2` (internal/trader/trader.go:172-173); it does not shift
  the envelope.
- The rule cascade ends in the margin window itself
  (internal/trader/trader.go:208-209). There is no tier on the raw,
  unmargined spread and no one-sided extension tier.
- For bid 100, ask 101, last 100.5, oracle 102, h = 0.02 and the whole spread
  as window, the oracle lower limit is exactly 100.98. That lies inside the
  window, so the second rule gives [100.98, 101]
  (`Quote.QuoteTowardsOracleExample`); it does not round to 101 and fall
  through.

The spread helpers `Diff()`, `Clone`, `MarginSpread` and `Contains` are
called at internal/trader/trader.go:176-191 but are not defined in
pkg/models/spread.go:9-13, which has only a `Diff` field. The model takes
them to mean:

- `Diff()` is ask - bid of the current fields, so the clone with the
  synthetic ask has a positive difference;
- `Clone` makes a copy;
- `MarginSpread(lo, hi)` is the window [bid + diff·lo, bid + diff·hi];
- `Contains(xs...)` holds when every value lies in [bid, ask].

## Model

| member | source | states |
|---|---|---|
| Quote.ChooseRange | internal/trader/trader.go:184-210 | whichever of the ten first-match rules applies, the lower end is at or above the window's bid and the upper end at or below its ask; a nonempty range lies inside the window |
| Quote.MarginSpread | internal/trader/trader.go:179-181 | the window runs from bid + diff·lo to bid + diff·hi, so its width is diff·(hi - lo) |
| Quote.Margin | internal/trader/trader.go:175-182 | the window is measured from the bid by the spread's difference, or by bid·h when the spread is crossed |
| Quote.Direction | internal/trader/trader.go:171 | the direction is +1 or -1, and +1 exactly when the oracle is at or above the last price |
| Quote.BiasedLower | internal/trader/trader.go:172 | the last-price lower limit scaled by 1 + h/2 when the oracle is at or above the last price, else by 1 - h/2 |
| Quote.BiasedUpper | internal/trader/trader.go:173 | the last-price upper limit scaled by 1 + h/2 when the oracle is at or above the last price, else by 1 - h/2 |
| Quote.QuoteRange | internal/trader/trader.go:164-210 | the lower end of the quoted range is at or above the margin window's bid and the upper end at or below its ask; a nonempty range lies inside the window |
| Quote.PriceRange | internal/trader/trader.go:212-215 | the decision succeeds exactly when the chosen range is nonempty, and a successful range has both ends inside the margin window |
| Quote.RandPriceInSpread | internal/trader/trader.go:162-217 | the price fails exactly when the range decision fails, and then with the same error |
| Quote.OracleEnvelopeWins | internal/trader/trader.go:164-165 | when the window holds both oracle limits, the range is exactly [oracle·(1 - h/2), oracle·(1 + h/2)] |
| Quote.OnlyOracleLowerInside | internal/trader/trader.go:189-190 | when only the oracle lower limit is inside, the range runs from it to the smaller of the window's ask and the oracle price |
| Quote.FallsBackToMargin | internal/trader/trader.go:208-209 | when no limit of any envelope is inside the window, the range is the window itself |
| Quote.CrossedSpreadUsesSyntheticAsk | internal/trader/trader.go:176-179 | for a crossed spread the window is measured from a copy whose ask is bid·(1 + h) |
| Quote.MarginWithinSpread | internal/trader/trader.go:180-181 | with fractions 0 <= lo <= hi <= 1 the window of an uncrossed spread lies inside the spread |
| Quote.EnvelopesOrdered | internal/trader/trader.go:164-173 | with 0 <= h <= 1 each envelope is ordered and holds its reference price; the biased upper limit is at or above the last price when the oracle is, and at or below it otherwise |
| Quote.EmptyRangeOnlyFromBiasedUpper | internal/trader/trader.go:184-213 | with 0 <= h <= 1, nonnegative prices and a nonempty window, the range is empty if and only if the sixth rule applies and the biased upper limit lies below the last price; the oracle is then below the last price |
| Quote.DrawnPriceInsideRange | internal/trader/trader.go:212-216 | a drawn price lies strictly inside the chosen range, which lies inside the window |
| Quote.QuoteTowardsOracleExample | internal/trader/trader.go:189-190 | bid 100, ask 101, last 100.5, oracle 102, h = 2%: the range is [100.98, 101] |
| Quote.EmptyRangeExample | internal/trader/trader.go:198-199 | bid 99, ask 100, last 100, oracle 50, h = 2%: the sixth rule gives [100, 99.99] and the decision fails |
| Trader.Gateways.CancelAllOrders | internal/trader/trader.go:98-100 | the call is appended to the log and answered by the client's reply at that position |
| Trader.Gateways.GetLatestTicker | internal/trader/trader.go:130-142 | the ticker read is appended to the log and answered by the reply at that position |
| Trader.Gateways.PlaceOrder | internal/trader/trader.go:103-108 | the order is appended to the log and answered by the reply at that position |
| Trader.ParamsFrom | internal/trader/trader.go:150-159 | the parameters fail exactly when the price-range decision fails, with its error; chosen parameters are marked as tradeable |
| Trader.TradeParamsRun | internal/trader/trader.go:129-149 | the parameter step makes one or two calls: the exchange ticker read, then possibly the oracle ticker read |
| Trader.ParamsStepByStep | internal/trader/trader.go:129-149 | the oracle is read exactly when the exchange ticker, its last price and its spread were all obtained; each failing step returns its own error; otherwise the parameters come from the spread and the two prices |
| Trader.TradeOnceRun | internal/trader/trader.go:81-96 | an iteration makes one to five calls, the first being the cancel; it hangs exactly when the cancel passed and the parameter step ran out of draws |
| Trader.PlaceOrdersRun | internal/trader/trader.go:90-95 | the tail always returns; it places the Sell first and the Buy second only when there is output; without output the error is a failure |
| Trader.SellThenBuy | internal/trader/trader.go:90-95 | an iteration places no order, a Sell, or a Sell then a Buy; both are for the trader's symbol, have the same price and quantity, and those are the chosen parameters |
| Trader.CancelFailureStops | internal/trader/trader.go:82-85 | a failed cancel is returned without output, and nothing else is called |
| Trader.NoOrderWithoutParams | internal/trader/trader.go:86-89 | every iteration starts with the cancel; a ticker, parse or price-range failure is returned and no order is placed |
| Trader.PlacedLegs | internal/trader/trader.go:90-95 | the order-placing tail places the Sell, and the Buy only when the Sell went through |
| Trader.LegsOutcome | internal/trader/trader.go:90-95 | the tail gives output exactly when both orders were placed, with the error of the last order placed |
| Trader.OrdersOfRun | internal/trader/trader.go:81-95 | an iteration's orders are those of its tail when it gets past the cancel and the parameters, and none otherwise |
| Trader.OutputOnlyAfterBothOrders | internal/trader/trader.go:90-95 | the output is present if and only if both orders were placed, and the error is then the Buy's; with only a Sell placed, the Sell's failure is returned |
| Trader.ParamsDrawnInside | internal/trader/trader.go:154-158 | the price text prints a value strictly inside the quote range, and the quantity text a value strictly between the quantity bounds |
| Trader.Trader.CancelAllOrders | internal/trader/trader.go:98-100 | one cancel call for the trader's symbol on the exchange, whose reply is returned |
| Trader.Trader.PlaceOrder | internal/trader/trader.go:102-127 | one order for the trader's symbol with the given price, quantity and side, whose reply is returned |
| Trader.Trader.GetRandPriceInSpread | internal/trader/trader.go:162-217 | the result follows the range decision and the draws; a drawn price lies strictly inside the range |
| Trader.Trader.GetRandQty | internal/trader/trader.go:219-221 | a drawn quantity lies strictly between the two quantity bounds |
| Trader.Trader.GetTradeParams | internal/trader/trader.go:129-160 | the result and the calls made are those of `TradeParamsRun` |
| Trader.Trader.TradeOnce | internal/trader/trader.go:81-96 | the result and the calls made are those of `TradeOnceRun`, which the lemmas above characterise |
| Trader.Trader.DoIteration | internal/trader/trader.go:70-79 | the iteration's error, or `Hangs` when the supplied draws ran out before a price or quantity was accepted |
| Executor.NextAverage | pkg/utils/executer.go:119-126 | the first sample is stored as it is; later the average moves towards the sample and stays between the old average and the sample |
| Executor.SleepBefore | pkg/utils/executer.go:94-107 | a sleep happens if and only if the average is positive and the slack is positive, and it is shorter than the slack |
| Executor.MaxSlack | pkg/utils/executer.go:99-102 | the slack never exceeds the time left when the average is non-negative, and equals it with a zero average or no iterations left |
| Executor.RunFrom | pkg/utils/executer.go:92-127 | the remaining iterations leave a non-negative average and produce between one and two events each; none remain from `num` on |
| Executor.CallsEveryIterationOnce | pkg/utils/executer.go:92-116 | the callee is called for iterations 1 to num, each exactly once and in order, whatever it returns |
| Executor.FirstIterationNotDelayed | pkg/utils/executer.go:94-95 | while the average is 0 the next iteration starts without a sleep |
| Executor.AverageBoundedAbove | pkg/utils/executer.go:119-126 | the average never exceeds a bound that the start value and every duration respect |
| Executor.AverageBoundedBelow | pkg/utils/executer.go:119-126 | once an iteration has run, the average is at least a bound that every duration respects |
| Executor.IterationsExecutor.constructor | pkg/utils/executer.go:43-52 | a new executor has average 0, counters 0 and no events |
| Executor.IterationsExecutor.DoInterval | pkg/utils/executer.go:74-128 | the run counter grows by one modulo 2^64 on every call; lastRunEpoch is set on every exit; the events and final average are those of `RunFrom`; with num <= 0 nothing runs and the average is unchanged |
| Executor.IterationsExecutor.Start | pkg/utils/executer.go:64-68 | one whole interval runs before the scheduler is started |
| Models.NewSpread | pkg/models/spread.go:15-29 | success exactly when both prices parse, with diff = ask - bid; an ask failure names the ask text, a bid failure the bid text |
| Models.CrossedSpreadAccepted | pkg/models/spread.go:24-28 | an ask below the bid is accepted with a negative difference |
| Models.TickerSpread | pkg/models/ticker.go:16-18 | the best ask is the ask and the best bid the bid, never swapped |
| Models.TickerPrice | pkg/models/ticker.go:20-26 | the parsed last price, or an error quoting the raw text |
| Models.HeadPriceReadsOnlyTopPrice | pkg/models/order_book.go:27-30 | only the price field of the first level is read |
| Models.HeadPrice | pkg/models/order_book.go:24-33 | an empty side reads as 0; the read fails exactly when the head level has fewer than two fields or its price does not parse, and otherwise is that parsed price |
| Models.BestPrice | pkg/models/order_book.go:20-33 | a remembered price is returned as it is; an empty side gives 0; a short head level gives "invalid order book"; otherwise the parse result |
| Models.Remembered | pkg/models/order_book.go:30-35 | a price is remembered only after a successful parse of the head level, and a remembered price is what is returned |
| Models.OrderBook.Ask | pkg/models/order_book.go:20-36 | the best ask and the new memo, as above; a memo that agreed with the book still does |
| Models.OrderBook.Bid | pkg/models/order_book.go:38-54 | the same rules on the bid side |
| Models.OrderBook.Spread | pkg/models/order_book.go:56-66 | ask minus bid with no sign check; an ask error is returned and the bid side is not read or remembered |
| Rand.FirstAccepted | pkg/utils/rand.go:13-20 | the first candidate that is neither bound, with every earlier draw rejected, or none when all draws are rejected |
| Rand.RandInRange | pkg/utils/rand.go:13-20 | the retry loop gives what `FirstAccepted` describes |
| Rand.RejectedOnlyAtZero | pkg/utils/rand.go:15-16 | with distinct bounds, a draw in [0, 1) is rejected if and only if it is 0 |
| Rand.CandidateStrictlyBetween | pkg/utils/rand.go:15 | a draw strictly inside (0, 1) proposes a value strictly between the bounds, in either order |
| Rand.AcceptedStrictlyBetween | pkg/utils/rand.go:13-20 | a returned value lies strictly between the bounds, in either order |
| Rand.EqualBoundsNeverAccept | pkg/utils/rand.go:15-17 | with equal bounds every candidate is rejected, so the call never returns |
| Rand.AcceptsFirstNonzeroDraw | pkg/utils/rand.go:14-19 | with distinct bounds the first nonzero draw is the one used |
| Rand.RandGaussianInRange | pkg/utils/rand.go:23-31 | with min <= max the result lies in [min, max], and a sample already inside is kept |
| Rand.GaussianCentred | pkg/utils/rand.go:24 | with no spread of the sample, the result is the midpoint |
| BiconomyTickers.FindBySymbol | pkg/exchanges/biconomy/models/tickers.go:34-39 | a ticker is found exactly when the symbol occurs, and the one found is the first with that symbol |
| BiconomyTickers.RawTickersResult.LatestTicker | pkg/exchanges/biconomy/models/tickers.go:26-45 | a remembered ticker is returned for any symbol; an empty list or a missing symbol gives "no tickers found" and remembers nothing; a found ticker is remembered; asking again gives the same answer |
| BybitTickers.RawTickersResult.LatestTicker | pkg/exchanges/bybit/models/tickers.go:38-47 | a remembered ticker is returned; an empty list gives "no tickers found" and remembers nothing; otherwise the head, which is remembered; asking again gives the same answer |
| BingxTickers.LastBookTicker | pkg/exchanges/bingx/models/ticker.go:7-12 | an empty list gives "missing tickers", otherwise the first element |
| BingxTickers.LastPriceTicker | pkg/exchanges/bingx/models/ticker.go:33-38 | an empty list gives "missing tickers", otherwise the first element |
| BingxTickers.LastTrade | pkg/exchanges/bingx/models/ticker.go:45-50 | no trades gives "missing trades", otherwise the first trade |
| BingxTickers.LastTradeOfLastTicker | pkg/exchanges/bingx/models/ticker.go:33-50 | reading a trade through both selectors fails if and only if there is no price ticker or the first has no trade |
| BybitAdapter.WrapResponseErrors | pkg/exchanges/bybit/adapter.go:14-26 | no error stays none; an error mentioning readObjectStart becomes `<method> "<endpoint>": context deadline exceeded`; any other error is kept |
| Strings.Contains | pkg/exchanges/bybit/adapter.go:21 | true exactly when the needle occurs as an infix, starting at some index of the text |
| BybitAdapter.ContainsInfix | pkg/exchanges/bybit/adapter.go:21 | a text contains every text placed inside it |
| BybitAdapter.RewriteIgnoresOriginalText | pkg/exchanges/bybit/adapter.go:21-22 | wherever the marker appears, the rewritten message depends only on the request |
| BingxAuth.TwoKeysInOrder | pkg/exchanges/bingx/hooks/auth.go:39-54 | with two keys, the smaller one's entry comes first and a single "&" separates them |
| BingxAuth.TwoKeysSorted | pkg/exchanges/bingx/hooks/auth.go:39-44 | with two keys, the sorted key list is the smaller key then the larger |
| BingxAuth.WriteQuery | pkg/exchanges/bingx/hooks/auth.go:46-54 | the entries are written joined by "&", with none after the last |
| BingxAuth.GenerateSignature | pkg/exchanges/bingx/hooks/auth.go:38-60 | the HMAC of the canonical string under the secret |
| BingxAuth.Sign | pkg/exchanges/bingx/hooks/auth.go:30-36 | the API key header and the millisecond timestamp are set first; the signature of that form is added after, so it does not sign itself |
| BingxAuth.Authenticate | pkg/exchanges/bingx/hooks/auth.go:22-28 | never fails; non-POST requests are left untouched; POST requests are signed |
| BiconomyAuth.PayloadIsQueryThenSecret | pkg/exchanges/biconomy/hooks/sig_auth.go:43-51 | the hashed string is the sorted "&"-joined listing plus "&" (nothing for an empty form), then `secret_key=` and the secret |
| BiconomyAuth.SignaturePayload | pkg/exchanges/biconomy/hooks/sig_auth.go:36-51 | the hashed string always ends with `secret_key=` and the secret |
| BiconomyAuth.WriteEntries | pkg/exchanges/biconomy/hooks/sig_auth.go:43-48 | every entry is written followed by "&" |
| BiconomyAuth.GenerateSignature | pkg/exchanges/biconomy/hooks/sig_auth.go:35-58 | the upper-cased MD5 of the payload, with no lower-case letter |
| BiconomyAuth.AddSignatureAuthentication | pkg/exchanges/biconomy/hooks/sig_auth.go:21-33 | never fails; non-POST requests are left untouched; POST adds `api_key`, then the signature of that form as `sign` |
| Forms.SortedKeys | pkg/exchanges/bingx/hooks/auth.go:39-44 | the form's keys, each once, in increasing order |
| Forms.SortedKeysAreTheKeys | pkg/exchanges/bingx/hooks/auth.go:39-44 | the sorted key list holds exactly the form's keys |
| Forms.SortedKeysUnique | pkg/exchanges/bingx/hooks/auth.go:44 | only one sequence lists the form's keys in increasing order |
| Forms.CollectKeys | pkg/exchanges/bingx/hooks/auth.go:40-43 | every key of the form is collected exactly once |
| Forms.SortFormKeys | pkg/exchanges/bingx/hooks/auth.go:40-44 | the collected keys after sorting are the sorted key list |
| Forms.Entries | pkg/exchanges/bingx/hooks/auth.go:48-50 | one `key=v1,v2` entry per key, in the keys' order |
| Forms.Entry | pkg/exchanges/bingx/hooks/auth.go:49-50 | an entry starts with its key followed by "=" |
| Forms.SortedQuery | pkg/exchanges/bingx/hooks/auth.go:39-54 | the signed string is empty exactly when the form is empty |
| Strings.Sort | pkg/exchanges/bingx/hooks/auth.go:44 | the result is sorted and a permutation of the input |
| Strings.SortStrings | pkg/exchanges/bingx/hooks/auth.go:44 | the insertion loop gives the sorted permutation |
| Strings.SortedUnique | pkg/exchanges/bingx/hooks/auth.go:44 | two sorted permutations of the same strings are equal |
| Strings.ToUpper | pkg/exchanges/biconomy/hooks/sig_auth.go:57 | same length; lower-case ASCII letters become upper-case and every other character is kept |
| Strings.DecimalString | pkg/exchanges/bingx/hooks/auth.go:32-33 | a nonempty string of decimal digits whose value, most significant digit first, is the number, with no leading zero |
| Strings.Join | pkg/exchanges/bingx/hooks/auth.go:50-53 | no parts give ""; otherwise the length is the parts' total length plus one separator between each neighbouring pair |

## Left out

- The periodic scheduler (gocron), its singleton mode and `Shutdown`; the model records only that the scheduler was started.
- The exchange clients' HTTP plumbing. The two clients are one recording gateway whose replies are inputs, so the model does not capture two client objects that share state.
- Panic recovery in `DoIteration` and `doInterval`, and all logging.
- `time.Now`, `time.Since` and `time.Sleep`. The clock readings, durations and random sleep numbers are inputs.
- The atomic types of the executor's fields: the model is sequential.
- Float behaviour: rounding, NaN, infinities, and `math.Copysign` on -0. The direction is +1 when the oracle price is at or above the last price, else -1.
- Executor.IterationsExecutor.DoInterval: does not model int64 overflow of `averageDuration`, of `prevAvg*9 + iterDur` or of `avgDur * remainingIterations` in the slack (also in `Executor.MaxSlack`), because durations are unbounded integers here.
- Rand.RandInRange: a finite list of draws stands for the endless generator. Running out of draws means only that more draws were needed; it means the call never returns only when the bounds are equal (`Rand.EqualBoundsNeverAccept`).
- Quote.PriceRange: the `%f` of the error message is rendered by the same fixed-point printer as the orders, as `format(x, 6)`; Go's `%f` verb is not modelled separately.
- Pointer identity of returned and remembered tickers and book prices. Values are returned, so aliasing through the returned pointer is not captured.
- Strings.ToUpper: covers ASCII letters only, because the MD5 hex digest it is applied to is ASCII.
- BingxAuth.Sign: the header name is stored in canonical MIME form as a constant, without modelling `Header.Set`'s canonicalisation.
- Float parsing, fixed-point printing, HMAC-SHA256 and MD5 are functions given to the model, not defined in it. The two-argument call of `FormatFloatToString` at internal/trader/trader.go:157-158 does not match its one-argument definition; the model takes a two-argument printer.
- The spread helpers `Diff()`, `Clone`, `MarginSpread` and `Contains` are called at internal/trader/trader.go:176-191 but not defined in pkg/models/spread.go:9-13; they are modelled as stated above.
- `NewTrader` and `NewIterationsExecutor` only store their inputs; the scheduler job registration and its error path are not modelled.
