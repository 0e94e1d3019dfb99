/**
 * How the trader decides the price range of its next pair of orders. Three
 * envelopes of height `h` (the candle height) are built: around the oracle
 * price, around the last traded price, and the latter pushed one more step
 * towards the oracle. A margin window is cut out of the current spread, and
 * the first of ten rules whose limits fall inside the window gives the range.
 *
 * The spread's `Diff`, `Clone`, `MarginSpread` and `Contains` helpers are
 * called by the trader but not defined next to `Spread`, which has only a
 * `Diff` field; they are taken here to mean: the difference
 * ask - bid of the current fields, a copy, the window
 * [bid + diff * lo, bid + diff * hi], and "every value lies in [bid, ask]".
 */
module Quote {
  import opened Wrappers
  import opened Models
  import opened Rand

  /** A closed price range; it is empty when `min > max`. */
  datatype Range = Range(min: real, max: real)

  /** How a fixed-point number is printed: value and digits after the point. */
  type Format = (real, int) -> string

  function Min(a: real, b: real): real { if a <= b then a else b }
  function Max(a: real, b: real): real { if a >= b then a else b }

  /** The spread's difference, recomputed from its current ask and bid. */
  function Diff(s: Spread): real { s.ask - s.bid }

  /** The window between fractions `lo` and `hi` of the spread, measured from the bid. */
  function MarginSpread(s: Spread, lo: real, hi: real): (m: Spread)
    ensures m.bid == s.bid + Diff(s) * lo && m.ask == s.bid + Diff(s) * hi
    ensures Diff(m) == Diff(s) * (hi - lo)
  {
    var bid := s.bid + Diff(s) * lo;
    var ask := s.bid + Diff(s) * hi;
    Spread(ask, bid, ask - bid)
  }

  predicate Contains(m: Spread, x: real)
  {
    m.bid <= x <= m.ask
  }

  /** The margin window the trader quotes in. A crossed spread (ask below bid) is
      first replaced by a copy whose ask is `bid * (1 + h)`. */
  function Margin(spread: Spread, h: real, marginMin: real, marginMax: real): (r: Spread)
    ensures var width := if Diff(spread) < 0.0 then spread.bid * h else Diff(spread);
            r.bid == spread.bid + width * marginMin && r.ask == spread.bid + width * marginMax
  {
    if Diff(spread) < 0.0 then
      var clone := spread.(ask := spread.bid * (1.0 + h));
      MarginSpread(clone, marginMin, marginMax)
    else
      MarginSpread(spread, marginMin, marginMax)
  }

  /** +1 when the oracle is at or above the last price, -1 below it. */
  function Direction(oracle: real, last: real): (r: real)
    ensures r == 1.0 || r == -1.0
    ensures r == 1.0 <==> oracle >= last
  {
    if oracle - last >= 0.0 then 1.0 else -1.0
  }

  function OracleLower(oracle: real, h: real): real { oracle * (1.0 - h / 2.0) }
  function OracleUpper(oracle: real, h: real): real { oracle * (1.0 + h / 2.0) }
  function LastLower(last: real, h: real): real { last * (1.0 - h / 2.0) }
  function LastUpper(last: real, h: real): real { last * (1.0 + h / 2.0) }

  /** The last-price envelope scaled once more by `1 +/- h/2`, towards the oracle. */
  function BiasedLower(last: real, oracle: real, h: real): (r: real)
    ensures oracle >= last ==> r == LastLower(last, h) * (1.0 + h / 2.0)
    ensures oracle < last ==> r == LastLower(last, h) * (1.0 - h / 2.0)
  {
    LastLower(last, h) * (1.0 + Direction(oracle, last) * h / 2.0)
  }

  /** The last-price envelope's upper limit, scaled the same way. */
  function BiasedUpper(last: real, oracle: real, h: real): (r: real)
    ensures oracle >= last ==> r == LastUpper(last, h) * (1.0 + h / 2.0)
    ensures oracle < last ==> r == LastUpper(last, h) * (1.0 - h / 2.0)
  {
    LastUpper(last, h) * (1.0 + Direction(oracle, last) * h / 2.0)
  }

  /** The first-match rule list: each envelope in turn (oracle, biased, last),
      taken whole when both its limits are in the window, else from its one limit
      inside to the reference price clipped to the window; the window itself when
      no limit is inside. Every range it gives has its lower end at or above the
      window's bid and its upper end at or below its ask, so a nonempty one lies
      inside the window; an empty one may start above the ask. */
  function ChooseRange(m: Spread, last: real, oracle: real, h: real): (r: Range)
    ensures m.bid <= r.min && r.max <= m.ask
    ensures r.min <= r.max ==> m.bid <= r.min <= r.max <= m.ask
  {
    var oLo := OracleLower(oracle, h);
    var oHi := OracleUpper(oracle, h);
    var lo := LastLower(last, h);
    var hi := LastUpper(last, h);
    var loD := BiasedLower(last, oracle, h);
    var hiD := BiasedUpper(last, oracle, h);
    if Contains(m, oLo) && Contains(m, oHi) then Range(oLo, oHi)
    else if Contains(m, oLo) then Range(oLo, Min(m.ask, oracle))
    else if Contains(m, oHi) then Range(Max(m.bid, oracle), oHi)
    else if Contains(m, loD) && Contains(m, hiD) then Range(loD, hiD)
    else if Contains(m, loD) then Range(loD, Min(m.ask, last))
    else if Contains(m, hiD) then Range(Max(m.bid, last), hiD)
    else if Contains(m, lo) && Contains(m, hi) then Range(lo, hi)
    else if Contains(m, lo) then Range(lo, Min(m.ask, last))
    else if Contains(m, hi) then Range(Max(m.bid, last), hi)
    else Range(m.bid, m.ask)
  }

  /** The range for given market figures and quoting settings. */
  function QuoteRange(spread: Spread, last: real, oracle: real, h: real, marginMin: real, marginMax: real)
    : (r: Range)
    ensures var m := Margin(spread, h, marginMin, marginMax);
            m.bid <= r.min && r.max <= m.ask
    ensures var m := Margin(spread, h, marginMin, marginMax);
            r.min <= r.max ==> m.bid <= r.min <= r.max <= m.ask
  {
    ChooseRange(Margin(spread, h, marginMin, marginMax), last, oracle, h)
  }

  /** The range, or the error an empty range gives; both bounds print with six decimals. */
  function PriceRange(spread: Spread, last: real, oracle: real, h: real, marginMin: real, marginMax: real,
                      format: Format): (r: Result<Range>)
    ensures r.Ok? <==> QuoteRange(spread, last, oracle, h, marginMin, marginMax).min
                       <= QuoteRange(spread, last, oracle, h, marginMin, marginMax).max
    ensures r.Ok? ==> r.value == QuoteRange(spread, last, oracle, h, marginMin, marginMax)
    ensures r.Ok? ==> (Contains(Margin(spread, h, marginMin, marginMax), r.value.min) &&
                       Contains(Margin(spread, h, marginMin, marginMax), r.value.max))
  {
    var range := QuoteRange(spread, last, oracle, h, marginMin, marginMax);
    if range.min > range.max then
      Err("cannot decide on a price range. min: " + format(range.min, 6) + ", max: " + format(range.max, 6))
    else Ok(range)
  }

  /** `getRandPriceInSpread` once its draws are given: the range, then a value
      drawn strictly inside it. */
  function RandPriceInSpread(spread: Spread, last: real, oracle: real, h: real, marginMin: real, marginMax: real,
                             format: Format, draws: seq<real>): (r: Step<Draw>)
    ensures r.Failed? <==> PriceRange(spread, last, oracle, h, marginMin, marginMax, format).Err?
    ensures r.Failed? ==> r.error == PriceRange(spread, last, oracle, h, marginMin, marginMax, format).error
  {
    match PriceRange(spread, last, oracle, h, marginMin, marginMax, format)
    case Err(e) => Failed(e)
    case Ok(range) =>
      match FirstAccepted(range.min, range.max, draws, 0)
      case None => Stuck
      case Some(d) => Done(d)
  }

  /** A step of the trader: a value, an error, or `Stuck` when the supplied draws
      ran out before a candidate was accepted (with equal bounds the retry loop
      would indeed never end; otherwise the generator would go on drawing). */
  datatype Step<T> = Done(value: T) | Failed(error: string) | Stuck

  // ---- Properties of the rule list ----

  /** When the window holds both oracle limits, the range is the oracle envelope. */
  lemma OracleEnvelopeWins(spread: Spread, last: real, oracle: real, h: real, marginMin: real, marginMax: real)
    requires var m := Margin(spread, h, marginMin, marginMax);
             Contains(m, OracleLower(oracle, h)) && Contains(m, OracleUpper(oracle, h))
    ensures QuoteRange(spread, last, oracle, h, marginMin, marginMax)
            == Range(oracle * (1.0 - h / 2.0), oracle * (1.0 + h / 2.0))
  {
  }

  /** Only the oracle lower limit inside: from it up to the oracle price, clipped to the window. */
  lemma OnlyOracleLowerInside(spread: Spread, last: real, oracle: real, h: real, marginMin: real, marginMax: real)
    requires var m := Margin(spread, h, marginMin, marginMax);
             Contains(m, OracleLower(oracle, h)) && !Contains(m, OracleUpper(oracle, h))
    ensures var m := Margin(spread, h, marginMin, marginMax);
            QuoteRange(spread, last, oracle, h, marginMin, marginMax)
            == Range(OracleLower(oracle, h), Min(m.ask, oracle))
  {
  }

  /** No limit of any envelope inside: the window itself. */
  lemma FallsBackToMargin(spread: Spread, last: real, oracle: real, h: real, marginMin: real, marginMax: real)
    requires var m := Margin(spread, h, marginMin, marginMax);
             !Contains(m, OracleLower(oracle, h)) && !Contains(m, OracleUpper(oracle, h)) &&
             !Contains(m, BiasedLower(last, oracle, h)) && !Contains(m, BiasedUpper(last, oracle, h)) &&
             !Contains(m, LastLower(last, h)) && !Contains(m, LastUpper(last, h))
    ensures var m := Margin(spread, h, marginMin, marginMax);
            QuoteRange(spread, last, oracle, h, marginMin, marginMax) == Range(m.bid, m.ask)
  {
  }

  /** A crossed spread is measured from a copy with ask `bid * (1 + h)`, so the
      window lies above the bid; the spread itself is a value and is left as it was. */
  lemma CrossedSpreadUsesSyntheticAsk(spread: Spread, h: real, marginMin: real, marginMax: real)
    requires spread.ask < spread.bid
    ensures var m := Margin(spread, h, marginMin, marginMax);
            m.bid == spread.bid + spread.bid * h * marginMin
            && m.ask == spread.bid + spread.bid * h * marginMax
  {
    var clone := spread.(ask := spread.bid * (1.0 + h));
    assert Diff(clone) == spread.bid * h;
  }

  /** For an uncrossed spread and fractions 0 <= lo <= hi <= 1 the window is inside the spread. */
  lemma MarginWithinSpread(spread: Spread, h: real, marginMin: real, marginMax: real)
    requires spread.bid <= spread.ask
    requires 0.0 <= marginMin <= marginMax <= 1.0
    ensures var m := Margin(spread, h, marginMin, marginMax);
            spread.bid <= m.bid <= m.ask <= spread.ask
  {
    var d := Diff(spread);
    MulMonotone(d, 0.0, marginMin);
    MulMonotone(d, marginMin, marginMax);
    MulMonotone(d, marginMax, 1.0);
    assert d * 0.0 == 0.0 && d * 1.0 == d;
  }

  lemma MulMonotone(c: real, x: real, y: real)
    requires c >= 0.0 && x <= y
    ensures c * x <= c * y
  {
    NonnegProduct(c, y - x);
    assert c * (y - x) == c * y - c * x;
  }

  lemma NonnegProduct(x: real, y: real)
    requires x >= 0.0 && y >= 0.0
    ensures x * y >= 0.0
  {
  }

  /** With `0 <= h <= 1` and nonnegative prices each envelope is ordered and holds its
      reference price, and the biased envelope's lower limit is at most the last price. */
  lemma EnvelopesOrdered(last: real, oracle: real, h: real)
    requires 0.0 <= h <= 1.0 && last >= 0.0 && oracle >= 0.0
    ensures OracleLower(oracle, h) <= oracle <= OracleUpper(oracle, h)
    ensures LastLower(last, h) <= last <= LastUpper(last, h)
    ensures BiasedLower(last, oracle, h) <= BiasedUpper(last, oracle, h)
    ensures BiasedLower(last, oracle, h) <= last
    ensures oracle >= last ==> last <= BiasedUpper(last, oracle, h)
    ensures oracle < last ==> BiasedUpper(last, oracle, h) <= last
  {
    var a := h / 2.0;
    MulMonotone(oracle, 1.0 - a, 1.0);
    MulMonotone(oracle, 1.0, 1.0 + a);
    MulMonotone(last, 1.0 - a, 1.0);
    MulMonotone(last, 1.0, 1.0 + a);
    var lo := LastLower(last, h);
    var hi := LastUpper(last, h);
    var s := 1.0 + Direction(oracle, last) * h / 2.0;
    assert s >= 0.0;
    MulMonotone(s, lo, hi);
    assert BiasedLower(last, oracle, h) == s * lo;
    assert BiasedUpper(last, oracle, h) == s * hi;
    if oracle >= last {
      assert s == 1.0 + a;
      // (1 - a) (1 + a) = 1 - a^2 <= 1
      NonnegProduct(a, a);
      NonnegProduct(last, a * a);
      assert s * lo == last * (1.0 - a * a) by {
        assert s * lo == (1.0 + a) * (last * (1.0 - a));
      }
      MulMonotone(s, last, hi);
      MulMonotone(last, 1.0, s);
    } else {
      assert s == 1.0 - a;
      MulMonotone(s, lo, last);
      MulMonotone(last, s, 1.0);
      NonnegProduct(a, a);
      NonnegProduct(last, a * a);
      assert s * hi == last * (1.0 - a * a) by {
        assert s * hi == (1.0 - a) * (last * (1.0 + a));
      }
    }
  }

  /** Under `0 <= h <= 1`, nonnegative prices and a nonempty window, the only rule that
      can give an empty range is the sixth: the biased upper limit alone is inside
      and lies below the last price, which happens only when the oracle is below it. */
  lemma {:induction false} EmptyRangeOnlyFromBiasedUpper(spread: Spread, last: real, oracle: real, h: real,
                                                         marginMin: real, marginMax: real)
    requires 0.0 <= h <= 1.0 && last >= 0.0 && oracle >= 0.0
    requires Margin(spread, h, marginMin, marginMax).bid <= Margin(spread, h, marginMin, marginMax).ask
    ensures var m := Margin(spread, h, marginMin, marginMax);
            var r := QuoteRange(spread, last, oracle, h, marginMin, marginMax);
            r.min > r.max <==>
              (!Contains(m, OracleLower(oracle, h)) && !Contains(m, OracleUpper(oracle, h)) &&
               !Contains(m, BiasedLower(last, oracle, h)) && Contains(m, BiasedUpper(last, oracle, h)) &&
               BiasedUpper(last, oracle, h) < last)
    ensures var r := QuoteRange(spread, last, oracle, h, marginMin, marginMax);
            r.min > r.max ==> oracle < last
  {
    EnvelopesOrdered(last, oracle, h);
  }

  /** A price that is drawn lies strictly inside the chosen range, and so inside the window. */
  lemma DrawnPriceInsideRange(spread: Spread, last: real, oracle: real, h: real, marginMin: real, marginMax: real,
                              format: Format, draws: seq<real>)
    requires UnitDraws(draws)
    requires RandPriceInSpread(spread, last, oracle, h, marginMin, marginMax, format, draws).Done?
    ensures var m := Margin(spread, h, marginMin, marginMax);
            var r := QuoteRange(spread, last, oracle, h, marginMin, marginMax);
            var v := RandPriceInSpread(spread, last, oracle, h, marginMin, marginMax, format, draws).value.value;
            m.bid <= r.min < v < r.max <= m.ask
  {
    var r := QuoteRange(spread, last, oracle, h, marginMin, marginMax);
    AcceptedStrictlyBetween(r.min, r.max, draws);
  }

  /** Bid 100, ask 101, last 100.5, oracle 102, h = 2%, the whole spread as window:
      the oracle lower limit 100.98 alone is inside, so the range is [100.98, 101]. */
  lemma QuoteTowardsOracleExample()
    ensures QuoteRange(Spread(101.0, 100.0, 1.0), 100.5, 102.0, 0.02, 0.0, 1.0) == Range(100.98, 101.0)
  {
    var s := Spread(101.0, 100.0, 1.0);
    WholeSpreadWindow(s, 0.02);
    QuoteTowardsOracleRule(s);
  }

  lemma QuoteTowardsOracleRule(s: Spread)
    requires s == Spread(101.0, 100.0, 1.0)
    ensures ChooseRange(s, 100.5, 102.0, 0.02) == Range(100.98, 101.0)
  {
    assert OracleLower(102.0, 0.02) == 100.98;
    assert OracleUpper(102.0, 0.02) == 103.02;
  }

  /** Bid 99, ask 100, last 100, oracle 50, h = 2%: only the biased upper limit 99.99
      is inside, and the sixth rule gives [100, 99.99], which is refused. */
  lemma EmptyRangeExample(format: Format)
    ensures QuoteRange(Spread(100.0, 99.0, 1.0), 100.0, 50.0, 0.02, 0.0, 1.0) == Range(100.0, 99.99)
    ensures PriceRange(Spread(100.0, 99.0, 1.0), 100.0, 50.0, 0.02, 0.0, 1.0, format).Err?
  {
    var s := Spread(100.0, 99.0, 1.0);
    WholeSpreadWindow(s, 0.02);
    EmptyRangeRule(s);
  }

  lemma EmptyRangeRule(s: Spread)
    requires s == Spread(100.0, 99.0, 1.0)
    ensures ChooseRange(s, 100.0, 50.0, 0.02) == Range(100.0, 99.99)
  {
    assert Direction(50.0, 100.0) == -1.0;
    assert BiasedLower(100.0, 50.0, 0.02) == 98.01;
    assert BiasedUpper(100.0, 50.0, 0.02) == 99.99;
    assert OracleLower(50.0, 0.02) == 49.5 && OracleUpper(50.0, 0.02) == 50.5;
    assert LastLower(100.0, 0.02) == 99.0 && LastUpper(100.0, 0.02) == 101.0;
  }

  /** With fractions 0 and 1 an uncrossed spread is its own window. */
  lemma WholeSpreadWindow(s: Spread, h: real)
    requires s.bid <= s.ask && s.diff == s.ask - s.bid
    ensures Margin(s, h, 0.0, 1.0) == s
  {
  }
}
