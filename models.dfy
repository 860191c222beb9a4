/**
 * The price snapshot value (`PriceUpdate`) and the decimal rounding it relies on.
 *
 * Prices, timestamps and derived figures are exact reals. Python's `round(x, n)`
 * rounds half to even; the model applies that rule to the exact value, for the two
 * precisions the market code uses (2 and 4 places).
 */
module Models {

  /** Nearest integer to `x`, ties going to the even neighbour. */
  function RoundHalfEven(x: real): (k: int)
    ensures x - 0.5 <= k as real <= x + 0.5
    ensures x == x.Floor as real ==> k == x.Floor
  {
    var f := x.Floor;
    var frac := x - f as real;
    if frac < 0.5 then f
    else if frac > 0.5 then f + 1
    else if f % 2 == 0 then f
    else f + 1
  }

  /** `x` has at most 2 decimal places (a whole number of cents). */
  predicate IsCents(x: real) {
    x * 100.0 == (x * 100.0).Floor as real
  }

  /**
   * `x` rounded to 2 decimal places, as Python's `round(x, 2)`: a whole number of cents within
   * half a cent of `x`, equal to `x` when `x` already is one, and never changing the sign of a
   * value farther than half a cent from zero.
   */
  function Round2(x: real): (r: real)
    ensures -0.005 <= r - x <= 0.005
    ensures IsCents(r)
    ensures IsCents(x) ==> r == x
    ensures x >= 0.0 ==> r >= 0.0
    ensures x > 0.005 ==> r > 0.0
  {
    var k := RoundHalfEven(x * 100.0);
    assert (k as real / 100.0) * 100.0 == k as real;
    k as real / 100.0
  }

  /** `x` has at most 4 decimal places. */
  predicate IsFourPlaces(x: real) {
    x * 10000.0 == (x * 10000.0).Floor as real
  }

  /**
   * `x` rounded to 4 decimal places, as Python's `round(x, 4)`: a value with at most 4 decimal
   * places within half a unit in the 4th place of `x`, equal to `x` when `x` already is one.
   */
  function Round4(x: real): (r: real)
    ensures -0.00005 <= r - x <= 0.00005
    ensures IsFourPlaces(r)
    ensures IsFourPlaces(x) ==> r == x
  {
    var k := RoundHalfEven(x * 10000.0);
    assert (k as real / 10000.0) * 10000.0 == k as real;
    k as real / 10000.0
  }

  /** A difference of two whole-cent values is left alone by rounding to 4 places. */
  lemma Round4ExactOnCents(x: real, y: real)
    requires IsCents(x) && IsCents(y)
    ensures Round4(x - y) == x - y
  {
    var a := (x * 100.0).Floor;
    var b := (y * 100.0).Floor;
    assert (x - y) * 10000.0 == ((a - b) * 100) as real;
    assert RoundHalfEven((x - y) * 10000.0) == (a - b) * 100;
  }

  /** One field of the serialised snapshot. */
  datatype Value = Text(s: string) | Number(x: real)

  /** The seven keys of a serialised snapshot. */
  const DictKeys: set<string> :=
    {"ticker", "price", "previous_price", "timestamp", "change", "change_percent", "direction"}

  /** Immutable snapshot of one ticker's price at one point in time (timestamp in Unix seconds). */
  datatype PriceUpdate = PriceUpdate(ticker: string, price: real, previousPrice: real, timestamp: real)
  {
    /** Absolute change from the previous price, rounded to 4 places. */
    function Change(): (c: real)
      ensures -0.00005 <= c - (price - previousPrice) <= 0.00005
      ensures IsFourPlaces(c)
    {
      Round4(price - previousPrice)
    }

    /** Percentage change from the previous price, rounded to 4 places; 0 when there is no previous price. */
    function ChangePercent(): (c: real)
      ensures previousPrice == 0.0 ==> c == 0.0
      ensures previousPrice != 0.0 ==>
                -0.00005 <= c - (price - previousPrice) / previousPrice * 100.0 <= 0.00005
      ensures IsFourPlaces(c)
    {
      if previousPrice == 0.0 then 0.0
      else
        Round4((price - previousPrice) / previousPrice * 100.0)
    }

    /** "up", "down" or "flat", decided only by comparing the two prices. */
    function Direction(): (d: string)
      ensures d == "up" <==> price > previousPrice
      ensures d == "down" <==> price < previousPrice
      ensures d == "flat" <==> price == previousPrice
    {
      if price > previousPrice then "up"
      else if price < previousPrice then "down"
      else "flat"
    }

    /** Serialised form sent to stream clients. */
    function ToDict(): (m: map<string, Value>)
      ensures m.Keys == DictKeys
      ensures m["ticker"] == Text(ticker) && m["direction"] == Text(Direction())
      ensures m["price"] == Number(price) && m["previous_price"] == Number(previousPrice)
      ensures m["timestamp"] == Number(timestamp)
      ensures m["change"] == Number(Change()) && m["change_percent"] == Number(ChangePercent())
    {
      map[
        "ticker" := Text(ticker),
        "price" := Number(price),
        "previous_price" := Number(previousPrice),
        "timestamp" := Number(timestamp),
        "change" := Number(Change()),
        "change_percent" := Number(ChangePercent()),
        "direction" := Text(Direction())
      ]
    }
  }

  /**
   * For prices with two decimal places (every price the cache stores), `change` is the exact
   * difference, so its sign always agrees with `direction`.
   */
  lemma ChangeExactOnCents(u: PriceUpdate)
    requires IsCents(u.price) && IsCents(u.previousPrice)
    ensures u.Change() == u.price - u.previousPrice
    ensures u.Change() > 0.0 <==> u.Direction() == "up"
    ensures u.Change() < 0.0 <==> u.Direction() == "down"
    ensures u.Change() == 0.0 <==> u.Direction() == "flat"
  {
    Round4ExactOnCents(u.price, u.previousPrice);
  }

  /** Equal prices: no change, no percentage change, direction flat. */
  lemma UnchangedPriceIsFlat(u: PriceUpdate)
    requires u.price == u.previousPrice
    ensures u.Change() == 0.0 && u.ChangePercent() == 0.0 && u.Direction() == "flat"
  {
    assert RoundHalfEven(0.0) == 0;
  }

  /** The worked examples for `change` and `change_percent`. */
  lemma ChangeExamples()
    ensures PriceUpdate("AAPL", 190.50, 190.00, 1234567890.0).Change() == 0.5
    ensures PriceUpdate("AAPL", 189.50, 190.00, 1234567890.0).Change() == -0.5
    ensures PriceUpdate("AAPL", 190.00, 100.00, 1234567890.0).ChangePercent() == 90.0
    ensures PriceUpdate("AAPL", 100.00, 200.00, 1234567890.0).ChangePercent() == -50.0
    ensures PriceUpdate("AAPL", 100.00, 0.00, 1234567890.0).ChangePercent() == 0.0
    ensures PriceUpdate("AAPL", 190.50, 190.00, 1234567890.0).ChangePercent() == 0.2632
  {
    assert RoundHalfEven(5000.0) == 5000;
    assert RoundHalfEven(-5000.0) == -5000;
    assert RoundHalfEven(900000.0) == 900000;
    assert RoundHalfEven(-500000.0) == -500000;
    assert 0.5 / 190.0 * 100.0 * 10000.0 == 50000.0 / 19.0;
    assert (50000.0 / 19.0).Floor == 2631;
    assert RoundHalfEven(50000.0 / 19.0) == 2632;
  }
}
