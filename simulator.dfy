/**
 * The GBM price simulator and the data source that drives it.
 *
 * Random draws and `exp` are inputs: each tick receives, per tracked ticker, a positive
 * growth factor (the `exp(drift + diffusion)` of `GBMSimulator.step` in simulator.py) and an optional shock.
 * The Cholesky factorisation is not modelled: the simulator keeps the correlation matrix
 * that would be factorised, present exactly when the `_cholesky` field of `GBMSimulator` is.
 */
module Simulator {
  import opened Wrappers
  import opened Models
  import opened SeedTables
  import opened Cache
  import opened MarketInterface

  // ---------------------------------------------------------------- correlation rule

  /** Tickers in the "tech" correlation group. */
  function Tech(): set<string> {
    CorrelationGroups["tech"]
  }

  /** Tickers in the "finance" correlation group. */
  function Finance(): set<string> {
    CorrelationGroups["finance"]
  }

  /**
   * Correlation between two tickers: TSLA with anything is checked first, then both tech,
   * then both finance, and every other pair gets the cross-group coefficient.
   */
  function PairwiseCorrelation(t1: string, t2: string): (rho: real)
    ensures 0.0 < rho < 1.0
  {
    if t1 == "TSLA" || t2 == "TSLA" then TslaCorr
    else if t1 in Tech() && t2 in Tech() then IntraTechCorr
    else if t1 in Finance() && t2 in Finance() then IntraFinanceCorr
    else CrossGroupCorr
  }

  /** The rule as a table: which pairs get 0.6, which 0.5, and that every other pair gets 0.3. */
  lemma CorrelationRule(t1: string, t2: string)
    ensures PairwiseCorrelation(t1, t2) == 0.6 <==> t1 in Tech() && t2 in Tech()
    ensures PairwiseCorrelation(t1, t2) == 0.5 <==> t1 in Finance() && t2 in Finance()
    ensures PairwiseCorrelation(t1, t2) == 0.3 <==>
              !(t1 in Tech() && t2 in Tech()) && !(t1 in Finance() && t2 in Finance())
    ensures t1 == "TSLA" || t2 == "TSLA" ==> PairwiseCorrelation(t1, t2) == 0.3
  {
    GroupsDisjointWithoutTsla();
  }

  /** The coefficient does not depend on the order of the pair. */
  lemma CorrelationSymmetric(t1: string, t2: string)
    ensures PairwiseCorrelation(t1, t2) == PairwiseCorrelation(t2, t1)
  {
  }

  /** The rule with the TSLA test left out: group membership alone. */
  function GroupCorrelation(t1: string, t2: string): real {
    if t1 in Tech() && t2 in Tech() then IntraTechCorr
    else if t1 in Finance() && t2 in Finance() then IntraFinanceCorr
    else CrossGroupCorr
  }

  /**
   * TSLA is in neither group and its coefficient equals the cross-group one, so the TSLA
   * test changes no result: the rule equals group membership alone.
   */
  lemma TslaTestRedundant(t1: string, t2: string)
    ensures PairwiseCorrelation(t1, t2) == GroupCorrelation(t1, t2)
  {
    GroupsDisjointWithoutTsla();
  }

  /** Entry `(i, j)` of the correlation matrix of `tickers`: 1 on the diagonal, the pair rule elsewhere. */
  function CorrelationEntry(tickers: seq<string>, i: nat, j: nat): (rho: real)
    requires i < |tickers| && j < |tickers|
    ensures 0.0 < rho <= 1.0
    ensures i == j ==> rho == 1.0
  {
    if i == j then 1.0 else PairwiseCorrelation(tickers[i], tickers[j])
  }

  /** `m` is the correlation matrix of `tickers`. */
  ghost predicate IsCorrelationOf(m: array2<real>, tickers: seq<string>)
    reads m
  {
    && m.Length0 == |tickers| && m.Length1 == |tickers|
    && forall a, b :: 0 <= a < |tickers| && 0 <= b < |tickers| ==>
         m[a, b] == CorrelationEntry(tickers, a, b)
  }

  /** Cells already written after row `i` has been filled up to column `j`. */
  ghost predicate Filled(a: nat, b: nat, i: nat, j: nat) {
    a == b || (a < i || b < i) || ((a == i || b == i) && a < j && b < j)
  }

  /**
   * Builds the correlation matrix of `tickers` as `GBMSimulator._rebuild_cholesky` does: start from the identity
   * and fill each pair above the diagonal and its mirror with the pair rule.
   */
  method CorrelationMatrix(tickers: seq<string>) returns (corr: array2<real>)
    ensures fresh(corr)
    ensures corr.Length0 == |tickers| && corr.Length1 == |tickers|
    ensures forall a, b :: 0 <= a < |tickers| && 0 <= b < |tickers| ==>
              corr[a, b] == CorrelationEntry(tickers, a, b)
    ensures forall a, b :: 0 <= a < |tickers| && 0 <= b < |tickers| ==> corr[a, b] == corr[b, a]
    ensures forall a :: 0 <= a < |tickers| ==> corr[a, a] == 1.0
    ensures forall a, b :: 0 <= a < |tickers| && 0 <= b < |tickers| && a != b ==> 0.0 < corr[a, b] < 1.0
  {
    var n := |tickers|;
    corr := new real[n, n]((a, b) => if a == b then 1.0 else 0.0);
    var i := 0;
    while i < n
      invariant 0 <= i <= n
      invariant forall a, b :: 0 <= a < n && 0 <= b < n ==>
                  corr[a, b] == if Filled(a, b, i, i + 1) then CorrelationEntry(tickers, a, b) else 0.0
    {
      var j := i + 1;
      while j < n
        invariant i + 1 <= j <= n
        invariant forall a, b :: 0 <= a < n && 0 <= b < n ==>
                    corr[a, b] == if Filled(a, b, i, j) then CorrelationEntry(tickers, a, b) else 0.0
      {
        var rho := PairwiseCorrelation(tickers[i], tickers[j]);
        CorrelationSymmetric(tickers[i], tickers[j]);
        corr[i, j] := rho;
        corr[j, i] := rho;
        j := j + 1;
      }
      i := i + 1;
    }
    forall a, b | 0 <= a < n && 0 <= b < n
      ensures corr[a, b] == corr[b, a]
    {
      if a != b {
        CorrelationSymmetric(tickers[a], tickers[b]);
      }
    }
  }

  // ---------------------------------------------------------------- list helpers

  /** No ticker occurs twice. */
  predicate Distinct(s: seq<string>) {
    forall i, j :: 0 <= i < j < |s| ==> s[i] != s[j]
  }

  /** `s` without repeats, keeping first occurrences in order. */
  function Dedup(s: seq<string>): (r: seq<string>)
    ensures Distinct(r)
    ensures forall x :: x in r <==> x in s
  {
    if s == [] then []
    else
      var d := Dedup(s[..|s| - 1]);
      if s[|s| - 1] in d then d else d + [s[|s| - 1]]
  }

  /** One more element of `s` extends the de-duplicated prefix by that element unless already seen. */
  lemma DedupPrefix(s: seq<string>, i: nat)
    requires i < |s|
    ensures Dedup(s[..i + 1]) == if s[i] in Dedup(s[..i]) then Dedup(s[..i]) else Dedup(s[..i]) + [s[i]]
  {
    assert s[..i + 1][..i] == s[..i];
  }

  /** Index of the first occurrence of `x` in `s`. */
  function IndexOf(s: seq<string>, x: string): (k: nat)
    requires x in s
    ensures k < |s| && s[k] == x && x !in s[..k]
  {
    if s[0] == x then 0 else 1 + IndexOf(s[1..], x)
  }

  /** Python's `list.remove(x)` for an `x` that is present: drops its first occurrence. */
  function RemoveFirst(s: seq<string>, x: string): (r: seq<string>)
    requires x in s
    ensures r == s[..IndexOf(s, x)] + s[IndexOf(s, x) + 1..]
  {
    if s[0] == x then s[1..] else [s[0]] + RemoveFirst(s[1..], x)
  }

  /** On a duplicate-free list, removing `x` leaves exactly the other elements, still distinct. */
  lemma RemoveFirstDistinct(s: seq<string>, x: string)
    requires x in s && Distinct(s)
    ensures Distinct(RemoveFirst(s, x))
    ensures forall y :: y in RemoveFirst(s, x) <==> y in s && y != x
  {
    var k := IndexOf(s, x);
    var r := RemoveFirst(s, x);
    forall y | y in s && y != x
      ensures y in r
    {
      var m :| 0 <= m < |s| && s[m] == y;
      var m' := if m < k then m else m - 1;
      RemoveFirstAt(s, x, m');
    }
    forall y | y in r
      ensures y in s && y != x
    {
      var m :| 0 <= m < |r| && r[m] == y;
      RemoveFirstAt(s, x, m);
    }
    forall i, j | 0 <= i < j < |r|
      ensures r[i] != r[j]
    {
      RemoveFirstAt(s, x, i);
      RemoveFirstAt(s, x, j);
    }
  }

  /** Position `m` of the shortened list holds the element before or after the removed one. */
  lemma RemoveFirstAt(s: seq<string>, x: string, m: nat)
    requires x in s && m < |s| - 1
    ensures |RemoveFirst(s, x)| == |s| - 1
    ensures RemoveFirst(s, x)[m] == if m < IndexOf(s, x) then s[m] else s[m + 1]
  {
    var k := IndexOf(s, x);
    var a, b := s[..k], s[k + 1..];
    assert RemoveFirst(s, x) == a + b;
    if m < k {
      assert (a + b)[m] == a[m] == s[m];
    } else {
      assert (a + b)[m] == b[m - k] == s[m + 1];
    }
  }

  // ---------------------------------------------------------------- one tick

  /** A price jump of `1 + magnitude * sign`, or none. */
  datatype Shock = NoShock | Shock(magnitude: real, sign: int)

  /** A shock as `random.uniform(0.02, 0.05)` and `random.choice([-1, 1])` can draw it. */
  predicate ValidShock(s: Shock) {
    s.NoShock? || (0.02 <= s.magnitude <= 0.05 && (s.sign == 1 || s.sign == -1))
  }

  /** The multiplier a shock applies: `1 + magnitude * sign`, within 5% of 1. */
  function ShockFactor(shock: Shock): (f: real)
    requires ValidShock(shock)
    ensures 0.95 <= f <= 1.05
  {
    if shock.NoShock? then 1.0 else 1.0 + shock.magnitude * shock.sign as real
  }

  /**
   * One tick of one ticker: multiply by the growth factor, then by the shock if one fires.
   * A positive price stays strictly positive and moves by at most the growth factor and 5%.
   */
  function Advance(price: real, growth: real, shock: Shock): (p: real)
    requires price > 0.0 && growth > 0.0 && ValidShock(shock)
    ensures p > 0.0
  {
    ScaleBetween(price, growth, ShockFactor(shock));
    if shock.NoShock? then price * growth else price * growth * ShockFactor(shock)
  }

  /** A tick moves a price by the growth factor and, when a shock fires, by at most 5% more. */
  lemma AdvanceBounds(price: real, growth: real, shock: Shock)
    requires price > 0.0 && growth > 0.0 && ValidShock(shock)
    ensures price * growth * 0.95 <= Advance(price, growth, shock) <= price * growth * 1.05
    ensures shock.NoShock? ==> Advance(price, growth, shock) == price * growth
  {
    var x := price * growth;
    ScaleBetween(price, growth, ShockFactor(shock));
    if shock.Shock? {
      var f := ShockFactor(shock);
      assert Advance(price, growth, shock) == x * f;
      assert x > 0.0 && 0.95 <= f <= 1.05;
      MulNonneg(x, f - 0.95);
      MulNonneg(x, 1.05 - f);
    }
  }

  lemma MulNonneg(a: real, b: real)
    requires a >= 0.0 && b >= 0.0
    ensures a * b >= 0.0
  {
  }

  /** Scaling a positive amount by a factor in [0.95, 1.05]. */
  lemma ScaleBetween(price: real, growth: real, factor: real)
    requires price > 0.0 && growth > 0.0 && 0.95 <= factor <= 1.05
    ensures price * growth > 0.0
    ensures price * growth * 0.95 <= price * growth * factor <= price * growth * 1.05
  {
    var x := price * growth;
    assert x > 0.0;
    assert x * factor - x * 0.95 == x * (factor - 0.95);
    assert x * 1.05 - x * factor == x * (1.05 - factor);
  }

  /** The starting price of a ticker: its seed, or else the uniform draw `fallback`. */
  function SeedPriceFor(ticker: string, fallback: real): (p: real)
    requires 50.0 <= fallback <= 300.0
    ensures p > 0.0
    ensures ticker in SeedPrices ==> p == SeedPrices[ticker]
    ensures ticker !in SeedPrices ==> p == fallback
  {
    TableIsPositive();
    if ticker in SeedPrices then SeedPrices[ticker] else fallback
  }

  /**
   * One tick of every ticker in `ts`: each price is advanced by its own growth factor and
   * shock, and the rounded new prices are reported. Prices of other keys stay as they were.
   */
  method AdvanceAll(ts: seq<string>, before: map<string, real>, growth: seq<real>, shocks: seq<Shock>)
    returns (after: map<string, real>, result: map<string, real>)
    requires Distinct(ts) && |growth| == |ts| && |shocks| == |ts|
    requires forall t :: t in before ==> before[t] > 0.0
    requires forall k :: 0 <= k < |ts| ==> ts[k] in before && growth[k] > 0.0 && ValidShock(shocks[k])
    ensures after.Keys == before.Keys
    ensures forall t :: t in after ==> after[t] > 0.0
    ensures forall t :: t in result <==> t in ts
    ensures forall t :: t in before && t !in ts ==> after[t] == before[t]
    ensures forall k :: 0 <= k < |ts| ==>
              && after[ts[k]] == Advance(before[ts[k]], growth[k], shocks[k])
              && result[ts[k]] == Round2(after[ts[k]])
  {
    after, result := before, map[];
    var i := 0;
    while i < |ts|
      invariant 0 <= i <= |ts|
      invariant after.Keys == before.Keys
      invariant forall t :: t in after ==> after[t] > 0.0
      invariant forall t :: t in result <==> t in ts[..i]
      invariant forall t :: t in before && t !in ts ==> after[t] == before[t]
      invariant forall k :: 0 <= k < i ==>
                  && after[ts[k]] == Advance(before[ts[k]], growth[k], shocks[k])
                  && result[ts[k]] == Round2(after[ts[k]])
      invariant forall k :: i <= k < |ts| ==> after[ts[k]] == before[ts[k]]
    {
      var ticker := ts[i];
      after := after[ticker := Advance(after[ticker], growth[i], shocks[i])];
      result := result[ticker := Round2(after[ticker])];
      assert ts[..i + 1] == ts[..i] + [ticker];
      i := i + 1;
    }
    assert ts[..i] == ts;
  }

  /**
   * The simulator's bookkeeping: a duplicate-free ticker list, a price for exactly the listed
   * tickers, parameters for exactly the priced ones, and strictly positive prices.
   */
  ghost predicate Tracks(ts: seq<string>, ps: map<string, real>, pm: map<string, Params>) {
    && Distinct(ts)
    && (forall t :: t in ps <==> t in ts)
    && pm.Keys == ps.Keys
    && (forall t :: t in ps ==> ps[t] > 0.0)
  }

  /** Every ticker's parameters come from the parameter table, or are the defaults. */
  ghost predicate ParamsFromTable(pm: map<string, Params>) {
    forall t :: t in pm ==> pm[t] == ParamsFor(t)
  }

  /**
   * Adding a ticker with its table parameters, or dropping one, keeps every ticker's parameters
   * those of the table.
   */
  lemma ParamsFromTableKept(pm: map<string, Params>, x: string)
    requires ParamsFromTable(pm)
    ensures ParamsFromTable(pm[x := ParamsFor(x)]) && ParamsFromTable(pm - {x})
  {
  }

  /** Adding an untracked ticker with a positive price keeps the bookkeeping consistent. */
  lemma AddKeepsTracking(ts: seq<string>, ps: map<string, real>, pm: map<string, Params>,
                         x: string, p: real, q: Params)
    requires Tracks(ts, ps, pm) && x !in ps && p > 0.0
    ensures Tracks(ts + [x], ps[x := p], pm[x := q])
  {
    forall i, j | 0 <= i < j < |ts + [x]|
      ensures (ts + [x])[i] != (ts + [x])[j]
    {
      if j == |ts| {
        assert ts[i] in ts;
      }
    }
  }

  /** Removing a tracked ticker keeps the bookkeeping consistent and drops only that ticker. */
  lemma RemoveKeepsTracking(ts: seq<string>, ps: map<string, real>, pm: map<string, Params>,
                            x: string)
    requires Tracks(ts, ps, pm) && x in ps
    ensures Tracks(RemoveFirst(ts, x), ps - {x}, pm - {x})
    ensures forall y :: y in RemoveFirst(ts, x) <==> y in ts && y != x
  {
    RemoveFirstDistinct(ts, x);
  }

  /** Every starting price is its ticker's seed price, or a draw in [50, 300] for unseeded tickers. */
  ghost predicate SeededOrDrawn(ps: map<string, real>) {
    forall t :: t in ps ==>
      if t in SeedPrices then ps[t] == SeedPrices[t] else 50.0 <= ps[t] <= 300.0
  }

  /** Giving one more ticker its starting price keeps every starting price seeded or drawn. */
  lemma SeededOrDrawnAdd(ps: map<string, real>, x: string, fallback: real)
    requires SeededOrDrawn(ps) && 50.0 <= fallback <= 300.0
    ensures SeededOrDrawn(ps[x := SeedPriceFor(x, fallback)])
  {
  }

  /** Trading seconds in a year: 252 days of 6.5 hours. */
  const TradingSecondsPerYear: real := 252.0 * 6.5 * 3600.0

  /** 500 ms as a fraction of a trading year. */
  const DefaultDt: real := 0.5 / TradingSecondsPerYear

  /** The default time step is about 8.48e-8 of a year. */
  lemma DefaultDtSmall()
    ensures 0.000000084 < DefaultDt < 0.000000085
  {
  }

  // ---------------------------------------------------------------- the simulator

  /** Geometric Brownian motion over a changing set of tickers. */
  class GBMSimulator {
    /** Tracked tickers in insertion order: the index basis of the correlation matrix. */
    var tickers: seq<string>
    /** Current (unrounded) price per tracked ticker. */
    var prices: map<string, real>
    var params: map<string, Params>
    /** The correlation matrix of `tickers`; null exactly when fewer than two are tracked. */
    var correlation: array2?<real>
    const dt: real
    const eventProbability: real
    ghost var Repr: set<object>

    /** The list, the price map and the parameter map agree; prices are positive. */
    ghost predicate Tracking()
      reads this`tickers, this`prices, this`params
    {
      Tracks(tickers, prices, params)
    }

    ghost predicate Valid()
      reads this, Repr
    {
      && Repr == (if correlation == null then {this} else {this, correlation})
      && Tracking()
      && (correlation == null <==> |tickers| <= 1)
      && (correlation != null ==> IsCorrelationOf(correlation, tickers))
    }

    /** Starts tracking `initial`; `draws[i]` is the uniform draw for `initial[i]` if it has no seed. */
    constructor (initial: seq<string>, draws: seq<real>, dt: real := DefaultDt,
                 eventProbability: real := 0.001)
      requires |draws| == |initial|
      requires forall i :: 0 <= i < |draws| ==> 50.0 <= draws[i] <= 300.0
      ensures Valid() && fresh(Repr)
      ensures tickers == Dedup(initial)
      ensures SeededOrDrawn(prices) && ParamsFromTable(params)
      ensures this.dt == dt && this.eventProbability == eventProbability
    {
      this.dt := dt;
      this.eventProbability := eventProbability;
      tickers := [];
      prices := map[];
      params := map[];
      correlation := null;
      Repr := {this};
      new;
      var i := 0;
      while i < |initial|
        invariant 0 <= i <= |initial|
        invariant Tracking() && Repr == {this} && correlation == null
        invariant tickers == Dedup(initial[..i])
        invariant SeededOrDrawn(prices) && ParamsFromTable(params)
      {
        DedupPrefix(initial, i);
        AddTickerInternal(initial[i], draws[i]);
        i := i + 1;
      }
      assert initial[..i] == initial;
      RebuildCorrelation();
    }

    /** Adds `ticker` without rebuilding the matrix; no-op when already tracked. */
    method AddTickerInternal(ticker: string, fallback: real)
      requires Tracking()
      requires 50.0 <= fallback <= 300.0
      modifies this`tickers, this`prices, this`params
      ensures Tracking()
      ensures tickers == if ticker in old(tickers) then old(tickers) else old(tickers) + [ticker]
      ensures ticker in old(prices) ==> prices == old(prices) && params == old(params)
      ensures ticker !in old(prices) ==>
                && prices == old(prices)[ticker := SeedPriceFor(ticker, fallback)]
                && params == old(params)[ticker := ParamsFor(ticker)]
      ensures SeededOrDrawn(old(prices)) ==> SeededOrDrawn(prices)
      ensures ParamsFromTable(old(params)) ==> ParamsFromTable(params)
    {
      if ticker in prices {
        return;
      }
      AddKeepsTracking(tickers, prices, params, ticker, SeedPriceFor(ticker, fallback), ParamsFor(ticker));
      if SeededOrDrawn(prices) {
        SeededOrDrawnAdd(prices, ticker, fallback);
      }
      tickers := tickers + [ticker];
      prices := prices[ticker := SeedPriceFor(ticker, fallback)];
      params := params[ticker := ParamsFor(ticker)];
    }

    /** Recomputes the correlation matrix for the current tickers (none below two tickers). */
    method RebuildCorrelation()
      requires Tracking()
      modifies this`correlation, this`Repr
      ensures Valid() && fresh(Repr - {this})
    {
      var n := |tickers|;
      if n <= 1 {
        correlation := null;
        Repr := {this};
        return;
      }
      var corr := CorrelationMatrix(tickers);
      correlation := corr;
      Repr := {this, corr};
    }

    /**
     * Advances every tracked ticker by one tick and returns the new prices rounded to cents.
     * `growth[i]` and `shocks[i]` are the draws for `tickers[i]`.
     */
    method Step(growth: seq<real>, shocks: seq<Shock>) returns (result: map<string, real>)
      requires Valid()
      requires |growth| == |tickers| && |shocks| == |tickers|
      requires forall i :: 0 <= i < |tickers| ==> growth[i] > 0.0 && ValidShock(shocks[i])
      modifies this`prices
      ensures Valid()
      ensures |tickers| == 0 ==> result == map[]
      ensures forall t :: t in result <==> t in tickers
      ensures forall i :: 0 <= i < |tickers| ==>
                && prices[tickers[i]] == Advance(old(prices)[tickers[i]], growth[i], shocks[i])
                && result[tickers[i]] == Round2(prices[tickers[i]])
    {
      var after;
      after, result := AdvanceAll(tickers, prices, growth, shocks);
      prices := after;
    }

    /** Starts tracking `ticker` (no-op when tracked) and rebuilds the matrix. */
    method AddTicker(ticker: string, fallback: real)
      requires Valid()
      requires 50.0 <= fallback <= 300.0
      modifies Repr
      ensures Valid() && fresh(Repr - old(Repr))
      ensures AddTickerContract(old(tickers), tickers, ticker) && ticker in tickers
      ensures ticker in old(prices) ==> prices == old(prices) && params == old(params)
      ensures ticker !in old(prices) ==>
                && prices == old(prices)[ticker := SeedPriceFor(ticker, fallback)]
                && params == old(params)[ticker := ParamsFor(ticker)]
    {
      if ticker in prices {
        return;
      }
      AddTickerInternal(ticker, fallback);
      assert this in old(Repr);
      RebuildCorrelation();
      assert Repr - old(Repr) <= Repr - {this};
    }

    /** Stops tracking `ticker` (no-op when untracked) and rebuilds the matrix. */
    method RemoveTicker(ticker: string)
      requires Valid()
      modifies Repr
      ensures Valid() && fresh(Repr - old(Repr))
      ensures ticker !in old(prices) ==> tickers == old(tickers) && prices == old(prices)
      ensures ticker in old(prices) ==> tickers == RemoveFirst(old(tickers), ticker)
      ensures prices == old(prices) - {ticker} && params == old(params) - {ticker}
      ensures forall t :: t in tickers <==> t in old(tickers) && t != ticker
    {
      if ticker !in prices {
        return;
      }
      RemoveKeepsTracking(tickers, prices, params, ticker);
      tickers := RemoveFirst(tickers, ticker);
      prices := prices - {ticker};
      params := params - {ticker};
      assert this in old(Repr);
      RebuildCorrelation();
      assert Repr - old(Repr) <= Repr - {this};
    }

    /** Current price of `ticker`, or None when untracked. */
    method GetPrice(ticker: string) returns (r: Option<real>)
      requires Valid()
      ensures r.Some? <==> ticker in tickers
      ensures r.Some? ==> r.value == prices[ticker] && r.value > 0.0
    {
      r := if ticker in prices then Some(prices[ticker]) else None;
    }
  }

  // ---------------------------------------------------------------- the simulator data source

  /**
   * The simulated market data source: owns a simulator once started, seeds the cache on start
   * and on every added ticker, and on every tick writes each stepped price into the cache.
   * The background task is modelled by the flag `running` and one loop iteration by `Tick`.
   */
  class SimulatorDataSource {
    const cache: PriceCache
    /** Seconds between ticks (0.5 by default); the sleep itself is not modelled. */
    const updateInterval: real
    const eventProbability: real
    var sim: GBMSimulator?
    /** Whether the background task is live. */
    var running: bool
    /** Whether `Start` has been called; the interface allows it only once. */
    ghost var started: bool
    ghost var Repr: set<object>

    ghost predicate Valid()
      reads this, Repr
    {
      && this in Repr && cache in Repr
      && (sim != null ==> sim in Repr && sim.Repr <= Repr && cache !in sim.Repr)
      && Repr == {this, cache} + (if sim != null then sim.Repr else {})
      && cache.Valid()
      && (sim != null ==> sim.Valid())
      && (!started ==> sim == null && !running)
    }

    constructor (cache: PriceCache, updateInterval: real := 0.5, eventProbability: real := 0.001)
      requires cache.Valid()
      ensures Valid() && !started && sim == null && !running
      ensures this.cache == cache && this.updateInterval == updateInterval
      ensures this.eventProbability == eventProbability
    {
      this.cache := cache;
      this.updateInterval := updateInterval;
      this.eventProbability := eventProbability;
      sim := null;
      running := false;
      started := false;
      Repr := {this, cache};
    }

    /**
     * Builds the simulator over `tickers` and writes every listed ticker's starting price into
     * the cache, in list order and once per occurrence, before the loop starts.
     */
    method Start(tickers: seq<string>, draws: seq<real>, clock: real)
      requires Valid() && !started
      requires |draws| == |tickers|
      requires forall i :: 0 <= i < |draws| ==> 50.0 <= draws[i] <= 300.0
      modifies this, cache
      ensures Valid() && started && running && sim != null && fresh(Repr - old(Repr))
      ensures sim.tickers == Dedup(tickers) && SeededOrDrawn(sim.prices)
      ensures cache.prices == WriteAll(old(cache.prices), tickers, sim.prices, clock)
      ensures cache.version == old(cache.version) + |tickers|
    {
      var s := new GBMSimulator(tickers, draws, DefaultDt, eventProbability);
      sim := s;
      running := true;
      started := true;
      Repr := {this, cache} + s.Repr;
      Seed(tickers, clock);
    }

    /** Writes the simulator's current price of every ticker in `ts` into the cache, in order. */
    method Seed(ts: seq<string>, clock: real)
      requires Valid() && sim != null
      requires forall k :: 0 <= k < |ts| ==> ts[k] in sim.tickers
      modifies cache
      ensures Valid()
      ensures cache.prices == WriteAll(old(cache.prices), ts, sim.prices, clock)
      ensures cache.version == old(cache.version) + |ts|
    {
      WriteBatch(cache, ts, sim.prices, clock);
    }

    /** Cancels the background task. The simulator is kept, so later calls still reach the cache. */
    method Stop()
      requires Valid()
      modifies this`running
      ensures Valid() && !running
    {
      running := false;
    }

    /** Cancels the background task and drops the simulator, so nothing reaches the cache again. */
    method StopReleasing()
      requires Valid()
      modifies this`running, this`sim, this`Repr
      ensures Valid() && !running && sim == null
    {
      running := false;
      sim := null;
      Repr := {this, cache};
    }

    /**
     * Adds `ticker` to the simulator and writes its current price into the cache (even when it
     * was already tracked); does nothing before start.
     */
    method AddTicker(ticker: string, fallback: real, clock: real)
      requires Valid()
      requires 50.0 <= fallback <= 300.0
      modifies Repr
      ensures Valid() && sim == old(sim) && running == old(running) && started == old(started)
      ensures fresh(Repr - old(Repr))
      ensures old(sim) == null ==> cache.prices == old(cache.prices) && cache.version == old(cache.version)
      ensures old(sim) != null ==>
                && AddTickerContract(old(sim.tickers), sim.tickers, ticker)
                && ticker in sim.prices
                && cache.prices == Written(old(cache.prices), ticker, sim.prices[ticker], None, clock)
                && cache.version == old(cache.version) + 1
      ensures old(sim) != null && ticker in old(sim.prices) ==>
                sim.prices == old(sim.prices) && sim.params == old(sim.params)
      ensures old(sim) != null && ticker !in old(sim.prices) ==>
                && sim.prices == old(sim.prices)[ticker := SeedPriceFor(ticker, fallback)]
                && sim.params == old(sim.params)[ticker := ParamsFor(ticker)]
    {
      if sim != null {
        sim.AddTicker(ticker, fallback);
        Repr := {this, cache} + sim.Repr;
        var price := sim.GetPrice(ticker);
        if price.Some? {
          var _ := cache.Update(ticker, price.value, None, clock);
        } else {
          assert false;
        }
      }
    }

    /** Removes `ticker` from the simulator (when started) and always from the cache. */
    method RemoveTicker(ticker: string)
      requires Valid()
      modifies Repr
      ensures Valid() && sim == old(sim) && running == old(running) && started == old(started)
      ensures fresh(Repr - old(Repr))
      ensures cache.prices == old(cache.prices) - {ticker} && cache.version == old(cache.version)
      ensures old(sim) != null ==>
                RemoveTickerContract(old(sim.tickers), sim.tickers, ticker, cache.prices.Keys)
      ensures old(sim) != null ==>
                && sim.prices == old(sim.prices) - {ticker} && sim.params == old(sim.params) - {ticker}
                && (ticker in old(sim.prices) ==> sim.tickers == RemoveFirst(old(sim.tickers), ticker))
    {
      if sim != null {
        sim.RemoveTicker(ticker);
        Repr := {this, cache} + sim.Repr;
      }
      cache.Remove(ticker);
    }

    /** The simulator's tracked list, or empty before start. */
    method GetTickers() returns (ts: seq<string>)
      requires Valid()
      ensures sim == null ==> ts == []
      ensures sim != null ==> ts == sim.tickers && Distinct(ts)
    {
      ts := if sim != null then sim.tickers else [];
    }

    /**
     * One iteration of the background loop: step the simulator with the given draws and write
     * every stepped price, rounded to cents, into the cache in tracked order.
     */
    method Tick(growth: seq<real>, shocks: seq<Shock>, clock: real) returns (written: map<string, real>)
      requires Valid() && running
      requires sim != null ==> |growth| == |sim.tickers| && |shocks| == |sim.tickers|
      requires sim != null ==>
                 forall i :: 0 <= i < |sim.tickers| ==> growth[i] > 0.0 && ValidShock(shocks[i])
      modifies Repr
      ensures Valid() && sim == old(sim) && running == old(running) && started == old(started)
      ensures fresh(Repr - old(Repr))
      ensures sim == null ==> written == map[] && cache.prices == old(cache.prices)
                              && cache.version == old(cache.version)
      ensures sim != null ==>
                && sim.tickers == old(sim.tickers) && sim.params == old(sim.params)
                && (forall t :: t in written <==> t in sim.tickers)
                && (forall i :: 0 <= i < |sim.tickers| ==>
                      && sim.prices[sim.tickers[i]]
                           == Advance(old(sim.prices)[sim.tickers[i]], growth[i], shocks[i])
                      && written[sim.tickers[i]] == Round2(sim.prices[sim.tickers[i]]))
                && cache.prices == WriteAll(old(cache.prices), sim.tickers, written, clock)
                && cache.version == old(cache.version) + |sim.tickers|
    {
      written := map[];
      if sim == null {
        return;
      }
      var s := sim;
      written := s.Step(growth, shocks);
      assert s.params == old(s.params) && s.Repr == old(s.Repr);
      ghost var ts, before := s.tickers, cache.prices;
      assert before == old(cache.prices);
      WriteBatch(cache, s.tickers, written, clock);
      assert cache.prices == WriteAll(before, ts, written, clock) && s.tickers == ts;
      assert Repr == old(Repr) && s.Valid();
    }
  }

  /**
   * As written, `stop` keeps the simulator, so a ticker added after it is still priced and
   * written into the cache, although a stopped source should not write to the cache again.
   */
  method AddAfterStopWrites(source: SimulatorDataSource, ticker: string, fallback: real, clock: real)
    requires source.Valid() && source.sim != null && 50.0 <= fallback <= 300.0
    modifies source.Repr
    ensures !source.running && ticker in source.cache.prices
    ensures source.cache.version == old(source.cache.version) + 1
  {
    source.Stop();
    source.AddTicker(ticker, fallback, clock);
  }

  /** With the simulator released on stop, adding a ticker afterwards leaves the cache untouched. */
  method AddAfterStopReleasingWritesNothing(source: SimulatorDataSource, ticker: string,
                                            fallback: real, clock: real)
    requires source.Valid() && 50.0 <= fallback <= 300.0
    modifies source.Repr
    ensures !source.running && source.sim == null
    ensures source.cache.prices == old(source.cache.prices)
    ensures source.cache.version == old(source.cache.version)
  {
    source.StopReleasing();
    source.AddTicker(ticker, fallback, clock);
  }
}
