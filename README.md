# Market data core, modelled in Dafny

This project models the market-data layer of a trading backend. The layer has these parts:

- **Price snapshot.** `PriceUpdate` is an immutable value with derived `change`, `change_percent`, `direction` and `to_dict`.
- **Shared price cache.** It holds the latest snapshot per ticker and a version counter.
- **Seed tables.** These give starting prices, drift and volatility parameters, and correlation groups.
- **Two data sources that write into the cache.**
  - A geometric-Brownian-motion simulator (`GBMSimulator`), wrapped by `SimulatorDataSource`.
  - A poller of a REST snapshot endpoint (`MassiveDataSource`).
- **Factory.** It picks one of the two sources from an API key.
- **Change-detection loop.** It feeds a server-sent-events stream.
- **Data-source interface.** Both sources follow it.

Each Python module is modelled by one Dafny module:

| Dafny file | module | models | form |
|---|---|---|---|
| `models.dfy` | `Models` | `models.py` | datatype with functions; half-even rounding on exact reals |
| `cache.dfy` | `Cache` | `cache.py` | `class PriceCache` with a `map` field and a `nat` version, and spec functions `Written` and `WriteAll` |
| `seed_prices.dfy` | `SeedTables` | `seed_prices.py` | constant maps and sets |
| `interface.dfy` | `MarketInterface` | `interface.py` | contract predicates that each source's methods ensure |
| `simulator.dfy` | `Simulator` | `simulator.py` | pure correlation rule; `class GBMSimulator` and `class SimulatorDataSource` with loops and an `array2` matrix |
| `massive_client.dfy` | `MassiveClient` | `massive_client.py` | `class MassiveDataSource`; a poll loop specified by `ApplySnapshots` |
| `stream.dfy` | `Stream` | `stream.py` | a `while` loop over a trace of observations, specified by `Emissions` |
| `factory.dfy` | `Factory` | `factory.py` | a pure choice plus a constructor-calling method |
| `text.dfy` | `Text` | `str.strip()` and `str.upper()` | stripping over Python's whitespace set; upper-casing of ASCII letters |
| `wrappers.dfy` | `Wrappers` | `None` | `Option` |

### Modelling choices

**Numbers**
- Prices and times are exact `real`s.
- Python's `round(x, n)` rounds half to even. It is modelled by `Models.Round2` and `Models.Round4` on the exact value.

**Inputs that replace outside calls**
- Every call to the clock, the random number generator, `math.exp` or the REST client becomes an input.
- Cache writes take a `clock` reading. It is used when no timestamp is given or the timestamp is `0.0`, because `timestamp or time.time()` treats 0 as falsy.
- A simulator tick takes one positive growth factor per ticker, standing in for `exp(drift + diffusion)`.
- A tick also takes one `Shock` per ticker: none, or a magnitude in [0.02, 0.05] with a sign of ±1.
- `random.uniform(50, 300)` is a `fallback`/`draws` argument.
- A poll takes the fetch outcome: `None` when the REST call raised.
- The stream loop takes the observations it makes on each iteration:
  - whether the client is gone;
  - the cache version;
  - the cache contents.

**Where this model follows the code**
- The simulator keeps its internal price unrounded. Only `step`'s result is rounded to cents (`simulator.py:101-116`). The model keeps it that way.
- `PriceCache.remove` does not bump the version (`cache.py:59-62`). A consequence is `Stream.RemovalNotStreamed`: a removal is not streamed until the next write.
- `SimulatorDataSource.add_ticker` on an already-tracked ticker still writes its price to the cache again (`simulator.py:238-244`).
- `MassiveDataSource.start` takes its ticker list as given, without normalising it (`massive_client.py:45`). `add_ticker` and `remove_ticker` do normalise.
- The comment at `simulator.py:184` says TSLA is in the tech set, but `seed_prices.py:39` does not list it. TSLA's coefficient equals the cross-group one, so the TSLA test at `simulator.py:185` changes no result. `Simulator.TslaTestRedundant` proves this.
- `interface.py:30` calls a second `start` undefined. Both sources' `Start` therefore require a ghost `started` flag to be false.

## Model

| member | source | states |
|---|---|---|
| Models.Round2 | backend/app/market/cache.py:36-37 | the result is a whole number of cents within half a cent of the input; it equals the input when that already is whole cents; it keeps the sign of a non-negative input, and stays positive for an input above half a cent |
| Models.Round4 | backend/app/market/models.py:21 | the result has at most 4 decimal places, is within half a unit in the 4th place of the input, and is the input itself when the input has at most 4 places |
| Models.Round4ExactOnCents | backend/app/market/models.py:21 | rounding to 4 places leaves the difference of two whole-cent prices exactly as it is |
| Models.PriceUpdate.Change | backend/app/market/models.py:19-21 | the change has at most 4 decimal places and is `price - previous_price` to within half a unit in the 4th place |
| Models.PriceUpdate.ChangePercent | backend/app/market/models.py:24-28 | 0 when the previous price is 0; otherwise the relative change times 100, to within half a unit in the 4th place; always at most 4 decimal places |
| Models.PriceUpdate.Direction | backend/app/market/models.py:31-37 | "up" iff price > previous, "down" iff price < previous, "flat" iff equal; exactly one holds |
| Models.PriceUpdate.ToDict | backend/app/market/models.py:39-49 | exactly the seven keys, each carrying the matching field or derived value |
| Models.ChangeExactOnCents | backend/app/market/models.py:19-37 | for whole-cent prices (all cached prices), `change` is the exact difference and its sign agrees with `direction` |
| Models.UnchangedPriceIsFlat | backend/app/market/models.py:19-37 | equal prices give change 0, change percent 0 and direction "flat" |
| Models.ChangeExamples | backend/app/market/models.py:19-28 | the worked values: +0.5, -0.5, 90%, -50%, 0% on a zero previous price, and 0.2632% |
| Cache.EffectiveTimestamp | backend/app/market/cache.py:30 | the given timestamp when it is present and non-zero; otherwise the clock |
| Cache.NewSnapshot | backend/app/market/cache.py:31-39 | the snapshot is for the ticker, with the rounded price and the effective timestamp; both prices are whole cents |
| Cache.Written | backend/app/market/cache.py:40 | the keys are the old keys plus the ticker; the ticker maps to the new snapshot; every other ticker is unchanged |
| Cache.WrittenWellFormed | backend/app/market/cache.py:23-42 | a write keeps every entry under its own ticker with whole-cent prices |
| Cache.FirstUpdateIsFlat | backend/app/market/cache.py:27-32 | on a ticker's first write the previous price equals the price, the direction is "flat" and the change is 0 |
| Cache.LaterUpdateComparesWithStored | backend/app/market/cache.py:31-37 | on a later write the previous price is the price stored just before; direction and change compare the new rounded price with it |
| Cache.FlatIffUnchanged | backend/app/market/cache.py:31-37 | a write is "flat" iff the ticker was not cached or its stored price equals the new rounded price |
| Cache.PriceCache.constructor | backend/app/market/cache.py:18-21 | the cache starts empty at version 0 |
| Cache.PriceCache.Update | backend/app/market/cache.py:23-42 | returns the new snapshot; the map becomes `Written(old map, ...)`; the version grows by exactly one |
| Cache.PriceCache.Get | backend/app/market/cache.py:44-47 | Some(the stored snapshot) iff the ticker is cached, otherwise None |
| Cache.PriceCache.GetAll | backend/app/market/cache.py:49-52 | a copy with the same keys and the same snapshots |
| Cache.PriceCache.GetPrice | backend/app/market/cache.py:54-57 | Some(the stored price) iff the ticker is cached, otherwise None |
| Cache.PriceCache.Remove | backend/app/market/cache.py:59-62 | the ticker is gone, everything else stays, and the version is unchanged |
| Cache.PriceCache.Len | backend/app/market/cache.py:69-71 | the number of cached tickers |
| Cache.PriceCache.Contains | backend/app/market/cache.py:73-75 | true iff the ticker is cached |
| Cache.UpdateThenGet | backend/app/market/cache.py:23-47 | a write then a read gives back the written snapshot (190.12345 stored as 190.12, flat); two writes give version 2 |
| Cache.WriteAll | backend/app/market/simulator.py:221-224 | a batch write keeps the old keys, adds the batch's tickers, and leaves tickers outside the batch unchanged |
| Cache.WriteAllWritten | backend/app/market/simulator.py:221-224 | after a batch, each written ticker holds its rounded value stamped with the clock; a ticker new to the cache is flat |
| Cache.WriteAllPrevious | backend/app/market/simulator.py:261-263 | in a batch without repeats, a ticker cached before records its pre-batch price as the previous price |
| Cache.WriteBatch | backend/app/market/simulator.py:261-263 | the loop of writes leaves the map at `WriteAll(old map, batch)` and raises the version by the batch length |
| SeedTables.ParamsFor | backend/app/market/simulator.py:148 | an unlisted ticker gets the default parameters; sigma is always positive |
| SeedTables.ParamsForListed | backend/app/market/simulator.py:148 | a listed ticker gets exactly its row of the parameter table |
| SeedTables.TablesAgree | backend/app/market/seed_prices.py:4-31 | the seed-price table and the parameter table list the same tickers |
| SeedTables.TableIsPositive | backend/app/market/seed_prices.py:4-34 | every seed price and every sigma is positive; the defaults are sigma 0.25 and mu 0.05 |
| SeedTables.GroupsDisjointWithoutTsla | backend/app/market/seed_prices.py:38-41 | the two groups are "tech" and "finance"; they are disjoint and neither contains TSLA |
| SeedTables.CoefficientsInRange | backend/app/market/seed_prices.py:44-48 | 0 < cross-group < finance < tech < 1; the cross-group, TSLA and default coefficients are all 0.3 |
| Simulator.PairwiseCorrelation | backend/app/market/simulator.py:171-193 | the coefficient is strictly between 0 and 1 |
| Simulator.CorrelationRule | backend/app/market/simulator.py:181-193 | 0.6 iff both tickers are tech; 0.5 iff both are finance; 0.3 iff neither; 0.3 whenever TSLA is involved |
| Simulator.CorrelationSymmetric | backend/app/market/simulator.py:164-166 | the pair rule is symmetric in its two tickers |
| Simulator.TslaTestRedundant | backend/app/market/simulator.py:184-186 | the rule equals group membership alone, so the TSLA test changes no result |
| Simulator.CorrelationEntry | backend/app/market/simulator.py:161-166 | a matrix entry is in (0, 1] and is 1 on the diagonal |
| Simulator.CorrelationMatrix | backend/app/market/simulator.py:155-166 | an n×n matrix whose entries are the pair rule, symmetric, with a unit diagonal and off-diagonal entries in (0, 1) |
| Simulator.Dedup | backend/app/market/simulator.py:68-69 | the result has no repeats and holds exactly the input's tickers |
| Simulator.DedupPrefix | backend/app/market/simulator.py:144-146 | deduplicating one more ticker appends it iff it is new |
| Simulator.IndexOf | backend/app/market/simulator.py:131 | the first position of the ticker |
| Simulator.RemoveFirst | backend/app/market/simulator.py:131 | `list.remove`: the list without its first occurrence of the ticker |
| Simulator.RemoveFirstDistinct | backend/app/market/simulator.py:131 | on a list without repeats, removal keeps it repeat-free and drops exactly that ticker |
| Simulator.RemoveFirstAt | backend/app/market/simulator.py:131 | removal shifts later entries down by one and keeps earlier ones in place |
| Simulator.ShockFactor | backend/app/market/simulator.py:104-108 | the shock multiplier `1 + magnitude * sign` lies in [0.95, 1.05] |
| Simulator.Advance | backend/app/market/simulator.py:101-108 | a positive price stays strictly positive after a tick |
| Simulator.AdvanceBounds | backend/app/market/simulator.py:101-108 | a tick gives the growth-scaled price, times at most 5% up or down when a shock fires, and exactly the growth-scaled price otherwise |
| Simulator.SeedPriceFor | backend/app/market/simulator.py:147 | the seed price when the ticker has one, otherwise the uniform draw; always positive |
| Simulator.AdvanceAll | backend/app/market/simulator.py:93-118 | each listed ticker advances and its result is rounded to cents; other prices are untouched and the keys stay the same |
| Simulator.ParamsFromTableKept | backend/app/market/simulator.py:133-148 | adding a ticker with its table parameters, or removing one, keeps every ticker's parameters those of the table |
| Simulator.AddKeepsTracking | backend/app/market/simulator.py:145-148 | appending a new ticker with a positive price keeps the list repeat-free, with the same key set as both maps |
| Simulator.RemoveKeepsTracking | backend/app/market/simulator.py:129-133 | removing a tracked ticker from the list and both maps keeps them consistent |
| Simulator.SeededOrDrawnAdd | backend/app/market/simulator.py:147 | every starting price is still the seed price, or a draw in [50, 300] when there is no seed |
| Simulator.DefaultDtSmall | backend/app/market/simulator.py:47-48 | the default time step, 0.5 s over a 252-day, 6.5-hour trading year, lies between 8.4e-8 and 8.5e-8 (the commented ~8.48e-8) |
| Simulator.GBMSimulator.constructor | backend/app/market/simulator.py:50-70 | tracks the de-duplicated initial tickers in order, with seeded or drawn prices and table parameters; the matrix is null iff at most one ticker is tracked |
| Simulator.GBMSimulator.AddTickerInternal | backend/app/market/simulator.py:142-148 | no-op when tracked; otherwise appends the ticker and adds its starting price and parameters |
| Simulator.GBMSimulator.RebuildCorrelation | backend/app/market/simulator.py:150-168 | restores the invariant: the matrix of the current tickers, or null for fewer than two; the footprint apart from the simulator itself is fresh |
| Simulator.GBMSimulator.Step | backend/app/market/simulator.py:74-118 | empty result with no tickers; otherwise the result's keys are exactly the tickers; each price advances and each result is the rounded new price |
| Simulator.GBMSimulator.AddTicker | backend/app/market/simulator.py:120-125 | the interface's add contract; no-op when tracked; otherwise the seed or drawn price and the table or default parameters; only fresh objects join the footprint |
| Simulator.GBMSimulator.RemoveTicker | backend/app/market/simulator.py:127-134 | no-op when untracked; otherwise the first occurrence leaves the list and the ticker leaves both maps; only fresh objects join the footprint |
| Simulator.GBMSimulator.GetPrice | backend/app/market/simulator.py:136-138 | Some(a positive price) iff the ticker is tracked |
| Simulator.SimulatorDataSource.constructor | backend/app/market/simulator.py:203-213 | unstarted, with no simulator, on the given cache and settings |
| Simulator.SimulatorDataSource.Start | backend/app/market/simulator.py:215-226 | builds the simulator on the de-duplicated tickers, then seeds the cache with every initial ticker's price (`WriteAll`); running afterwards, and only fresh objects join the footprint |
| Simulator.SimulatorDataSource.Seed | backend/app/market/simulator.py:220-224 | writes each listed ticker's simulator price into the cache in order |
| Simulator.SimulatorDataSource.Stop | backend/app/market/simulator.py:228-236 | not running afterwards and still valid, so it can be called again; the simulator is kept (see Findings) |
| Simulator.SimulatorDataSource.StopReleasing | backend/app/market/interface.py:34-38 | corrected stop: also drops the simulator |
| Simulator.SimulatorDataSource.AddTicker | backend/app/market/simulator.py:238-245 | without a simulator nothing changes; otherwise the interface's add contract, the simulator's prices and parameters gain the ticker's seed price and parameters when it was new (and are unchanged when it was tracked), and the ticker's price is written to the cache; `started` and `running` are unchanged and only fresh objects join the footprint |
| Simulator.SimulatorDataSource.RemoveTicker | backend/app/market/simulator.py:247-251 | the ticker always leaves the cache (version unchanged); with a simulator it leaves the tracked list under the interface's remove contract (its first occurrence removed when tracked) and leaves the simulator's prices and parameters; `started` and `running` are unchanged and only fresh objects join the footprint |
| Simulator.SimulatorDataSource.GetTickers | backend/app/market/simulator.py:253-254 | [] before start; otherwise the simulator's list, without repeats |
| Simulator.SimulatorDataSource.Tick | backend/app/market/simulator.py:256-266 | one loop iteration, only while running: a step, then its rounded results written to the cache in ticker order; the simulator's ticker list and parameters are unchanged, `started` is unchanged and only fresh objects join the footprint; nothing without a simulator |
| Simulator.AddAfterStopWrites | backend/app/market/simulator.py:228-245 | after `Stop`, `AddTicker` still writes the cache (version + 1) |
| Simulator.AddAfterStopReleasingWritesNothing | backend/app/market/interface.py:37-38 | after `StopReleasing`, `AddTicker` leaves the cache and its version unchanged |
| MarketInterface.AddTickerContract | backend/app/market/interface.py:42-46 | holds exactly when the list is unchanged for a tracked ticker and gains the ticker at its end otherwise; the ticker is then tracked and nothing is lost |
| MarketInterface.RemoveTickerContract | backend/app/market/interface.py:49-53 | when it holds, the tracked list afterwards holds exactly the earlier tickers other than this one, is unchanged for an untracked ticker, and the cache no longer holds the ticker |
| Text.StripLeft | backend/app/market/factory.py:22 | the result is a suffix of the input, everything dropped is whitespace, and it does not start with whitespace |
| Text.StripRight | backend/app/market/factory.py:22 | the result is a prefix of the input, everything dropped is whitespace, and it does not end with whitespace |
| Text.Strip | backend/app/market/factory.py:22 | the result is the input with its leading and trailing whitespace cut off (`TrimmedAt`: a slice of the input with only whitespace before and after it) and neither starts nor ends with whitespace |
| Text.UpperChar | backend/app/market/massive_client.py:69 | the upper-cased character is no lower-case ASCII letter, and is whitespace exactly when the input is |
| Text.Upper | backend/app/market/massive_client.py:69 | the result has the input's length, each character is the upper-cased input character, and no lower-case ASCII letter remains |
| Text.StripEmptyIff | backend/app/market/factory.py:22 | stripping gives "" iff every character is whitespace |
| Text.StripIdempotent | backend/app/market/factory.py:22 | a stripped string has no whitespace at either end, and stripping it again changes nothing |
| Text.UpperIdempotent | backend/app/market/massive_client.py:69 | upper-casing twice is upper-casing once |
| Text.StripLeftUpper | backend/app/market/massive_client.py:69 | left-stripping commutes with upper-casing |
| Text.StripRightUpper | backend/app/market/massive_client.py:69 | right-stripping commutes with upper-casing |
| MassiveClient.TradeSeconds | backend/app/market/massive_client.py:104-105 | seconds times 1000 are the trade's milliseconds |
| MassiveClient.Normalize | backend/app/market/massive_client.py:69 | the normalised ticker is the upper-cased stripped input (`Upper(Strip(ticker))`); it is no longer than the input, has no whitespace at either end and no lower-case ASCII letter |
| MassiveClient.ApplySnapshots | backend/app/market/massive_client.py:100-117 | a poll only adds tickers to the cache, and keeps a well-formed cache well formed |
| MassiveClient.UpperStripCommute | backend/app/market/massive_client.py:69 | upper-then-strip equals strip-then-upper |
| MassiveClient.NormalizeIdempotent | backend/app/market/massive_client.py:69-75 | a normalised ticker normalises to itself |
| MassiveClient.ApplySnapshotsKeys | backend/app/market/massive_client.py:101-117 | after a poll the cache holds the old tickers plus exactly the tickers of usable records |
| MassiveClient.UsableCount | backend/app/market/massive_client.py:100-111 | the processed count never exceeds the number of records |
| MassiveClient.UnusableSkipped | backend/app/market/massive_client.py:112-117 | a batch of malformed records leaves the cache as it was and counts nothing |
| MassiveClient.LastUsableWins | backend/app/market/massive_client.py:101-111 | a ticker's last usable record fixes its cached price (rounded) and its timestamp (ms / 1000, or the clock when 0) |
| MassiveClient.UnusableInvisible | backend/app/market/massive_client.py:101-117 | a malformed record anywhere in the batch changes nothing: the others are written as without it |
| MassiveClient.Without | backend/app/market/massive_client.py:76 | holds exactly the other tickers; unchanged when the ticker is absent |
| MassiveClient.WithoutAppend | backend/app/market/massive_client.py:76 | filtering distributes over concatenation, so the order of the rest is kept |
| MassiveClient.MassiveDataSource.constructor | backend/app/market/massive_client.py:26-37 | no client, no task, empty list; key, cache and interval (15 s by default) as given |
| MassiveClient.MassiveDataSource.Start | backend/app/market/massive_client.py:39-55 | takes a client and the list as given, polls once at once (`ApplySnapshots` of the fetch, or nothing), then runs |
| MassiveClient.MassiveDataSource.Stop | backend/app/market/massive_client.py:57-66 | no task and no client afterwards; callable again |
| MassiveClient.MassiveDataSource.AddTicker | backend/app/market/massive_client.py:68-72 | the interface's add contract for the normalised ticker; appended iff new |
| MassiveClient.MassiveDataSource.RemoveTicker | backend/app/market/massive_client.py:74-78 | every occurrence of the normalised ticker leaves the list (order kept) and the cache, under the interface's remove contract |
| MassiveClient.MassiveDataSource.GetTickers | backend/app/market/massive_client.py:80-81 | the list in insertion order |
| MassiveClient.MassiveDataSource.PollOnce | backend/app/market/massive_client.py:91-123 | nothing without tickers, without a client, or on a failed fetch; otherwise the cache becomes `ApplySnapshots` of the records, the processed count is `UsableCount`, and the version grows by that count |
| Stream.PayloadOf | backend/app/market/stream.py:81 | the payload has exactly the cached tickers; each entry is that snapshot's serialised dictionary, with the seven keys and the snapshot's ticker and price |
| Stream.Emitted | backend/app/market/stream.py:75-83 | an iteration emits at most one event, and emits iff the version moved and the cache is non-empty |
| Stream.Emissions | backend/app/market/stream.py:67-86 | at most one event per iteration |
| Stream.GenerateEvents | backend/app/market/stream.py:51-86 | the retry directive first, then exactly the events `Emissions` gives from the sentinel -1 |
| Stream.FirstLiveIterationEmits | backend/app/market/stream.py:64-83 | the first iteration emits the cache's payload if the client is connected and the cache is non-empty |
| Stream.UnchangedVersionSilent | backend/app/market/stream.py:75-76 | while the version equals the last one seen, nothing is emitted |
| Stream.RemovalNotStreamed | backend/app/market/stream.py:75-83 | after the first iteration, iterations at the same version emit nothing more, whatever the cache holds |
| Stream.EmptyCacheSilent | backend/app/market/stream.py:77-83 | a cache that stays empty is never streamed, even when its version moves |
| Stream.DisconnectEnds | backend/app/market/stream.py:69-73 | nothing observed after a disconnect affects the output |
| Factory.ChooseSource | backend/app/market/factory.py:22-33 | the polled source iff the stripped key is non-empty, carrying that stripped key |
| Factory.WhitespaceKeyChoosesSimulator | backend/app/market/factory.py:22-33 | an unset, empty or all-whitespace key selects the simulator |
| Factory.KeyChoosesPolled | backend/app/market/factory.py:22-28 | a key with a non-whitespace character selects the polled source, and its key has no surrounding whitespace |
| Factory.CreateMarketDataSource | backend/app/market/factory.py:14-33 | a fresh, unstarted source of the chosen kind on the very cache passed in, with its default settings |

## Left out

**Floating point and numpy**
- Floating-point representation: prices are exact reals, so binary rounding effects such as `round(2.675, 2)` giving 2.67 are not modelled.
- The GBM arithmetic (`math.exp`, `math.sqrt`, drift and diffusion): each tick takes a positive growth factor per ticker instead.
- The Cholesky factorisation and `np.random.standard_normal`: the model builds and keeps the correlation matrix that would be factorised, and stores it where `_cholesky` is kept.

**Randomness**
- `random.random`, `random.uniform` and `random.choice` are not modelled. Their outcomes are the `Shock` and `fallback`/`draws` arguments, and event probability is not modelled.

**Concurrency and the outside world**
- asyncio tasks, `sleep`, cancellation and the endless `_run_loop` and `_poll_loop`:
  - a `running` flag stands for the task;
  - `SimulatorDataSource.Tick` models one iteration of `_run_loop`;
  - `MassiveDataSource.PollOnce` models one poll.
- The exception handler around a whole simulator step (`simulator.py:264-265`): nothing in the modelled step raises.
- The cache `Lock` and thread hops: the model is sequential.
- The REST client and its lazy import (`massive_client.py:42-44`), and `_fetch_snapshots` (`massive_client.py:125-132`): the fetch outcome is an input.
- The FastAPI router, `StreamingResponse`, headers, the client IP and `request.is_disconnected` (`stream.py:17-48`): the loop's observations are an input.
- The text framing of the events (`data: ...\n\n`) and `json.dumps`: payloads are maps.
- `os.environ`: the key is an `Option<string>`.
- Logging, including the `processed` count, which is only logged; the model returns it.

**Representation limits**
- `str.strip()` is modelled over Python's full whitespace set. `str.upper()` is modelled for ASCII letters only: non-ASCII case mapping, including mappings that change the length such as `'ß'.upper() == 'SS'`, is not.
- A snapshot record whose ticker is `None`: the model's records always carry a ticker string.
- MassiveClient.MassiveDataSource.PollOnce: a poll is modelled with one clock reading for the whole batch.
- Cache.WriteBatch: a batch is modelled with one clock reading for the whole batch.

**Weaker contracts**
- Simulator.SimulatorDataSource.Start does not restate, in its own postcondition, that every parameter comes from the table. `GBMSimulator`'s constructor ensures this, and `ParamsFromTableKept` keeps it across add and remove.
- Simulator.GBMSimulator.AddTicker does not restate that every parameter comes from the table; this keeps its proof small. `ParamsFromTableKept` carries the fact.
- Simulator.GBMSimulator.RemoveTicker does not restate that every parameter comes from the table, for the same reason.

## Findings

| source | as written | input that shows it | evidently intended | confidence | as-written member | corrected member |
|---|---|---|---|---|---|---|
| backend/app/market/simulator.py:228-245 | `stop` cancels the task but keeps `_sim`, and `add_ticker` writes the cache whenever `_sim` is set | `start(["AAPL"])`, `stop()`, `add_ticker("TSLA")`: TSLA is written to the cache after stop | after `stop()` the source never writes to the cache again (`interface.py:37-38`) | not executed | Simulator.AddAfterStopWrites | Simulator.AddAfterStopReleasingWritesNothing |
