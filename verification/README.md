# Verified model of the currency converter's caching backend

The backend answers three requests about currencies from frankfurter.dev: the list of currencies,
a conversion at the latest rate, and the history of a rate over a range of dates. Each service asks
a cache first, the provider on a miss, and stores what the provider answered. The cache bounds both
age and number: a linked list in recency order, an index from key to list node, and a background
thread that sweeps out what has expired. This project models that cache, the services over it run
one at a time and run concurrently, and the keys, dates and series they rest on, and proves what
they keep over whole runs.

- `CacheSpec.dfy`: the cache on sequences of entries: `Get`, `Put`, `Sweep`.
- `LinkedList.dfy`, `LinkedCache.dfy`: the cache as it is built, with linked nodes and an index of
  node references, proved equal to `CacheSpec` operation by operation. The clock is read afresh for
  every entry a sweep looks at.
- `CacheRuns.dfy`, `Retention.dfy`, `Inclusion.dfy`, `AmpleCapacity.dfy`, `Pressure.dfy`,
  `EvictionOrder.dfy`, `Visibility.dfy`, `RateBound.dfy`, `Residence.dfy`: theorems about all runs of
  the cache, some relating two runs. The linked cache keeps the run of its operations as ghost state,
  so they are theorems about it.
- `Sweeper.dfy`: the sweeper thread and the destructor as a state machine over both mutexes, the
  flag and a condition variable whose notification can be lost.
- `Text.dfy`, `Dates.dfy`, `Keys.dfy`, `Series.dfy`, `Domain.dfy`: upper-casing, the order of dates,
  cache keys, and the normalisation of a history reply.
- `Protocol.dfy`, `Concurrent.dfy`: the three services as one protocol of lookup, fetch and store,
  run by any number of requests at once, interleaved with the single steps of the sweeps and with
  the clock. `CacheTraces.dfy`: each of its caches goes through a run of plain cache operations.
- `Provenance.dfy`, `Transparency.dfy`, `Clash.dfy`, `Accounting.dfy`, `Spacing.dfy`,
  `SweepRuns.dfy`, `Requests.dfy`: what holds in every reachable state of it, and what the requests answer.
- `Services.dfy`: the services as classes over the linked caches, each call running alone.

Where the code and its documents differ, the model follows the code:

- docs/task.md:39 asks that the oldest entry be deleted when the capacity is exceeded; the cache
  deletes the least recently used one. `EvictionOrder.OldestIsExact` says for which limits and keys
  the two are the same in all runs.
- docs/architecture.md:178-181 has the sweeper derive its interval from the maximum age; the interval
  is never below one minute, so entries stay for at most one and a half maximum ages exactly if that
  age is two minutes or more (`Residence.OneAndAHalfIsExact`).
- docs/api.md:134-138 has the latest selectable date resolved once; the code takes today anew for
  each request.
- docs/task.md:34-35 promises that a repeated query is served the cached data for that query. Keys
  are built by joining codes with a bar, so this fails for codes that run together, such as A|B with
  C and A with B|C. `Clash.TransparencyIsExact` proves it for all other catalogs, and only for them.

Times are integer ticks of a clock that never goes back; amounts and rates are reals.

## Model

| member | source | states |
|---|---|---|
| LinkedList.List.Erase | backend/src/cache/TimeAndSizeBoundedCache.h:69 | a node leaves the ring and every other node keeps its place and its identity |
| LinkedList.List.Splice | backend/src/cache/TimeAndSizeBoundedCache.h:73 | the same node moves to the front; the order of the others is kept |
| LinkedCache.TimeAndSizeBoundedCache.Create | backend/src/cache/TimeAndSizeBoundedCache.h:37-46 | a cache is built, empty and with an empty recorded run, exactly when the capacity is not zero |
| LinkedCache.AgreeLookup | backend/src/cache/TimeAndSizeBoundedCache.h:61-65 | when list and index agree, keys are distinct and the index finds the node a search of the list would |
| LinkedCache.AgreeMove | backend/src/cache/TimeAndSizeBoundedCache.h:73 | moving a node to the front needs no change of the index and moves exactly its entry |
| LinkedCache.TimeAndSizeBoundedCache.Drop | backend/src/cache/TimeAndSizeBoundedCache.h:69-70 | a node and its key leave list and index together |
| LinkedCache.TimeAndSizeBoundedCache.Get | backend/src/cache/TimeAndSizeBoundedCache.h:59-75 | the linked get equals the specified one and is added to the recorded run; a hit leaves every handle as it was; the clock is read only if the key is present |
| LinkedCache.TimeAndSizeBoundedCache.Put | backend/src/cache/TimeAndSizeBoundedCache.h:77-96 | the linked put equals the specified one and is added to the recorded run, the capacity is kept, handles of other keys are not replaced |
| LinkedCache.TimeAndSizeBoundedCache.Examine | backend/src/cache/TimeAndSizeBoundedCache.h:126-135 | list and index agree in the middle of a sweep, which has kept exactly the nodes found live |
| LinkedCache.TimeAndSizeBoundedCache.SweepExpired | backend/src/cache/TimeAndSizeBoundedCache.h:124-137 | the sweep ends, having removed exactly the entries expired at their own reading of the clock, in unchanged order, and is added to the recorded run |
| LinkedCache.RecordsOn | backend/src/cache/TimeAndSizeBoundedCache.h:59-137 | if the entries are what the run of the operations so far leaves, then so they are after one more get, put or sweep |
| CacheRuns.RunGood | backend/src/cache/TimeAndSizeBoundedCache.h:59-96 | every run keeps keys distinct and the size within the capacity |
| CacheRuns.SweepByKey | backend/src/cache/TimeAndSizeBoundedCache.h:124-137 | a sweep with one reading per entry is a sweep by key with readings between its start and its end |
| CacheRuns.SweepExact | backend/src/cache/TimeAndSizeBoundedCache.h:124-137 | a sweep leaves nothing that had expired when it began and removes nothing that is live when it ends |
| CacheRuns.RunOrdered | backend/src/cache/TimeAndSizeBoundedCache.h:73-85 | after every run the list is strictly decreasing in the time of the last put or hit |
| CacheRuns.LruVictim | backend/src/cache/TimeAndSizeBoundedCache.h:85-95 | a put gives up a key exactly on overflow, then one key: the one touched longest ago, never the one put |
| Retention.Retained | backend/src/cache/TimeAndSizeBoundedCache.h:73-95 | a key put or hit stays with its value while it is young enough and fewer than maxElements others are touched |
| Retention.RunBalanced | backend/src/cache/TimeAndSizeBoundedCache.h:65-95 | entries put are entries listed plus those overwritten, evicted, expired on access and swept, as multisets |
| Retention.EntriesConserved | backend/src/cache/TimeAndSizeBoundedCache.h:65-95 | from the empty cache, after every run, each entry put is listed or has left the cache in one of these four ways, once |
| Retention.WaysOfLeaving | backend/src/cache/TimeAndSizeBoundedCache.h:65-95 | an entry is overwritten by a put of its key, evicted by a put that gives its key up, dropped by a get that finds it expired or by a sweep that does, and counted so exactly then |
| Inclusion.RunIncluded | backend/src/cache/TimeAndSizeBoundedCache.h:59-96 | under one run, the smaller cache's list stays a subsequence of the larger one's, sizes at most m - n apart |
| Inclusion.MoreCapacityKeepsHits | backend/src/cache/TimeAndSizeBoundedCache.h:59-75 | every hit of the smaller cache is a hit of the larger one with the same value |
| AmpleCapacity.NeverStale | backend/src/cache/TimeAndSizeBoundedCache.h:65-74 | whatever the run and the capacity, an answer is the last value put under the key and not older than maxAge |
| AmpleCapacity.OnlyPutsMatter | backend/src/cache/TimeAndSizeBoundedCache.h:59-96 | with ample capacity, runs that differ only in gets and sweeps answer alike |
| AmpleCapacity.CapacityIsExact | backend/src/cache/TimeAndSizeBoundedCache.h:88-95 | over a set of keys the cache answers as a map of last puts on all runs if and only if the capacity covers the set, or maxAge is negative |
| EvictionOrder.HitKeepsOrder | backend/src/cache/TimeAndSizeBoundedCache.h:73 | a hit keeps the list in order of age if and only if the entry hit is as young as the front one |
| EvictionOrder.OldestIsExact | backend/src/cache/TimeAndSizeBoundedCache.h:73-95 | over a set of keys, in all runs, a put gives up nothing younger than what it keeps if and only if the capacity covers the set or is one, or maxAge is not positive |
| Visibility.SweepsUnseenIsExact | backend/src/cache/TimeAndSizeBoundedCache.h:88-137 | over a set of keys, no run shows in an answer whether its sweeps took place, if and only if the capacity covers the set or is one, or maxAge is not positive |
| Visibility.LongerAgeIsExact | backend/src/cache/TimeAndSizeBoundedCache.h:59-107 | raising maxAge keeps every hit of every run over a set of keys if and only if the capacity covers the set or is one, or the shorter maxAge is negative |
| RateBound.TurnExact | backend/src/application/HistoryService.cpp:46-58 | a lookup that misses and stores puts its key more than maxAge after the key's last put |
| RateBound.UpstreamRateBound | backend/src/application/HistoryService.cpp:46-58 | without overlap and with ample capacity, successful fetches of one key are more than maxAge apart and bounded in any window |
| RateBound.SpacingIsExact | backend/src/application/HistoryService.cpp:46-58 | without overlap, successful fetches of each key are more than maxAge apart in all runs over a set of keys if and only if the capacity covers the set or maxAge is negative |
| Residence.BoundedResidence | backend/src/cache/TimeAndSizeBoundedCache.h:109-122 | with sweeps on time no listed entry is older than maxAge plus one interval, at most 1.5 maxAge from two minutes on |
| Residence.OneAndAHalfIsExact | backend/src/cache/TimeAndSizeBoundedCache.h:109-122 | in all runs with sweeps on time entries stay for at most one and a half maxAge, if and only if maxAge is two minutes or more |
| Residence.IntervalIsLongest | backend/src/cache/TimeAndSizeBoundedCache.h:113 | the sweeper's wait is the longest, in whole minutes, that is one minute or at most half of maxAge |
| Sweeper.NoLockCycle | backend/src/cache/TimeAndSizeBoundedCache.h:109-137 | in no reachable state does a thread wait for one that waits |
| Sweeper.SweepExcludes | backend/src/cache/TimeAndSizeBoundedCache.h:125 | while the sweeper sweeps it holds mutex_, and no get or put can begin |
| Sweeper.SweepPerTimeout | backend/src/cache/TimeAndSizeBoundedCache.h:115-121 | until the flag is set, each wait that times out is followed by exactly one sweep, and no sweep has another cause |
| Sweeper.CanSweep | backend/src/cache/TimeAndSizeBoundedCache.h:115-121 | until the flag is set, from every state the threads can reach there is a run in which the sweeper sweeps again |
| Sweeper.ShutdownBounded | backend/src/cache/TimeAndSizeBoundedCache.h:48-122 | once the flag is set: at most six sweeper steps, one sweep begun and one timeout, in every run |
| Sweeper.NotStuck | backend/src/cache/TimeAndSizeBoundedCache.h:109-122 | until it exits, whether or not the flag is set, the sweeper can move, at the latest when a get or put gives mutex_ back |
| Sweeper.CanJoin | backend/src/cache/TimeAndSizeBoundedCache.h:48-54 | the destructor can complete without the notification ever arriving |
| Sweeper.NotificationCanBeLost | backend/src/cache/TimeAndSizeBoundedCache.h:49-50 | the notification reaches the sweeper exactly if it is blocked, and a reachable run loses it |
| Text.ToUpper | backend/src/domain/TextUtil.h:13-17 | the character loop yields the upper-case string |
| Text.UpperIdempotent | backend/src/domain/TextUtil.h:13-17 | upper-casing twice changes nothing more, and adds or removes no other character |
| Text.UpperLetter | backend/src/domain/TextUtil.h:13-17 | each letter a to z becomes its capital |
| Text.UpperOther | backend/src/domain/TextUtil.h:13-17 | and every other character stays as it is |
| Dates.IsIsoDate | backend/src/domain/DateRange.h:16-27 | the loop accepts exactly the shape YYYY-MM-DD |
| Dates.DateWritten | backend/src/domain/DateRange.h:16-27 | every year, month and day in digits makes a well-formed date, from which they are read back |
| Dates.DateRead | backend/src/domain/DateRange.h:16-27 | and there are no other well-formed dates |
| Dates.MakeRange | backend/src/domain/DateRange.h:38-46 | a range is built exactly from two well-formed dates in order; otherwise the argument is invalid |
| Dates.DateOrder | backend/src/domain/DateRange.h:43 | on well-formed dates string order is the order of year, month and day |
| Dates.WithinInTime | backend/src/application/HistoryService.cpp:38-41 | a date in a range within bounds lies in time between all four |
| Dates.WithinIsInTime | backend/src/external/FrankfurterClient.cpp:166-168 | for well-formed dates the filter of the history is the range in time |
| Keys.RateKeyShared | backend/src/application/ConversionService.cpp:48 | two pairs of codes share a key exactly if they are equal or one source swallows the other's bar |
| Keys.HistoryKeyShared | backend/src/application/HistoryService.cpp:45 | two history queries share a key exactly if their ranges are equal and their codes share a rate key |
| Keys.RequestKeys | backend/src/application/HistoryService.cpp:23-45 | for sources without a bar, keys are equal exactly if codes agree up to case and ranges agree |
| Keys.BarClash | backend/src/application/ConversionService.cpp:48 | with a bar in a code, two different pairs have one key |
| Series.SortByDate | backend/src/external/FrankfurterClient.cpp:176-177 | the in-place sort yields the insertion-sorted series |
| Series.History | backend/src/external/FrankfurterClient.cpp:148-184 | the loop fails exactly on an unusable reply or an unreadable in-range day, and otherwise yields the normalised series |
| Series.SeriesContents | backend/src/external/FrankfurterClient.cpp:157-178 | the series is strictly ascending and holds exactly the points of the days that pass the filter |
| Series.SeriesQuotes | backend/src/external/FrankfurterClient.cpp:159-175 | each point carries the number quoted for the target on its day, each number quoted in the range has its point, and a reply is refused exactly for an in-range day that cannot be read |
| Series.OrderIndependent | backend/src/external/FrankfurterClient.cpp:159-178 | the iteration order of the reply does not matter |
| Series.Narrowing | backend/src/external/FrankfurterClient.cpp:166-178 | normalising for a part of a range is filtering the whole range's series |
| Concurrent.ReachableInv | backend/src/application/HistoryService.cpp:45-58 | every reachable state: each cache has distinct keys within its capacity, each entry and each finished request is accounted for by what the provider answered |
| Concurrent.SweepEnds | backend/src/cache/TimeAndSizeBoundedCache.h:124-137 | however it is interleaved with requests, other sweeps and the clock, a sweep ends after one step per entry it found and one more |
| SweepRuns.SweepComplete | backend/src/cache/TimeAndSizeBoundedCache.h:124-137 | however a sweep is interleaved, from its first step to its last it reads the clock once for each entry it found, leaves nothing that had expired when it began, removes nothing that is live when it ends, and keeps the order |
| CacheTraces.CachesAreRuns | backend/src/cache/TimeAndSizeBoundedCache.h:59-137 | in every reachable state each cache is what a timed run of gets and puts leaves, the puts being the stores of the log in their order |
| CacheTraces.HitIsLatest | backend/src/application/HistoryService.cpp:45-58 | under every interleaving a lookup finds only the latest answer stored under its key, by whichever request |
| CacheTraces.AmpleHits | backend/src/application/HistoryService.cpp:45-58 | and finds it whenever it is young enough and the cache has room for all keys stored so far |
| CacheTraces.LeastRecentGoes | backend/src/cache/TimeAndSizeBoundedCache.h:85-95 | under every interleaving a store gives up, on overflow only, the one key put or hit longest ago |
| Spacing.FetchesSpaced | backend/src/application/HistoryService.cpp:46-58 | under every interleaving, with room for the keys stored so far, an answer stored after a miss of its key is stored more than maxAge after every answer stored under the key before that miss |
| Spacing.OnlyOverlapsRepeat | backend/src/application/HistoryService.cpp:46-58 | so two answers are stored under one key within maxAge only by requests that overlap: the second had missed before the first was stored |
| Provenance.OneQueryPerKey | backend/src/application/HistoryService.cpp:45 | if codes do not clash, a cache and a key stand for one query |
| Provenance.ProvenanceAndFreshness | backend/src/application/HistoryService.cpp:45-58 | under every interleaving a successful reply is the provider's answer to exactly its query, fetched by itself or put at most maxAge before it was read |
| Provenance.OnlyAnswersCached | backend/src/application/CurrencyCatalogService.cpp:25-30 | failures and empty currency lists are never cached |
| Provenance.NeverStuck | backend/src/application/ConversionService.cpp:48-61 | the next step of every unfinished request is possible, or waits for a sweep of its cache, which can step and so comes nearer to its end |
| Provenance.RequestEnds | backend/src/application/ConversionService.cpp:21-69 | under every interleaving a request takes at most ten steps of its own, and has finished when it has none left |
| Provenance.CheckedInTime | backend/src/application/HistoryService.cpp:38-41 | the day by which a request's bounds are checked is one on which the request was under way |
| Provenance.HistoryInBounds | backend/src/application/HistoryService.cpp:38-58 | every point of a successful history, cached or fetched, is for the requested codes and lies in the range, and the range within the selectable dates |
| Requests.ConversionAnswered | backend/src/application/ConversionService.cpp:24-69 | spelt out: when a conversion is refused and with which error, and otherwise that it gives back the amount, the amount times the rate, the rate and its date |
| Requests.HistoryAnswered | backend/src/application/HistoryService.cpp:23-58 | spelt out: a history is refused for a code not offered, a start before 4 January 1999 or an end after today, and otherwise is the provider's series |
| Requests.FinishedConversion | backend/src/application/ConversionService.cpp:24-69 | under every interleaving a successful conversion is of an allowed amount between different listed codes, and its numbers are those of a rate the provider gave for them |
| Requests.FinishedHistory | backend/src/application/HistoryService.cpp:43-58 | under every interleaving the points of a successful history are exactly the numbers quoted in the range by one reply to its query |
| Transparency.AlwaysTransparent | backend/src/application/ConversionService.cpp:21-69 | with a provider of fixed answers every request ends as without caches, errors included, under every interleaving, capacity, age and sweep |
| Transparency.TransparentWithoutBars | backend/src/application/ConversionService.cpp:21-69 | so it is for every provider whose currency codes hold no bar |
| Clash.ClashIsVisible | backend/src/application/HistoryService.cpp:45-51 | if codes of the catalog clash, a run serves one request another's history, whatever the limits under which entries can be served at all |
| Clash.TransparencyIsExact | backend/src/application/HistoryService.cpp:20-59 | for each choice of such limits, caching is invisible for all providers with a catalog if and only if the catalog's upper-case codes do not clash |
| Accounting.FetchAccounting | backend/src/application/HistoryService.cpp:46-57 | for each cache, misses are fetches in flight, failed or succeeded, and storable successes are stored or about to be |
| Accounting.OverlapFetchesTwice | backend/src/application/CurrencyCatalogService.cpp:15-30 | nothing joins overlapping misses: for any capacity and maxAge a reachable state has both fetched in one instant |
| Services.ServedAnswer | backend/src/application/HistoryService.cpp:46-58 | an access answers with a live cached value of its key and no call, or with the reply of its one call; only that reply is added |
| Services.ServedStores | backend/src/application/HistoryService.cpp:46-58 | a successful access leaves its answer in front, stored at its last reading if it was fetched; beside it nothing goes but the last entry of a full cache |
| Services.ServedTwice | backend/src/application/ConversionService.cpp:48-61 | a second access for the key of a fetch is answered with what was fetched and no call, exactly if it reads the clock at most maxAge after the store |
| Services.CurrencyCatalogService.ListCurrencies | backend/src/application/CurrencyCatalogService.cpp:14-31 | one access to the catalog cache, in which an empty list is an error and is not stored |
| Services.ListAgain | backend/src/application/CurrencyCatalogService.cpp:15-30 | a second look at the list within maxAge of the fetch gets the same list, not empty, without a call |
| Services.CurrencyCatalogService.IsKnownCurrency | backend/src/application/CurrencyCatalogService.cpp:33-38 | true exactly if some currency of the list obtained has the code in upper case; the list's error is passed on |
| Services.CurrencyCatalogService.CheckCodes | backend/src/application/ConversionService.cpp:27-33 | source before target; the refusal, the calls made and the cache after them |
| Services.ConversionService.Convert | backend/src/application/ConversionService.cpp:21-69 | refused requests leave the rate cache alone; the others make one access under the pair's key and give back the amount and the amount times the rate |
| Services.ConvertAgain | backend/src/application/ConversionService.cpp:48-69 | a second conversion of a pair within maxAge of the fetch is computed at the same rate without a call |
| Services.ConvertTransparent | backend/src/application/ConversionService.cpp:21-69 | such a call ends as the provider itself would have it, and leaves the caches holding the provider's answers |
| Services.HistoryService.GetHistory | backend/src/application/HistoryService.cpp:20-59 | refused requests leave the history cache alone; the others make one access under the query's key and return its result |
| Services.HistoryAgain | backend/src/application/HistoryService.cpp:46-58 | a second request for a history within maxAge of the fetch gets the same series without a call |
| Services.HistoryTransparent | backend/src/application/HistoryService.cpp:20-59 | such a call ends as the provider itself would have it, and leaves the caches holding the provider's answers |

## Left out

- HTTP, TLS and JSON parsing of the provider client: a history reply is an input, already parsed into days or a failure.
- Latest-rate and currency-list parsing: their results are inputs, a value of the right type or an error.
- gRPC transport and the mapping of errors to status codes, where docs/architecture.md:295 says INVALID_ARGUMENT for an unknown code and backend/src/grpc/CurrencyServiceImpl.cpp:54-56 returns NOT_FOUND.
- Logging, configuration, wiring and the frontend.
- Floating-point rounding: amounts and rates are reals, and an amount that is not finite is a value of its own.
- The calendar behind today's date: it is an input that never goes back; its shape is assumed only where `Provenance.HistoryInBounds` speaks of time.
- Hash table internals and std::sort internals: the index is a map, the sort an insertion sort; dates are distinct, so the result is the same.
- Weak memory: critical sections and atomic accesses are single steps.
- The ages given in minutes are ticks everywhere but in `Residence`, which converts them.
- Concurrent requests hold cached values of the three kinds in one type; the classes in `Services` hold them in three.
- RateBound.UpstreamRateBound: bounds requests that do not overlap; overlapping ones may each fetch (`Accounting.OverlapFetchesTwice`), and `Spacing` says which overlaps do.
- Residence.BoundedResidence: assumes each sweep starts when due and names its length; it does not derive this from the thread scheduler.
