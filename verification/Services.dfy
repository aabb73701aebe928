/**
 The services as they are written: objects that check the request, consult their cache, ask the
 provider on a miss and store what it answers. Each call runs alone here; module Concurrent has
 the interleavings. What a call does to its cache is stated by Served; that its outcome is the
 one the provider itself would give is stated for every provider the calls agree with.
 */
module Services {
  import opened Outcomes
  import opened Text
  import opened Dates
  import opened Domain
  import opened Keys
  import opened CacheSpec
  import opened LinkedCache
  import CacheRuns
  import opened Protocol
  import opened Provenance
  import opened Transparency

  datatype Call = Call(q: Query, result: Result<Answer>)

  /** The upstream source. It may answer anything of the right type; every call is remembered. */
  class ExchangeRateProvider {
    ghost var calls: seq<Call>

    constructor ()
      ensures calls == []
    {
      calls := [];
    }

    method ListCurrencies() returns (r: Result<seq<Currency>>)
      modifies this
      ensures calls == old(calls) + [Call(ListQuery, AsList(r))]
    {
      r := *;
      calls := calls + [Call(ListQuery, AsList(r))];
    }

    method LatestRate(source: string, target: string) returns (r: Result<ExchangeRate>)
      modifies this
      ensures calls == old(calls) + [Call(RateQuery(source, target), AsRate(r))]
    {
      r := *;
      calls := calls + [Call(RateQuery(source, target), AsRate(r))];
    }

    method History(source: string, target: string, range: DateRange) returns (r: Result<seq<ExchangeRate>>)
      modifies this
      ensures calls == old(calls) + [Call(HistoryQuery(source, target, range), AsPoints(r))]
    {
      r := *;
      calls := calls + [Call(HistoryQuery(source, target, range), AsPoints(r))];
    }
  }

  function AsList(r: Result<seq<Currency>>): Result<Answer> {
    match r case Ok(list) => Ok(Currencies(list)) case Err(e) => Err(e)
  }

  function AsRate(r: Result<ExchangeRate>): Result<Answer> {
    match r case Ok(rate) => Ok(Latest(rate)) case Err(e) => Err(e)
  }

  function AsPoints(r: Result<seq<ExchangeRate>>): Result<Answer> {
    match r case Ok(points) => Ok(Points(points)) case Err(e) => Err(e)
  }

  // ----- one trip to a cache

  /**
   What one cache-aside access does, given the clock readings it took and the reply of the call it
   made, if it made one: a live entry answers and moves to the front, without a call; otherwise
   there is a call, an error leaves nothing in the cache, and an answer is put and returned.
   */
  ghost predicate Served<V>(before: seq<Entry<V>>, after: seq<Entry<V>>, key: string, lim: Limits,
                            readings: seq<int>, asked: Option<Result<V>>, result: Result<V>)
  {
    var looked := if Lookup(before, key).Some? then 1 else 0;
    |readings| >= looked &&
    var (es, found) := Get(before, key, if looked == 1 then readings[0] else 0, lim.maxAge);
    if found.Some? then
      |readings| == looked && asked == None && after == es && result == Ok(found.value)
    else
      && asked == Some(result)
      && if result.Err? then |readings| == looked && after == es
         else |readings| == looked + 1 && after == Put(es, key, result.value, readings[looked], lim.maxElements)
  }

  /** The readings of a lookup: one if the key is listed, none if it is not. */
  ghost function LookReadings<V>(before: seq<Entry<V>>, key: string, now: int): seq<int> {
    if Lookup(before, key).Some? then [now] else []
  }

  lemma HitServed<V>(before: seq<Entry<V>>, after: seq<Entry<V>>, key: string, lim: Limits, now: int, v: V)
    requires (after, Some(v)) == Get(before, key, now, lim.maxAge)
    ensures Served(before, after, key, lim, LookReadings(before, key, now), None, Ok(v))
  {
  }

  lemma FailureServed<V>(before: seq<Entry<V>>, after: seq<Entry<V>>, key: string, lim: Limits, now: int, e: Error)
    requires (after, None) == Get(before, key, now, lim.maxAge)
    ensures Served(before, after, key, lim, LookReadings(before, key, now), Some(Err(e)), Err(e))
  {
  }

  lemma FetchServed<V>(before: seq<Entry<V>>, mid: seq<Entry<V>>, after: seq<Entry<V>>, key: string, lim: Limits,
                       now: int, v: V, later: int)
    requires (mid, None) == Get(before, key, now, lim.maxAge) && after == Put(mid, key, v, later, lim.maxElements)
    ensures Served(before, after, key, lim, LookReadings(before, key, now) + [later], Some(Ok(v)), Ok(v))
  {
  }

  lemma Join<T>(a: seq<T>, b: seq<T>, c: seq<T>)
    ensures (a + b) + c == a + (b + c)
  {
  }

  /** Asks the cache: a hit completes the access, a miss leaves it to be completed. */
  method Consult<V(0)>(cache: TimeAndSizeBoundedCache<V>, key: string)
    returns (cached: Option<V>, ghost readings: seq<int>, ghost now: int)
    requires cache.Valid()
    modifies cache.Repr, cache.clock
    ensures cache.Valid() && cache.Repr == old(cache.Repr)
    ensures cache.clock.now >= old(cache.clock.now) && (old(cache.Recorded()) ==> cache.Recorded())
    ensures cache.clock.readings == old(cache.clock.readings) + readings
    ensures readings == LookReadings(old(cache.Contents()), key, now)
    ensures cached.Some? ==>
      Served(old(cache.Contents()), cache.Contents(), key, cache.limits, readings, None, Ok(cached.value))
    ensures cached.None? ==>
      (cache.Contents(), None) == Get(old(cache.Contents()), key, now, cache.limits.maxAge)
  {
    hide Served, Records;
    cached := cache.Get(key);
    now := cache.clock.now;
    readings := LookReadings(old(cache.Contents()), key, now);
    if cached.Some? {
      HitServed(old(cache.Contents()), cache.Contents(), key, cache.limits, now, cached.value);
    }
  }

  /** After a miss: an error is passed on, an answer is put before it is. */
  method StoreReply<V(0)>(cache: TimeAndSizeBoundedCache<V>, key: string, reply: Result<V>,
                          ghost before: seq<Entry<V>>, ghost now: int)
    returns (ghost readings: seq<int>)
    requires cache.Valid() && (cache.Contents(), None) == Get(before, key, now, cache.limits.maxAge)
    modifies cache.Repr, cache.clock
    ensures cache.Valid() && fresh(cache.Repr - old(cache.Repr))
    ensures cache.clock.now >= old(cache.clock.now) && (old(cache.Recorded()) ==> cache.Recorded())
    ensures cache.clock.readings == old(cache.clock.readings) + readings
    ensures Served(before, cache.Contents(), key, cache.limits, LookReadings(before, key, now) + readings, Some(reply),
                   reply)
  {
    ghost var mid := cache.Contents();
    readings := [];
    if reply.Err? {
      FailureServed(before, mid, key, cache.limits, now, reply.error);
    } else {
      cache.Put(key, reply.value);
      readings := [cache.clock.now];
      FetchServed(before, mid, cache.Contents(), key, cache.limits, now, reply.value, cache.clock.now);
    }
  }

  /** An access answers with a value that was cached and live, or with the reply of its one call. */
  lemma ServedAnswer<V>(before: seq<Entry<V>>, after: seq<Entry<V>>, key: string, lim: Limits,
                        readings: seq<int>, asked: Option<Result<V>>, result: Result<V>)
    requires Served(before, after, key, lim, readings, asked, result)
    ensures asked.None? ==>
      && result.Ok? && readings != []
      && exists e :: e in before && e.key == key && e.value == result.value && !Expired(e, readings[0], lim.maxAge)
    ensures asked.Some? ==> asked == Some(result)
    ensures forall e :: e in after ==>
      e in before || (result.Ok? && asked.Some? && e.key == key && e.value == result.value)
  {
    forall e | e in after
      ensures e in before || (result.Ok? && asked.Some? && e.key == key && e.value == result.value)
    {
      var looked := if Lookup(before, key).Some? then 1 else 0;
      var t := if looked == 1 then readings[0] else 0;
      var es := Get(before, key, t, lim.maxAge).0;
      FilterMember(before, KeyOtherThan<V>(key), e);
      FilterMember(es, KeyOtherThan<V>(key), e);
    }
  }

  /**
   An access that succeeds leaves its answer in front: what was fetched is stored under the time of
   its last reading, what was hit is kept. Beside the key's own entry nothing goes, unless a full
   cache gives up its last entry to what was fetched.
   */
  lemma ServedStores<V>(before: seq<Entry<V>>, after: seq<Entry<V>>, key: string, lim: Limits,
                        readings: seq<int>, asked: Option<Result<V>>, result: Result<V>)
    requires Served(before, after, key, lim, readings, asked, result)
    requires DistinctKeys(before) && |before| <= lim.maxElements && lim.maxElements > 0
    ensures result.Ok? ==> after != [] && after[0].key == key && after[0].value == result.value
    ensures result.Ok? && asked.Some? ==> readings != [] && after[0].insertedAt == readings[|readings| - 1]
    ensures result.Ok? && asked.None? ==> after[0] in before
    ensures forall e :: e in before && e.key != key ==>
      e in after || (result.Ok? && asked.Some? && |before| == lim.maxElements && e == before[|before| - 1])
  {
    var t := if Lookup(before, key).Some? then readings[0] else 0;
    var es := Get(before, key, t, lim.maxAge).0;
    forall e | e in before && e.key != key
      ensures e in after || (result.Ok? && asked.Some? && |before| == lim.maxElements && e == before[|before| - 1])
    {
      FilterMember(before, KeyOtherThan<V>(key), e);
      FilterMember(es, KeyOtherThan<V>(key), e);
      if result.Ok? && asked.Some? {
        MissLeaves(before, key, t, lim.maxAge);
        PutGivesUpLast(before, key, result.value, readings[|readings| - 1], lim.maxElements, e);
      }
    }
  }

  /** After a miss the list has lost nothing but, if it had expired, the key's own entry. */
  lemma MissLeaves<V>(before: seq<Entry<V>>, key: string, t: int, maxAge: int)
    requires Get(before, key, t, maxAge).1.None?
    ensures Without(Get(before, key, t, maxAge).0, key) == Without(before, key)
  {
    var keep := KeyOtherThan<V>(key);
    forall e | e in Without(before, key) ensures keep(e) { FilterMember(before, keep, e); }
    FilterAll(Without(before, key), keep);
  }

  /** A put of a key that is not listed. */
  lemma PutAbsent<V>(before: seq<Entry<V>>, key: string, value: V, now: int, n: nat)
    requires key !in CacheSpec.Keys(before) && |before| <= n && n > 0
    ensures Put(before, key, value, now, n)
         == [Entry(key, value, now)] + if |before| == n then before[..n - 1] else before
  {
    WithoutAbsent(before, key);
    if |before| == n {
      assert ([Entry(key, value, now)] + before)[..n] == [Entry(key, value, now)] + before[..n - 1];
    }
  }

  /** A put of a key that is listed evicts nothing. */
  lemma PutListed<V>(before: seq<Entry<V>>, key: string, value: V, now: int, n: nat)
    requires DistinctKeys(before) && key in CacheSpec.Keys(before) && |before| <= n
    ensures Put(before, key, value, now, n) == [Entry(key, value, now)] + Without(before, key)
  {
    CacheRuns.DistinctPushed(before, Entry(key, value, now));
  }

  lemma PutGivesUpLast<V>(before: seq<Entry<V>>, key: string, value: V, now: int, n: nat, e: Entry<V>)
    requires DistinctKeys(before) && |before| <= n && n > 0 && e in before && e.key != key
    ensures e in Put(before, key, value, now, n) || (|before| == n && e == before[|before| - 1])
  {
    hide Put;
    if key in CacheSpec.Keys(before) {
      PutListed(before, key, value, now, n);
      FilterMember(before, KeyOtherThan<V>(key), e);
    } else {
      PutAbsent(before, key, value, now, n);
    }
  }

  /**
   A second access for the same key finds what the first one fetched, unless it has grown too old
   by then: no second call, and the same answer.
   */
  lemma ServedTwice<V>(before: seq<Entry<V>>, mid: seq<Entry<V>>, after: seq<Entry<V>>, key: string, lim: Limits, v: V,
                       readings: seq<int>, readings': seq<int>, asked: Option<Result<V>>, result: Result<V>)
    requires Served(before, mid, key, lim, readings, Some(Ok(v)), Ok(v)) && lim.maxElements > 0
    requires Served(mid, after, key, lim, readings', asked, result)
    ensures readings != [] && readings' != []
    ensures if readings'[0] - readings[|readings| - 1] <= lim.maxAge then asked == None && result == Ok(v)
            else asked == Some(result)
  {
    assert mid[0] == Entry(key, v, readings[|readings| - 1]);
  }

  /** An empty currency list counts as an unexpected response. */
  function NonEmpty(r: Result<seq<Currency>>): Result<seq<Currency>> {
    if r.Ok? && r.value == [] then Err(ExternalApiUnexpectedResponse) else r
  }

  // ----- providers with fixed answers, and caches filled from them

  ghost predicate Agrees(calls: seq<Call>, p: Provider) {
    forall i :: 0 <= i < |calls| ==> calls[i].result == p(calls[i].q)
  }

  ghost predicate CatalogHolds(p: Provider, es: seq<Entry<seq<Currency>>>) {
    forall e :: e in es ==> p(ListQuery) == Ok(Currencies(e.value)) && e.value != []
  }

  /** The code is in the provider's catalog, in upper case. */
  ghost predicate InCatalog(p: Provider, code: string) {
    CatalogFrom(p).Ok? && IsCode(CodesOf(CatalogFrom(p).value), code)
  }

  ghost predicate RateFrom(p: Provider, e: Entry<ExchangeRate>, s: string, t: string) {
    && InCatalog(p, s) && InCatalog(p, t) && e.key == RateKey(s, t)
    && p(RateQuery(s, t)) == Ok(Latest(e.value))
  }

  ghost predicate RatesHold(p: Provider, es: seq<Entry<ExchangeRate>>) {
    forall e :: e in es ==> exists s, t :: RateFrom(p, e, s, t)
  }

  ghost predicate HistoryFrom(p: Provider, e: Entry<seq<ExchangeRate>>, s: string, t: string, range: DateRange) {
    && InCatalog(p, s) && InCatalog(p, t) && e.key == HistoryKey(s, t, range)
    && p(HistoryQuery(s, t, range)) == Ok(Points(e.value))
  }

  ghost predicate HistoriesHold(p: Provider, es: seq<Entry<seq<ExchangeRate>>>) {
    forall e :: e in es ==> exists s, t, range :: HistoryFrom(p, e, s, t, range)
  }

  lemma SamePair(p: Provider, s: string, t: string, s': string, t': string)
    requires Unambiguous(p) && InCatalog(p, s) && InCatalog(p, t) && InCatalog(p, s') && InCatalog(p, t')
    requires RateKey(s, t) == RateKey(s', t')
    ensures s == s' && t == t'
  {
    RateKeyShared(s, t, s', t');
  }

  lemma RateServed(p: Provider, before: seq<Entry<ExchangeRate>>, after: seq<Entry<ExchangeRate>>, s: string, t: string,
                   lim: Limits, readings: seq<int>, asked: Option<Result<ExchangeRate>>, result: Result<ExchangeRate>)
    requires Served(before, after, RateKey(s, t), lim, readings, asked, result) && RatesHold(p, before)
    requires Unambiguous(p) && InCatalog(p, s) && InCatalog(p, t)
    requires asked.Some? ==> AsRate(asked.value) == p(RateQuery(s, t))
    ensures AsRate(result) == p(RateQuery(s, t)) && RatesHold(p, after)
  {
    ServedAnswer(before, after, RateKey(s, t), lim, readings, asked, result);
    if asked.None? {
      var e :| e in before && e.key == RateKey(s, t) && e.value == result.value;
      var s', t' :| RateFrom(p, e, s', t');
      SamePair(p, s, t, s', t');
    }
    forall e | e in after ensures exists s, t :: RateFrom(p, e, s, t) {
      if e !in before { assert RateFrom(p, e, s, t); }
    }
  }

  lemma HistoryServed(p: Provider, before: seq<Entry<seq<ExchangeRate>>>, after: seq<Entry<seq<ExchangeRate>>>,
                      s: string, t: string, range: DateRange, lim: Limits, readings: seq<int>,
                      asked: Option<Result<seq<ExchangeRate>>>, result: Result<seq<ExchangeRate>>)
    requires Served(before, after, HistoryKey(s, t, range), lim, readings, asked, result) && HistoriesHold(p, before)
    requires Unambiguous(p) && InCatalog(p, s) && InCatalog(p, t)
    requires asked.Some? ==> AsPoints(asked.value) == p(HistoryQuery(s, t, range))
    ensures AsPoints(result) == p(HistoryQuery(s, t, range)) && HistoriesHold(p, after)
  {
    ServedAnswer(before, after, HistoryKey(s, t, range), lim, readings, asked, result);
    if asked.None? {
      var e :| e in before && e.key == HistoryKey(s, t, range) && e.value == result.value;
      var s', t', range' :| HistoryFrom(p, e, s', t', range');
      HistoryKeyShared(s, t, range, s', t', range');
      SamePair(p, s, t, s', t');
    }
    forall e | e in after ensures exists s, t, range :: HistoryFrom(p, e, s, t, range) {
      if e !in before { assert HistoryFrom(p, e, s, t, range); }
    }
  }

  // ----- what a call of a service does, as values

  /** One access to a cache: its contents before and after, the readings taken, the provider's reply, the result. */
  datatype Trip<V> = Trip(before: seq<Entry<V>>, after: seq<Entry<V>>, readings: seq<int>, asked: Option<Result<V>>,
                          result: Result<V>)

  ghost predicate CatalogTrip(trip: Trip<seq<Currency>>, lim: Limits) {
    Served(trip.before, trip.after, CATALOG_KEY, lim, trip.readings,
           if trip.asked.Some? then Some(NonEmpty(trip.asked.value)) else None, trip.result)
  }

  /** A second look at the list, no more than maxAge after it was fetched, needs no call. */
  lemma ListAgain(trip: Trip<seq<Currency>>, trip': Trip<seq<Currency>>, lim: Limits)
    requires CatalogTrip(trip, lim) && CatalogTrip(trip', lim) && trip'.before == trip.after && lim.maxElements > 0
    requires trip.asked.Some? && trip.result.Ok?
    ensures trip.readings != [] && trip'.readings != [] && trip.asked == Some(trip.result) && trip.result.value != []
    ensures trip'.readings[0] - trip.readings[|trip.readings| - 1] <= lim.maxAge ==>
      trip'.asked == None && trip'.result == trip.result
  {
    ServedTwice(trip.before, trip.after, trip'.after, CATALOG_KEY, lim, trip.result.value, trip.readings,
                trip'.readings, if trip'.asked.Some? then Some(NonEmpty(trip'.asked.value)) else None, trip'.result);
  }

  function ListCalls(trip: Trip<seq<Currency>>): seq<Call> {
    if trip.asked.Some? then [Call(ListQuery, AsList(trip.asked.value))] else []
  }

  /** The calls and the readings of two accesses in a row; the second one is missing if the first ended the request. */
  function BothCalls(first: Trip<seq<Currency>>, second: Option<Trip<seq<Currency>>>): seq<Call> {
    ListCalls(first) + if second.Some? then ListCalls(second.value) else []
  }

  function BothReadings(first: Trip<seq<Currency>>, second: Option<Trip<seq<Currency>>>): seq<int> {
    first.readings + if second.Some? then second.value.readings else []
  }

  /** Is the code in the list; an error of the list is passed on. */
  function KnownIn(list: Result<seq<Currency>>, code: string): Result<bool> {
    match list case Err(e) => Err(e) case Ok(currencies) => Ok(HasCode(currencies, Upper(code)))
  }

  /** Why the codes are refused, if they are: the list was not to be had, or a code is not in it. */
  function Refusal(list: Result<seq<Currency>>, code: string): Option<Error> {
    match KnownIn(list, code) case Err(e) => Some(e) case Ok(known) => if known then None else Some(CurrencyNotFound)
  }

  /** The two code checks of a request: the accesses they made, and the refusal they came to, if any. */
  datatype Checks = Checks(first: Trip<seq<Currency>>, second: Option<Trip<seq<Currency>>>, refused: Option<Error>) {
    function Before(): seq<Entry<seq<Currency>>> { first.before }
    function After(): seq<Entry<seq<Currency>>> { if second.Some? then second.value.after else first.after }
    function Calls(): seq<Call> { BothCalls(first, second) }
  }

  /** The source is checked first; the target is looked at only if the source passes. */
  ghost predicate Checked(c: Checks, source: string, target: string, lim: Limits) {
    && CatalogTrip(c.first, lim)
    && match c.second
       case None => c.refused.Some? && c.refused == Refusal(c.first.result, source)
       case Some(trip) =>
         && Refusal(c.first.result, source) == None
         && CatalogTrip(trip, lim) && trip.before == c.first.after
         && c.refused == Refusal(trip.result, target)
  }

  lemma CatalogTripFrom(p: Provider, trip: Trip<seq<Currency>>, lim: Limits)
    requires CatalogTrip(trip, lim) && CatalogHolds(p, trip.before) && Agrees(ListCalls(trip), p)
    ensures trip.result == CatalogFrom(p) && CatalogHolds(p, trip.after)
  {
    var asked := if trip.asked.Some? then Some(NonEmpty(trip.asked.value)) else None;
    ServedAnswer(trip.before, trip.after, CATALOG_KEY, lim, trip.readings, asked, trip.result);
    if trip.asked.Some? {
      assert ListCalls(trip)[0].result == p(ListQuery);
    }
  }

  lemma AgreesParts(a: seq<Call>, b: seq<Call>, p: Provider)
    ensures Agrees(a + b, p) <==> Agrees(a, p) && Agrees(b, p)
  {
    var all := a + b;
    assert forall i :: 0 <= i < |a| ==> all[i] == a[i];
    assert forall i :: 0 <= i < |b| ==> all[|a| + i] == b[i];
  }

  /** With a provider of fixed answers, the checks refuse exactly what its catalog refuses. */
  lemma CheckedFrom(p: Provider, c: Checks, source: string, target: string, lim: Limits)
    requires Checked(c, source, target, lim) && CatalogHolds(p, c.Before()) && Agrees(c.Calls(), p)
    ensures CatalogHolds(p, c.After())
    ensures c.refused == if Refusal(CatalogFrom(p), source).Some? then Refusal(CatalogFrom(p), source)
                         else Refusal(CatalogFrom(p), target)
  {
    AgreesParts(ListCalls(c.first), if c.second.Some? then ListCalls(c.second.value) else [], p);
    CatalogTripFrom(p, c.first, lim);
    if c.second.Some? { CatalogTripFrom(p, c.second.value, lim); }
  }

  lemma AcceptedInCatalog(p: Provider, code: string)
    requires Refusal(CatalogFrom(p), Upper(code)) == None
    ensures InCatalog(p, Upper(code)) && HasCode(CatalogFrom(p).value, Upper(code))
  {
    UpperIdempotent(code, '|');
  }

  /** What a conversion does: nothing to the rate cache unless all checks pass, one access if they do. */
  ghost predicate ConvertDone(source: string, target: string, amount: Amount, refused: Option<Error>, lim: Limits,
                              before: seq<Entry<ExchangeRate>>, after: seq<Entry<ExchangeRate>>,
                              trip: Option<Trip<ExchangeRate>>, r: Result<ConversionResult>)
  {
    if refused.Some? then r == Err(refused.value) && trip == None && after == before
    else if source == target || !AmountAllowed(amount) then r == Err(InvalidArgument) && trip == None && after == before
    else
      && trip.Some? && trip.value.before == before && trip.value.after == after
      && Served(before, after, RateKey(source, target), lim, trip.value.readings, trip.value.asked, trip.value.result)
      && r == match trip.value.result case Err(e) => Err(e) case Ok(rate) => Ok(Converted(amount.value, rate))
  }

  lemma RefusedDone(source: string, target: string, amount: Amount, e: Error, lim: Limits, es: seq<Entry<ExchangeRate>>)
    ensures ConvertDone(source, target, amount, Some(e), lim, es, es, None, Err(e))
  {
  }

  /** What a conversion that passes or fails the checks comes to, in numbers. */
  lemma ConvertDoneMeans(source: string, target: string, amount: Amount, refused: Option<Error>, lim: Limits,
                         before: seq<Entry<ExchangeRate>>, after: seq<Entry<ExchangeRate>>,
                         trip: Option<Trip<ExchangeRate>>, r: Result<ConversionResult>)
    requires ConvertDone(source, target, amount, refused, lim, before, after, trip, r)
    ensures refused.Some? ==> r == Err(refused.value)
    ensures refused.None?
      && (source == target || amount.NotFinite? || amount.value < 0.01 || amount.value > 1000000000.0)
      ==> r == Err(InvalidArgument)
    ensures refused.None?
      && source != target && amount.Finite? && 0.01 <= amount.value <= 1000000000.0
      ==> trip.Some? && match trip.value.result
        case Err(e) => r == Err(e)
        case Ok(rate) =>
          && r.Ok? && r.value.sourceAmount == amount.value && r.value.convertedAmount == amount.value * rate.rate
          && r.value.exchangeRate == rate.rate && r.value.rateDate == rate.date
  {
  }

  /**
   A second conversion of the same pair, when the first one fetched the rate no more than maxAge
   ago, is answered at that rate without a call, whatever the provider would say by now.
   */
  lemma ConvertAgain(source: string, target: string, amount: Amount, amount': Amount, lim: Limits,
                     before: seq<Entry<ExchangeRate>>, mid: seq<Entry<ExchangeRate>>, after: seq<Entry<ExchangeRate>>,
                     trip: Trip<ExchangeRate>, trip': Trip<ExchangeRate>,
                     r: Result<ConversionResult>, r': Result<ConversionResult>)
    requires ConvertDone(source, target, amount, None, lim, before, mid, Some(trip), r) && lim.maxElements > 0
    requires ConvertDone(source, target, amount', None, lim, mid, after, Some(trip'), r')
    requires trip.asked.Some? && r.Ok?
    ensures trip.readings != [] && trip'.readings != []
    ensures trip'.readings[0] - trip.readings[|trip.readings| - 1] <= lim.maxAge ==>
      && trip'.asked == None && r'.Ok?
      && r'.value.exchangeRate == r.value.exchangeRate && r'.value.rateDate == r.value.rateDate
      && r'.value.convertedAmount == amount'.value * r.value.exchangeRate
  {
    ServedTwice(before, mid, after, RateKey(source, target), lim, trip.result.value, trip.readings, trip'.readings,
                trip'.asked, trip'.result);
  }

  function RateCalls(source: string, target: string, trip: Option<Trip<ExchangeRate>>): seq<Call> {
    if trip.Some? && trip.value.asked.Some? then [Call(RateQuery(source, target), AsRate(trip.value.asked.value))]
    else []
  }

  function AsConversion(r: Result<ConversionResult>): Result<Reply> {
    match r case Err(e) => Err(e) case Ok(result) => Ok(Conversion(result))
  }

  /**
   Transparency of a conversion, caches included: with a provider of fixed answers and caches that
   hold them, the outcome is the one the provider itself gives, and the caches still hold its answers.
   */
  lemma ConvertTransparent(p: Provider, source: string, target: string, amount: Amount, today: string,
                           c: Checks, listLim: Limits, lim: Limits, before: seq<Entry<ExchangeRate>>,
                           after: seq<Entry<ExchangeRate>>, trip: Option<Trip<ExchangeRate>>,
                             r: Result<ConversionResult>)
    requires Checked(c, Upper(source), Upper(target), listLim)
    requires ConvertDone(Upper(source), Upper(target), amount, c.refused, lim, before, after, trip, r)
    requires Unambiguous(p) && CatalogHolds(p, c.Before()) && RatesHold(p, before)
    requires Agrees(c.Calls() + RateCalls(Upper(source), Upper(target), trip), p)
    ensures AsConversion(r) == Direct(p, Convert(source, target, amount), today)
    ensures CatalogHolds(p, c.After()) && RatesHold(p, after)
  {
    AgreesParts(c.Calls(), RateCalls(Upper(source), Upper(target), trip), p);
    CheckedFrom(p, c, Upper(source), Upper(target), listLim);
    UpperIdempotent(source, '|');
    UpperIdempotent(target, '|');
    if c.refused == None {
      AcceptedInCatalog(p, source);
      AcceptedInCatalog(p, target);
      if trip.Some? {
        var t := trip.value;
        assert t.asked.Some? ==>
          RateCalls(Upper(source), Upper(target), trip)[0].result == p(RateQuery(Upper(source), Upper(target)));
        RateServed(p, before, after, Upper(source), Upper(target), lim, t.readings, t.asked, t.result);
      }
    }
  }

  /** What a history request does to the history cache. */
  ghost predicate HistoryDone(source: string, target: string, range: DateRange, today: string, refused: Option<Error>,
                              lim: Limits, before: seq<Entry<seq<ExchangeRate>>>,
                              after: seq<Entry<seq<ExchangeRate>>>,
                              trip: Option<Trip<seq<ExchangeRate>>>, r: Result<seq<ExchangeRate>>)
  {
    if refused.Some? then r == Err(refused.value) && trip == None && after == before
    else if !RangeAllowed(range, today) then r == Err(InvalidArgument) && trip == None && after == before
    else
      && trip.Some? && trip.value.before == before && trip.value.after == after && trip.value.result == r
      && Served(before, after, HistoryKey(source, target, range), lim, trip.value.readings, trip.value.asked, r)
  }

  /** A second request for the same history is likewise answered from the cache. */
  lemma HistoryAgain(source: string, target: string, range: DateRange, today: string, today': string, lim: Limits,
                     before: seq<Entry<seq<ExchangeRate>>>, mid: seq<Entry<seq<ExchangeRate>>>,
                     after: seq<Entry<seq<ExchangeRate>>>, trip: Trip<seq<ExchangeRate>>,
                     trip': Trip<seq<ExchangeRate>>, r: Result<seq<ExchangeRate>>, r': Result<seq<ExchangeRate>>)
    requires HistoryDone(source, target, range, today, None, lim, before, mid, Some(trip), r) && lim.maxElements > 0
    requires HistoryDone(source, target, range, today', None, lim, mid, after, Some(trip'), r')
    requires trip.asked.Some? && r.Ok?
    ensures trip.readings != [] && trip'.readings != []
    ensures trip'.readings[0] - trip.readings[|trip.readings| - 1] <= lim.maxAge ==> trip'.asked == None && r' == r
  {
    ServedTwice(before, mid, after, HistoryKey(source, target, range), lim, trip.result.value, trip.readings,
                trip'.readings, trip'.asked, trip'.result);
  }

  function HistoryCalls(source: string, target: string, range: DateRange,
                        trip: Option<Trip<seq<ExchangeRate>>>): seq<Call> {
    if trip.Some? && trip.value.asked.Some?
    then [Call(HistoryQuery(source, target, range), AsPoints(trip.value.asked.value))] else []
  }

  function AsHistory(r: Result<seq<ExchangeRate>>): Result<Reply> {
    match r case Err(e) => Err(e) case Ok(points) => Ok(History(points))
  }

  /** The same for a history. */
  lemma HistoryTransparent(p: Provider, source: string, target: string, range: DateRange, today: string,
                           c: Checks, listLim: Limits, lim: Limits, before: seq<Entry<seq<ExchangeRate>>>,
                           after: seq<Entry<seq<ExchangeRate>>>, trip: Option<Trip<seq<ExchangeRate>>>,
                             r: Result<seq<ExchangeRate>>)
    requires Checked(c, Upper(source), Upper(target), listLim)
    requires HistoryDone(Upper(source), Upper(target), range, today, c.refused, lim, before, after, trip, r)
    requires Unambiguous(p) && CatalogHolds(p, c.Before()) && HistoriesHold(p, before)
    requires Agrees(c.Calls() + HistoryCalls(Upper(source), Upper(target), range, trip), p)
    ensures AsHistory(r) == Direct(p, GetHistory(source, target, range), today)
    ensures CatalogHolds(p, c.After()) && HistoriesHold(p, after)
  {
    AgreesParts(c.Calls(), HistoryCalls(Upper(source), Upper(target), range, trip), p);
    CheckedFrom(p, c, Upper(source), Upper(target), listLim);
    UpperIdempotent(source, '|');
    UpperIdempotent(target, '|');
    if c.refused == None {
      AcceptedInCatalog(p, source);
      AcceptedInCatalog(p, target);
      if trip.Some? {
        var t, q := trip.value, HistoryQuery(Upper(source), Upper(target), range);
        assert t.asked.Some? ==> HistoryCalls(Upper(source), Upper(target), range, trip)[0].result == p(q);
        HistoryServed(p, before, after, Upper(source), Upper(target), range, lim, t.readings, t.asked, t.result);
      }
    }
  }

  // ----- the services

  class CurrencyCatalogService {
    const provider: ExchangeRateProvider
    const cache: TimeAndSizeBoundedCache<seq<Currency>>

    ghost predicate Valid()
      reads cache, cache.Repr
    {
      cache.Valid() && provider !in cache.Repr
    }

    constructor (provider: ExchangeRateProvider, cache: TimeAndSizeBoundedCache<seq<Currency>>)
      requires cache.Valid() && provider !in cache.Repr
      ensures Valid() && this.provider == provider && this.cache == cache
    {
      this.provider, this.cache := provider, cache;
    }

    method ListCurrencies() returns (r: Result<seq<Currency>>, ghost trip: Trip<seq<Currency>>)
      requires Valid()
      modifies cache.Repr, cache.clock, provider
      ensures Valid() && fresh(cache.Repr - old(cache.Repr))
      ensures trip.before == old(cache.Contents()) && trip.after == cache.Contents() && trip.result == r
      ensures CatalogTrip(trip, cache.limits)
      ensures cache.clock.now >= old(cache.clock.now) && (old(cache.Recorded()) ==> cache.Recorded())
      ensures cache.clock.readings == old(cache.clock.readings) + trip.readings
      ensures provider.calls == old(provider.calls) + ListCalls(trip)
    {
      ghost var before := cache.Contents();
      var cached;
      ghost var readings, now;
      cached, readings, now := Consult(cache, CATALOG_KEY);
      if cached.Some? {
        return Ok(cached.value), Trip(before, cache.Contents(), readings, None, Ok(cached.value));
      }
      var reply := provider.ListCurrencies();
      r := NonEmpty(reply);
      ghost var more := StoreReply(cache, CATALOG_KEY, r, before, now);
      Join(old(cache.clock.readings), readings, more);
      trip := Trip(before, cache.Contents(), readings + more, Some(reply), r);
    }

    /** Looks for a code among the currencies. */
    static method AnyOf(currencies: seq<Currency>, code: string) returns (found: bool)
      ensures found == HasCode(currencies, code)
    {
      for i := 0 to |currencies|
        invariant forall j :: 0 <= j < i ==> currencies[j].code != code
      {
        if currencies[i].code == code {
          return true;
        }
      }
      return false;
    }

    method IsKnownCurrency(code: string) returns (r: Result<bool>, ghost trip: Trip<seq<Currency>>)
      requires Valid()
      modifies cache.Repr, cache.clock, provider
      ensures Valid() && fresh(cache.Repr - old(cache.Repr))
      ensures trip.before == old(cache.Contents()) && trip.after == cache.Contents()
      ensures CatalogTrip(trip, cache.limits) && r == KnownIn(trip.result, code)
      ensures trip.result.Ok? ==> (r == Ok(true) <==> exists c :: c in trip.result.value && c.code == Upper(code))
      ensures cache.clock.now >= old(cache.clock.now) && (old(cache.Recorded()) ==> cache.Recorded())
      ensures cache.clock.readings == old(cache.clock.readings) + trip.readings
      ensures provider.calls == old(provider.calls) + ListCalls(trip)
    {
      var normalized := ToUpper(code);
      var currencies;
      currencies, trip := ListCurrencies();
      if currencies.Err? {
        return Err(currencies.error), trip;
      }
      var known := AnyOf(currencies.value, normalized);
      return Ok(known), trip;
    }

    /** The two checks every request with codes begins with. */
    method CheckCodes(source: string, target: string) returns (refused: Option<Error>, ghost c: Checks)
      requires Valid()
      modifies cache.Repr, cache.clock, provider
      ensures Valid() && fresh(cache.Repr - old(cache.Repr))
      ensures Checked(c, source, target, cache.limits) && c.refused == refused
      ensures c.Before() == old(cache.Contents()) && c.After() == cache.Contents()
      ensures cache.clock.now >= old(cache.clock.now) && (old(cache.Recorded()) ==> cache.Recorded())
      ensures cache.clock.readings == old(cache.clock.readings) + BothReadings(c.first, c.second)
      ensures provider.calls == old(provider.calls) + c.Calls()
    {
      hide TimeAndSizeBoundedCache.Valid, CatalogTrip;
      var known;
      ghost var first;
      known, first := IsKnownCurrency(source);
      if known.Err? {
        return Some(known.error), Checks(first, None, Some(known.error));
      }
      if !known.value {
        return Some(CurrencyNotFound), Checks(first, None, Some(CurrencyNotFound));
      }
      ghost var trip;
      known, trip := IsKnownCurrency(target);
      Join(old(cache.clock.readings), first.readings, trip.readings);
      Join(old(provider.calls), ListCalls(first), ListCalls(trip));
      refused := if known.Err? then Some(known.error) else if !known.value then Some(CurrencyNotFound) else None;
      c := Checks(first, Some(trip), refused);
    }
  }

  class ConversionService {
    const provider: ExchangeRateProvider
    const latestRateCache: TimeAndSizeBoundedCache<ExchangeRate>
    const catalog: CurrencyCatalogService

    /** The two caches share the clock and nothing else. */
    ghost predicate Valid()
      reads latestRateCache, latestRateCache.Repr, catalog.cache, catalog.cache.Repr
    {
      && latestRateCache.Valid() && catalog.Valid()
      && latestRateCache.Repr !! catalog.cache.Repr
      && latestRateCache.clock == catalog.cache.clock
      && provider == catalog.provider && provider !in latestRateCache.Repr
    }

    constructor (provider: ExchangeRateProvider, latestRateCache: TimeAndSizeBoundedCache<ExchangeRate>,
                 catalog: CurrencyCatalogService)
      requires latestRateCache.Valid() && catalog.Valid() && latestRateCache.Repr !! catalog.cache.Repr
      requires latestRateCache.clock == catalog.cache.clock
      requires provider == catalog.provider && provider !in latestRateCache.Repr
      ensures Valid() && this.provider == provider && this.latestRateCache == latestRateCache && this.catalog == catalog
    {
      this.provider, this.latestRateCache, this.catalog := provider, latestRateCache, catalog;
    }

    /** The rate of a pair, from the cache or the provider. */
    method RateOf(source: string, target: string) returns (r: Result<ExchangeRate>, ghost trip: Trip<ExchangeRate>)
      requires latestRateCache.Valid() && provider !in latestRateCache.Repr
      modifies latestRateCache.Repr, latestRateCache.clock, provider
      ensures latestRateCache.Valid() && provider !in latestRateCache.Repr
        && fresh(latestRateCache.Repr - old(latestRateCache.Repr))
      ensures latestRateCache.clock.now >= old(latestRateCache.clock.now)
        && (old(latestRateCache.Recorded()) ==> latestRateCache.Recorded())
      ensures trip.before == old(latestRateCache.Contents()) && trip.after == latestRateCache.Contents()
        && trip.result == r
      ensures Served(trip.before, trip.after, RateKey(source, target), latestRateCache.limits, trip.readings,
                     trip.asked, r)
      ensures latestRateCache.clock.readings == old(latestRateCache.clock.readings) + trip.readings
      ensures provider.calls == old(provider.calls) + RateCalls(source, target, Some(trip))
    {
      hide Served, Records, LookReadings, TimeAndSizeBoundedCache.Recorded;
      var cacheKey := source + "|" + target;
      ghost var before := latestRateCache.Contents();
      var cached;
      ghost var readings, now;
      cached, readings, now := Consult(latestRateCache, cacheKey);
      if cached.Some? {
        return Ok(cached.value), Trip(before, latestRateCache.Contents(), readings, None, Ok(cached.value));
      }
      r := provider.LatestRate(source, target);
      ghost var more := StoreReply(latestRateCache, cacheKey, r, before, now);
      Join(old(latestRateCache.clock.readings), readings, more);
      trip := Trip(before, latestRateCache.Contents(), readings + more, Some(r), r);
    }

    static method Apply(amount: real, rate: ExchangeRate) returns (r: ConversionResult)
      ensures r == Converted(amount, rate)
    {
      r := ConversionResult(amount, amount * rate.rate, rate.rate, rate.date);
    }

    /** What is left once both codes are known: the other checks, in order, then the rate. */
    method Resolve(source: string, target: string, amount: Amount)
      returns (r: Result<ConversionResult>, ghost trip: Option<Trip<ExchangeRate>>)
      requires latestRateCache.Valid() && provider !in latestRateCache.Repr
      modifies latestRateCache.Repr, latestRateCache.clock, provider
      ensures latestRateCache.Valid() && provider !in latestRateCache.Repr
        && fresh(latestRateCache.Repr - old(latestRateCache.Repr))
      ensures latestRateCache.clock.now >= old(latestRateCache.clock.now)
        && (old(latestRateCache.Recorded()) ==> latestRateCache.Recorded())
      ensures ConvertDone(source, target, amount, None, latestRateCache.limits,
                          old(latestRateCache.Contents()), latestRateCache.Contents(), trip, r)
      ensures provider.calls == old(provider.calls) + RateCalls(source, target, trip)
    {
      if source == target {
        return Err(InvalidArgument), None;
      }
      if amount.NotFinite? || amount.value < MIN_AMOUNT || amount.value > MAX_AMOUNT {
        return Err(InvalidArgument), None;
      }
      var rate;
      ghost var access;
      rate, access := RateOf(source, target);
      trip := Some(access);
      if rate.Err? {
        return Err(rate.error), trip;
      }
      var result := Apply(amount.value, rate.value);
      r := Ok(result);
    }

    method Convert(sourceCurrency: string, targetCurrency: string, amount: Amount)
      returns (r: Result<ConversionResult>, ghost c: Checks, ghost trip: Option<Trip<ExchangeRate>>)
      requires Valid()
      modifies latestRateCache.Repr, catalog.cache.Repr, latestRateCache.clock, provider
      ensures Valid()
      ensures old(latestRateCache.Recorded()) ==> latestRateCache.Recorded()
      ensures old(catalog.cache.Recorded()) ==> catalog.cache.Recorded()
      ensures Checked(c, Upper(sourceCurrency), Upper(targetCurrency), catalog.cache.limits)
      ensures c.Before() == old(catalog.cache.Contents()) && c.After() == catalog.cache.Contents()
      ensures ConvertDone(Upper(sourceCurrency), Upper(targetCurrency), amount, c.refused, latestRateCache.limits,
                          old(latestRateCache.Contents()), latestRateCache.Contents(), trip, r)
      ensures r.Ok? ==> amount.Finite? && r.value.sourceAmount == amount.value
      ensures r.Ok? ==> r.value.convertedAmount == amount.value * r.value.exchangeRate
      ensures provider.calls == old(provider.calls)
        + c.Calls() + RateCalls(Upper(sourceCurrency), Upper(targetCurrency), trip)
    {
      hide TimeAndSizeBoundedCache.Valid, Checked, ConvertDone;
      var source := ToUpper(sourceCurrency);
      var target := ToUpper(targetCurrency);
      var refused;
      refused, c := catalog.CheckCodes(source, target);
      if refused.Some? {
        RefusedDone(source, target, amount, refused.value, latestRateCache.limits, latestRateCache.Contents());
        return Err(refused.value), c, None;
      }
      ghost var before := latestRateCache.Contents();
      r, trip := Resolve(source, target, amount);
      ConvertDoneMeans(source, target, amount, None, latestRateCache.limits, before, latestRateCache.Contents(),
                       trip, r);
    }
  }

  class HistoryService {
    const provider: ExchangeRateProvider
    const historyCache: TimeAndSizeBoundedCache<seq<ExchangeRate>>
    const catalog: CurrencyCatalogService

    ghost predicate Valid()
      reads historyCache, historyCache.Repr, catalog.cache, catalog.cache.Repr
    {
      && historyCache.Valid() && catalog.Valid()
      && historyCache.Repr !! catalog.cache.Repr
      && historyCache.clock == catalog.cache.clock
      && provider == catalog.provider && provider !in historyCache.Repr
    }

    constructor (provider: ExchangeRateProvider, historyCache: TimeAndSizeBoundedCache<seq<ExchangeRate>>,
                 catalog: CurrencyCatalogService)
      requires historyCache.Valid() && catalog.Valid() && historyCache.Repr !! catalog.cache.Repr
      requires historyCache.clock == catalog.cache.clock
      requires provider == catalog.provider && provider !in historyCache.Repr
      ensures Valid() && this.provider == provider && this.historyCache == historyCache && this.catalog == catalog
    {
      this.provider, this.historyCache, this.catalog := provider, historyCache, catalog;
    }

    /** The series of a query, from the cache or the provider. */
    method SeriesOf(source: string, target: string, range: DateRange)
      returns (r: Result<seq<ExchangeRate>>, ghost trip: Trip<seq<ExchangeRate>>)
      requires historyCache.Valid() && provider !in historyCache.Repr
      modifies historyCache.Repr, historyCache.clock, provider
      ensures historyCache.Valid() && provider !in historyCache.Repr
        && fresh(historyCache.Repr - old(historyCache.Repr))
      ensures historyCache.clock.now >= old(historyCache.clock.now)
        && (old(historyCache.Recorded()) ==> historyCache.Recorded())
      ensures trip.before == old(historyCache.Contents()) && trip.after == historyCache.Contents() && trip.result == r
      ensures Served(trip.before, trip.after, HistoryKey(source, target, range), historyCache.limits, trip.readings,
                     trip.asked, r)
      ensures historyCache.clock.readings == old(historyCache.clock.readings) + trip.readings
      ensures provider.calls == old(provider.calls) + HistoryCalls(source, target, range, Some(trip))
    {
      hide Served, Records, LookReadings, TimeAndSizeBoundedCache.Recorded;
      var cacheKey := source + "|" + target + "|" + range.startDate + "|" + range.endDate;
      ghost var before := historyCache.Contents();
      var cached;
      ghost var readings, now;
      cached, readings, now := Consult(historyCache, cacheKey);
      if cached.Some? {
        return Ok(cached.value), Trip(before, historyCache.Contents(), readings, None, Ok(cached.value));
      }
      r := provider.History(source, target, range);
      ghost var more := StoreReply(historyCache, cacheKey, r, before, now);
      Join(old(historyCache.clock.readings), readings, more);
      trip := Trip(before, historyCache.Contents(), readings + more, Some(r), r);
    }

    /** What is left once both codes are known: the bounds, then the series. */
    method Resolve(source: string, target: string, range: DateRange, today: string)
      returns (r: Result<seq<ExchangeRate>>, ghost trip: Option<Trip<seq<ExchangeRate>>>)
      requires historyCache.Valid() && provider !in historyCache.Repr
      modifies historyCache.Repr, historyCache.clock, provider
      ensures historyCache.Valid() && provider !in historyCache.Repr
        && fresh(historyCache.Repr - old(historyCache.Repr))
      ensures historyCache.clock.now >= old(historyCache.clock.now)
        && (old(historyCache.Recorded()) ==> historyCache.Recorded())
      ensures HistoryDone(source, target, range, today, None, historyCache.limits,
                          old(historyCache.Contents()), historyCache.Contents(), trip, r)
      ensures provider.calls == old(provider.calls) + HistoryCalls(source, target, range, trip)
    {
      if Less(range.startDate, MIN_DATE) || Less(today, range.endDate) {
        return Err(InvalidArgument), None;
      }
      ghost var access;
      r, access := SeriesOf(source, target, range);
      trip := Some(access);
    }

    method GetHistory(sourceCurrency: string, targetCurrency: string, range: DateRange, today: string)
      returns (r: Result<seq<ExchangeRate>>, ghost c: Checks, ghost trip: Option<Trip<seq<ExchangeRate>>>)
      requires Valid()
      modifies historyCache.Repr, catalog.cache.Repr, historyCache.clock, provider
      ensures Valid()
      ensures old(historyCache.Recorded()) ==> historyCache.Recorded()
      ensures old(catalog.cache.Recorded()) ==> catalog.cache.Recorded()
      ensures Checked(c, Upper(sourceCurrency), Upper(targetCurrency), catalog.cache.limits)
      ensures c.Before() == old(catalog.cache.Contents()) && c.After() == catalog.cache.Contents()
      ensures HistoryDone(Upper(sourceCurrency), Upper(targetCurrency), range, today, c.refused, historyCache.limits,
                          old(historyCache.Contents()), historyCache.Contents(), trip, r)
      ensures provider.calls == old(provider.calls)
        + c.Calls() + HistoryCalls(Upper(sourceCurrency), Upper(targetCurrency), range, trip)
    {
      hide TimeAndSizeBoundedCache.Valid, Checked;
      var source := ToUpper(sourceCurrency);
      var target := ToUpper(targetCurrency);
      var refused;
      refused, c := catalog.CheckCodes(source, target);
      if refused.Some? {
        return Err(refused.value), c, None;
      }
      r, trip := Resolve(source, target, range, today);
    }
  }
}
