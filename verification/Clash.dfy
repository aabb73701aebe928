/**
 The other half of transparency: if the catalog has codes that run together in a cache key, there
 is a run in which a request is served another request's history. Together: caching is invisible
 for every provider with a given catalog exactly if the catalog's codes do not clash, whatever the
 limits of the caches.
 */
module Clash {
  import opened Outcomes
  import opened Text
  import opened Dates
  import opened Domain
  import opened Keys
  import opened CacheSpec
  import opened Protocol
  import opened Concurrent
  import opened Provenance
  import opened Transparency

  /** Caches that can be built, and in which an entry is live at least within the instant of its put. */
  ghost predicate Usable(cfg: Config) {
    forall slot :: cfg(slot).maxElements > 0 && cfg(slot).maxAge >= 0
  }

  /** A provider with the given catalog, no history for one source and one point for any other. */
  function TwoHistories(currencies: seq<Currency>, source: string): Provider {
    (q: Query) =>
      match q
      case ListQuery => Ok(Currencies(currencies))
      case RateQuery(_, _) => Err(ExternalApiUnavailable)
      case HistoryQuery(s, t, range) =>
        Ok(Points(if s == source then [] else [ExchangeRate(s, t, 1.0, range.startDate)]))
  }

  lemma {:induction false} RunAppend(cfg: Config, s: State, a: seq<Action>, b: seq<Action>)
    requires Run(cfg, s, a).Some?
    ensures Run(cfg, s, a + b) == Run(cfg, Run(cfg, s, a).value, b)
    decreases a
  {
    if a == [] {
      assert a + b == b;
    } else {
      assert (a + b)[1..] == a[1..] + b;
      RunAppend(cfg, Do(cfg, s, a[0]).value, a[1..], b);
    }
  }

  lemma OneStep(cfg: Config, s: State, a: Action)
    requires Do(cfg, s, a).Some?
    ensures Run(cfg, s, [a]) == Do(cfg, s, a)
  {
    assert Run(cfg, Do(cfg, s, a).value, []) == Do(cfg, s, a);
  }

  function Catalog(currencies: seq<Currency>): Contents { [Entry(CATALOG_KEY, Currencies(currencies), 0)] }

  /** The state in which the catalog is cached and so is what histories holds. */
  predicate Warm(s: State, currencies: seq<Currency>, histories: Contents, today: string) {
    s.caches == Caches(Catalog(currencies), [], histories) && s.sweeps == map[] && s.now == 0 && s.today == today
  }

  lemma GetSingle(key: string, a: Answer, lim: Limits)
    requires lim.maxElements > 0 && lim.maxAge >= 0
    ensures Get([Entry(key, a, 0)], key, 0, lim.maxAge) == ([Entry(key, a, 0)], Some(a))
    ensures Put([], key, a, 0, lim.maxElements) == [Entry(key, a, 0)]
  {
    var e := Entry(key, a, 0);
    WithoutAt([e], 0);
    assert Without([e], key) == [] && [e] + [] == [e];
  }

  /** A lookup that finds the one entry of its cache leaves the caches as they are. */
  lemma HitStep(cfg: Config, s: State, id: nat, stage: Stage, a: Answer)
    requires Usable(cfg)
    requires s.sweeps == map[] && s.now == 0 && id in s.rpcs && s.rpcs[id].pc == LookingUp(stage)
      && CanResume(s.rpcs[id].req, stage, a)
    requires var q := QueryOf(s.rpcs[id].req, stage); s.caches.At(SlotOf(q)) == [Entry(KeyOf(q), a, 0)]
    ensures Do(cfg, s, DoLookup(id)) == Some(s.(rpcs := s.rpcs[id := s.rpcs[id].(
      pc := Resume(s.rpcs[id].req, stage, a), evidence := if stage.Main? then Hit(0, 0) else s.rpcs[id].evidence)]))
  {
    GetSingle(KeyOf(QueryOf(s.rpcs[id].req, stage)), a, cfg(SlotOf(QueryOf(s.rpcs[id].req, stage))));
  }

  /** With an empty cache, lookup, fetch and store leave the answer cached and the request resumed. */
  lemma FetchSteps(cfg: Config, s: State, id: nat, stage: Stage, a: Answer) returns (s': State, actions: seq<Action>)
    requires Usable(cfg)
    requires s.sweeps == map[] && s.now == 0 && id in s.rpcs && s.rpcs[id].pc == LookingUp(stage)
    requires CanResume(s.rpcs[id].req, stage, a) && Storable(a)
    requires s.caches.At(SlotOf(QueryOf(s.rpcs[id].req, stage))) == []
    ensures Run(cfg, s, actions) == Some(s')
    ensures var q := QueryOf(s.rpcs[id].req, stage);
      && s'.caches == s.caches.With(SlotOf(q), [Entry(KeyOf(q), a, 0)])
      && s'.sweeps == map[] && s'.now == s.now && s'.today == s.today
      && s'.rpcs.Keys == s.rpcs.Keys
      && s'.log == s.log + [Missed(id, q)] + [Responded(id, q, Ok(a))] + [Stored(id, q, a, 0)]
  {
    var q := QueryOf(s.rpcs[id].req, stage);
    var a1, a2, a3 := DoLookup(id), DoFetch(id, Ok(a)), DoStore(id);
    var s1 := Do(cfg, s, a1).value;
    assert s1.caches == s.caches;
    var s2 := Do(cfg, s1, a2).value;
    assert s2.rpcs[id].pc == Storing(stage, a) && s2.caches == s.caches;
    GetSingle(KeyOf(q), a, cfg(SlotOf(q)));
    s' := Do(cfg, s2, a3).value;
    OneStep(cfg, s, a1);
    OneStep(cfg, s1, a2);
    OneStep(cfg, s2, a3);
    RunAppend(cfg, s1, [a2], [a3]);
    RunAppend(cfg, s, [a1], [a2] + [a3]);
    actions := [a1] + ([a2] + [a3]);
  }

  /** Filling the catalog cache. */
  lemma WarmUp(cfg: Config, currencies: seq<Currency>, today: string) returns (s: State, actions: seq<Action>)
    requires Usable(cfg)
    requires currencies != []
    ensures Run(cfg, StartState(0, today), actions) == Some(s)
    ensures Warm(s, currencies, [], today) && s.rpcs.Keys == {0}
    ensures forall r, q, result ::
      Responded(r, q, result) in s.log ==> q == ListQuery && result == Ok(Currencies(currencies))
  {
    var s0, a1 := StartState(0, today), Arrive(0, ListCurrencies);
    var s1 := Do(cfg, s0, a1).value;
    var s', rest := FetchSteps(cfg, s1, 0, Main, Currencies(currencies));
    OneStep(cfg, s0, a1);
    RunAppend(cfg, s0, [a1], rest);
    s, actions := s', [a1] + rest;
  }

  /** With the catalog cached, a history request for known codes gets to its own lookup. */
  lemma Checked(cfg: Config, s: State, currencies: seq<Currency>, histories: Contents, id: nat, source: string,
                target: string, range: DateRange, today: string)
    returns (s': State, actions: seq<Action>)
    requires Usable(cfg)
    requires Warm(s, currencies, histories, today) && id !in s.rpcs
    requires RangeAllowed(range, today)
    requires IsCode(CodesOf(currencies), source) && IsCode(CodesOf(currencies), target)
    ensures Run(cfg, s, actions) == Some(s') && Warm(s', currencies, histories, today) && s'.log == s.log
    ensures s'.rpcs == s.rpcs[id := Rpc(GetHistory(source, target, range), LookingUp(Main), NoEvidence, today)]
  {
    var req, list := GetHistory(source, target, range), Currencies(currencies);
    var a1, a2, a3, a4 := Arrive(id, req), DoLookup(id), DoLookup(id), DoValidate(id);
    var s1 := Do(cfg, s, a1).value;
    HitStep(cfg, s1, id, SourceCheck, list);
    var s2 := s1.(rpcs := s1.rpcs[id := Rpc(req, LookingUp(TargetCheck), NoEvidence, "")]);
    HitStep(cfg, s2, id, TargetCheck, list);
    var s3 := s2.(rpcs := s2.rpcs[id := Rpc(req, Validating, NoEvidence, "")]);
    s' := s3.(rpcs := s3.rpcs[id := Rpc(req, LookingUp(Main), NoEvidence, today)]);
    assert Do(cfg, s3, a4) == Some(s');
    actions := Chain4(cfg, s, a1, s1, a2, s2, a3, s3, a4, s');
  }

  lemma Chain4(cfg: Config, s0: State, a1: Action, s1: State, a2: Action, s2: State, a3: Action, s3: State, a4: Action,
               s4: State)
    returns (actions: seq<Action>)
    requires Do(cfg, s0, a1) == Some(s1) && Do(cfg, s1, a2) == Some(s2)
    requires Do(cfg, s2, a3) == Some(s3) && Do(cfg, s3, a4) == Some(s4)
    ensures Run(cfg, s0, actions) == Some(s4)
  {
    actions := [a1] + ([a2] + ([a3] + [a4]));
    OneStep(cfg, s0, a1);
    OneStep(cfg, s1, a2);
    OneStep(cfg, s2, a3);
    OneStep(cfg, s3, a4);
    RunAppend(cfg, s2, [a3], [a4]);
    RunAppend(cfg, s1, [a2], [a3] + [a4]);
    RunAppend(cfg, s0, [a1], [a2] + ([a3] + [a4]));
  }

  /** A first history request fetches the empty series and leaves it cached. */
  lemma FirstRequest(cfg: Config, s: State, currencies: seq<Currency>, id: nat, source: string, target: string,
                     range: DateRange, today: string)
    returns (s': State, actions: seq<Action>)
    requires Usable(cfg)
    requires Warm(s, currencies, [], today) && id !in s.rpcs
    requires RangeAllowed(range, today)
    requires IsCode(CodesOf(currencies), source) && IsCode(CodesOf(currencies), target)
    ensures Run(cfg, s, actions) == Some(s')
    ensures Warm(s', currencies, [Entry(HistoryKey(source, target, range), Points([]), 0)], today)
    ensures s'.rpcs.Keys == s.rpcs.Keys + {id}
    ensures forall r, q, result | Responded(r, q, result) in s'.log && Responded(r, q, result) !in s.log ::
      q == HistoryQuery(source, target, range) && result == Ok(Points([]))
  {
    var s0, before := Checked(cfg, s, currencies, [], id, source, target, range, today);
    var end, rest := FetchSteps(cfg, s0, id, Main, Points([]));
    RunAppend(cfg, s, before, rest);
    s', actions := end, before + rest;
  }

  /** A second request whose key is the same is served that empty series. */
  lemma SecondRequest(cfg: Config, s: State, currencies: seq<Currency>, id: nat, key: string, source: string,
                      target: string, range: DateRange, today: string)
    returns (s': State, actions: seq<Action>)
    requires Usable(cfg)
    requires Warm(s, currencies, [Entry(key, Points([]), 0)], today) && id !in s.rpcs
    requires RangeAllowed(range, today)
    requires IsCode(CodesOf(currencies), source) && IsCode(CodesOf(currencies), target)
    requires HistoryKey(source, target, range) == key
    ensures Run(cfg, s, actions) == Some(s') && s'.log == s.log
    ensures id in s'.rpcs && s'.rpcs[id].req == GetHistory(source, target, range)
    ensures s'.rpcs[id].pc == Finished(Ok(History([]))) && s'.rpcs[id].validatedOn == today
  {
    var s0, before := Checked(cfg, s, currencies, [Entry(key, Points([]), 0)], id, source, target, range, today);
    HitStep(cfg, s0, id, Main, Points([]));
    s' := Do(cfg, s0, DoLookup(id)).value;
    OneStep(cfg, s0, DoLookup(id));
    RunAppend(cfg, s, before, [DoLookup(id)]);
    actions := before + [DoLookup(id)];
  }

  /** Clashing codes make caching visible, whatever the limits of the caches. */
  lemma ClashIsVisible(cfg: Config, currencies: seq<Currency>, s: string, t: string, s': string, t': string,
                       range: DateRange, today: string)
    returns (actions: seq<Action>)
    requires Usable(cfg)
    requires RangeAllowed(range, today)
    requires var listed := CodesOf(currencies);
      IsCode(listed, s) && IsCode(listed, t) && IsCode(listed, s') && IsCode(listed, t')
    requires Straddles(s, t, s', t')
    ensures !Transparent(cfg, TwoHistories(currencies, s), 0, today, actions)
  {
    RateKeyShared(s, t, s', t');
    HistoryKeyShared(s, t, range, s', t', range);
    var s1, first := WarmUp(cfg, currencies, today);
    var s2, second := FirstRequest(cfg, s1, currencies, 1, s, t, range, today);
    var s3, third := SecondRequest(cfg, s2, currencies, 2, HistoryKey(s, t, range), s', t', range, today);
    RunAppend(cfg, StartState(0, today), first, second);
    RunAppend(cfg, StartState(0, today), first + second, third);
    actions := first + second + third;
    var provider := TwoHistories(currencies, s);
    assert Follows(s3.log, provider);
    assert Direct(provider, s3.rpcs[2].req, today) == Ok(History([ExchangeRate(s', t', 1.0, range.startDate)]));
  }

  lemma SelectableDay() returns (range: DateRange, today: string)
    ensures RangeAllowed(range, today)
  {
    MinDateIsDate();
    LessTotal(MIN_DATE, MIN_DATE);
    range, today := Range(MIN_DATE, MIN_DATE), MIN_DATE;
  }

  /**
   The exact condition. Take a catalog, and caches of any limits under which they can be used.
   Caching changes no outcome, whatever the provider answers to other queries and however the run
   goes, if and only if no two pairs of the catalog's upper-case codes run together under one key.
   */
  lemma TransparencyIsExact(cfg: Config, currencies: seq<Currency>)
    requires Usable(cfg)
    ensures (forall provider: Provider, now: int, today: string, actions: seq<Action> ::
               provider(ListQuery) == Ok(Currencies(currencies)) ==> Transparent(cfg, provider, now, today, actions))
      <==> NoClash(CodesOf(currencies))
  {
    if NoClash(CodesOf(currencies)) {
      forall provider: Provider, now: int, today: string, actions: seq<Action>
        | provider(ListQuery) == Ok(Currencies(currencies))
        ensures Transparent(cfg, provider, now, today, actions)
      {
        AlwaysTransparent(cfg, provider, now, today, actions);
      }
    } else {
      var listed := CodesOf(currencies);
      var s, t, s', t' :| IsCode(listed, s) && IsCode(listed, t) && IsCode(listed, s') && IsCode(listed, t')
        && Straddles(s, t, s', t');
      var range, today := SelectableDay();
      var actions := ClashIsVisible(cfg, currencies, s, t, s', t', range, today);
      assert TwoHistories(currencies, s)(ListQuery) == Ok(Currencies(currencies));
    }
  }
}
