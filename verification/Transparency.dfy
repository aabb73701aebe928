/**
 Caching changes no outcome: with a provider that always answers a query alike, every request
 ends as if it had asked the provider each time, errors included, under every interleaving.
 That needs the currency codes not to run together in the cache keys, and is proved to hold
 exactly then.
 */
module Transparency {
  import opened Outcomes
  import opened Text
  import opened Domain
  import opened Keys
  import opened CacheSpec
  import opened Protocol
  import opened Concurrent
  import opened Provenance

  /** Every response in the log is what the provider answers to that query. */
  ghost predicate Follows(log: seq<Event>, provider: Provider) {
    forall r, q, result :: Responded(r, q, result) in log ==> result == provider(q)
  }

  /** As far as it has come, a request is where it would be without caches. */
  ghost predicate OnPath(provider: Provider, rpc: Rpc) {
    var catalog := CatalogFrom(provider);
    match rpc.pc
    case LookingUp(stage) => StagePath(provider, rpc, stage)
    case Fetching(stage) => StagePath(provider, rpc, stage)
    case Storing(stage, a) => StagePath(provider, rpc, stage) && provider(QueryOf(rpc.req, stage)) == Ok(a)
    case Validating => StagePath(provider, rpc, TargetCheck) && HasCode(catalog.value, Upper(rpc.req.target))
    case Finished(outcome) => outcome == Direct(provider, rpc.req, rpc.validatedOn)
  }

  ghost predicate StagePath(provider: Provider, rpc: Rpc, stage: Stage) {
    var catalog := CatalogFrom(provider);
    if rpc.req.ListCurrencies? then stage.Main?
    else
      && (!stage.SourceCheck? ==> catalog.Ok? && HasCode(catalog.value, Upper(rpc.req.source)))
      && (stage.Main? ==> HasCode(catalog.value, Upper(rpc.req.target)) && Allowed(rpc.req, rpc.validatedOn))
  }

  ghost predicate AllOnPath(provider: Provider, s: State) {
    forall id :: id in s.rpcs ==> OnPath(provider, s.rpcs[id])
  }

  /** Resuming with the provider's own answer stays on the path. */
  lemma ResumeOnPath(provider: Provider, rpc: Rpc, stage: Stage, a: Answer, evidence: Evidence)
    requires StagePath(provider, rpc, stage) && CanResume(rpc.req, stage, a) && Storable(a)
    requires provider(QueryOf(rpc.req, stage)) == Ok(a)
    ensures OnPath(provider, rpc.(pc := Resume(rpc.req, stage, a), evidence := evidence))
  {
    if !rpc.req.ListCurrencies? {
      UpperIdempotent(rpc.req.source, '|');
      UpperIdempotent(rpc.req.target, '|');
    }
  }

  /** A cached answer under the key of a query is the provider's answer to it. */
  lemma HitFollows(provider: Provider, log: seq<Event>, q: Query, e: Entry<Answer>, now: int)
    requires Follows(log, provider) && NoClash(ListedIn(log)) && QueryListed(log, q)
    requires EntryOk(log, SlotOf(q), e, now) && e.key == KeyOf(q)
    ensures provider(q) == Ok(e.value) && Storable(e.value)
  {
    var q' :| From(log, SlotOf(q), e.key, e.value, e.insertedAt, q');
    OneQueryPerKey(log, q, q');
  }

  lemma DoOnPath(cfg: Config, provider: Provider, s: State, a: Action)
    requires Inv(cfg, s) && Do(cfg, s, a).Some? && AllOnPath(provider, s)
    requires Follows(Do(cfg, s, a).value.log, provider) && NoClash(ListedIn(s.log))
    ensures AllOnPath(provider, Do(cfg, s, a).value)
  {
    match a
    case DoLookup(id) => LookupOnPath(cfg, provider, s, id);
    case DoFetch(id, result) => FetchOnPath(cfg, provider, s, id, result);
    case DoStore(id) => StoreOnPath(cfg, provider, s, id);
    case Arrive(_, _) =>
    case DoValidate(_) =>
    case DoSweep(_) =>
    case Tick(_, _) =>
  }

  lemma FetchOnPath(cfg: Config, provider: Provider, s: State, id: nat, result: Result<Answer>)
    requires Do(cfg, s, DoFetch(id, result)).Some? && AllOnPath(provider, s)
    requires Follows(Do(cfg, s, DoFetch(id, result)).value.log, provider)
    ensures AllOnPath(provider, Do(cfg, s, DoFetch(id, result)).value)
  {
    var q := QueryOf(s.rpcs[id].req, s.rpcs[id].pc.stage);
    assert Responded(id, q, result) in Do(cfg, s, DoFetch(id, result)).value.log;
  }

  lemma StoreOnPath(cfg: Config, provider: Provider, s: State, id: nat)
    requires Inv(cfg, s) && Do(cfg, s, DoStore(id)).Some? && AllOnPath(provider, s)
    ensures AllOnPath(provider, Do(cfg, s, DoStore(id)).value)
  {
    var rpc := s.rpcs[id];
    assert RpcOk(s.log, cfg, id, rpc);
    ResumeOnPath(provider, rpc, rpc.pc.stage, rpc.pc.answer, if rpc.pc.stage.Main? then Own else rpc.evidence);
  }

  lemma LookupOnPath(cfg: Config, provider: Provider, s: State, id: nat)
    requires Inv(cfg, s) && id in s.rpcs && s.rpcs[id].pc.LookingUp? && AllOnPath(provider, s)
    requires Do(cfg, s, DoLookup(id)).Some?
    requires Follows(s.log, provider) && NoClash(ListedIn(s.log))
    ensures AllOnPath(provider, Do(cfg, s, DoLookup(id)).value)
  {
    var rpc := s.rpcs[id];
    var stage := rpc.pc.stage;
    var q := QueryOf(rpc.req, stage);
    var (es, found) := Get(s.caches.At(SlotOf(q)), KeyOf(q), s.now, cfg(SlotOf(q)).maxAge);
    assert RpcOk(s.log, cfg, id, rpc);
    assert QueryListed(s.log, q) by { if stage.Main? { MainQueryListed(s.log, rpc); } }
    if found.Some? {
      var e := Lookup(s.caches.At(SlotOf(q)), KeyOf(q)).value;
      HitFollows(provider, s.log, q, e, s.now);
      ResumeOnPath(provider, rpc, stage, found.value, if stage.Main? then Hit(e.insertedAt, s.now) else rpc.evidence);
    }
  }

  // ----- whole runs

  lemma {:induction false} LogGrows(cfg: Config, s: State, actions: seq<Action>)
    requires Run(cfg, s, actions).Some?
    ensures s.log <= Run(cfg, s, actions).value.log
    decreases actions
  {
    if actions != [] { LogGrows(cfg, Do(cfg, s, actions[0]).value, actions[1..]); }
  }

  ghost function CodesOf(currencies: seq<Currency>): string -> bool { code => HasCode(currencies, code) }

  /** The codes of the provider's catalog do not clash. */
  ghost predicate Unambiguous(provider: Provider) {
    var catalog := CatalogFrom(provider);
    catalog.Ok? ==> NoClash(CodesOf(catalog.value))
  }

  /** A log that follows an unambiguous provider lists codes of its catalog only. */
  lemma FollowsNoClash(log: seq<Event>, provider: Provider)
    requires Follows(log, provider) && Unambiguous(provider)
    ensures NoClash(ListedIn(log))
  {
    var listed := ListedIn(log);
    forall s, t, s', t' | IsCode(listed, s) && IsCode(listed, t) && IsCode(listed, s') && IsCode(listed, t')
      ensures !Straddles(s, t, s', t')
    {
      ListedInCatalog(log, provider, s);
      ListedInCatalog(log, provider, t);
      ListedInCatalog(log, provider, s');
      ListedInCatalog(log, provider, t');
    }
  }

  lemma ListedInCatalog(log: seq<Event>, provider: Provider, code: string)
    requires Follows(log, provider) && Listed(log, code)
    ensures CatalogFrom(provider).Ok? && CodesOf(CatalogFrom(provider).value)(code)
  {
    var cs :| Provided(log, ListQuery, Currencies(cs)) && HasCode(cs, code);
    var r :| Responded(r, ListQuery, Ok(Currencies(cs))) in log;
    assert provider(ListQuery) == Ok(Currencies(cs));
  }

  lemma {:induction false} RunOnPath(cfg: Config, provider: Provider, s: State, actions: seq<Action>)
    requires Inv(cfg, s) && AllOnPath(provider, s) && Run(cfg, s, actions).Some?
    requires Follows(Run(cfg, s, actions).value.log, provider) && Unambiguous(provider)
    ensures AllOnPath(provider, Run(cfg, s, actions).value)
    decreases actions
  {
    if actions != [] {
      var s' := Do(cfg, s, actions[0]).value;
      LogGrows(cfg, s', actions[1..]);
      LogGrows(cfg, s, [actions[0]]);
      assert Follows(s'.log, provider) && Follows(s.log, provider);
      FollowsNoClash(s.log, provider);
      DoKeeps(cfg, s, actions[0]);
      DoOnPath(cfg, provider, s, actions[0]);
      RunOnPath(cfg, provider, s', actions[1..]);
    }
  }

  /** In this run, every finished request ended as it would have without caches. */
  ghost predicate Transparent(cfg: Config, provider: Provider, now: int, today: string, actions: seq<Action>) {
    var end := Run(cfg, StartState(now, today), actions);
    end.Some? && Follows(end.value.log, provider) ==>
      forall id :: id in end.value.rpcs && end.value.rpcs[id].pc.Finished? ==>
        var rpc := end.value.rpcs[id]; rpc.pc.outcome == Direct(provider, rpc.req, rpc.validatedOn)
  }

  /** Cache transparency: for all requests, interleavings, capacities, ages and sweeps. */
  lemma AlwaysTransparent(cfg: Config, provider: Provider, now: int, today: string, actions: seq<Action>)
    requires Unambiguous(provider)
    ensures Transparent(cfg, provider, now, today, actions)
  {
    var end := Run(cfg, StartState(now, today), actions);
    if end.Some? && Follows(end.value.log, provider) {
      RunOnPath(cfg, provider, StartState(now, today), actions);
    }
  }

  /** In particular for every catalog whose codes hold no bar. */
  lemma TransparentWithoutBars(cfg: Config, provider: Provider, now: int, today: string, actions: seq<Action>)
    requires CatalogFrom(provider).Ok? ==> forall c :: c in CatalogFrom(provider).value ==> '|' !in c.code
    ensures Transparent(cfg, provider, now, today, actions)
  {
    if CatalogFrom(provider).Ok? { NoBarsNoClash(CodesOf(CatalogFrom(provider).value)); }
    AlwaysTransparent(cfg, provider, now, today, actions);
  }
}
