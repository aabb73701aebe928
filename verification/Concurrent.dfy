/**
 Any number of requests served at once, interleaved with each other, with the sweepers and with
 the clock. Each get and each put is atomic under the cache's mutex; a lookup, the fetch it may
 lead to and the store after it are three separate steps, and nothing stops two requests from
 fetching the same thing. A sweep holds the mutex of its cache while it looks at one entry after
 the other; requests for that cache wait, everything else goes on. The provider may answer
 anything of the right type, or fail.
 */
module Concurrent {
  import opened Outcomes
  import opened Text
  import opened Domain
  import opened CacheSpec
  import opened Protocol
  import CacheRuns

  /** How a finished request came by its data. */
  datatype Evidence = NoEvidence | Own | Hit(insertedAt: int, readAt: int)

  datatype Rpc = Rpc(req: Request, pc: Pc, evidence: Evidence, validatedOn: string)

  datatype Event =
    | Missed(rpc: nat, q: Query)
    | Responded(rpc: nat, q: Query, result: Result<Answer>)
    | Stored(rpc: nat, q: Query, answer: Answer, at: int)

  type Contents = seq<Entry<Answer>>

  datatype Caches = Caches(catalog: Contents, rates: Contents, histories: Contents) {
    function At(slot: Slot): Contents {
      match slot case CatalogSlot => catalog case RateSlot => rates case HistorySlot => histories
    }

    function With(slot: Slot, es: Contents): (r: Caches)
      ensures forall other :: r.At(other) == if other == slot then es else At(other)
      ensures es == At(slot) ==> r == this
    {
      match slot
      case CatalogSlot => this.(catalog := es)
      case RateSlot => this.(rates := es)
      case HistorySlot => this.(histories := es)
    }
  }

  /** A sweep under way is known by the number of entries it has looked at and kept. */
  datatype State = State(caches: Caches, sweeps: map<Slot, nat>, now: int, today: string, rpcs: map<nat, Rpc>,
                         log: seq<Event>)

  type Config = Slot -> Limits

  datatype Action =
    | Arrive(id: nat, req: Request)
    | DoLookup(id: nat)
    | DoFetch(id: nat, result: Result<Answer>)
    | DoStore(id: nat)
    | DoValidate(id: nat)
    | DoSweep(slot: Slot)
    | Tick(later: int, laterToday: string)

  function StartState(now: int, today: string): State {
    State(Caches([], [], []), map[], now, today, map[], [])
  }

  /** The lookup of a stage: a hit goes on with the cached answer, a miss goes to the provider. */
  ghost function LookupStep(cfg: Config, s: State, id: nat, rpc: Rpc, stage: Stage): Option<State> {
    var q := QueryOf(rpc.req, stage);
    var (es, found) := Get(s.caches.At(SlotOf(q)), KeyOf(q), s.now, cfg(SlotOf(q)).maxAge);
    var s' := s.(caches := s.caches.With(SlotOf(q), es));
    match found
    case None => Some(s'.(rpcs := s.rpcs[id := rpc.(pc := Fetching(stage))], log := s.log + [Missed(id, q)]))
    case Some(a) =>
      if !CanResume(rpc.req, stage, a) then None
      else
        var evidence := if stage.Main? then Hit(es[0].insertedAt, s.now) else rpc.evidence;
        Some(s'.(rpcs := s.rpcs[id := rpc.(pc := Resume(rpc.req, stage, a), evidence := evidence)]))
  }

  /** The provider's answer arrives: an error ends the request, an answer is kept for the store. */
  ghost function FetchStep(s: State, id: nat, rpc: Rpc, stage: Stage, result: Result<Answer>): Option<State> {
    var q := QueryOf(rpc.req, stage);
    if result.Ok? && !Fits(q, result.value) then None
    else
      var pc := match result case Err(e) => Finished(Err(e)) case Ok(a) => Received(stage, a);
      Some(s.(rpcs := s.rpcs[id := rpc.(pc := pc)], log := s.log + [Responded(id, q, result)]))
  }

  /** The fetched answer is put into the cache, and the request goes on with it. */
  ghost function StoreStep(cfg: Config, s: State, id: nat, rpc: Rpc, stage: Stage, a: Answer): Option<State> {
    var q := QueryOf(rpc.req, stage);
    if !CanResume(rpc.req, stage, a) then None
    else
      var es := Put(s.caches.At(SlotOf(q)), KeyOf(q), a, s.now, cfg(SlotOf(q)).maxElements);
      var evidence := if stage.Main? then Own else rpc.evidence;
      Some(s.(caches := s.caches.With(SlotOf(q), es),
             rpcs := s.rpcs[id := rpc.(pc := Resume(rpc.req, stage, a), evidence := evidence)],
             log := s.log + [Stored(id, q, a, s.now)]))
  }

  /** The next step of a sweep: it takes the mutex, looks at an entry, or gives the mutex back. */
  ghost function SweepStep(cfg: Config, s: State, slot: Slot): State {
    var es := s.caches.At(slot);
    if slot !in s.sweeps then s.(sweeps := s.sweeps[slot := 0])
    else
      var i := s.sweeps[slot];
      if i >= |es| then s.(sweeps := s.sweeps - {slot})
      else if Expired(es[i], s.now, cfg(slot).maxAge) then s.(caches := s.caches.With(slot, es[..i] + es[i + 1..]))
      else s.(sweeps := s.sweeps[slot := i + 1])
  }

  /** The cache that the request's next lookup or store is for. */
  function SlotFor(rpc: Rpc): Slot
    requires rpc.pc.LookingUp? || rpc.pc.Fetching? || rpc.pc.Storing?
  {
    SlotOf(QueryOf(rpc.req, rpc.pc.stage))
  }

  ghost function Do(cfg: Config, s: State, a: Action): Option<State> {
    match a
    case Arrive(id, req) =>
      if id in s.rpcs then None else Some(s.(rpcs := s.rpcs[id := Rpc(req, Begin(req), NoEvidence, "")]))
    case DoLookup(id) =>
      if id !in s.rpcs || !s.rpcs[id].pc.LookingUp? || SlotFor(s.rpcs[id]) in s.sweeps then None
      else LookupStep(cfg, s, id, s.rpcs[id], s.rpcs[id].pc.stage)
    case DoFetch(id, result) =>
      if id !in s.rpcs || !s.rpcs[id].pc.Fetching? then None
      else FetchStep(s, id, s.rpcs[id], s.rpcs[id].pc.stage, result)
    case DoStore(id) =>
      if id !in s.rpcs || !s.rpcs[id].pc.Storing? || SlotFor(s.rpcs[id]) in s.sweeps then None
      else StoreStep(cfg, s, id, s.rpcs[id], s.rpcs[id].pc.stage, s.rpcs[id].pc.answer)
    case DoValidate(id) =>
      if id !in s.rpcs || !s.rpcs[id].pc.Validating? then None
      else Some(s.(rpcs := s.rpcs[id := s.rpcs[id].(pc := Validated(s.rpcs[id].req, s.today), validatedOn := s.today)]))
    case DoSweep(slot) => Some(SweepStep(cfg, s, slot))
    case Tick(later, laterToday) =>
      if later < s.now || Less(laterToday, s.today) then None else Some(s.(now := later, today := laterToday))
  }

  ghost function Run(cfg: Config, s: State, actions: seq<Action>): Option<State>
    decreases actions
  {
    if actions == [] then Some(s)
    else match Do(cfg, s, actions[0]) case None => None case Some(s') => Run(cfg, s', actions[1..])
  }

  /** Reached from empty caches by some interleaving. */
  ghost predicate Reachable(cfg: Config, s: State) {
    exists now, today, actions :: Run(cfg, StartState(now, today), actions) == Some(s)
  }

  // ----- what the log shows

  ghost predicate Provided(log: seq<Event>, q: Query, a: Answer) {
    exists r :: Responded(r, q, Ok(a)) in log
  }

  ghost predicate StoredAt(log: seq<Event>, q: Query, a: Answer, at: int) {
    exists r :: Stored(r, q, a, at) in log
  }

  /** The code was in a currency list the provider gave. */
  ghost predicate Listed(log: seq<Event>, code: string) {
    exists cs :: Provided(log, ListQuery, Currencies(cs)) && HasCode(cs, code)
  }

  /** The codes of the query were in currency lists the provider gave, and are in upper case. */
  ghost predicate QueryListed(log: seq<Event>, q: Query) {
    q.ListQuery? ||
    (Listed(log, q.source) && Listed(log, q.target) && Upper(q.source) == q.source && Upper(q.target) == q.target)
  }

  predicate Storable(a: Answer) { a.Currencies? ==> a.currencies != [] }

  /** An entry holds what the provider answered to a query with this key, put when the entry says. */
  ghost predicate From(log: seq<Event>, slot: Slot, key: string, a: Answer, insertedAt: int, q: Query) {
    && SlotOf(q) == slot && KeyOf(q) == key && QueryListed(log, q) && Fits(q, a)
    && Provided(log, q, a) && StoredAt(log, q, a, insertedAt)
  }

  ghost predicate EntryOk(log: seq<Event>, slot: Slot, e: Entry<Answer>, now: int) {
    && Storable(e.value) && e.insertedAt <= now
    && exists q :: From(log, slot, e.key, e.value, e.insertedAt, q)
  }

  ghost predicate StageOk(log: seq<Event>, rpc: Rpc, stage: Stage) {
    if rpc.req.ListCurrencies? then stage.Main?
    else
      && (!stage.SourceCheck? ==> Listed(log, Upper(rpc.req.source)))
      && (stage.Main? ==> Listed(log, Upper(rpc.req.target)) && Allowed(rpc.req, rpc.validatedOn))
  }

  /** The data of a finished request: its own fetch, or an entry that was young enough when read. */
  ghost predicate Backed(log: seq<Event>, cfg: Config, id: nat, evidence: Evidence, q: Query, a: Answer) {
    match evidence
    case NoEvidence => false
    case Own => Responded(id, q, Ok(a)) in log
    case Hit(insertedAt, readAt) =>
      && insertedAt <= readAt <= insertedAt + cfg(SlotOf(q)).maxAge
      && exists q' :: From(log, SlotOf(q), KeyOf(q), a, insertedAt, q')
  }

  ghost predicate RpcOk(log: seq<Event>, cfg: Config, id: nat, rpc: Rpc) {
    match rpc.pc
    case LookingUp(stage) => StageOk(log, rpc, stage)
    case Fetching(stage) => StageOk(log, rpc, stage)
    case Storing(stage, a) =>
      && StageOk(log, rpc, stage) && Storable(a) && Fits(QueryOf(rpc.req, stage), a)
      && Responded(id, QueryOf(rpc.req, stage), Ok(a)) in log
    case Validating =>
      !rpc.req.ListCurrencies? && Listed(log, Upper(rpc.req.source)) && Listed(log, Upper(rpc.req.target))
    case Finished(outcome) =>
      outcome.Ok? ==>
        StageOk(log, rpc, Main) && exists a :: Answers(log, cfg, id, rpc, outcome.value, a)
  }

  ghost predicate Answers(log: seq<Event>, cfg: Config, id: nat, rpc: Rpc, reply: Reply, a: Answer) {
    && CanResume(rpc.req, Main, a) && reply == ReplyWith(rpc.req, a)
    && Backed(log, cfg, id, rpc.evidence, QueryOf(rpc.req, Main), a)
  }

  ghost predicate Inv(cfg: Config, s: State) {
    && (forall slot :: CacheRuns.Good(s.caches.At(slot), cfg(slot)))
    && (forall slot, e :: e in s.caches.At(slot) ==> EntryOk(s.log, slot, e, s.now))
    && (forall id :: id in s.rpcs ==> RpcOk(s.log, cfg, id, s.rpcs[id]))
  }

  // ----- the log only grows, and what it shows stays shown

  lemma ListedGrows(log: seq<Event>, more: seq<Event>, code: string)
    ensures Listed(log, code) ==> Listed(log + more, code)
  {
    if Listed(log, code) {
      var cs :| Provided(log, ListQuery, Currencies(cs)) && HasCode(cs, code);
      var r :| Responded(r, ListQuery, Ok(Currencies(cs))) in log;
      assert Responded(r, ListQuery, Ok(Currencies(cs))) in log + more;
      assert Provided(log + more, ListQuery, Currencies(cs));
    }
  }

  lemma FromGrows(log: seq<Event>, more: seq<Event>, slot: Slot, key: string, a: Answer, insertedAt: int, q: Query)
    ensures From(log, slot, key, a, insertedAt, q) ==> From(log + more, slot, key, a, insertedAt, q)
  {
    if From(log, slot, key, a, insertedAt, q) {
      var r :| Responded(r, q, Ok(a)) in log;
      assert Responded(r, q, Ok(a)) in log + more;
      var r' :| Stored(r', q, a, insertedAt) in log;
      assert Stored(r', q, a, insertedAt) in log + more;
      if !q.ListQuery? {
        ListedGrows(log, more, q.source);
        ListedGrows(log, more, q.target);
      }
    }
  }

  lemma EntryGrows(log: seq<Event>, more: seq<Event>, slot: Slot, e: Entry<Answer>, now: int, now': int)
    requires EntryOk(log, slot, e, now) && now <= now'
    ensures EntryOk(log + more, slot, e, now')
  {
    var q :| From(log, slot, e.key, e.value, e.insertedAt, q);
    FromGrows(log, more, slot, e.key, e.value, e.insertedAt, q);
  }

  lemma RpcGrows(log: seq<Event>, more: seq<Event>, cfg: Config, id: nat, rpc: Rpc)
    requires RpcOk(log, cfg, id, rpc)
    ensures RpcOk(log + more, cfg, id, rpc)
  {
    if !rpc.req.ListCurrencies? {
      ListedGrows(log, more, Upper(rpc.req.source));
      ListedGrows(log, more, Upper(rpc.req.target));
    }
    if rpc.pc.Finished? && rpc.pc.outcome.Ok? {
      var a :| Answers(log, cfg, id, rpc, rpc.pc.outcome.value, a);
      AnswersGrow(log, more, cfg, id, rpc, rpc.pc.outcome.value, a);
    }
  }

  lemma AnswersGrow(log: seq<Event>, more: seq<Event>, cfg: Config, id: nat, rpc: Rpc, reply: Reply, a: Answer)
    requires Answers(log, cfg, id, rpc, reply, a)
    ensures Answers(log + more, cfg, id, rpc, reply, a)
  {
    var q := QueryOf(rpc.req, Main);
    if rpc.evidence.Hit? {
      var q' :| From(log, SlotOf(q), KeyOf(q), a, rpc.evidence.insertedAt, q');
      FromGrows(log, more, SlotOf(q), KeyOf(q), a, rpc.evidence.insertedAt, q');
    }
  }

  // ----- every step keeps the invariant

  /** A step that changes one cache and one request, adding only entries the log accounts for, keeps the invariant. */
  lemma StepKeeps(cfg: Config, s: State, s': State, more: seq<Event>, id: nat, slot: Slot, es: Contents)
    requires Inv(cfg, s) && s'.log == s.log + more && s.now <= s'.now
    requires s'.caches == s.caches.With(slot, es) && CacheRuns.Good(es, cfg(slot))
    requires forall e :: e in es ==> e in s.caches.At(slot) || EntryOk(s'.log, slot, e, s'.now)
    requires forall i :: i in s'.rpcs && i != id ==> i in s.rpcs && s'.rpcs[i] == s.rpcs[i]
    requires id in s'.rpcs ==> RpcOk(s'.log, cfg, id, s'.rpcs[id])
    ensures Inv(cfg, s')
  {
    forall other, e | e in s'.caches.At(other) ensures EntryOk(s'.log, other, e, s'.now) {
      if e in s.caches.At(other) { EntryGrows(s.log, more, other, e, s.now, s'.now); }
    }
    forall i | i in s'.rpcs ensures RpcOk(s'.log, cfg, i, s'.rpcs[i]) {
      if i != id { RpcGrows(s.log, more, cfg, i, s.rpcs[i]); }
    }
  }

  /** A step that logs nothing and adds no entry. */
  lemma QuietKeeps(cfg: Config, s: State, s': State, id: nat, slot: Slot, es: Contents)
    requires Inv(cfg, s) && s'.log == s.log && s.now <= s'.now
    requires s'.caches == s.caches.With(slot, es) && CacheRuns.Good(es, cfg(slot))
    requires forall e :: e in es ==> e in s.caches.At(slot)
    requires forall i :: i in s'.rpcs && i != id ==> i in s.rpcs && s'.rpcs[i] == s.rpcs[i]
    requires id in s'.rpcs ==> RpcOk(s'.log, cfg, id, s'.rpcs[id])
    ensures Inv(cfg, s')
  {
    assert s'.log == s.log + [];
    StepKeeps(cfg, s, s', [], id, slot, es);
  }

  /** Going on with an answer the provider gave is sound. */
  lemma ResumeOk(log: seq<Event>, cfg: Config, id: nat, rpc: Rpc, stage: Stage, a: Answer, evidence: Evidence)
    requires StageOk(log, rpc, stage) && Fits(QueryOf(rpc.req, stage), a)
    requires !stage.Main? ==> Provided(log, ListQuery, a)
    requires stage.Main? ==> Backed(log, cfg, id, evidence, QueryOf(rpc.req, Main), a)
    ensures CanResume(rpc.req, stage, a)
    ensures RpcOk(log, cfg, id, rpc.(pc := Resume(rpc.req, stage, a), evidence := evidence))
  {
    var rpc' := rpc.(pc := Resume(rpc.req, stage, a), evidence := evidence);
    match stage
    case SourceCheck => UpperIdempotent(rpc.req.source, '|');
    case TargetCheck => UpperIdempotent(rpc.req.target, '|');
    case Main => assert Answers(log, cfg, id, rpc', ReplyWith(rpc.req, a), a);
  }

  lemma LookupKeeps(cfg: Config, s: State, id: nat)
    requires Inv(cfg, s) && id in s.rpcs && s.rpcs[id].pc.LookingUp? && SlotFor(s.rpcs[id]) !in s.sweeps
    ensures Do(cfg, s, DoLookup(id)).Some? && Inv(cfg, Do(cfg, s, DoLookup(id)).value)
  {
    var q := QueryOf(s.rpcs[id].req, s.rpcs[id].pc.stage);
    if Get(s.caches.At(SlotOf(q)), KeyOf(q), s.now, cfg(SlotOf(q)).maxAge).1.None? {
      MissKeeps(cfg, s, id);
    } else {
      HitKeeps(cfg, s, id);
    }
  }

  lemma MissKeeps(cfg: Config, s: State, id: nat)
    requires Inv(cfg, s) && id in s.rpcs && s.rpcs[id].pc.LookingUp?
    requires var q := QueryOf(s.rpcs[id].req, s.rpcs[id].pc.stage);
      Get(s.caches.At(SlotOf(q)), KeyOf(q), s.now, cfg(SlotOf(q)).maxAge).1.None?
    ensures var next := LookupStep(cfg, s, id, s.rpcs[id], s.rpcs[id].pc.stage); next.Some? && Inv(cfg, next.value)
  {
    var rpc := s.rpcs[id];
    var q := QueryOf(rpc.req, rpc.pc.stage);
    var slot := SlotOf(q);
    GetOnly(s.caches.At(slot), KeyOf(q), s.now, cfg(slot));
    RpcGrows(s.log, [Missed(id, q)], cfg, id, rpc);
    StepKeeps(cfg, s, LookupStep(cfg, s, id, rpc, rpc.pc.stage).value, [Missed(id, q)], id, slot,
              Get(s.caches.At(slot), KeyOf(q), s.now, cfg(slot).maxAge).0);
  }

  lemma HitKeeps(cfg: Config, s: State, id: nat)
    requires Inv(cfg, s) && id in s.rpcs && s.rpcs[id].pc.LookingUp?
    requires var q := QueryOf(s.rpcs[id].req, s.rpcs[id].pc.stage);
      Get(s.caches.At(SlotOf(q)), KeyOf(q), s.now, cfg(SlotOf(q)).maxAge).1.Some?
    ensures var next := LookupStep(cfg, s, id, s.rpcs[id], s.rpcs[id].pc.stage); next.Some? && Inv(cfg, next.value)
  {
    var rpc := s.rpcs[id];
    var stage := rpc.pc.stage;
    var q := QueryOf(rpc.req, stage);
    var slot := SlotOf(q);
    var es' := Get(s.caches.At(slot), KeyOf(q), s.now, cfg(slot).maxAge).0;
    GetOnly(s.caches.At(slot), KeyOf(q), s.now, cfg(slot));
    HitOk(cfg, s, id, rpc, stage, es'[0], if stage.Main? then Hit(es'[0].insertedAt, s.now) else rpc.evidence);
    QuietKeeps(cfg, s, LookupStep(cfg, s, id, rpc, stage).value, id, slot, es');
  }

  /** Going on with a live entry is sound. */
  lemma HitOk(cfg: Config, s: State, id: nat, rpc: Rpc, stage: Stage, e: Entry<Answer>, evidence: Evidence)
    requires Inv(cfg, s) && StageOk(s.log, rpc, stage)
    requires var q := QueryOf(rpc.req, stage);
      e in s.caches.At(SlotOf(q)) && e.key == KeyOf(q) && !Expired(e, s.now, cfg(SlotOf(q)).maxAge)
    requires evidence == if stage.Main? then Hit(e.insertedAt, s.now) else rpc.evidence
    ensures CanResume(rpc.req, stage, e.value)
    ensures RpcOk(s.log, cfg, id, rpc.(pc := Resume(rpc.req, stage, e.value), evidence := evidence))
  {
    var q := QueryOf(rpc.req, stage);
    assert EntryOk(s.log, SlotOf(q), e, s.now);
    var q' :| From(s.log, SlotOf(q), e.key, e.value, e.insertedAt, q');
    ResumeOk(s.log, cfg, id, rpc, stage, e.value, evidence);
  }

  /** get lists nothing new, keeps keys distinct, and answers with the live entry it puts first. */
  lemma GetOnly(es: Contents, key: string, now: int, lim: Limits)
    requires CacheRuns.Good(es, lim)
    ensures var (es', found) := Get(es, key, now, lim.maxAge);
      && CacheRuns.Good(es', lim) && (forall e :: e in es' ==> e in es)
      && (found.Some? ==> es' != [] && es'[0] in es && es'[0].key == key && es'[0].value == found.value
                          && !Expired(es'[0], now, lim.maxAge))
  {
    CacheRuns.StepGood(es, CacheRuns.GetOp(key, now), lim);
    forall e | e in Get(es, key, now, lim.maxAge).0 ensures e in es {
      FilterMember(es, KeyOtherThan<Answer>(key), e);
    }
  }

  lemma FetchKeeps(cfg: Config, s: State, id: nat, result: Result<Answer>)
    requires Inv(cfg, s) && Do(cfg, s, DoFetch(id, result)).Some?
    ensures Inv(cfg, Do(cfg, s, DoFetch(id, result)).value)
  {
    var rpc, s' := s.rpcs[id], Do(cfg, s, DoFetch(id, result)).value;
    var more := [Responded(id, QueryOf(rpc.req, rpc.pc.stage), result)];
    RpcGrows(s.log, more, cfg, id, rpc);
    assert more[0] in s'.log;
    StepKeeps(cfg, s, s', more, id, CatalogSlot, s.caches.At(CatalogSlot));
  }

  lemma StoreKeeps(cfg: Config, s: State, id: nat)
    requires Inv(cfg, s) && id in s.rpcs && s.rpcs[id].pc.Storing? && SlotFor(s.rpcs[id]) !in s.sweeps
    ensures Do(cfg, s, DoStore(id)).Some? && Inv(cfg, Do(cfg, s, DoStore(id)).value)
  {
    var rpc := s.rpcs[id];
    var stage, a := rpc.pc.stage, rpc.pc.answer;
    var q := QueryOf(rpc.req, stage);
    var slot, key := SlotOf(q), KeyOf(q);
    var more := [Stored(id, q, a, s.now)];
    StoredOk(cfg, s.log, id, rpc, s.now);
    PutOnly(s.caches.At(slot), key, a, s.now, cfg(slot));
    StepKeeps(cfg, s, Do(cfg, s, DoStore(id)).value, more, id, slot,
              Put(s.caches.At(slot), key, a, s.now, cfg(slot).maxElements));
  }

  /** put lists nothing new but its own entry. */
  lemma PutOnly(es: Contents, key: string, a: Answer, now: int, lim: Limits)
    requires CacheRuns.Good(es, lim)
    ensures var es' := Put(es, key, a, now, lim.maxElements);
      CacheRuns.Good(es', lim) && forall e :: e in es' ==> e in es || e == Entry(key, a, now)
  {
    CacheRuns.StepGood(es, CacheRuns.PutOp(key, a, now), lim);
    forall e | e in Put(es, key, a, now, lim.maxElements) ensures e in es || e == Entry(key, a, now) {
      FilterMember(es, KeyOtherThan<Answer>(key), e);
    }
  }

  /** The entry a request stores is accounted for, and going on with it is sound. */
  lemma StoredOk(cfg: Config, log: seq<Event>, id: nat, rpc: Rpc, now: int)
    requires RpcOk(log, cfg, id, rpc) && rpc.pc.Storing?
    ensures var (stage, a, q) := (rpc.pc.stage, rpc.pc.answer, QueryOf(rpc.req, rpc.pc.stage));
      var log' := log + [Stored(id, q, a, now)];
      && CanResume(rpc.req, stage, a)
      && EntryOk(log', SlotOf(q), Entry(KeyOf(q), a, now), now)
      && RpcOk(log', cfg, id, rpc.(pc := Resume(rpc.req, stage, a),
                                   evidence := if stage.Main? then Own else rpc.evidence))
  {
    var stage, a := rpc.pc.stage, rpc.pc.answer;
    var q := QueryOf(rpc.req, stage);
    var more := [Stored(id, q, a, now)];
    var log' := log + more;
    RpcGrows(log, more, cfg, id, rpc);
    if !q.ListQuery? {
      UpperIdempotent(rpc.req.source, '|');
      UpperIdempotent(rpc.req.target, '|');
    }
    assert Responded(id, q, Ok(a)) in log' && more[0] in log';
    ResumeOk(log', cfg, id, rpc, stage, a, if stage.Main? then Own else rpc.evidence);
    assert From(log', SlotOf(q), KeyOf(q), a, now, q);
  }

  lemma SweepKeeps(cfg: Config, s: State, slot: Slot)
    requires Inv(cfg, s)
    ensures Inv(cfg, SweepStep(cfg, s, slot))
  {
    QuietKeeps(cfg, s, SweepStep(cfg, s, slot), 0, slot, SweepStep(cfg, s, slot).caches.At(slot));
  }

  lemma DoKeeps(cfg: Config, s: State, a: Action)
    requires Inv(cfg, s) && Do(cfg, s, a).Some?
    ensures Inv(cfg, Do(cfg, s, a).value)
  {
    var s' := Do(cfg, s, a).value;
    match a
    case Arrive(id, _) => QuietKeeps(cfg, s, s', id, CatalogSlot, s.caches.At(CatalogSlot));
    case DoLookup(id) => LookupKeeps(cfg, s, id);
    case DoFetch(id, result) => FetchKeeps(cfg, s, id, result);
    case DoStore(id) => StoreKeeps(cfg, s, id);
    case DoValidate(id) => QuietKeeps(cfg, s, s', id, CatalogSlot, s.caches.At(CatalogSlot));
    case DoSweep(slot) => SweepKeeps(cfg, s, slot);
    case Tick(_, _) => QuietKeeps(cfg, s, s', 0, CatalogSlot, s.caches.At(CatalogSlot));
  }

  lemma {:induction false} RunKeeps(cfg: Config, s: State, actions: seq<Action>)
    requires Inv(cfg, s) && Run(cfg, s, actions).Some?
    ensures Inv(cfg, Run(cfg, s, actions).value)
    decreases actions
  {
    if actions != [] {
      DoKeeps(cfg, s, actions[0]);
      RunKeeps(cfg, Do(cfg, s, actions[0]).value, actions[1..]);
    }
  }

  lemma ReachableInv(cfg: Config, s: State)
    requires Reachable(cfg, s)
    ensures Inv(cfg, s)
  {
    var now, today, actions :| Run(cfg, StartState(now, today), actions) == Some(s);
    RunKeeps(cfg, StartState(now, today), actions);
  }

  // ----- a sweep ends, whatever else happens

  /** How many steps a sweep under way has left. */
  ghost function SweepLeft(s: State, slot: Slot): nat {
    if slot !in s.sweeps then 0
    else if s.sweeps[slot] >= |s.caches.At(slot)| then 1
    else |s.caches.At(slot)| - s.sweeps[slot] + 1
  }

  /** Each of its own steps brings a sweep nearer to its end by one. */
  lemma SweepNearer(cfg: Config, s: State, slot: Slot)
    requires slot in s.sweeps
    ensures SweepLeft(SweepStep(cfg, s, slot), slot) == SweepLeft(s, slot) - 1
  {
  }

  /** No other step does, and none changes its cache while it is under way. */
  lemma SweepAlone(cfg: Config, s: State, a: Action, slot: Slot)
    requires Do(cfg, s, a).Some? && a != DoSweep(slot)
    ensures SweepLeft(Do(cfg, s, a).value, slot) == SweepLeft(s, slot)
    ensures slot in s.sweeps ==> Do(cfg, s, a).value.caches.At(slot) == s.caches.At(slot)
  {
  }

  ghost function SweepSteps(actions: seq<Action>, slot: Slot): nat {
    if actions == [] then 0 else (if actions[0] == DoSweep(slot) then 1 else 0) + SweepSteps(actions[1..], slot)
  }

  /**
   However a sweep is interleaved with requests, other sweeps and the clock, it ends with the last
   of as many steps as it found entries, and one more; until then each of them brings it nearer.
   */
  lemma {:induction false} SweepEnds(cfg: Config, s: State, actions: seq<Action>, slot: Slot)
    requires Run(cfg, s, actions).Some? && SweepSteps(actions, slot) <= SweepLeft(s, slot)
    ensures SweepLeft(Run(cfg, s, actions).value, slot) == SweepLeft(s, slot) - SweepSteps(actions, slot)
    decreases actions
  {
    if actions != [] {
      if actions[0] == DoSweep(slot) { SweepNearer(cfg, s, slot); } else { SweepAlone(cfg, s, actions[0], slot); }
      SweepEnds(cfg, Do(cfg, s, actions[0]).value, actions[1..], slot);
    }
  }
}
