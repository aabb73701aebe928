/**
 Each cache, however its requests and sweeps are interleaved with everything else, goes through a
 run of plain operations, so that the theorems about runs hold of the caches of the running
 services: the capacity is kept, the list is in order of recency, and what a get finds is the
 latest answer stored under its key.
 */
module CacheTraces {
  import opened Outcomes
  import opened CacheSpec
  import opened Protocol
  import opened Concurrent
  import CacheRuns
  import AmpleCapacity

  type CacheOp = CacheRuns.Op<Answer>

  /**
   What a step does to one cache. An entry that a sweep finds expired leaves the cache as it would
   if a get had found it so.
   */
  ghost function Operations(cfg: Config, s: State, a: Action, slot: Slot): seq<CacheOp>
    requires Do(cfg, s, a).Some?
  {
    match a
    case DoLookup(id) =>
      var q := QueryOf(s.rpcs[id].req, s.rpcs[id].pc.stage);
      if SlotOf(q) == slot then [CacheRuns.GetOp(KeyOf(q), s.now)] else []
    case DoStore(id) =>
      var q := QueryOf(s.rpcs[id].req, s.rpcs[id].pc.stage);
      if SlotOf(q) == slot then [CacheRuns.PutOp(KeyOf(q), s.rpcs[id].pc.answer, s.now)] else []
    case DoSweep(swept) =>
      if swept == slot && Drops(cfg, s, slot) then
        [CacheRuns.GetOp(s.caches.At(slot)[s.sweeps[slot]].key, s.now)]
      else []
    case _ => []
  }

  /** The sweep under way is about to drop an entry. */
  ghost predicate Drops(cfg: Config, s: State, slot: Slot) {
    && slot in s.sweeps && s.sweeps[slot] < |s.caches.At(slot)|
    && Expired(s.caches.At(slot)[s.sweeps[slot]], s.now, cfg(slot).maxAge)
  }

  ghost function Trace(cfg: Config, s: State, actions: seq<Action>, slot: Slot): seq<CacheOp>
    requires Run(cfg, s, actions).Some?
    decreases actions
  {
    if actions == [] then []
    else Operations(cfg, s, actions[0], slot) + Trace(cfg, Do(cfg, s, actions[0]).value, actions[1..], slot)
  }

  /** The operations take the cache from one state to the other, between the two instants. */
  ghost predicate Leads(cfg: Config, s: State, ops: seq<CacheOp>, s': State, slot: Slot) {
    && CacheRuns.Run(s.caches.At(slot), ops, cfg(slot)) == s'.caches.At(slot)
    && CacheRuns.Timed(ops, s.now) && CacheRuns.End(ops, s.now) <= s'.now
  }

  lemma OneOperation(es: Contents, op: CacheOp, lim: Limits)
    ensures CacheRuns.Run(es, [op], lim) == CacheRuns.Step(es, op, lim)
  {
  }

  lemma LookupLeads(cfg: Config, s: State, id: nat, slot: Slot)
    requires Do(cfg, s, DoLookup(id)).Some?
    ensures Leads(cfg, s, Operations(cfg, s, DoLookup(id), slot), Do(cfg, s, DoLookup(id)).value, slot)
  {
    var q := QueryOf(s.rpcs[id].req, s.rpcs[id].pc.stage);
    OneOperation(s.caches.At(slot), CacheRuns.GetOp(KeyOf(q), s.now), cfg(slot));
  }

  lemma StoreLeads(cfg: Config, s: State, id: nat, slot: Slot)
    requires Do(cfg, s, DoStore(id)).Some?
    ensures Leads(cfg, s, Operations(cfg, s, DoStore(id), slot), Do(cfg, s, DoStore(id)).value, slot)
  {
    var q := QueryOf(s.rpcs[id].req, s.rpcs[id].pc.stage);
    OneOperation(s.caches.At(slot), CacheRuns.PutOp(KeyOf(q), s.rpcs[id].pc.answer, s.now), cfg(slot));
  }

  lemma SweepLeads(cfg: Config, s: State, swept: Slot, slot: Slot)
    requires CacheRuns.Good(s.caches.At(slot), cfg(slot))
    ensures Leads(cfg, s, Operations(cfg, s, DoSweep(swept), slot), SweepStep(cfg, s, swept), slot)
  {
    if swept == slot && Drops(cfg, s, slot) {
      var es, i := s.caches.At(slot), s.sweeps[slot];
      OneOperation(es, CacheRuns.GetOp(es[i].key, s.now), cfg(slot));
      LookupIs(es, es[i]);
      WithoutAt(es, i);
    }
  }

  lemma StepLeads(cfg: Config, s: State, a: Action, slot: Slot)
    requires Inv(cfg, s) && Do(cfg, s, a).Some?
    ensures Leads(cfg, s, Operations(cfg, s, a, slot), Do(cfg, s, a).value, slot)
  {
    match a
    case DoLookup(id) => LookupLeads(cfg, s, id, slot);
    case DoStore(id) => StoreLeads(cfg, s, id, slot);
    case DoSweep(swept) => SweepLeads(cfg, s, swept, slot);
    case _ =>
  }

  lemma {:induction false} TimedLater(ops: seq<CacheOp>, from: int, later: int)
    requires from <= later && CacheRuns.Timed(ops, later)
    ensures CacheRuns.Timed(ops, from) && CacheRuns.End(ops, from) <= CacheRuns.End(ops, later)
  {
  }

  lemma LeadsOn(cfg: Config, s: State, a: seq<CacheOp>, s': State, b: seq<CacheOp>, s'': State, slot: Slot)
    requires Leads(cfg, s, a, s', slot) && Leads(cfg, s', b, s'', slot)
    ensures Leads(cfg, s, a + b, s'', slot)
  {
    CacheRuns.RunAppend(s.caches.At(slot), a, b, cfg(slot));
    TimedLater(b, CacheRuns.End(a, s.now), s'.now);
    CacheRuns.TimedAppend(a, b, s.now);
  }

  lemma {:induction false} RunLeads(cfg: Config, s: State, actions: seq<Action>, slot: Slot)
    requires Inv(cfg, s) && Run(cfg, s, actions).Some?
    ensures Leads(cfg, s, Trace(cfg, s, actions, slot), Run(cfg, s, actions).value, slot)
    decreases actions
  {
    if actions != [] {
      var a, s' := actions[0], Do(cfg, s, actions[0]).value;
      DoKeeps(cfg, s, a);
      StepLeads(cfg, s, a, slot);
      RunLeads(cfg, s', actions[1..], slot);
      LeadsOn(cfg, s, Operations(cfg, s, a, slot), s', Trace(cfg, s', actions[1..], slot), Run(cfg, s, actions).value,
              slot);
    }
  }

  // ----- what was stored

  /** The puts of one cache, as the log shows them. */
  ghost function Stores(log: seq<Event>, slot: Slot): seq<CacheOp> {
    if log == [] then []
    else Stores(log[..|log| - 1], slot) + StoreOf(log[|log| - 1], slot)
  }

  ghost function StoreOf(e: Event, slot: Slot): seq<CacheOp> {
    if e.Stored? && SlotOf(e.q) == slot then [CacheRuns.PutOp(KeyOf(e.q), e.answer, e.at)] else []
  }

  lemma StoresSnoc(log: seq<Event>, e: Event, slot: Slot)
    ensures Stores(log + [e], slot) == Stores(log, slot) + StoreOf(e, slot)
  {
    assert (log + [e])[..|log|] == log;
  }

  lemma LookupStores(cfg: Config, s: State, id: nat, slot: Slot)
    requires Do(cfg, s, DoLookup(id)).Some?
    ensures Stores(Do(cfg, s, DoLookup(id)).value.log, slot) == Stores(s.log, slot)
  {
    StoresSnoc(s.log, Missed(id, QueryOf(s.rpcs[id].req, s.rpcs[id].pc.stage)), slot);
  }

  lemma FetchStores(cfg: Config, s: State, id: nat, result: Result<Answer>, slot: Slot)
    requires Do(cfg, s, DoFetch(id, result)).Some?
    ensures Stores(Do(cfg, s, DoFetch(id, result)).value.log, slot) == Stores(s.log, slot)
  {
    StoresSnoc(s.log, Responded(id, QueryOf(s.rpcs[id].req, s.rpcs[id].pc.stage), result), slot);
  }

  lemma StoreStores(cfg: Config, s: State, id: nat, slot: Slot)
    requires Do(cfg, s, DoStore(id)).Some?
    ensures Stores(Do(cfg, s, DoStore(id)).value.log, slot)
      == Stores(s.log, slot) + Operations(cfg, s, DoStore(id), slot)
  {
    var rpc := s.rpcs[id];
    StoresSnoc(s.log, Stored(id, QueryOf(rpc.req, rpc.pc.stage), rpc.pc.answer, s.now), slot);
  }

  /** The puts among the operations are the stores of the log. */
  lemma StepStores(cfg: Config, s: State, a: Action, slot: Slot)
    requires Do(cfg, s, a).Some?
    ensures Stores(Do(cfg, s, a).value.log, slot)
         == Stores(s.log, slot) + AmpleCapacity.PutsOf(Operations(cfg, s, a, slot))
  {
    hide LookupStep, FetchStep, StoreStep, Stores;
    OnePut(Operations(cfg, s, a, slot));
    match a
    case DoLookup(id) => LookupStores(cfg, s, id, slot);
    case DoFetch(id, result) => FetchStores(cfg, s, id, result, slot);
    case DoStore(id) => StoreStores(cfg, s, id, slot);
    case _ =>
  }

  lemma OnePut(ops: seq<CacheOp>)
    requires |ops| <= 1
    ensures AmpleCapacity.PutsOf(ops) == if ops != [] && ops[0].PutOp? then ops else []
  {
  }

  lemma {:induction false} RunStores(cfg: Config, s: State, actions: seq<Action>, slot: Slot)
    requires Run(cfg, s, actions).Some?
    ensures Stores(Run(cfg, s, actions).value.log, slot)
         == Stores(s.log, slot) + AmpleCapacity.PutsOf(Trace(cfg, s, actions, slot))
    decreases actions
  {
    if actions != [] {
      var a, s' := actions[0], Do(cfg, s, actions[0]).value;
      var ops, more := Operations(cfg, s, a, slot), Trace(cfg, s', actions[1..], slot);
      StepStores(cfg, s, a, slot);
      RunStores(cfg, s', actions[1..], slot);
      AmpleCapacity.PutsOfAppend(ops, more);
      AmpleCapacity.Join(Stores(s.log, slot), AmpleCapacity.PutsOf(ops), AmpleCapacity.PutsOf(more));
    }
  }

  /** The last entry the log shows stored under each key of a cache. */
  ghost function LastStored(log: seq<Event>, slot: Slot): map<string, Entry<Answer>> {
    AmpleCapacity.LastPuts(map[], Stores(log, slot))
  }

  // ----- the theorems

  /**
   In every reachable state a cache holds what a timed run of its own operations leaves, whose puts
   are the stores of the log, in their order.
   */
  lemma CachesAreRuns(cfg: Config, s: State, slot: Slot) returns (from: int, ops: seq<CacheOp>)
    requires Reachable(cfg, s)
    ensures s.caches.At(slot) == CacheRuns.Run([], ops, cfg(slot))
    ensures CacheRuns.Timed(ops, from) && CacheRuns.End(ops, from) <= s.now
    ensures AmpleCapacity.PutsOf(ops) == Stores(s.log, slot)
    ensures AmpleCapacity.LastPuts(map[], ops) == LastStored(s.log, slot)
  {
    var now, today, actions :| Run(cfg, StartState(now, today), actions) == Some(s);
    from, ops := now, Trace(cfg, StartState(now, today), actions, slot);
    RunLeads(cfg, StartState(now, today), actions, slot);
    RunStores(cfg, StartState(now, today), actions, slot);
    assert [] + AmpleCapacity.PutsOf(ops) == AmpleCapacity.PutsOf(ops);
    AmpleCapacity.LastPutsOfPuts(map[], ops);
  }

  /** So what a lookup finds is the latest answer stored under its key, by whichever request, and young enough. */
  lemma HitIsLatest(cfg: Config, s: State, slot: Slot, key: string)
    requires Reachable(cfg, s)
    ensures var found := Get(s.caches.At(slot), key, s.now, cfg(slot).maxAge).1;
      found.Some? ==> found == AmpleCapacity.LastPutAnswer(LastStored(s.log, slot), key, s.now, cfg(slot).maxAge)
  {
    var from, ops := CachesAreRuns(cfg, s, slot);
    AmpleCapacity.NeverStale(ops, key, s.now, cfg(slot));
  }

  /** And the cache misses nothing if it has room for all the keys stored so far. */
  lemma AmpleHits(cfg: Config, s: State, slot: Slot, key: string)
    requires Reachable(cfg, s) && |LastStored(s.log, slot).Keys| <= cfg(slot).maxElements
    ensures Get(s.caches.At(slot), key, s.now, cfg(slot).maxAge).1
         == AmpleCapacity.LastPutAnswer(LastStored(s.log, slot), key, s.now, cfg(slot).maxAge)
  {
    var from, ops := CachesAreRuns(cfg, s, slot);
    LastPutsKeys(map[], ops);
    AmpleCapacity.AmpleIsFaithful(ops, from, key, s.now, cfg(slot));
  }

  lemma {:induction false} LastPutsKeys(last: map<string, Entry<Answer>>, ops: seq<CacheOp>)
    ensures AmpleCapacity.LastPuts(last, ops).Keys == last.Keys + AmpleCapacity.PutKeys(ops)
    decreases ops
  {
    if ops != [] {
      AmpleCapacity.PutKeysTail(ops);
      LastPutsKeys(AmpleCapacity.LastStep(last, ops[0]), ops[1..]);
    }
  }

  /** A store gives up nothing but, when the cache overflows, the key that was put or hit longest ago. */
  lemma LeastRecentGoes(cfg: Config, now: int, today: string, actions: seq<Action>, slot: Slot, key: string, a: Answer)
    requires Run(cfg, StartState(now, today), actions).Some? && cfg(slot).maxElements > 0
    ensures var s := Run(cfg, StartState(now, today), actions).value;
      var trace := Trace(cfg, StartState(now, today), actions, slot);
      var stamped := CacheRuns.StampedRun(CacheRuns.Stamped([], map[], 0), trace, cfg(slot));
      var victims := CacheRuns.Victims(s.caches.At(slot), key, a, s.now, cfg(slot).maxElements);
      && stamped.es == s.caches.At(slot)
      && if |CacheSpec.Keys(stamped.es) + {key}| > cfg(slot).maxElements
         then exists gone :: victims == {gone} && CacheRuns.LeastRecent(stamped, gone, key)
         else victims == {}
  {
    RunLeads(cfg, StartState(now, today), actions, slot);
    CacheRuns.LruVictim(Trace(cfg, StartState(now, today), actions, slot), key, a,
                        Run(cfg, StartState(now, today), actions).value.now, cfg(slot));
  }
}
