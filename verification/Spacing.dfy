/**
 How often one thing is fetched by requests that may overlap. With room for all the keys stored,
 two answers under one key can be stored within maxAge of each other in one way only: the second
 request had missed before the first one stored.
 */
module Spacing {
  import opened Outcomes
  import opened CacheSpec
  import opened Protocol
  import opened Concurrent
  import opened CacheTraces
  import AmpleCapacity
  import Retention
  import Clash
  import Transparency

  /** The event is about this cache and key. */
  predicate Concerns(e: Event, slot: Slot, key: string) { SlotOf(e.q) == slot && KeyOf(e.q) == key }

  predicate StoresKey(e: Event, slot: Slot, key: string) { e.Stored? && Concerns(e, slot, key) }

  predicate MissesKey(e: Event, slot: Slot, key: string) { e.Missed? && Concerns(e, slot, key) }

  /** Stores do not go back in time, and the last store of the key is the one that counts. */
  ghost predicate StoresRise(log: seq<Event>, now: int, slot: Slot, key: string) {
    forall i :: 0 <= i < |log| && StoresKey(log[i], slot, key) ==>
      && log[i].at <= now
      && key in LastStored(log, slot) && log[i].at <= LastStored(log, slot)[key].insertedAt <= now
  }

  /** A miss of a key that was stored comes more than maxAge after the store. */
  ghost predicate MissesLate(log: seq<Event>, now: int, slot: Slot, key: string, maxAge: int) {
    forall i, j :: 0 <= i < j < |log| && StoresKey(log[i], slot, key) && MissesKey(log[j], slot, key)
      ==> now - log[i].at > maxAge
  }

  /** So does every store after that miss. */
  ghost predicate StoresLate(log: seq<Event>, slot: Slot, key: string, maxAge: int) {
    forall i, j, k :: 0 <= i < j < k < |log|
      && StoresKey(log[i], slot, key) && MissesKey(log[j], slot, key) && StoresKey(log[k], slot, key)
      ==> log[k].at - log[i].at > maxAge
  }

  ghost predicate Spread(cfg: Config, s: State, slot: Slot, key: string) {
    && StoresRise(s.log, s.now, slot, key)
    && MissesLate(s.log, s.now, slot, key, cfg(slot).maxAge)
    && StoresLate(s.log, slot, key, cfg(slot).maxAge)
  }

  lemma LastStoredSnoc(log: seq<Event>, e: Event, slot: Slot)
    ensures LastStored(log + [e], slot)
         == if e.Stored? && SlotOf(e.q) == slot
            then LastStored(log, slot)[KeyOf(e.q) := Entry(KeyOf(e.q), e.answer, e.at)]
            else LastStored(log, slot)
  {
    StoresSnoc(log, e, slot);
    LastPutsAppend(map[], Stores(log, slot), StoreOf(e, slot));
  }

  lemma {:induction false} LastPutsAppend(last: map<string, Entry<Answer>>, a: seq<CacheOp>, b: seq<CacheOp>)
    ensures AmpleCapacity.LastPuts(last, a + b) == AmpleCapacity.LastPuts(AmpleCapacity.LastPuts(last, a), b)
    decreases a
  {
    if a == [] {
      assert a + b == b;
    } else {
      assert (a + b)[1..] == a[1..] + b;
      LastPutsAppend(AmpleCapacity.LastStep(last, a[0]), a[1..], b);
    }
  }

  /** Everything stored under the key so far is older than maxAge. */
  ghost predicate AllExpired(log: seq<Event>, now: int, slot: Slot, key: string, maxAge: int) {
    forall i :: 0 <= i < |log| && StoresKey(log[i], slot, key) ==> now - log[i].at > maxAge
  }

  lemma RiseSnoc(log: seq<Event>, e: Event, now: int, slot: Slot, key: string)
    requires StoresRise(log, now, slot, key) && (StoresKey(e, slot, key) ==> e.at == now)
    ensures StoresRise(log + [e], now, slot, key)
  {
    LastStoredSnoc(log, e, slot);
  }

  lemma MissSnoc(log: seq<Event>, e: Event, now: int, slot: Slot, key: string, maxAge: int)
    requires MissesLate(log, now, slot, key, maxAge)
    requires MissesKey(e, slot, key) ==> AllExpired(log, now, slot, key, maxAge)
    ensures MissesLate(log + [e], now, slot, key, maxAge)
  {
  }

  lemma StoreSnoc(log: seq<Event>, e: Event, now: int, slot: Slot, key: string, maxAge: int)
    requires MissesLate(log, now, slot, key, maxAge) && StoresLate(log, slot, key, maxAge)
    requires StoresKey(e, slot, key) ==> e.at == now
    ensures StoresLate(log + [e], slot, key, maxAge)
  {
  }

  /** The log grows by a store at the present instant, by a miss after all stores have expired, or by another event. */
  lemma EventSpread(cfg: Config, s: State, s': State, e: Event, slot: Slot, key: string)
    requires Spread(cfg, s, slot, key) && s'.log == s.log + [e] && s'.now == s.now
    requires StoresKey(e, slot, key) ==> e.at == s.now
    requires MissesKey(e, slot, key) ==> AllExpired(s.log, s.now, slot, key, cfg(slot).maxAge)
    ensures Spread(cfg, s', slot, key)
  {
    hide StoresRise, MissesLate, StoresLate;
    RiseSnoc(s.log, e, s.now, slot, key);
    MissSnoc(s.log, e, s.now, slot, key, cfg(slot).maxAge);
    StoreSnoc(s.log, e, s.now, slot, key, cfg(slot).maxAge);
  }

  lemma LaterSpread(cfg: Config, s: State, s': State, slot: Slot, key: string)
    requires Spread(cfg, s, slot, key) && s'.log == s.log && s.now <= s'.now
    ensures Spread(cfg, s', slot, key)
  {
  }

  /** The key is missed, although the cache has room: whatever was stored under it has expired. */
  lemma MissExpired(cfg: Config, s: State, slot: Slot, key: string)
    requires StoresRise(s.log, s.now, slot, key) && Get(s.caches.At(slot), key, s.now, cfg(slot).maxAge).1.None?
    requires Reachable(cfg, s) && |LastStored(s.log, slot).Keys| <= cfg(slot).maxElements
    ensures AllExpired(s.log, s.now, slot, key, cfg(slot).maxAge)
  {
    AmpleHits(cfg, s, slot, key);
  }

  lemma LookupSpread(cfg: Config, s: State, id: nat, slot: Slot, key: string)
    requires Spread(cfg, s, slot, key) && Do(cfg, s, DoLookup(id)).Some?
    requires Reachable(cfg, s) && |LastStored(s.log, slot).Keys| <= cfg(slot).maxElements
    ensures Spread(cfg, Do(cfg, s, DoLookup(id)).value, slot, key)
  {
    hide Spread, AllExpired, LastStored, Reachable;
    var q := QueryOf(s.rpcs[id].req, s.rpcs[id].pc.stage);
    if Get(s.caches.At(SlotOf(q)), KeyOf(q), s.now, cfg(SlotOf(q)).maxAge).1.None? {
      if SlotOf(q) == slot && KeyOf(q) == key {
        SpreadRises(cfg, s, slot, key);
        MissExpired(cfg, s, slot, key);
      }
      EventSpread(cfg, s, Do(cfg, s, DoLookup(id)).value, Missed(id, q), slot, key);
    } else {
      LaterSpread(cfg, s, Do(cfg, s, DoLookup(id)).value, slot, key);
    }
  }

  lemma SpreadRises(cfg: Config, s: State, slot: Slot, key: string)
    requires Spread(cfg, s, slot, key)
    ensures StoresRise(s.log, s.now, slot, key)
  {
  }

  lemma StepSpread(cfg: Config, s: State, a: Action, slot: Slot, key: string)
    requires Spread(cfg, s, slot, key) && Do(cfg, s, a).Some?
    requires Reachable(cfg, s) && |LastStored(s.log, slot).Keys| <= cfg(slot).maxElements
    ensures Spread(cfg, Do(cfg, s, a).value, slot, key)
  {
    hide Spread, LastStored, Reachable, LookupStep;
    var s' := Do(cfg, s, a).value;
    match a
    case DoLookup(id) => LookupSpread(cfg, s, id, slot, key);
    case DoFetch(id, result) =>
      EventSpread(cfg, s, s', Responded(id, QueryOf(s.rpcs[id].req, s.rpcs[id].pc.stage), result), slot, key);
    case DoStore(id) =>
      var rpc := s.rpcs[id];
      EventSpread(cfg, s, s', Stored(id, QueryOf(rpc.req, rpc.pc.stage), rpc.pc.answer, s.now), slot, key);
    case _ => LaterSpread(cfg, s, s', slot, key);
  }

  // ----- whole runs

  lemma ReachableStep(cfg: Config, s: State, a: Action)
    requires Reachable(cfg, s) && Do(cfg, s, a).Some?
    ensures Reachable(cfg, Do(cfg, s, a).value)
  {
    var now, today, actions :| Run(cfg, StartState(now, today), actions) == Some(s);
    Clash.RunAppend(cfg, StartState(now, today), actions, [a]);
    Clash.OneStep(cfg, s, a);
  }

  /** What was stored stays stored. */
  lemma {:induction false} StoredKeysGrow(log: seq<Event>, more: seq<Event>, slot: Slot)
    ensures LastStored(log, slot).Keys <= LastStored(log + more, slot).Keys
  {
    if more == [] {
      assert log + more == log;
    } else {
      var n := |more| - 1;
      StoredKeysGrow(log, more[..n], slot);
      LastStoredSnoc(log + more[..n], more[n], slot);
      assert log + more == (log + more[..n]) + [more[n]];
    }
  }

  /** No more keys had been stored before a run than have been after it. */
  lemma FewerBefore(cfg: Config, s: State, actions: seq<Action>, slot: Slot)
    requires Run(cfg, s, actions).Some?
    ensures |LastStored(s.log, slot).Keys| <= |LastStored(Run(cfg, s, actions).value.log, slot).Keys|
  {
    var log := Run(cfg, s, actions).value.log;
    Transparency.LogGrows(cfg, s, actions);
    StoredKeysGrow(s.log, log[|s.log|..], slot);
    assert s.log + log[|s.log|..] == log;
    Retention.SubsetSize(LastStored(s.log, slot).Keys, LastStored(log, slot).Keys);
  }

  lemma {:induction false} RunSpread(cfg: Config, s: State, actions: seq<Action>, slot: Slot, key: string)
    requires Spread(cfg, s, slot, key) && Reachable(cfg, s) && Run(cfg, s, actions).Some?
    requires |LastStored(Run(cfg, s, actions).value.log, slot).Keys| <= cfg(slot).maxElements
    ensures Spread(cfg, Run(cfg, s, actions).value, slot, key)
    decreases actions
  {
    hide Spread, LastStored, Reachable, Do;
    if actions != [] {
      FewerBefore(cfg, s, actions, slot);
      StepSpread(cfg, s, actions[0], slot, key);
      ReachableStep(cfg, s, actions[0]);
      RunSpread(cfg, Do(cfg, s, actions[0]).value, actions[1..], slot, key);
    }
  }

  /**
   Under every interleaving, with room for all the keys stored so far: whatever is stored under a
   key after a miss of it is stored more than maxAge after whatever was stored under it before.
   */
  lemma FetchesSpaced(cfg: Config, s: State, slot: Slot, key: string, i: nat, j: nat, k: nat)
    requires Reachable(cfg, s) && |LastStored(s.log, slot).Keys| <= cfg(slot).maxElements
    requires i < j < k < |s.log|
    requires StoresKey(s.log[i], slot, key) && MissesKey(s.log[j], slot, key) && StoresKey(s.log[k], slot, key)
    ensures s.log[k].at - s.log[i].at > cfg(slot).maxAge
  {
    var now, today, actions :| Run(cfg, StartState(now, today), actions) == Some(s);
    assert Run(cfg, StartState(now, today), []) == Some(StartState(now, today));
    RunSpread(cfg, StartState(now, today), actions, slot, key);
  }

  // ----- a store comes from a miss of its own

  /** The log shows that the request missed this query. */
  ghost predicate HasMissed(log: seq<Event>, id: nat, q: Query) { Missed(id, q) in log }

  ghost predicate MissedFirst(s: State) {
    && (forall id :: id in s.rpcs && (s.rpcs[id].pc.Fetching? || s.rpcs[id].pc.Storing?) ==>
          HasMissed(s.log, id, QueryOf(s.rpcs[id].req, s.rpcs[id].pc.stage)))
    && (forall k :: 0 <= k < |s.log| && s.log[k].Stored? ==> HasMissed(s.log[..k], s.log[k].rpc, s.log[k].q))
  }

  lemma MissedFirstOn(s: State, s': State, id: nat, more: seq<Event>)
    requires MissedFirst(s) && s'.log == s.log + more && |more| <= 1
    requires forall i :: i in s'.rpcs && i != id ==> i in s.rpcs && s'.rpcs[i] == s.rpcs[i]
    requires id in s'.rpcs && (s'.rpcs[id].pc.Fetching? || s'.rpcs[id].pc.Storing?)
      ==> HasMissed(s'.log, id, QueryOf(s'.rpcs[id].req, s'.rpcs[id].pc.stage))
    requires more != [] && more[0].Stored? ==> HasMissed(s.log, more[0].rpc, more[0].q)
    ensures MissedFirst(s')
  {
    forall k | 0 <= k < |s'.log| && s'.log[k].Stored? ensures HasMissed(s'.log[..k], s'.log[k].rpc, s'.log[k].q) {
      if k < |s.log| {
        assert s'.log[..k] == s.log[..k];
      } else {
        assert s'.log[..k] == s.log;
      }
    }
  }

  lemma LookupMissedFirst(cfg: Config, s: State, id: nat)
    requires MissedFirst(s) && Do(cfg, s, DoLookup(id)).Some?
    ensures MissedFirst(Do(cfg, s, DoLookup(id)).value)
  {
    var s' := Do(cfg, s, DoLookup(id)).value;
    MissedFirstOn(s, s', id, s'.log[|s.log|..]);
  }

  lemma FetchMissedFirst(cfg: Config, s: State, id: nat, result: Result<Answer>)
    requires MissedFirst(s) && Do(cfg, s, DoFetch(id, result)).Some?
    ensures MissedFirst(Do(cfg, s, DoFetch(id, result)).value)
  {
    var s' := Do(cfg, s, DoFetch(id, result)).value;
    MissedFirstOn(s, s', id, s'.log[|s.log|..]);
  }

  lemma StoreMissedFirst(cfg: Config, s: State, id: nat)
    requires MissedFirst(s) && Do(cfg, s, DoStore(id)).Some?
    ensures MissedFirst(Do(cfg, s, DoStore(id)).value)
  {
    var s' := Do(cfg, s, DoStore(id)).value;
    MissedFirstOn(s, s', id, s'.log[|s.log|..]);
  }

  lemma StepMissedFirst(cfg: Config, s: State, a: Action)
    requires MissedFirst(s) && Do(cfg, s, a).Some?
    ensures MissedFirst(Do(cfg, s, a).value)
  {
    hide LookupStep, FetchStep, StoreStep;
    match a
    case DoLookup(id) => LookupMissedFirst(cfg, s, id);
    case DoFetch(id, result) => FetchMissedFirst(cfg, s, id, result);
    case DoStore(id) => StoreMissedFirst(cfg, s, id);
    case Arrive(id, _) => MissedFirstOn(s, Do(cfg, s, a).value, id, []);
    case DoValidate(id) => MissedFirstOn(s, Do(cfg, s, a).value, id, []);
    case DoSweep(_) => MissedFirstOn(s, Do(cfg, s, a).value, 0, []);
    case Tick(_, _) => MissedFirstOn(s, Do(cfg, s, a).value, 0, []);
  }

  lemma {:induction false} RunMissedFirst(cfg: Config, s: State, actions: seq<Action>)
    requires MissedFirst(s) && Run(cfg, s, actions).Some?
    ensures MissedFirst(Run(cfg, s, actions).value)
    decreases actions
  {
    if actions != [] {
      StepMissedFirst(cfg, s, actions[0]);
      RunMissedFirst(cfg, Do(cfg, s, actions[0]).value, actions[1..]);
    }
  }

  /** Whoever stores an answer has missed its query before. */
  lemma StoredAfterMiss(cfg: Config, s: State, k: nat) returns (j: nat)
    requires Reachable(cfg, s) && k < |s.log| && s.log[k].Stored?
    ensures j < k && s.log[j] == Missed(s.log[k].rpc, s.log[k].q)
  {
    var now, today, actions :| Run(cfg, StartState(now, today), actions) == Some(s);
    RunMissedFirst(cfg, StartState(now, today), actions);
    assert HasMissed(s.log[..k], s.log[k].rpc, s.log[k].q);
    j :| 0 <= j < k && s.log[j] == Missed(s.log[k].rpc, s.log[k].q);
  }

  /**
   So two answers stored under one key at most maxAge apart show an overlap: the request that stored
   the second one had missed before the first one was stored.
   */
  lemma OnlyOverlapsRepeat(cfg: Config, s: State, slot: Slot, key: string, i: nat, k: nat) returns (j: nat)
    requires Reachable(cfg, s) && |LastStored(s.log, slot).Keys| <= cfg(slot).maxElements
    requires i < k < |s.log| && StoresKey(s.log[i], slot, key) && StoresKey(s.log[k], slot, key)
    requires s.log[k].at - s.log[i].at <= cfg(slot).maxAge
    ensures j < i && s.log[j] == Missed(s.log[k].rpc, s.log[k].q)
    ensures forall m :: 0 <= m < k && MissesKey(s.log[m], slot, key) ==> m < i
  {
    hide Reachable, LastStored;
    j := StoredAfterMiss(cfg, s, k);
    forall m | 0 <= m < k && MissesKey(s.log[m], slot, key) ensures m < i {
      if m > i { FetchesSpaced(cfg, s, slot, key, i, m, k); }
    }
  }
}
