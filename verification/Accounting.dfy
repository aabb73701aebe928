/**
 Where the provider's work goes, at every reachable state: each cache miss is a fetch that is
 under way, has failed or has succeeded, and each success that may be cached is stored or about
 to be. A fetch comes from a miss and nothing else.
 */
module Accounting {
  import opened Outcomes
  import opened Protocol
  import opened Concurrent
  import Clash

  predicate IsMiss(e: Event, slot: Slot) { e.Missed? && SlotOf(e.q) == slot }
  predicate IsFailure(e: Event, slot: Slot) { e.Responded? && SlotOf(e.q) == slot && e.result.Err? }
  predicate IsSuccess(e: Event, slot: Slot) { e.Responded? && SlotOf(e.q) == slot && e.result.Ok? }
  predicate IsStorable(e: Event, slot: Slot) { IsSuccess(e, slot) && Storable(e.result.value) }
  predicate IsStored(e: Event, slot: Slot) { e.Stored? && SlotOf(e.q) == slot }

  /** How many events of a kind the log holds for a slot. */
  function Count(log: seq<Event>, kind: (Event, Slot) -> bool, slot: Slot): nat {
    if log == [] then 0
    else Count(log[..|log| - 1], kind, slot) + if kind(log[|log| - 1], slot) then 1 else 0
  }

  lemma CountSnoc(log: seq<Event>, e: Event, kind: (Event, Slot) -> bool, slot: Slot)
    ensures Count(log + [e], kind, slot) == Count(log, kind, slot) + if kind(e, slot) then 1 else 0
  {
    assert (log + [e])[..|log|] == log;
  }

  /** The request is fetching for this slot. */
  function FetchingFor(slot: Slot): Rpc -> bool {
    (rpc: Rpc) => rpc.pc.Fetching? && SlotOf(QueryOf(rpc.req, rpc.pc.stage)) == slot
  }

  /** The request holds an answer for this slot and is about to store it. */
  function StoringFor(slot: Slot): Rpc -> bool {
    (rpc: Rpc) => rpc.pc.Storing? && SlotOf(QueryOf(rpc.req, rpc.pc.stage)) == slot
  }

  ghost function Those(rpcs: map<nat, Rpc>, p: Rpc -> bool): set<nat> {
    set id | id in rpcs && p(rpcs[id])
  }

  ghost function InFlight(s: State, slot: Slot): nat { |Those(s.rpcs, FetchingFor(slot))| }
  ghost function Pending(s: State, slot: Slot): nat { |Those(s.rpcs, StoringFor(slot))| }

  ghost predicate Accounted(s: State, slot: Slot) {
    && Count(s.log, IsMiss, slot)
       == InFlight(s, slot) + Count(s.log, IsFailure, slot) + Count(s.log, IsSuccess, slot)
    && Count(s.log, IsStorable, slot) == Pending(s, slot) + Count(s.log, IsStored, slot)
    && (!slot.CatalogSlot? ==> Count(s.log, IsStorable, slot) == Count(s.log, IsSuccess, slot))
  }

  function One(b: bool): nat { if b then 1 else 0 }

  lemma SameButOne(a: set<nat>, b: set<nat>, id: nat)
    requires forall i :: i != id ==> (i in a <==> i in b)
    ensures |b| == |a| - One(id in a) + One(id in b)
  {
    var rest := a - {id};
    assert rest == b - {id};
    assert |a| == |rest| + One(id in a) by { if id in a { assert a == rest + {id}; } else { assert a == rest; } }
    assert |b| == |rest| + One(id in b) by { if id in b { assert b == rest + {id}; } else { assert b == rest; } }
  }

  /** Changing one request changes the count of a phase by that request only. */
  lemma OneRequest(rpcs: map<nat, Rpc>, id: nat, rpc: Rpc, p: Rpc -> bool)
    ensures |Those(rpcs[id := rpc], p)| == |Those(rpcs, p)| - One(id in rpcs && p(rpcs[id])) + One(p(rpc))
  {
    SameButOne(Those(rpcs, p), Those(rpcs[id := rpc], p), id);
  }

  lemma Phases(s: State, id: nat, rpc: Rpc, slot: Slot)
    ensures |Those(s.rpcs[id := rpc], FetchingFor(slot))|
         == InFlight(s, slot) - One(id in s.rpcs && FetchingFor(slot)(s.rpcs[id])) + One(FetchingFor(slot)(rpc))
    ensures |Those(s.rpcs[id := rpc], StoringFor(slot))|
         == Pending(s, slot) - One(id in s.rpcs && StoringFor(slot)(s.rpcs[id])) + One(StoringFor(slot)(rpc))
  {
    OneRequest(s.rpcs, id, rpc, FetchingFor(slot));
    OneRequest(s.rpcs, id, rpc, StoringFor(slot));
  }

  /** What a step does to the balance: the event it logs, and the phases its request leaves and enters. */
  lemma OneEvent(s: State, s': State, id: nat, e: Event, slot: Slot)
    requires Accounted(s, slot) && id in s.rpcs && id in s'.rpcs
    requires s'.log == s.log + [e] && s'.rpcs == s.rpcs[id := s'.rpcs[id]]
    requires var (f, t) := (FetchingFor(slot), StoringFor(slot));
      && One(IsMiss(e, slot)) + One(f(s.rpcs[id]))
        == One(f(s'.rpcs[id])) + One(IsFailure(e, slot)) + One(IsSuccess(e, slot))
      && One(IsStorable(e, slot)) + One(t(s.rpcs[id])) == One(t(s'.rpcs[id])) + One(IsStored(e, slot))
      && (!slot.CatalogSlot? ==> IsStorable(e, slot) == IsSuccess(e, slot))
    ensures Accounted(s', slot)
  {
    Phases(s, id, s'.rpcs[id], slot);
    CountSnoc(s.log, e, IsMiss, slot);
    CountSnoc(s.log, e, IsFailure, slot);
    CountSnoc(s.log, e, IsSuccess, slot);
    CountSnoc(s.log, e, IsStorable, slot);
    CountSnoc(s.log, e, IsStored, slot);
  }

  /** A step that logs nothing and moves its request between other phases keeps the balance. */
  lemma NoEvent(s: State, s': State, id: nat, slot: Slot)
    requires Accounted(s, slot) && id in s'.rpcs && s'.log == s.log && s'.rpcs == s.rpcs[id := s'.rpcs[id]]
    requires id in s.rpcs ==> !s.rpcs[id].pc.Fetching? && !s.rpcs[id].pc.Storing?
    requires !s'.rpcs[id].pc.Fetching? && !s'.rpcs[id].pc.Storing?
    ensures Accounted(s', slot)
  {
    Phases(s, id, s'.rpcs[id], slot);
  }

  lemma MissAccounted(s: State, s': State, id: nat, q: Query, slot: Slot)
    requires Accounted(s, slot) && id in s.rpcs && s.rpcs[id].pc.LookingUp?
      && q == QueryOf(s.rpcs[id].req, s.rpcs[id].pc.stage)
    requires s'.log == s.log + [Missed(id, q)]
    requires s'.rpcs == s.rpcs[id := s.rpcs[id].(pc := Fetching(s.rpcs[id].pc.stage))]
    ensures Accounted(s', slot)
  {
    OneEvent(s, s', id, Missed(id, q), slot);
  }

  /** A lookup either misses or goes on without logging anything. */
  lemma LookupOutcome(cfg: Config, s: State, id: nat)
    requires Do(cfg, s, DoLookup(id)).Some?
    ensures var (s', q) := (Do(cfg, s, DoLookup(id)).value, QueryOf(s.rpcs[id].req, s.rpcs[id].pc.stage));
      && id in s'.rpcs && s'.rpcs == s.rpcs[id := s'.rpcs[id]]
      && if s'.rpcs[id].pc.Fetching?
         then s'.log == s.log + [Missed(id, q)] && s'.rpcs[id] == s.rpcs[id].(pc := Fetching(s.rpcs[id].pc.stage))
         else s'.log == s.log && !s'.rpcs[id].pc.Storing?
  {
  }

  lemma LookupAccounted(cfg: Config, s: State, id: nat, slot: Slot)
    requires Accounted(s, slot) && Do(cfg, s, DoLookup(id)).Some?
    ensures Accounted(Do(cfg, s, DoLookup(id)).value, slot)
  {
    var s' := Do(cfg, s, DoLookup(id)).value;
    var rpc := s.rpcs[id];
    LookupOutcome(cfg, s, id);
    hide Do, LookupStep, Accounted;
    if s'.rpcs[id].pc.Fetching? {
      MissAccounted(s, s', id, QueryOf(rpc.req, rpc.pc.stage), slot);
    } else {
      NoEvent(s, s', id, slot);
    }
  }

  lemma FetchAccounted(cfg: Config, s: State, id: nat, result: Result<Answer>, slot: Slot)
    requires Accounted(s, slot) && Do(cfg, s, DoFetch(id, result)).Some?
    ensures Accounted(Do(cfg, s, DoFetch(id, result)).value, slot)
  {
    var rpc := s.rpcs[id];
    OneEvent(s, Do(cfg, s, DoFetch(id, result)).value, id, Responded(id, QueryOf(rpc.req, rpc.pc.stage), result), slot);
  }

  lemma StoreAccounted(cfg: Config, s: State, id: nat, slot: Slot)
    requires Accounted(s, slot) && Do(cfg, s, DoStore(id)).Some?
    ensures Accounted(Do(cfg, s, DoStore(id)).value, slot)
  {
    var rpc := s.rpcs[id];
    OneEvent(s, Do(cfg, s, DoStore(id)).value, id, Stored(id, QueryOf(rpc.req, rpc.pc.stage), rpc.pc.answer, s.now),
             slot);
  }

  lemma ArriveAccounted(cfg: Config, s: State, id: nat, req: Request, slot: Slot)
    requires Accounted(s, slot) && Do(cfg, s, Arrive(id, req)).Some?
    ensures Accounted(Do(cfg, s, Arrive(id, req)).value, slot)
  {
    NoEvent(s, Do(cfg, s, Arrive(id, req)).value, id, slot);
  }

  lemma ValidateAccounted(cfg: Config, s: State, id: nat, slot: Slot)
    requires Accounted(s, slot) && Do(cfg, s, DoValidate(id)).Some?
    ensures Accounted(Do(cfg, s, DoValidate(id)).value, slot)
  {
    NoEvent(s, Do(cfg, s, DoValidate(id)).value, id, slot);
  }

  lemma StepAccounted(cfg: Config, s: State, a: Action, slot: Slot)
    requires Accounted(s, slot) && Do(cfg, s, a).Some?
    ensures Accounted(Do(cfg, s, a).value, slot)
  {
    hide LookupStep, FetchStep, StoreStep, Count;
    match a
    case DoSweep(_) =>
    case Tick(_, _) =>
    case Arrive(id, req) => ArriveAccounted(cfg, s, id, req, slot);
    case DoValidate(id) => ValidateAccounted(cfg, s, id, slot);
    case DoLookup(id) => LookupAccounted(cfg, s, id, slot);
    case DoFetch(id, result) => FetchAccounted(cfg, s, id, result, slot);
    case DoStore(id) => StoreAccounted(cfg, s, id, slot);
  }

  lemma {:induction false} RunAccounted(cfg: Config, s: State, actions: seq<Action>, slot: Slot)
    requires Accounted(s, slot) && Run(cfg, s, actions).Some?
    ensures Accounted(Run(cfg, s, actions).value, slot)
    decreases actions
  {
    if actions != [] {
      StepAccounted(cfg, s, actions[0], slot);
      RunAccounted(cfg, Do(cfg, s, actions[0]).value, actions[1..], slot);
    }
  }

  /**
   Fetch accounting, for each cache, at every reachable state: misses are fetches under way, failed
   or succeeded; for rates and histories every success is stored or about to be, for the catalog
   every success with a non-empty list is.
   */
  lemma FetchAccounting(cfg: Config, s: State, slot: Slot)
    requires Reachable(cfg, s)
    ensures Accounted(s, slot)
  {
    var now, today, actions :| Run(cfg, StartState(now, today), actions) == Some(s);
    assert forall p :: Those(map[], p) == {};
    RunAccounted(cfg, StartState(now, today), actions, slot);
  }

  /** Two requests for the list of currencies at the same point, with nothing cached. */
  function Both(now: int, today: string, first: Pc, second: Pc, log: seq<Event>): State {
    State(Caches([], [], []), map[], now, today,
          map[0 := Rpc(ListCurrencies, first, NoEvidence, ""), 1 := Rpc(ListCurrencies, second, NoEvidence, "")], log)
  }

  lemma BothArrive(cfg: Config, now: int, today: string) returns (s1: State)
    ensures Do(cfg, StartState(now, today), Arrive(0, ListCurrencies)) == Some(s1)
    ensures Do(cfg, s1, Arrive(1, ListCurrencies)) == Some(Both(now, today, LookingUp(Main), LookingUp(Main), []))
  {
    s1 := Do(cfg, StartState(now, today), Arrive(0, ListCurrencies)).value;
  }

  /** One of the two looks the list up and misses. */
  lemma OneMisses(cfg: Config, s: State, id: nat)
    requires id in s.rpcs && s.rpcs[id].req == ListCurrencies && s.rpcs[id].pc == LookingUp(Main)
      && s.caches.catalog == [] && s.sweeps == map[]
    ensures Do(cfg, s, DoLookup(id))
         == Some(s.(rpcs := s.rpcs[id := s.rpcs[id].(pc := Fetching(Main))], log := s.log + [Missed(id, ListQuery)]))
  {
    assert s.caches.With(CatalogSlot, s.caches.At(CatalogSlot)) == s.caches;
  }

  /** One of the two is answered. */
  lemma OneAnswered(cfg: Config, s: State, id: nat, a: Answer)
    requires id in s.rpcs && s.rpcs[id].req == ListCurrencies && s.rpcs[id].pc == Fetching(Main) && Fits(ListQuery, a)
    ensures Do(cfg, s, DoFetch(id, Ok(a)))
         == Some(s.(rpcs := s.rpcs[id := s.rpcs[id].(pc := Received(Main, a))],
                    log := s.log + [Responded(id, ListQuery, Ok(a))]))
  {
  }

  /**
   Nothing joins overlapping requests: two that miss before either has stored both go to the
   provider, within one instant and whatever the capacity and maxAge.
   */
  lemma OverlapFetchesTwice(cfg: Config, now: int, today: string, a: Answer) returns (s: State)
    requires Fits(ListQuery, a)
    ensures Reachable(cfg, s) && s.now == now
    ensures s.log == [Missed(0, ListQuery), Missed(1, ListQuery), Responded(0, ListQuery, Ok(a)),
                      Responded(1, ListQuery, Ok(a))]
  {
    var looking, fetching := LookingUp(Main), Fetching(Main);
    var s0 := StartState(now, today);
    var s1 := BothArrive(cfg, now, today);
    var s2 := Both(now, today, looking, looking, []);
    OneMisses(cfg, s2, 0);
    var s3 := Do(cfg, s2, DoLookup(0)).value;
    OneMisses(cfg, s3, 1);
    var s4 := Do(cfg, s3, DoLookup(1)).value;
    OneAnswered(cfg, s4, 0, a);
    var s5 := Do(cfg, s4, DoFetch(0, Ok(a))).value;
    OneAnswered(cfg, s5, 1, a);
    s := Do(cfg, s5, DoFetch(1, Ok(a))).value;
    var before := Clash.Chain4(cfg, s0, Arrive(0, ListCurrencies), s1, Arrive(1, ListCurrencies), s2, DoLookup(0), s3,
                               DoLookup(1), s4);
    var after := InStep(cfg, s4, DoFetch(0, Ok(a)), s5, DoFetch(1, Ok(a)), s);
    Clash.RunAppend(cfg, s0, before, after);
  }

  /** Two possible actions, one after the other. */
  lemma InStep(cfg: Config, s0: State, a1: Action, s1: State, a2: Action, s2: State) returns (actions: seq<Action>)
    requires Do(cfg, s0, a1) == Some(s1) && Do(cfg, s1, a2) == Some(s2)
    ensures Run(cfg, s0, actions) == Some(s2)
  {
    actions := [a1, a2];
    assert Run(cfg, s1, actions[1..]) == Some(s2) by { Clash.OneStep(cfg, s1, a2); }
  }
}
