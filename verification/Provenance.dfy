/**
 Where the data of a finished request comes from, under every interleaving of requests,
 sweepers and clock: its own fetch, or an entry still young enough, for exactly its query.
 */
module Provenance {
  import opened Outcomes
  import opened Text
  import opened Dates
  import opened Domain
  import opened Keys
  import opened CacheSpec
  import opened Protocol
  import opened Concurrent
  import Series

  ghost predicate IsCode(listed: string -> bool, code: string) {
    listed(code) && Upper(code) == code
  }

  /** Among the upper-case codes that satisfy listed, no two pairs run together under one key. */
  ghost predicate NoClash(listed: string -> bool) {
    forall s, t, s', t' | IsCode(listed, s) && IsCode(listed, t) && IsCode(listed, s') && IsCode(listed, t') ::
      !Straddles(s, t, s', t')
  }

  ghost function ListedIn(log: seq<Event>): string -> bool { code => Listed(log, code) }

  /** In particular, codes without a bar cannot clash. */
  lemma NoBarsNoClash(listed: string -> bool)
    requires forall code :: listed(code) ==> '|' !in code
    ensures NoClash(listed)
  {
    forall s, t, s', t' | IsCode(listed, s') ensures !Straddles(s, t, s', t') {
      StraddlingNeedsBar(s, t, s', t');
    }
  }

  /** Then, among the queries the services ask, a slot and a key stand for one query. */
  lemma OneQueryPerKey(log: seq<Event>, q: Query, q': Query)
    requires NoClash(ListedIn(log)) && QueryListed(log, q) && QueryListed(log, q')
    requires SlotOf(q) == SlotOf(q') && KeyOf(q) == KeyOf(q')
    ensures q == q'
  {
    if !q.ListQuery? {
      var listed := ListedIn(log);
      assert IsCode(listed, q.source) && IsCode(listed, q.target);
      assert IsCode(listed, q'.source) && IsCode(listed, q'.target);
      RateKeyShared(q.source, q.target, q'.source, q'.target);
    }
    match q
    case ListQuery =>
    case RateQuery(s, t) =>
    case HistoryQuery(s, t, range) => HistoryKeyShared(s, t, range, q'.source, q'.target, q'.range);
  }

  lemma MainQueryListed(log: seq<Event>, rpc: Rpc)
    requires StageOk(log, rpc, Main)
    ensures QueryListed(log, QueryOf(rpc.req, Main))
  {
    if !rpc.req.ListCurrencies? {
      UpperIdempotent(rpc.req.source, '|');
      UpperIdempotent(rpc.req.target, '|');
    }
  }

  /**
   Provenance and freshness. A successful reply carries an answer the provider gave to exactly
   the request's query; the request fetched it itself, or read it from an entry put with that
   answer at most maxAge before the lookup read the clock.
   */
  lemma ProvenanceAndFreshness(cfg: Config, s: State, id: nat) returns (a: Answer)
    requires Reachable(cfg, s) && NoClash(ListedIn(s.log))
    requires id in s.rpcs && s.rpcs[id].pc.Finished? && s.rpcs[id].pc.outcome.Ok?
    ensures var (rpc, q) := (s.rpcs[id], QueryOf(s.rpcs[id].req, Main));
      && CanResume(rpc.req, Main, a) && rpc.pc.outcome.value == ReplyWith(rpc.req, a)
      && Provided(s.log, q, a)
      && match rpc.evidence
         case NoEvidence => false
         case Own => Responded(id, q, Ok(a)) in s.log
         case Hit(insertedAt, readAt) =>
           StoredAt(s.log, q, a, insertedAt) && insertedAt <= readAt <= insertedAt + cfg(SlotOf(q)).maxAge
  {
    ReachableInv(cfg, s);
    var rpc := s.rpcs[id];
    var q := QueryOf(rpc.req, Main);
    assert RpcOk(s.log, cfg, id, rpc);
    a :| Answers(s.log, cfg, id, rpc, rpc.pc.outcome.value, a);
    if rpc.evidence.Hit? {
      var q' :| From(s.log, SlotOf(q), KeyOf(q), a, rpc.evidence.insertedAt, q');
      MainQueryListed(s.log, rpc);
      OneQueryPerKey(s.log, q, q');
    }
  }

  /** Failures and empty currency lists are never cached: every entry is an answer, put when it says. */
  lemma OnlyAnswersCached(cfg: Config, s: State, slot: Slot, e: Entry<Answer>)
    requires Reachable(cfg, s) && e in s.caches.At(slot)
    ensures slot.CatalogSlot? ==> e.value.Currencies? && e.value.currencies != []
    ensures exists q :: SlotOf(q) == slot && KeyOf(q) == e.key && Provided(s.log, q, e.value)
                     && StoredAt(s.log, q, e.value, e.insertedAt)
  {
    ReachableInv(cfg, s);
    var q :| From(s.log, slot, e.key, e.value, e.insertedAt, q);
  }

  /**
   No request is ever stuck: whatever state it is in, its next step is possible, or waits only for
   a sweep of the cache it needs, which is then one step nearer to its end.
   */
  lemma NeverStuck(cfg: Config, s: State, id: nat, result: Result<Answer>)
    requires Reachable(cfg, s) && id in s.rpcs
    ensures var pc := s.rpcs[id].pc;
      if (pc.LookingUp? || pc.Storing?) && SlotFor(s.rpcs[id]) in s.sweeps then
        var (slot, next) := (SlotFor(s.rpcs[id]), Do(cfg, s, DoSweep(SlotFor(s.rpcs[id]))));
        next.Some? && next.value.rpcs == s.rpcs && SweepLeft(next.value, slot) < SweepLeft(s, slot)
      else
        match pc
        case LookingUp(_) => Do(cfg, s, DoLookup(id)).Some?
        case Fetching(stage) =>
          result.Ok? ==> Fits(QueryOf(s.rpcs[id].req, stage), result.value) ==> Do(cfg, s, DoFetch(id, result)).Some?
        case Storing(_, _) => Do(cfg, s, DoStore(id)).Some?
        case Validating => Do(cfg, s, DoValidate(id)).Some?
        case Finished(_) => true
  {
    ReachableInv(cfg, s);
    var pc := s.rpcs[id].pc;
    if (pc.LookingUp? || pc.Storing?) && SlotFor(s.rpcs[id]) in s.sweeps {
      SweepNearer(cfg, s, SlotFor(s.rpcs[id]));
    } else if pc.LookingUp? {
      LookupKeeps(cfg, s, id);
    } else if pc.Storing? {
      StoreKeeps(cfg, s, id);
    }
  }

  /** Requests, sweeps and the clock are not held back: each can take its turn in any state. */
  lemma Unrestricted(cfg: Config, s: State, id: nat, req: Request, slot: Slot, later: int, laterToday: string)
    ensures id !in s.rpcs ==>
      Do(cfg, s, Arrive(id, req)) == Some(s.(rpcs := s.rpcs[id := Rpc(req, Begin(req), NoEvidence, "")]))
    ensures Do(cfg, s, DoSweep(slot)).Some?
    ensures later >= s.now && !Less(laterToday, s.today) ==>
      Do(cfg, s, Tick(later, laterToday)) == Some(s.(now := later, today := laterToday))
  {
  }

  /** How many steps a request can still take: three for each stage, and one to check the bounds. */
  function StepsLeft(pc: Pc): nat {
    match pc
    case LookingUp(stage) => StagesLeft(stage) + 3
    case Fetching(stage) => StagesLeft(stage) + 2
    case Storing(stage, _) => StagesLeft(stage) + 1
    case Validating => 4
    case Finished(_) => 0
  }

  function StagesLeft(stage: Stage): nat {
    match stage case SourceCheck => 7 case TargetCheck => 4 case Main => 0
  }

  predicate StepOf(a: Action, id: nat) {
    a == DoLookup(id) || a == DoStore(id) || a == DoValidate(id) || (a.DoFetch? && a.id == id)
  }

  ghost function OwnSteps(actions: seq<Action>, id: nat): nat {
    if actions == [] then 0 else (if StepOf(actions[0], id) then 1 else 0) + OwnSteps(actions[1..], id)
  }

  /** Going on after a stage leaves fewer steps than the stage itself. */
  lemma ResumeNearer(req: Request, stage: Stage, a: Answer)
    requires CanResume(req, stage, a)
    ensures StepsLeft(Resume(req, stage, a)) <= StagesLeft(stage)
  {
  }

  /** A step of its own brings a request nearer to its end. */
  lemma StepNearer(cfg: Config, s: State, a: Action, id: nat)
    requires id in s.rpcs && Do(cfg, s, a).Some? && StepOf(a, id)
    ensures var s' := Do(cfg, s, a).value;
      id in s'.rpcs && s'.rpcs[id].req == s.rpcs[id].req && StepsLeft(s'.rpcs[id].pc) < StepsLeft(s.rpcs[id].pc)
  {
    hide Resume, CanResume;
    forall stage, answer | CanResume(s.rpcs[id].req, stage, answer)
      ensures StepsLeft(Resume(s.rpcs[id].req, stage, answer)) <= StagesLeft(stage)
    {
      ResumeNearer(s.rpcs[id].req, stage, answer);
    }
  }

  /** No other step touches it. */
  lemma StepElsewhere(cfg: Config, s: State, a: Action, id: nat)
    requires id in s.rpcs && Do(cfg, s, a).Some? && !StepOf(a, id)
    ensures var s' := Do(cfg, s, a).value; id in s'.rpcs && s'.rpcs[id] == s.rpcs[id]
  {
  }

  /**
   Under every interleaving a request takes at most ten steps of its own, fetches included; one
   that has none left has finished.
   */
  lemma {:induction false} RequestEnds(cfg: Config, s: State, actions: seq<Action>, id: nat)
    requires id in s.rpcs && Run(cfg, s, actions).Some?
    ensures var s' := Run(cfg, s, actions).value;
      && id in s'.rpcs && s'.rpcs[id].req == s.rpcs[id].req
      && OwnSteps(actions, id) + StepsLeft(s'.rpcs[id].pc) <= StepsLeft(s.rpcs[id].pc) <= 10
      && (StepsLeft(s'.rpcs[id].pc) == 0 <==> s'.rpcs[id].pc.Finished?)
    decreases actions
  {
    if actions != [] {
      if StepOf(actions[0], id) { StepNearer(cfg, s, actions[0], id); } else { StepElsewhere(cfg, s, actions[0], id); }
      RequestEnds(cfg, Do(cfg, s, actions[0]).value, actions[1..], id);
    }
  }

  /** The request has been through the check of its bounds. */
  predicate PastCheck(rpc: Rpc) {
    !rpc.req.ListCurrencies? && ((rpc.pc.LookingUp? && rpc.pc.stage.Main?) || (rpc.pc.Fetching? && rpc.pc.stage.Main?)
      || (rpc.pc.Storing? && rpc.pc.stage.Main?) || (rpc.pc.Finished? && rpc.pc.outcome.Ok?))
  }

  /** Its bounds are yet to be checked. */
  predicate BeforeCheck(rpc: Rpc) {
    !rpc.req.ListCurrencies? && !rpc.pc.Finished? && !PastCheck(rpc)
  }

  lemma DaysPass(cfg: Config, s: State, a: Action)
    requires Do(cfg, s, a).Some?
    ensures !Less(Do(cfg, s, a).value.today, s.today)
  {
    LessTotal(s.today, s.today);
  }

  /** The check is made by the day it is. */
  lemma CheckDated(cfg: Config, s: State, id: nat)
    requires Do(cfg, s, DoValidate(id)).Some? && !s.rpcs[id].req.ListCurrencies?
    ensures var (rpc, rpc') := (s.rpcs[id], Do(cfg, s, DoValidate(id)).value.rpcs[id]);
      && rpc'.req == rpc.req && rpc'.validatedOn == s.today && BeforeCheck(rpc) && !BeforeCheck(rpc')
      && if Allowed(rpc.req, s.today) then PastCheck(rpc') else rpc'.pc == Finished(Err(InvalidArgument))
  {
  }

  /** No other step of the request makes up for it or changes its day. */
  lemma OtherDated(cfg: Config, s: State, a: Action, id: nat)
    requires id in s.rpcs && Do(cfg, s, a).Some? && StepOf(a, id) && a != DoValidate(id)
    requires !s.rpcs[id].req.ListCurrencies?
    ensures var (rpc, rpc') := (s.rpcs[id], Do(cfg, s, a).value.rpcs[id]);
      && rpc'.req == rpc.req && rpc'.validatedOn == rpc.validatedOn
      && (PastCheck(rpc') ==> PastCheck(rpc)) && (BeforeCheck(rpc') ==> BeforeCheck(rpc))
  {
  }

  lemma StepDated(cfg: Config, s: State, a: Action, id: nat)
    requires id in s.rpcs && Do(cfg, s, a).Some? && !s.rpcs[id].req.ListCurrencies?
    ensures var (s', rpc) := (Do(cfg, s, a).value, s.rpcs[id]);
      && id in s'.rpcs && s'.rpcs[id].req == rpc.req && !Less(s'.today, s.today)
      && (s'.rpcs[id].validatedOn == if a == DoValidate(id) then s.today else rpc.validatedOn)
      && (a == DoValidate(id) ==> BeforeCheck(rpc))
      && (PastCheck(s'.rpcs[id]) ==> PastCheck(rpc) || a == DoValidate(id))
      && (BeforeCheck(s'.rpcs[id]) ==> BeforeCheck(rpc) && a != DoValidate(id))
  {
    DaysPass(cfg, s, a);
    if !StepOf(a, id) {
      StepElsewhere(cfg, s, a, id);
    } else if a == DoValidate(id) {
      CheckDated(cfg, s, id);
    } else {
      OtherDated(cfg, s, a, id);
    }
  }

  /** The day the request was checked by lies between the days of the two states. */
  ghost predicate DatedBetween(s: State, s': State, id: nat)
    requires id in s.rpcs && id in s'.rpcs
  {
    !Less(s'.rpcs[id].validatedOn, s.today) && !Less(s'.today, s'.rpcs[id].validatedOn)
  }

  /** In every run, the day a request was checked by lies between the days the run began and ended on. */
  lemma {:induction false} CheckedInTime(cfg: Config, s: State, actions: seq<Action>, id: nat)
    requires id in s.rpcs && Run(cfg, s, actions).Some? && !s.rpcs[id].req.ListCurrencies?
    ensures var s' := Run(cfg, s, actions).value;
      && id in s'.rpcs && !Less(s'.today, s.today)
      && (s'.rpcs[id].validatedOn == s.rpcs[id].validatedOn || DatedBetween(s, s', id))
      && (BeforeCheck(s.rpcs[id]) && PastCheck(s'.rpcs[id]) ==> DatedBetween(s, s', id))
      && (!BeforeCheck(s.rpcs[id]) ==> s'.rpcs[id].validatedOn == s.rpcs[id].validatedOn)
      && (PastCheck(s'.rpcs[id]) ==> BeforeCheck(s.rpcs[id]) || PastCheck(s.rpcs[id]))
    decreases actions
  {
    LessTotal(s.today, s.today);
    if actions != [] {
      var s1, s' := Do(cfg, s, actions[0]).value, Run(cfg, s, actions).value;
      hide Do, PastCheck, BeforeCheck;
      StepDated(cfg, s, actions[0], id);
      CheckedInTime(cfg, s1, actions[1..], id);
      NotLessTransitive(s'.today, s1.today, s.today);
      NotLessTransitive(s'.rpcs[id].validatedOn, s1.today, s.today);
    }
  }

  lemma NotLessTransitive(a: string, b: string, c: string)
    ensures !Less(a, b) && !Less(b, c) ==> !Less(a, c)
  {
    LessTotal(a, b);
    LessTotal(b, c);
    if Less(b, a) && Less(c, b) { LessTransitive(c, b, a); }
    LessTotal(a, c);
  }

  /** The provider's histories are series the client made of some reply to the query. */
  ghost predicate HistoriesNormalised(log: seq<Event>) {
    forall source: string, target: string, range: DateRange, points: seq<ExchangeRate> ::
      Provided(log, HistoryQuery(source, target, range), Points(points))
      ==> exists days :: NormalisedFrom(days, source, target, range, points)
  }

  ghost predicate NormalisedFrom(days: seq<Series.Day>, source: string, target: string, range: DateRange,
                                 points: seq<ExchangeRate>) {
    Series.DistinctDates(days) && Series.Normalised(Series.Rates(days), source, target, range) == Ok(points)
  }

  /**
   So a successful history, fetched or cached, holds quotes of the requested codes with dates
   within the requested range, which lies within the dates selectable on the day of validation;
   and each date that has the shape of a date is, in time, within both.
   */
  lemma HistoryInBounds(cfg: Config, s: State, id: nat, i: nat)
    requires Reachable(cfg, s) && NoClash(ListedIn(s.log)) && HistoriesNormalised(s.log)
    requires id in s.rpcs && s.rpcs[id].req.GetHistory? && IsoDate(s.rpcs[id].validatedOn)
    requires s.rpcs[id].pc.Finished? && s.rpcs[id].pc.outcome.Ok?
    requires s.rpcs[id].pc.outcome.value.History? && i < |s.rpcs[id].pc.outcome.value.points|
    ensures var (rpc, point) := (s.rpcs[id], s.rpcs[id].pc.outcome.value.points[i]);
      var (date, range) := (point.date, rpc.req.range);
      && point.base == Upper(rpc.req.source) && point.quote == Upper(rpc.req.target)
      && Within(date, range.startDate, range.endDate) && RangeAllowed(range, rpc.validatedOn)
      && (IsoDate(date) ==>
            && !Before(date, range.startDate) && !Before(range.endDate, date)
            && !Before(date, MIN_DATE) && !Before(rpc.validatedOn, date))
  {
    ReachableInv(cfg, s);
    var a := ProvenanceAndFreshness(cfg, s, id);
    var rpc := s.rpcs[id];
    assert RpcOk(s.log, cfg, id, rpc);
    var source, target, range := Upper(rpc.req.source), Upper(rpc.req.target), rpc.req.range;
    assert Provided(s.log, HistoryQuery(source, target, range), Points(a.points));
    var days :| NormalisedFrom(days, source, target, range, a.points);
    Series.SeriesInRange(days, source, target, range, a.points[i]);
    if IsoDate(a.points[i].date) {
      MinDateIsDate();
      WithinInTime(a.points[i].date, range, MIN_DATE, rpc.validatedOn);
    }
  }

  lemma MinDateIsDate()
    ensures IsoDate(MIN_DATE)
  {
  }
}
