/**
 What a caller can see. When sweeps can be observed in the answers, and when a longer maxAge can
 lose a hit: over a set of keys, both happen in some run exactly if the capacity is too small for
 the set and room for more than one, and maxAge lets an old entry stand before a younger one.
 */
module Visibility {
  import opened Outcomes
  import opened CacheSpec
  import opened CacheRuns
  import opened Retention
  import opened AmpleCapacity
  import opened Pressure
  import opened EvictionOrder

  // ----- filtering twice

  lemma {:induction false} FilterFilter<V>(es: seq<Entry<V>>, first: Entry<V> -> bool, second: Entry<V> -> bool)
    requires forall e :: e in es && second(e) ==> first(e)
    ensures Filter(Filter(es, first), second) == Filter(es, second)
  {
    if es != [] { FilterFilter(es[1..], first, second); }
  }

  lemma {:induction false} FilterCommutes<V>(es: seq<Entry<V>>, a: Entry<V> -> bool, b: Entry<V> -> bool)
    ensures Filter(Filter(es, a), b) == Filter(Filter(es, b), a)
  {
    if es != [] { FilterCommutes(es[1..], a, b); }
  }

  lemma {:induction false} FilterLength<V>(es: seq<Entry<V>>, keep: Entry<V> -> bool)
    ensures |Filter(es, keep)| < |es| || Filter(es, keep) == es
  {
    if es != [] { FilterLength(es[1..], keep); }
  }

  ghost function LiveNow<V>(now: int, maxAge: int): Entry<V> -> bool {
    (e: Entry<V>) => !Expired(e, now, maxAge)
  }

  /** The entries a get could still answer with. */
  ghost function Live<V>(es: seq<Entry<V>>, now: int, maxAge: int): seq<Entry<V>> {
    Filter(es, LiveNow<V>(now, maxAge))
  }

  /** What is live later is live now. */
  lemma LiveLater<V>(es: seq<Entry<V>>, now: int, later: int, maxAge: int)
    requires now <= later
    ensures Live(Live(es, now, maxAge), later, maxAge) == Live(es, later, maxAge)
  {
    FilterFilter(es, LiveNow<V>(now, maxAge), LiveNow<V>(later, maxAge));
  }

  lemma LiveSweep<V>(es: seq<Entry<V>>, readAt: string -> int, finish: int, maxAge: int)
    requires forall k :: readAt(k) <= finish
    ensures Live(Sweep(es, readAt, maxAge), finish, maxAge) == Live(es, finish, maxAge)
  {
    FilterFilter(es, LiveAt<V>(readAt, maxAge), LiveNow<V>(finish, maxAge));
  }

  lemma {:induction false} LiveLookup<V>(es: seq<Entry<V>>, key: string, now: int, maxAge: int)
    requires DistinctKeys(es)
    ensures Lookup(Live(es, now, maxAge), key)
         == match Lookup(es, key) case None => None case Some(e) => if Expired(e, now, maxAge) then None else Some(e)
  {
    var live := Live(es, now, maxAge);
    FilterDistinct(es, LiveNow<V>(now, maxAge));
    match Lookup(live, key) {
      case Some(e) =>
        FilterMember(es, LiveNow<V>(now, maxAge), e);
        LookupIs(es, e);
      case None =>
        match Lookup(es, key) {
          case None =>
          case Some(e) => FilterMember(es, LiveNow<V>(now, maxAge), e);
        }
    }
  }

  /** A get sees live entries only, and changes them as if there were no others. */
  lemma LiveGet<V>(es: seq<Entry<V>>, key: string, now: int, maxAge: int)
    requires DistinctKeys(es)
    ensures Live(Get(es, key, now, maxAge).0, now, maxAge) == Get(Live(es, now, maxAge), key, now, maxAge).0
    ensures Get(es, key, now, maxAge).1 == Get(Live(es, now, maxAge), key, now, maxAge).1
  {
    var live := LiveNow<V>(now, maxAge);
    LiveLookup(es, key, now, maxAge);
    FilterCommutes(es, KeyOtherThan<V>(key), live);
    match Lookup(es, key) {
      case None =>
      case Some(e) =>
        if Expired(e, now, maxAge) {
          WithoutAbsent(Live(es, now, maxAge), key);
        } else {
          FilterAppend([e], Without(es, key), live);
        }
    }
  }

  /** In a list by age the last entry is the first to expire, so that eviction cannot reach a live one too early. */
  lemma LiveBounded<V>(es: seq<Entry<V>>, n: nat, now: int, maxAge: int)
    requires ByAge(es) && es != [] && |es| <= n + 1
    ensures Live(Bounded(es, n), now, maxAge) == Bounded(Live(es, now, maxAge), n)
  {
    var keep, last := LiveNow<V>(now, maxAge), |es| - 1;
    assert es == es[..last] + [es[last]];
    FilterAppend(es[..last], [es[last]], keep);
    if keep(es[last]) {
      forall e | e in es ensures keep(e) { 
        var i :| 0 <= i < |es| && es[i] == e;
        assert e.insertedAt >= es[last].insertedAt;
      }
      FilterAll(es, keep);
      FilterAll(es[..last], keep);
    }
  }

  lemma LivePut<V>(es: seq<Entry<V>>, key: string, value: V, now: int, lim: Limits)
    requires Good(es, lim) && ByAge(es) && Past(es, now) && lim.maxAge >= 0
    ensures Live(Put(es, key, value, now, lim.maxElements), now, lim.maxAge)
         == Put(Live(es, now, lim.maxAge), key, value, now, lim.maxElements)
  {
    var e, keep, rest := Entry(key, value, now), LiveNow<V>(now, lim.maxAge), Without(es, key);
    forall x | x in rest ensures x.insertedAt <= now { FilterMember(es, KeyOtherThan<V>(key), x); }
    FrontByAge(es, e);
    DistinctPushed(es, e);
    FilterAppend([e], rest, keep);
    FilterCommutes(es, KeyOtherThan<V>(key), keep);
    LiveBounded([e] + rest, lim.maxElements, now, lim.maxAge);
  }

  // ----- sweeps

  ghost function WithoutSweeps<V>(ops: seq<Op<V>>): seq<Op<V>>
    decreases ops
  {
    if ops == [] then [] else (if ops[0].SweepOp? then [] else [ops[0]]) + WithoutSweeps(ops[1..])
  }

  /** Two lists by age with the same live entries. */
  ghost predicate Alike<V>(es: seq<Entry<V>>, es': seq<Entry<V>>, now: int, lim: Limits) {
    && Good(es, lim) && ByAge(es) && Past(es, now)
    && Good(es', lim) && ByAge(es') && Past(es', now)
    && Live(es, now, lim.maxAge) == Live(es', now, lim.maxAge)
  }

  lemma AlikeLater<V>(es: seq<Entry<V>>, es': seq<Entry<V>>, now: int, later: int, lim: Limits)
    requires Alike(es, es', now, lim) && now <= later
    ensures Alike(es, es', later, lim)
  {
    LiveLater(es, now, later, lim.maxAge);
    LiveLater(es', now, later, lim.maxAge);
  }

  lemma AlikeStep<V>(es: seq<Entry<V>>, es': seq<Entry<V>>, op: Op<V>, from: int, lim: Limits)
    requires Alike(es, es', from, lim) && Timed([op], from) && lim.maxAge >= 0
    requires HitInFront(es, op, lim) && HitInFront(es', op, lim)
    ensures Alike(Step(es, op, lim), if op.SweepOp? then es' else Step(es', op, lim), Finish(op), lim)
  {
    AlikeLater(es, es', from, Finish(op), lim);
    StepGood(es, op, lim);
    StepByAge(es, op, from, lim);
    if !op.SweepOp? {
      StepGood(es', op, lim);
      StepByAge(es', op, from, lim);
    }
    match op
    case GetOp(key, now) =>
      LiveGet(es, key, now, lim.maxAge);
      LiveGet(es', key, now, lim.maxAge);
    case PutOp(key, value, now) =>
      LivePut(es, key, value, now, lim);
      LivePut(es', key, value, now, lim);
    case SweepOp(readAt, _, finish) => LiveSweep(es, readAt, finish, lim.maxAge);
  }

  /** If all hits are in front, leaving the sweeps out of a run leaves the live entries as they are. */
  lemma {:induction false} AlikeRun<V>(es: seq<Entry<V>>, es': seq<Entry<V>>, ops: seq<Op<V>>, from: int, lim: Limits)
    requires Alike(es, es', from, lim) && Timed(ops, from) && lim.maxAge >= 0
    requires lim.maxElements == 1 || lim.maxAge == 0
    ensures Alike(Run(es, ops, lim), Run(es', WithoutSweeps(ops), lim), End(ops, from), lim)
    decreases ops
  {
    if ops != [] {
      var op := ops[0];
      AlwaysInFront(es, [op], from, lim);
      AlwaysInFront(es', [op], from, lim);
      AlikeStep(es, es', op, from, lim);
      AlikeRun(Step(es, op, lim), if op.SweepOp? then es' else Step(es', op, lim), ops[1..], Finish(op), lim);
      WithoutSweepsCons(op, ops[1..]);
      assert ops == [op] + ops[1..];
    }
  }

  lemma WithoutSweepsCons<V>(op: Op<V>, ops: seq<Op<V>>)
    ensures WithoutSweeps([op] + ops) == if op.SweepOp? then WithoutSweeps(ops) else [op] + WithoutSweeps(ops)
  {
    assert ([op] + ops)[1..] == ops;
  }

  lemma Join<T>(x: T, a: seq<T>, b: seq<T>)
    ensures [x] + (a + b) == ([x] + a) + b
  {
  }

  /** Only the sweeps of a second part are left out if the first part has none. */
  lemma {:induction false} WithoutSweepsAppend<V>(a: seq<Op<V>>, b: seq<Op<V>>)
    requires forall i :: 0 <= i < |a| ==> !a[i].SweepOp?
    ensures WithoutSweeps(a + b) == a + WithoutSweeps(b)
    decreases a
  {
    if a == [] {
      assert a + b == b;
    } else {
      var op, rest := a[0], a[1..];
      WithoutSweepsAppend(rest, b);
      Join(op, rest, b);
      WithoutSweepsCons(op, rest + b);
      Join(op, rest, WithoutSweeps(b));
      assert a == [op] + rest;
    }
  }

  /** Leaving the sweeps out keeps the order of time and the puts. */
  lemma {:induction false} WithoutSweepsRun<V>(ops: seq<Op<V>>, from: int, later: int)
    requires Timed(ops, later) && from <= later
    ensures Timed(WithoutSweeps(ops), from) && End(WithoutSweeps(ops), from) <= End(ops, later)
    ensures PutsOf(WithoutSweeps(ops)) == PutsOf(ops)
    decreases ops
  {
    if ops != [] {
      var op, rest := ops[0], WithoutSweeps(ops[1..]);
      WithoutSweepsRun(ops[1..], if op.SweepOp? then from else Finish(op), Finish(op));
      WithoutSweepsCons(op, ops[1..]);
      assert ops == [op] + ops[1..];
      if !op.SweepOp? { assert ([op] + rest)[0] == op && ([op] + rest)[1..] == rest; }
    }
  }

  /** The answer after the run is the same with and without its sweeps. */
  ghost predicate SweepsUnseen<V>(ops: seq<Op<V>>, key: string, now: int, lim: Limits) {
    Answer(Run([], ops, lim), key, now, lim) == Answer(Run([], WithoutSweeps(ops), lim), key, now, lim)
  }

  lemma SweepsUnseenIf<V>(keys: set<string>, ops: seq<Op<V>>, key: string, now: int, lim: Limits)
    requires Timed(ops, 0) && End(ops, 0) <= now && PutKeys(ops) <= keys && lim.maxElements > 0
    requires |keys| <= lim.maxElements || lim.maxElements == 1 || lim.maxAge <= 0
    ensures SweepsUnseen(ops, key, now, lim)
  {
    var ops' := WithoutSweeps(ops);
    WithoutSweepsRun(ops, 0, 0);
    if |keys| <= lim.maxElements {
      SubsetSize(PutKeys(ops), keys);
      OnlyPutsMatter(ops, ops', 0, key, now, lim);
    } else if lim.maxAge < 0 {
      NegativeAge(ops, 0, key, now, lim);
      NegativeAge(ops', 0, key, now, lim);
      LastPutsPast(map[], ops, 0);
      LastPutsPast(map[], ops', 0);
    } else {
      var es, es' := Run([], ops, lim), Run([], ops', lim);
      AlikeRun([], [], ops, 0, lim);
      AlikeLater(es, es', End(ops, 0), now, lim);
      LiveGet(es, key, now, lim.maxAge);
      LiveGet(es', key, now, lim.maxAge);
    }
  }

  /** A put that finds room keeps a live entry answering. */
  lemma Spared<V>(es: seq<Entry<V>>, others: seq<string>, more: string, v: V, now: int, lim: Limits, e: Entry<V>)
    requires Good(es, lim) && Keys(es) <= KeySet(others) && NoRepeats(others) && |others| < lim.maxElements
    requires e in es && e.key != more && !Expired(e, now, lim.maxAge)
    ensures Answer(Put(es, more, v, now, lim.maxElements), e.key, now, lim) == Some(e.value)
  {
    var put := Put(es, more, v, now, lim.maxElements);
    KeySetSize(others);
    SubsetSize(Keys(es) + {more}, KeySet(others) + {more});
    PutKeeps(es, more, v, now, lim.maxElements, e);
    StepGood(es, PutOp(more, v, now), lim);
    LookupIs(put, e);
  }

  /** The key that a strained cache gives up to one more key. */
  lemma GivenUp<V>(first: string, others: seq<string>, more: string, v: V, t: int, now: int, lim: Limits)
    returns (e: Entry<V>)
    requires NoRepeats(others) && first !in others && more != first && more !in others
    requires |others| == lim.maxElements - 1 > 0 && 0 <= t <= lim.maxAge
    ensures var es := Run([], Strain(first, others, v, t), lim);
      e.key in others && e == Entry(e.key, v, t) && e in es
        && Answer(Put(es, more, v, now, lim.maxElements), e.key, now, lim) == None
  {
    var es := Run([], Strain(first, others, v, t), lim);
    Strained(first, others, v, t, lim);
    StrainedFull(first, others, v, t, lim);
    Overflows(es, more, v, now, lim.maxElements);
    e := es[|es| - 1];
    assert OneOf(e, first, others, v, t) && e.key != es[0].key;
  }

  lemma SweptStrain<V>(first: string, others: seq<string>, v: V, lim: Limits, now: int, e: Entry<V>)
    requires NoRepeats(others) && first !in others && |others| < lim.maxElements && lim.maxAge > 0
    requires now == lim.maxAge + 1 && e in Run([], Strain(first, others, v, 1), lim) && e.insertedAt == 1
    ensures var es := Sweep(Run([], Strain(first, others, v, 1), lim), AlwaysAt(now), lim.maxAge);
      Good(es, lim) && Keys(es) <= KeySet(others) && e in es
  {
    var es := Run([], Strain(first, others, v, 1), lim);
    Strained(first, others, v, 1, lim);
    StepGood(es, SweepOp(AlwaysAt(now), now, now), lim);
    forall x ensures x in Sweep(es, AlwaysAt(now), lim.maxAge) <==> x in es && !Expired(x, now, lim.maxAge) {
      FilterMember(es, LiveAt<V>(AlwaysAt(now), lim.maxAge), x);
    }
    forall x | x in Sweep(es, AlwaysAt(now), lim.maxAge) ensures x.key in others {
      assert OneOf(x, first, others, v, 1);
    }
  }

  /** The run of a strain, perhaps a sweep, and one more key. */
  lemma StrainThen<V>(strain: seq<Op<V>>, sweep: seq<Op<V>>, put: Op<V>, lim: Limits)
    ensures Run([], strain + (sweep + [put]), lim) == Step(Run(Run([], strain, lim), sweep, lim), put, lim)
  {
    var es := Run([], strain, lim);
    RunAppend([], strain, sweep + [put], lim);
    RunAppend(es, sweep, [put], lim);
    assert Run(Run(es, sweep, lim), [put], lim) == Step(Run(es, sweep, lim), put, lim);
  }

  ghost function Sweeping<V>(now: int): seq<Op<V>> { [SweepOp(AlwaysAt(now), now, now)] }

  /** A sweep frees the place of the old entry in front, so that the next put gives up nobody. */
  lemma SweepFrees<V>(first: string, others: seq<string>, more: string, lim: Limits, v: V) returns (key: string)
    requires NoRepeats(others) && first !in others && more != first && more !in others
    requires |others| == lim.maxElements - 1 > 0 && lim.maxAge > 0
    ensures var (strain, now) := (Strain(first, others, v, 1), lim.maxAge + 1);
      && Answer(Run([], strain + ([] + [PutOp(more, v, now)]), lim), key, now, lim) == None
      && Answer(Run([], strain + (Sweeping(now) + [PutOp(more, v, now)]), lim), key, now, lim) == Some(v)
  {
    var strain, now := Strain(first, others, v, 1), lim.maxAge + 1;
    var e := GivenUp(first, others, more, v, 1, now, lim);
    key := e.key;
    var es := Run([], strain, lim);
    StrainThen(strain, [], PutOp(more, v, now), lim);
    StrainThen(strain, Sweeping(now), PutOp(more, v, now), lim);
    assert Run(es, Sweeping(now), lim) == Sweep(es, AlwaysAt(now), lim.maxAge);
    SweptStrain(first, others, v, lim, now, e);
    Spared(Sweep(es, AlwaysAt(now), lim.maxAge), others, more, v, now, lim, e);
  }

  lemma SweepingRun<V>(strain: seq<Op<V>>, more: string, v: V, now: int)
    requires Timed(strain, 0) && End(strain, 0) <= now
    ensures var ops := strain + (Sweeping(now) + [PutOp(more, v, now)]);
      Timed(ops, 0) && End(ops, 0) == now && PutKeys(ops) == PutKeys(strain) + {more}
  {
    var put := PutOp(more, v, now);
    var rest := Sweeping(now) + [put];
    assert rest[0] == SweepOp(AlwaysAt(now), now, now) && rest[1..] == [put];
    assert End([put], now) == now && [put][1..] == [];
    TimedAppend(strain, rest, 0);
    PutKeysAppend(strain, rest);
    PutKeysTail(rest);
    PutKeysTail([put]);
  }

  lemma SweepSeen<V>(keys: set<string>, lim: Limits, v: V) returns (ops: seq<Op<V>>, key: string, now: int)
    requires |keys| > lim.maxElements > 1 && lim.maxAge > 0
    ensures Timed(ops, 0) && End(ops, 0) <= now && PutKeys(ops) <= keys && !SweepsUnseen(ops, key, now, lim)
  {
    var first, others, more := Split(keys, lim.maxElements);
    now := lim.maxAge + 1;
    var strain := Strain(first, others, v, 1);
    key := SweepFrees(first, others, more, lim, v);
    ops := strain + (Sweeping(now) + [PutOp(more, v, now)]);
    StrainTimed(first, others, v, 1);
    SweepingRun(strain, more, v, now);
    SweepingLeftOut(first, others, more, v, now);
  }

  lemma SweepingLeftOut<V>(first: string, others: seq<string>, more: string, v: V, now: int)
    ensures var (strain, put) := (Strain(first, others, v, 1), [PutOp(more, v, now)]);
      WithoutSweeps(strain + (Sweeping(now) + put)) == strain + ([] + put)
  {
    var strain, put := Strain(first, others, v, 1), [PutOp(more, v, now)];
    PutsUnswept(others, v, 1);
    WithoutSweepsAppend(strain, Sweeping(now) + put);
    WithoutSweepsCons(SweepOp(AlwaysAt(now), now, now), put);
    WithoutSweepsAppend(put, []);
    assert put + [] == put;
  }

  lemma {:induction false} PutsUnswept<V>(keys: seq<string>, v: V, t: int)
    ensures forall i :: 0 <= i < |Puts(keys, v, t)| ==> Puts(keys, v, t)[i].PutOp?
  {
    if keys != [] { PutsUnswept(keys[1..], v, t); }
  }

  /**
   Sweeps are invisible in all runs over a set of keys if and only if the capacity covers the set
   or is one, or no entry outlives the instant it was put in.
   */
  lemma SweepsUnseenIsExact<V>(keys: set<string>, lim: Limits, v: V)
    requires lim.maxElements > 0
    ensures (forall ops: seq<Op<V>>, key: string, now: int ::
               Timed(ops, 0) && End(ops, 0) <= now && PutKeys(ops) <= keys ==> SweepsUnseen(ops, key, now, lim))
      <==> (|keys| <= lim.maxElements || lim.maxElements == 1 || lim.maxAge <= 0)
  {
    if |keys| <= lim.maxElements || lim.maxElements == 1 || lim.maxAge <= 0 {
      forall ops: seq<Op<V>>, key: string, now: int | Timed(ops, 0) && End(ops, 0) <= now && PutKeys(ops) <= keys
        ensures SweepsUnseen(ops, key, now, lim)
      {
        SweepsUnseenIf(keys, ops, key, now, lim);
      }
    } else {
      var ops, key, now := SweepSeen(keys, lim, v);
    }
  }

  // ----- a longer maxAge

  /** A hit under maxAge a is the same hit under maxAge b. */
  ghost predicate HitKept<V>(ops: seq<Op<V>>, key: string, now: int, n: nat, a: int, b: int) {
    var (short, long) := (Limits(a, n), Limits(b, n));
    Answer(Run([], ops, short), key, now, short).Some?
    ==> Answer(Run([], ops, long), key, now, long) == Answer(Run([], ops, short), key, now, short)
  }

  /** With room for one entry, the cache of shorter age holds nothing or what the other one holds. */
  lemma {:induction false} OneEntryRun<V>(es: seq<Entry<V>>, es': seq<Entry<V>>, ops: seq<Op<V>>, a: int, b: int)
    requires a <= b && |es'| <= 1 && (es == [] || es == es')
    ensures var (r, r') := (Run(es, ops, Limits(a, 1)), Run(es', ops, Limits(b, 1)));
      |r'| <= 1 && (r == [] || r == r')
    decreases ops
  {
    if ops != [] {
      OneEntryStep(es, es', ops[0], a, b);
      OneEntryRun(Step(es, ops[0], Limits(a, 1)), Step(es', ops[0], Limits(b, 1)), ops[1..], a, b);
    }
  }

  lemma OneEntryStep<V>(es: seq<Entry<V>>, es': seq<Entry<V>>, op: Op<V>, a: int, b: int)
    requires a <= b && |es'| <= 1 && (es == [] || es == es')
    ensures var (r, r') := (Step(es, op, Limits(a, 1)), Step(es', op, Limits(b, 1)));
      |r'| <= 1 && (r == [] || r == r')
  {
    match op
    case GetOp(key, now) =>
    case PutOp(key, value, now) =>
      OneEntryPut(es, key, value, now);
      OneEntryPut(es', key, value, now);
    case SweepOp(readAt, _, _) =>
      if es != [] {
        assert es == [es[0]];
        FilterOne(es[0], LiveAt<V>(readAt, a));
        FilterOne(es[0], LiveAt<V>(readAt, b));
        assert LiveAt<V>(readAt, a)(es[0]) == !Expired(es[0], readAt(es[0].key), a);
      }
  }

  lemma FilterOne<V>(e: Entry<V>, keep: Entry<V> -> bool)
    ensures Filter([e], keep) == if keep(e) then [e] else []
  {
    assert [e][1..] == [];
  }

  lemma OneEntryPut<V>(es: seq<Entry<V>>, key: string, value: V, now: int)
    requires |es| <= 1
    ensures Put(es, key, value, now, 1) == [Entry(key, value, now)]
  {
  }

  lemma HitKeptIf<V>(keys: set<string>, ops: seq<Op<V>>, key: string, now: int, n: nat, a: int, b: int)
    requires Timed(ops, 0) && End(ops, 0) <= now && PutKeys(ops) <= keys && a < b
    requires |keys| <= n || n == 1 || a < 0
    ensures HitKept(ops, key, now, n, a, b)
  {
    if |keys| <= n {
      SubsetSize(PutKeys(ops), keys);
      AmpleIsFaithful(ops, 0, key, now, Limits(a, n));
      AmpleIsFaithful(ops, 0, key, now, Limits(b, n));
    } else if a < 0 {
      NegativeAge(ops, 0, key, now, Limits(a, n));
      LastPutsPast(map[], ops, 0);
    } else {
      OneEntryRun([], [], ops, a, b);
    }
  }

  /** The entry that a longer maxAge keeps alive takes the place of a younger one. */
  lemma HitLost<V>(keys: set<string>, n: nat, a: int, b: int, v: V) returns (ops: seq<Op<V>>, key: string, now: int)
    requires |keys| > n > 1 && 0 <= a < b
    ensures Timed(ops, 0) && End(ops, 0) <= now && PutKeys(ops) <= keys && !HitKept(ops, key, now, n, a, b)
  {
    var first, others, more := Split(keys, n);
    var short, long := Limits(a, n), Limits(b, n);
    now := a + 1;
    var strain: seq<Op<V>>, put := Strain(first, others, v, now), [PutOp(more, v, now)];
    ops := strain + put;
    StrainTimed(first, others, v, now);
    TimedAppend(strain, put, 0);
    PutKeysAppend(strain, put);
    var e := GivenUp(first, others, more, v, now, now, long);
    key := e.key;
    RunAppend([], strain, put, short);
    RunAppend([], strain, put, long);
    var es, es' := Run([], strain, short), Run([], strain, long);
    assert Run(es, put, short) == Put(es, more, v, now, n) && Run(es', put, long) == Put(es', more, v, now, n);
    Strained(first, others, v, now, short);
    forall x | x in es ensures x.key in others { assert OneOf(x, first, others, v, now); }
    Spared(es, others, more, v, now, short, e);
  }

  /**
   Raising maxAge from a to b keeps every hit in all runs over a set of keys if and only if the
   capacity covers the set or is one, or there were no hits to keep.
   */
  lemma LongerAgeIsExact<V>(keys: set<string>, n: nat, a: int, b: int, v: V)
    requires n > 0 && a < b
    ensures (forall ops: seq<Op<V>>, key: string, now: int ::
               Timed(ops, 0) && End(ops, 0) <= now && PutKeys(ops) <= keys ==> HitKept(ops, key, now, n, a, b))
      <==> (|keys| <= n || n == 1 || a < 0)
  {
    if |keys| <= n || n == 1 || a < 0 {
      forall ops: seq<Op<V>>, key: string, now: int | Timed(ops, 0) && End(ops, 0) <= now && PutKeys(ops) <= keys
        ensures HitKept(ops, key, now, n, a, b)
      {
        HitKeptIf(keys, ops, key, now, n, a, b);
      }
    } else {
      var ops, key, now := HitLost(keys, n, a, b, v);
    }
  }
}
