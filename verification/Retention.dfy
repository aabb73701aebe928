/**
 How long a key is certain to stay: until maxElements other keys have been touched
 or its age passes maxAge, whatever else the run does. And where entries go: each
 entry ever put is either still listed or has left in exactly one of four ways.
 */
module Retention {
  import opened Outcomes
  import opened CacheSpec
  import opened CacheRuns

  /** The keys listed in front of the given one. */
  ghost function Ahead<V>(es: seq<Entry<V>>, key: string): set<string> {
    if es == [] || es[0].key == key then {} else {es[0].key} + Ahead(es[1..], key)
  }

  /** The other keys a run touches. */
  ghost function OthersTouched<V>(es: seq<Entry<V>>, ops: seq<Op<V>>, lim: Limits, key: string): set<string>
    decreases ops
  {
    if ops == [] then {}
    else Touched(es, ops[0], lim) - {key} + OthersTouched(Step(es, ops[0], lim), ops[1..], lim, key)
  }

  ghost predicate NeverPut<V>(ops: seq<Op<V>>, key: string) {
    forall i :: 0 <= i < |ops| ==> !(ops[i].PutOp? && ops[i].key == key)
  }

  lemma {:induction false} AheadFilter<V>(es: seq<Entry<V>>, keep: Entry<V> -> bool, key: string)
    requires Lookup(es, key).Some? && keep(Lookup(es, key).value)
    ensures Lookup(Filter(es, keep), key) == Lookup(es, key)
    ensures Ahead(Filter(es, keep), key) <= Ahead(es, key)
  {
    if es[0].key != key {
      AheadFilter(es[1..], keep, key);
    }
  }

  /** Evicting the last entry spares a key unless all the others are ahead of it. */
  lemma {:induction false} AheadBounded<V>(es: seq<Entry<V>>, key: string, n: nat)
    requires DistinctKeys(es) && |es| <= n + 1
    requires Lookup(es, key).Some? && |Ahead(es, key)| < n
    ensures Lookup(Bounded(es, n), key) == Lookup(es, key)
    ensures Ahead(Bounded(es, n), key) <= Ahead(es, key)
  {
    if |es| > n { AheadDropLast(es, key); }
  }

  lemma {:induction false} AheadDropLast<V>(es: seq<Entry<V>>, key: string)
    requires DistinctKeys(es) && Lookup(es, key).Some? && |Ahead(es, key)| < |es| - 1
    ensures Lookup(es[..|es| - 1], key) == Lookup(es, key)
    ensures Ahead(es[..|es| - 1], key) <= Ahead(es, key)
  {
    if es[0].key != key {
      var rest := es[1..];
      assert es[0].key !in Keys(rest);
      AheadDistinct(rest, key, es[0].key);
      assert |Ahead(es, key)| == |Ahead(rest, key)| + 1;
      AheadDropLast(rest, key);
      assert es[..|es| - 1] == [es[0]] + rest[..|rest| - 1];
    } else {
      assert es[..|es| - 1][0] == es[0];
    }
  }

  lemma {:induction false} AheadDistinct<V>(es: seq<Entry<V>>, key: string, other: string)
    requires other !in Keys(es)
    ensures other !in Ahead(es, key)
  {
    if es != [] && es[0].key != key {
      assert Keys(es[1..]) <= Keys(es);
      AheadDistinct(es[1..], key, other);
    }
  }

  lemma PutRetains<V>(es: seq<Entry<V>>, key: string, value: V, now: int, lim: Limits, e: Entry<V>)
    requires Good(es, lim) && Lookup(es, e.key) == Some(e) && key != e.key
    requires |Ahead(es, e.key) + ({key} - {e.key})| < lim.maxElements
    ensures Lookup(Put(es, key, value, now, lim.maxElements), e.key) == Some(e)
    ensures Ahead(Put(es, key, value, now, lim.maxElements), e.key) <= Ahead(es, e.key) + ({key} - {e.key})
  {
    var pushed := Pushed(es, key, value, now);
    AheadFilter(es, KeyOtherThan<V>(key), e.key);
    DistinctPushed(es, Entry(key, value, now));
    assert {key} - {e.key} == {key};
    SubsetSize(Ahead(pushed, e.key), Ahead(es, e.key) + {key});
    AheadBounded(pushed, e.key, lim.maxElements);
  }

  lemma GetRetains<V>(es: seq<Entry<V>>, key: string, now: int, lim: Limits, e: Entry<V>)
    requires Good(es, lim) && Lookup(es, e.key) == Some(e) && !Expired(e, now, lim.maxAge)
    ensures Lookup(Get(es, key, now, lim.maxAge).0, e.key) == Some(e)
    ensures Ahead(Get(es, key, now, lim.maxAge).0, e.key) <= Ahead(es, e.key)
      + ((if Answer(es, key, now, lim).Some? then {key} else {}) - {e.key})
  {
    if key != e.key { AheadFilter(es, KeyOtherThan<V>(key), e.key); }
  }

  /** One step: the entry stays, and only touched keys can get ahead of it. */
  lemma StepRetains<V>(es: seq<Entry<V>>, op: Op<V>, lim: Limits, e: Entry<V>)
    requires Good(es, lim) && Lookup(es, e.key) == Some(e)
    requires !(op.PutOp? && op.key == e.key) && !Expired(e, Finish(op), lim.maxAge)
    requires op.SweepOp? ==> op.readAt(e.key) <= op.finish
    requires |Ahead(es, e.key) + (Touched(es, op, lim) - {e.key})| < lim.maxElements
    ensures Lookup(Step(es, op, lim), e.key) == Some(e)
    ensures Ahead(Step(es, op, lim), e.key) <= Ahead(es, e.key) + (Touched(es, op, lim) - {e.key})
  {
    match op
    case GetOp(key, now) => GetRetains(es, key, now, lim, e);
    case PutOp(key, value, now) => PutRetains(es, key, value, now, lim, e);
    case SweepOp(readAt, _, _) => AheadFilter(es, LiveAt<V>(readAt, lim.maxAge), e.key);
  }

  lemma {:induction false} SubsetSize(a: set<string>, b: set<string>)
    requires a <= b
    ensures |a| <= |b|
  {
    if a != {} {
      var x :| x in a;
      SubsetSize(a - {x}, b - {x});
    }
  }

  lemma {:induction false} RunRetains<V>(es: seq<Entry<V>>, ops: seq<Op<V>>, from: int, lim: Limits, e: Entry<V>)
    requires Good(es, lim) && Lookup(es, e.key) == Some(e)
    requires Timed(ops, from) && NeverPut(ops, e.key)
    requires |Ahead(es, e.key) + OthersTouched(es, ops, lim, e.key)| < lim.maxElements
    requires !Expired(e, End(ops, from), lim.maxAge)
    ensures Lookup(Run(es, ops, lim), e.key) == Some(e)
    decreases ops
  {
    if ops != [] {
      var op, es' := ops[0], Step(es, ops[0], lim);
      TimedEnd(ops[1..], Finish(op));
      SubsetSize(Ahead(es, e.key) + (Touched(es, op, lim) - {e.key}),
                 Ahead(es, e.key) + OthersTouched(es, ops, lim, e.key));
      StepRetains(es, op, lim, e);
      StepGood(es, op, lim);
      SubsetSize(Ahead(es', e.key) + OthersTouched(es', ops[1..], lim, e.key),
                 Ahead(es, e.key) + OthersTouched(es, ops, lim, e.key));
      RunRetains(es', ops[1..], Finish(op), lim, e);
    }
  }

  /** A step that puts or hits a key leaves its entry in front. */
  lemma TouchedInFront<V>(es: seq<Entry<V>>, touch: Op<V>, lim: Limits)
    requires Good(es, lim) && lim.maxElements > 0 && !touch.SweepOp? && touch.key in Touched(es, touch, lim)
    ensures var es' := Step(es, touch, lim);
      && es' != [] && es'[0].key == touch.key
      && (touch.PutOp? ==> es'[0] == Entry(touch.key, touch.value, touch.now))
      && (touch.GetOp? ==> Answer(es, touch.key, touch.now, lim) == Some(es'[0].value))
  {
  }

  /**
   The retention guarantee. Take any cache a run can reach, a step that puts or hits a key, and any
   run after it that does not put the key again and touches fewer than maxElements other keys. As
   long as the entry's age allows, a get of the key still answers with the value of that step.
   */
  lemma Retained<V>(es: seq<Entry<V>>, touch: Op<V>, after: seq<Op<V>>, now: int, lim: Limits)
    requires Good(es, lim) && lim.maxElements > 0
    requires !touch.SweepOp? && touch.key in Touched(es, touch, lim)
    requires Timed(after, touch.now) && End(after, touch.now) <= now
    ensures var es' := Step(es, touch, lim);
      && es' != [] && es'[0].key == touch.key
      && (touch.PutOp? ==> es'[0] == Entry(touch.key, touch.value, touch.now))
      && (touch.GetOp? ==> Answer(es, touch.key, touch.now, lim) == Some(es'[0].value))
      && (NeverPut(after, touch.key) && |OthersTouched(es', after, lim, touch.key)| < lim.maxElements
          && !Expired(es'[0], now, lim.maxAge) ==>
            Answer(Run(es', after, lim), touch.key, now, lim) == Some(es'[0].value))
  {
    var es' := Step(es, touch, lim);
    StepGood(es, touch, lim);
    TouchedInFront(es, touch, lim);
    var others := OthersTouched(es', after, lim, touch.key);
    if NeverPut(after, touch.key) && |others| < lim.maxElements && !Expired(es'[0], now, lim.maxAge) {
      assert Ahead(es', touch.key) + others == others;
      RunRetains(es', after, touch.now, lim, es'[0]);
    }
  }

  // ----- conservation

  /** Every entry put, and every entry that has left, by the way it left. */
  datatype Ledger<!V> = Ledger(
    put: seq<Entry<V>>, overwritten: seq<Entry<V>>, evicted: seq<Entry<V>>,
    expiredOnAccess: seq<Entry<V>>, swept: seq<Entry<V>>)

  ghost function EmptyLedger<V>(): Ledger<V> {
    Ledger([], [], [], [], [])
  }

  /** The entries a step erases for the key it is about. */
  ghost function ErasedFor<V>(es: seq<Entry<V>>, key: string): seq<Entry<V>> {
    match Lookup(es, key) case None => [] case Some(e) => [e]
  }

  ghost function ExpiredAt<V>(readAt: string -> int, maxAge: int): Entry<V> -> bool {
    (e: Entry<V>) => Expired(e, readAt(e.key), maxAge)
  }

  /** The bookkeeping of one step, by the branch the cache takes. */
  ghost function Record<V>(led: Ledger<V>, es: seq<Entry<V>>, op: Op<V>, lim: Limits): Ledger<V> {
    match op
    case GetOp(key, now) =>
      if Lookup(es, key).Some? && Expired(Lookup(es, key).value, now, lim.maxAge)
      then led.(expiredOnAccess := led.expiredOnAccess + ErasedFor(es, key))
      else led
    case PutOp(key, value, now) =>
      var pushed := Pushed(es, key, value, now);
      led.(put := led.put + [Entry(key, value, now)],
           overwritten := led.overwritten + ErasedFor(es, key),
           evicted := led.evicted
             + if |pushed| > lim.maxElements then [pushed[|pushed| - 1]] else [])
    case SweepOp(readAt, _, _) =>
      led.(swept := led.swept + Filter(es, ExpiredAt<V>(readAt, lim.maxAge)))
  }

  ghost function RecordRun<V>(led: Ledger<V>, es: seq<Entry<V>>, ops: seq<Op<V>>, lim: Limits): Ledger<V>
    decreases ops
  {
    if ops == [] then led
    else RecordRun(Record(led, es, ops[0], lim), Step(es, ops[0], lim), ops[1..], lim)
  }

  ghost predicate Balanced<V>(led: Ledger<V>, es: seq<Entry<V>>) {
    multiset(led.put)
    == multiset(es) + multiset(led.overwritten) + multiset(led.evicted)
       + multiset(led.expiredOnAccess) + multiset(led.swept)
  }

  /** The entry is new at the end of the list. */
  ghost predicate Added<V>(before: seq<Entry<V>>, after: seq<Entry<V>>, e: Entry<V>) {
    before <= after && e in after[|before|..]
  }

  /** What each way of leaving means: which step it is, and what the entry was to the cache. */
  lemma WaysOfLeaving<V>(led: Ledger<V>, es: seq<Entry<V>>, op: Op<V>, lim: Limits, e: Entry<V>)
    requires Good(es, lim) && lim.maxElements > 0
    ensures var led' := Record(led, es, op, lim);
      && (Added(led.put, led'.put, e) <==> op.PutOp? && e == Entry(op.key, op.value, op.now))
      && (Added(led.overwritten, led'.overwritten, e) <==> op.PutOp? && e in es && e.key == op.key)
      && (Added(led.evicted, led'.evicted, e) <==>
            op.PutOp? && e in es && e.key in Victims(es, op.key, op.value, op.now, lim.maxElements))
      && (Added(led.expiredOnAccess, led'.expiredOnAccess, e) <==>
            op.GetOp? && e in es && e.key == op.key && Expired(e, op.now, lim.maxAge))
      && (Added(led.swept, led'.swept, e) <==> op.SweepOp? && e in es && Expired(e, op.readAt(e.key), lim.maxAge))
  {
    match op
    case GetOp(key, now) => ErasedMember(es, key, e);
    case PutOp(key, value, now) =>
      ErasedMember(es, key, e);
      VictimMember(es, key, value, now, lim, e);
    case SweepOp(readAt, _, _) => FilterMember(es, ExpiredAt<V>(readAt, lim.maxAge), e);
  }

  lemma ErasedMember<V>(es: seq<Entry<V>>, key: string, e: Entry<V>)
    requires DistinctKeys(es)
    ensures e in ErasedFor(es, key) <==> e in es && e.key == key
  {
    if e in es && e.key == key { LookupIs(es, e); }
  }

  /** The entry evicted is the one whose key the put gives up. */
  lemma VictimMember<V>(es: seq<Entry<V>>, key: string, value: V, now: int, lim: Limits, e: Entry<V>)
    requires Good(es, lim) && lim.maxElements > 0
    ensures var pushed := Pushed(es, key, value, now);
      |pushed| > lim.maxElements && e == pushed[|pushed| - 1]
      <==> e in es && e.key in Victims(es, key, value, now, lim.maxElements)
  {
    var pushed := Pushed(es, key, value, now);
    VictimIsLast(es, key, value, now, lim);
    PushedKeys(es, key, value, now);
    DistinctPushed(es, Entry(key, value, now));
    var last := pushed[|pushed| - 1];
    FilterMember(es, KeyOtherThan<V>(key), last);
    if e in es && e.key == last.key && |pushed| > lim.maxElements {
      LookupIs(es, e);
      LookupIs(es, last);
    }
  }

  lemma {:induction false} FilterSplits<V>(es: seq<Entry<V>>, keep: Entry<V> -> bool, drop: Entry<V> -> bool)
    requires forall e :: e in es ==> keep(e) == !drop(e)
    ensures multiset(es) == multiset(Filter(es, keep)) + multiset(Filter(es, drop))
  {
    if es != [] {
      FilterSplits(es[1..], keep, drop);
      assert es == [es[0]] + es[1..];
    }
  }

  lemma WithoutSplits<V>(es: seq<Entry<V>>, key: string)
    requires DistinctKeys(es)
    ensures multiset(es) == multiset(Without(es, key)) + multiset(ErasedFor(es, key))
  {
    match Lookup(es, key)
    case None => WithoutAbsent(es, key);
    case Some(e) =>
      var i :| 0 <= i < |es| && es[i] == e;
      WithoutAt(es, i);
      assert es == es[..i] + [es[i]] + es[i + 1..];
  }

  lemma BoundedSplits<V>(es: seq<Entry<V>>, n: nat)
    requires es != []
    ensures multiset(es) == multiset(Bounded(es, n)) + multiset(if |es| > n then [es[|es| - 1]] else [])
  {
    assert es == es[..|es| - 1] + [es[|es| - 1]];
  }

  /** The arithmetic of a put: e comes in, r is overwritten and v evicted. */
  lemma Exchange<T>(put: multiset<T>, es: multiset<T>, over: multiset<T>, evicted: multiset<T>, other: multiset<T>,
                    e: multiset<T>, rest: multiset<T>, r: multiset<T>, bounded: multiset<T>, v: multiset<T>)
    requires put == es + over + evicted + other
    requires es == rest + r && e + rest == bounded + v
    ensures put + e == bounded + (over + r) + (evicted + v) + other
  {
    assert put + e == (e + rest) + (over + r) + evicted + other;
    assert (bounded + v) + (over + r) + evicted + other == bounded + (over + r) + (evicted + v) + other;
  }

  lemma PutBalanced<V>(led: Ledger<V>, es: seq<Entry<V>>, key: string, value: V, now: int, lim: Limits)
    requires Good(es, lim) && Balanced(led, es)
    ensures Balanced(Record(led, es, PutOp(key, value, now), lim), Put(es, key, value, now, lim.maxElements))
  {
    var pushed, e := Pushed(es, key, value, now), Entry(key, value, now);
    var led' := Record(led, es, PutOp(key, value, now), lim);
    WithoutSplits(es, key);
    BoundedSplits(pushed, lim.maxElements);
    assert multiset(pushed) == multiset([e]) + multiset(Without(es, key)) by {
      assert pushed == [e] + Without(es, key);
    }
    assert led'.put == led.put + [e] && led'.overwritten == led.overwritten + ErasedFor(es, key);
    Exchange(multiset(led.put), multiset(es), multiset(led.overwritten), multiset(led.evicted),
             multiset(led.expiredOnAccess) + multiset(led.swept), multiset([e]), multiset(Without(es, key)),
             multiset(ErasedFor(es, key)), multiset(Bounded(pushed, lim.maxElements)),
             multiset(if |pushed| > lim.maxElements then [pushed[|pushed| - 1]] else []));
  }

  lemma GetBalanced<V>(led: Ledger<V>, es: seq<Entry<V>>, key: string, now: int, lim: Limits)
    requires Good(es, lim) && Balanced(led, es)
    ensures Balanced(Record(led, es, GetOp(key, now), lim), Get(es, key, now, lim.maxAge).0)
  {
    WithoutSplits(es, key);
  }

  lemma SweepBalanced<V>(led: Ledger<V>, es: seq<Entry<V>>, op: Op<V>, lim: Limits)
    requires Balanced(led, es) && op.SweepOp?
    ensures Balanced(Record(led, es, op, lim), Sweep(es, op.readAt, lim.maxAge))
  {
    FilterSplits(es, LiveAt<V>(op.readAt, lim.maxAge), ExpiredAt<V>(op.readAt, lim.maxAge));
  }

  lemma StepBalanced<V>(led: Ledger<V>, es: seq<Entry<V>>, op: Op<V>, lim: Limits)
    requires Good(es, lim) && Balanced(led, es)
    ensures Balanced(Record(led, es, op, lim), Step(es, op, lim))
  {
    hide Balanced, Record;
    match op
    case GetOp(key, now) => GetBalanced(led, es, key, now, lim);
    case PutOp(key, value, now) => PutBalanced(led, es, key, value, now, lim);
    case SweepOp(_, _, _) => SweepBalanced(led, es, op, lim);
  }

  /** Over any run, the entries put are the entries listed plus those that left, each counted once. */
  lemma {:induction false} RunBalanced<V>(led: Ledger<V>, es: seq<Entry<V>>, ops: seq<Op<V>>, lim: Limits)
    requires Good(es, lim) && Balanced(led, es)
    ensures Balanced(RecordRun(led, es, ops, lim), Run(es, ops, lim))
    decreases ops
  {
    if ops != [] {
      StepGood(es, ops[0], lim);
      StepBalanced(led, es, ops[0], lim);
      RunBalanced(Record(led, es, ops[0], lim), Step(es, ops[0], lim), ops[1..], lim);
    }
  }

  /** Entry conservation, from the empty cache. */
  lemma EntriesConserved<V>(ops: seq<Op<V>>, lim: Limits)
    ensures Balanced(RecordRun(EmptyLedger(), [], ops, lim), Run([], ops, lim))
  {
    RunBalanced(EmptyLedger(), [], ops, lim);
  }
}
