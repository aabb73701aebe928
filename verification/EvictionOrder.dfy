/**
 The requirement speaks of deleting the oldest entry when the capacity is exceeded; the cache
 deletes the least recently used one. Over a set of keys the two are the same for all runs exactly
 if the capacity covers the set or is one, or no entry outlives the instant it was put in.
 */
module EvictionOrder {
  import opened CacheSpec
  import opened CacheRuns
  import opened Retention
  import opened AmpleCapacity
  import opened Pressure

  /** The list runs from the youngest to the oldest entry, so that the last one is the oldest. */
  ghost predicate ByAge<V>(es: seq<Entry<V>>) {
    forall i, j :: 0 <= i < j < |es| ==> es[i].insertedAt >= es[j].insertedAt
  }

  ghost predicate Past<V>(es: seq<Entry<V>>, now: int) {
    forall e :: e in es ==> e.insertedAt <= now
  }

  lemma {:induction false} FilterByAge<V>(es: seq<Entry<V>>, keep: Entry<V> -> bool)
    requires ByAge(es)
    ensures ByAge(Filter(es, keep))
  {
    if es != [] {
      FilterByAge(es[1..], keep);
      forall e | e in Filter(es[1..], keep) ensures es[0].insertedAt >= e.insertedAt {
        FilterMember(es[1..], keep, e);
      }
    }
  }

  lemma FrontByAge<V>(es: seq<Entry<V>>, e: Entry<V>)
    requires ByAge(es)
    requires Past(Without(es, e.key), e.insertedAt)
    ensures ByAge([e] + Without(es, e.key))
  {
    FilterByAge(es, KeyOtherThan<V>(e.key));
    var rest := Without(es, e.key);
    assert forall i :: 0 <= i < |rest| ==> rest[i] in rest;
  }

  /** A hit keeps the order of ages exactly if the entry it moves is as young as the one in front. */
  lemma HitKeepsOrder<V>(es: seq<Entry<V>>, key: string, now: int, maxAge: int)
    requires DistinctKeys(es) && ByAge(es) && Get(es, key, now, maxAge).1.Some?
    ensures ByAge(Get(es, key, now, maxAge).0) <==> Lookup(es, key).value.insertedAt >= es[0].insertedAt
  {
    var e := Lookup(es, key).value;
    var rest := Without(es, key);
    if e.insertedAt >= es[0].insertedAt {
      forall x | x in rest ensures x.insertedAt <= e.insertedAt {
        FilterMember(es, KeyOtherThan<V>(key), x);
      }
      FrontByAge(es, e);
    } else {
      FilterMember(es, KeyOtherThan<V>(key), es[0]);
      var j :| 0 <= j < |rest| && rest[j] == es[0];
      assert ([e] + rest)[j + 1] == es[0] && ([e] + rest)[0] == e;
    }
  }

  /** Every hit of the run is on an entry as young as the one in front. */
  ghost predicate HitsInFront<V>(es: seq<Entry<V>>, ops: seq<Op<V>>, lim: Limits)
    decreases ops
  {
    ops == [] || (HitInFront(es, ops[0], lim) && HitsInFront(Step(es, ops[0], lim), ops[1..], lim))
  }

  ghost predicate HitInFront<V>(es: seq<Entry<V>>, op: Op<V>, lim: Limits) {
    op.GetOp? && Answer(es, op.key, op.now, lim).Some? ==> Lookup(es, op.key).value.insertedAt >= es[0].insertedAt
  }

  lemma StepByAge<V>(es: seq<Entry<V>>, op: Op<V>, from: int, lim: Limits)
    requires Good(es, lim) && ByAge(es) && Past(es, from) && Timed([op], from) && HitInFront(es, op, lim)
    ensures ByAge(Step(es, op, lim)) && Past(Step(es, op, lim), Finish(op))
  {
    forall e | e in Step(es, op, lim) ensures e.insertedAt <= Finish(op) {
      StepMembers(es, op, lim, e);
    }
    match op
    case GetOp(key, now) =>
      FilterByAge(es, KeyOtherThan<V>(key));
      if Answer(es, key, now, lim).Some? { HitKeepsOrder(es, key, now, lim.maxAge); }
    case PutOp(key, value, now) =>
      forall x | x in Without(es, key) ensures x.insertedAt <= now {
        FilterMember(es, KeyOtherThan<V>(key), x);
      }
      FrontByAge(es, Entry(key, value, now));
    case SweepOp(readAt, _, _) => FilterByAge(es, LiveAt<V>(readAt, lim.maxAge));
  }

  lemma {:induction false} RunByAge<V>(es: seq<Entry<V>>, ops: seq<Op<V>>, from: int, lim: Limits)
    requires Good(es, lim) && ByAge(es) && Past(es, from) && Timed(ops, from) && HitsInFront(es, ops, lim)
    ensures ByAge(Run(es, ops, lim))
    decreases ops
  {
    if ops != [] {
      StepGood(es, ops[0], lim);
      StepByAge(es, ops[0], from, lim);
      RunByAge(Step(es, ops[0], lim), ops[1..], Finish(ops[0]), lim);
    }
  }

  /** In such a run an overflowing put gives up the oldest entry there was. */
  lemma OldestGoes<V>(ops: seq<Op<V>>, from: int, key: string, value: V, now: int, lim: Limits, gone: Entry<V>,
                      kept: Entry<V>)
    requires Timed(ops, from) && HitsInFront([], ops, lim) && End(ops, from) <= now && lim.maxElements > 0
    requires var es := Run([], ops, lim);
      gone in es && gone.key in Victims(es, key, value, now, lim.maxElements)
      && kept in es && kept.key != key && kept.key !in Victims(es, key, value, now, lim.maxElements)
    ensures gone.insertedAt <= kept.insertedAt
  {
    var es := Run([], ops, lim);
    RunGood([], ops, lim);
    RunByAge([], ops, from, lim);
    VictimIsLast(es, key, value, now, lim);
    FilterByAge(es, KeyOtherThan<V>(key));
    LastInPushed(es, key, value, now, gone, kept);
  }

  lemma LastInPushed<V>(es: seq<Entry<V>>, key: string, value: V, now: int, gone: Entry<V>, kept: Entry<V>)
    requires DistinctKeys(es) && ByAge(Without(es, key)) && gone in es && kept in es && kept.key != key
    requires gone.key != key
    requires gone.key == Pushed(es, key, value, now)[|Pushed(es, key, value, now)| - 1].key
    ensures gone.insertedAt <= kept.insertedAt
  {
    var rest := Without(es, key);
    FilterMember(es, KeyOtherThan<V>(key), gone);
    FilterMember(es, KeyOtherThan<V>(key), kept);
    FilterDistinct(es, KeyOtherThan<V>(key));
    var pushed := Pushed(es, key, value, now);
    assert pushed[|pushed| - 1] == rest[|rest| - 1];
    var i :| 0 <= i < |rest| && rest[i] == gone;
    assert i == |rest| - 1;
    var j :| 0 <= j < |rest| && rest[j] == kept;
  }

  /** With room for one entry, or entries that live for one instant only, every hit is in front. */
  lemma {:induction false} AlwaysInFront<V>(es: seq<Entry<V>>, ops: seq<Op<V>>, from: int, lim: Limits)
    requires Good(es, lim) && ByAge(es) && Past(es, from) && Timed(ops, from)
    requires lim.maxElements == 1 || lim.maxAge <= 0
    ensures HitsInFront(es, ops, lim)
    decreases ops
  {
    if ops != [] {
      StepGood(es, ops[0], lim);
      StepByAge(es, ops[0], from, lim);
      AlwaysInFront(Step(es, ops[0], lim), ops[1..], Finish(ops[0]), lim);
    }
  }

  /** Whatever the put gives up is no younger than anything it keeps. */
  ghost predicate GivesUpOldest<V>(es: seq<Entry<V>>, key: string, value: V, now: int, lim: Limits) {
    var victims := Victims(es, key, value, now, lim.maxElements);
    forall gone, kept :: gone in es && gone.key in victims && kept in es && kept.key != key && kept.key !in victims
      ==> gone.insertedAt <= kept.insertedAt
  }

  lemma GivesUpOldestIf<V>(keys: set<string>, ops: seq<Op<V>>, key: string, value: V, now: int, lim: Limits)
    requires Timed(ops, 0) && End(ops, 0) <= now && PutKeys(ops) + {key} <= keys && lim.maxElements > 0
    requires |keys| <= lim.maxElements || lim.maxElements == 1 || lim.maxAge <= 0
    ensures GivesUpOldest(Run([], ops, lim), key, value, now, lim)
  {
    var es := Run([], ops, lim);
    if |keys| <= lim.maxElements {
      RunGood([], ops, lim);
      RunKeys([], ops, lim);
      SubsetSize(Keys(es) + {key}, keys);
      VictimIsLast(es, key, value, now, lim);
    } else {
      AlwaysInFront([], ops, 0, lim);
      forall gone, kept | gone in es && gone.key in Victims(es, key, value, now, lim.maxElements)
        && kept in es && kept.key != key && kept.key !in Victims(es, key, value, now, lim.maxElements)
        ensures gone.insertedAt <= kept.insertedAt
      {
        OldestGoes(ops, 0, key, value, now, lim, gone, kept);
      }
    }
  }

  /** A strained cache that takes one more key gives up an entry put after the one in front. */
  lemma YoungerGoes<V>(first: string, others: seq<string>, more: string, v: V, lim: Limits)
    requires NoRepeats(others) && first !in others && more != first && more !in others
    requires |others| == lim.maxElements - 1 > 0 && lim.maxAge > 0
    ensures !GivesUpOldest(Run([], Strain(first, others, v, 1), lim), more, v, 1, lim)
  {
    var es := Run([], Strain(first, others, v, 1), lim);
    var n := lim.maxElements;
    Strained(first, others, v, 1, lim);
    StrainedFull(first, others, v, 1, lim);
    Overflows(es, more, v, 1, n);
    var gone, kept, put := es[n - 1], es[0], Put(es, more, v, 1, n);
    assert OneOf(gone, first, others, v, 1);
    assert put[1] == kept && kept in put;
    assert gone.key in Victims(es, more, v, 1, n) && kept.key !in Victims(es, more, v, 1, n);
    assert gone.insertedAt == 1 > kept.insertedAt;
  }

  /**
   The exact limits: over a set of keys, in all runs, whatever a put gives up is no younger than
   what it keeps, if and only if the capacity covers the set or is one, or maxAge is not positive.
   */
  lemma OldestIsExact<V>(keys: set<string>, lim: Limits, v: V)
    requires lim.maxElements > 0
    ensures (forall ops: seq<Op<V>>, key: string, value: V, now: int ::
               Timed(ops, 0) && End(ops, 0) <= now && PutKeys(ops) + {key} <= keys
               ==> GivesUpOldest(Run([], ops, lim), key, value, now, lim))
      <==> (|keys| <= lim.maxElements || lim.maxElements == 1 || lim.maxAge <= 0)
  {
    if |keys| <= lim.maxElements || lim.maxElements == 1 || lim.maxAge <= 0 {
      forall ops: seq<Op<V>>, key: string, value: V, now: int
        | Timed(ops, 0) && End(ops, 0) <= now && PutKeys(ops) + {key} <= keys
        ensures GivesUpOldest(Run([], ops, lim), key, value, now, lim)
      {
        GivesUpOldestIf(keys, ops, key, value, now, lim);
      }
    } else {
      var first, others, more := Split(keys, lim.maxElements);
      var ops := Strain(first, others, v, 1);
      StrainTimed(first, others, v, 1);
      YoungerGoes(first, others, more, v, lim);
      assert PutKeys(ops) + {more} <= keys;
    }
  }
}
