/**
 The cache against the simplest thing it could be: a map from key to the last entry put,
 consulted with the age test and never cleaned. Whatever the cache answers, the map answers;
 and the two agree on all runs over a set of keys exactly when the capacity covers that set.
 */
module AmpleCapacity {
  import opened Outcomes
  import opened CacheSpec
  import opened CacheRuns
  import opened Retention

  ghost function LastStep<V>(last: map<string, Entry<V>>, op: Op<V>): map<string, Entry<V>> {
    if op.PutOp? then last[op.key := Entry(op.key, op.value, op.now)] else last
  }

  /** The last entry put under each key. */
  ghost function LastPuts<V>(last: map<string, Entry<V>>, ops: seq<Op<V>>): map<string, Entry<V>>
    decreases ops
  {
    if ops == [] then last
    else LastPuts(LastStep(last, ops[0]), ops[1..])
  }

  ghost function LastPutAnswer<V>(last: map<string, Entry<V>>, key: string, now: int, maxAge: int): Option<V> {
    if key in last && !Expired(last[key], now, maxAge) then Some(last[key].value) else None
  }

  ghost function PutKeys<V>(ops: seq<Op<V>>): set<string> {
    set i | 0 <= i < |ops| && ops[i].PutOp? :: ops[i].key
  }

  /** Everything listed is the last entry put under its key. */
  ghost predicate Sound<V>(es: seq<Entry<V>>, last: map<string, Entry<V>>) {
    forall e :: e in es ==> e.key in last && last[e.key] == e
  }

  /** Every last entry put that is still live is listed. */
  ghost predicate Complete<V>(es: seq<Entry<V>>, last: map<string, Entry<V>>, now: int, maxAge: int) {
    forall k :: k in last ==> last[k].key == k && (Expired(last[k], now, maxAge) || last[k] in es)
  }

  lemma StepMembers<V>(es: seq<Entry<V>>, op: Op<V>, lim: Limits, e: Entry<V>)
    requires DistinctKeys(es)
    ensures e in Step(es, op, lim) ==> e in es || (op.PutOp? && e == Entry(op.key, op.value, op.now))
    ensures e in Step(es, op, lim) && op.PutOp? ==> e.key != op.key || e == Entry(op.key, op.value, op.now)
    ensures e in es && e !in Step(es, op, lim)
      ==> (op.PutOp? || Expired(e, Finish(op), lim.maxAge) || (op.SweepOp? && op.readAt(e.key) > op.finish))
  {
    match op
    case GetOp(key, now) =>
      FilterMember(es, KeyOtherThan<V>(key), e);
      if e in es { LookupIs(es, e); }
    case PutOp(key, value, now) =>
      FilterMember(es, KeyOtherThan<V>(key), e);
    case SweepOp(readAt, start, finish) =>
      FilterMember(es, LiveAt<V>(readAt, lim.maxAge), e);
  }

  lemma StepSound<V>(es: seq<Entry<V>>, last: map<string, Entry<V>>, op: Op<V>, lim: Limits)
    requires DistinctKeys(es) && Sound(es, last)
    ensures Sound(Step(es, op, lim), LastStep(last, op))
  {
    forall e | e in Step(es, op, lim) ensures e.key in LastStep(last, op) && LastStep(last, op)[e.key] == e {
      StepMembers(es, op, lim, e);
    }
  }

  /** With room for one more key, a put loses nothing but the entry it replaces. */
  lemma PutKeeps<V>(es: seq<Entry<V>>, key: string, value: V, now: int, n: nat, e: Entry<V>)
    requires DistinctKeys(es) && |Keys(es) + {key}| <= n
    ensures e in Put(es, key, value, now, n) <==> (e in es && e.key != key) || e == Entry(key, value, now)
  {
    PushedKeys(es, key, value, now);
    FilterMember(es, KeyOtherThan<V>(key), e);
  }

  lemma StepComplete<V>(es: seq<Entry<V>>, last: map<string, Entry<V>>, op: Op<V>, from: int, lim: Limits)
    requires DistinctKeys(es) && Complete(es, last, from, lim.maxAge) && Timed([op], from)
    requires op.PutOp? ==> |Keys(es) + {op.key}| <= lim.maxElements
    ensures Complete(Step(es, op, lim), LastStep(last, op), Finish(op), lim.maxAge)
  {
    var last' := LastStep(last, op);
    forall k | k in last' ensures last'[k].key == k
    {
    }
    forall k | k in last' && !Expired(last'[k], Finish(op), lim.maxAge) ensures last'[k] in Step(es, op, lim) {
      if op.PutOp? {
        PutKeeps(es, op.key, op.value, op.now, lim.maxElements, last'[k]);
      } else {
        StepMembers(es, op, lim, last[k]);
      }
    }
  }

  lemma {:induction false} RunSound<V>(es: seq<Entry<V>>, last: map<string, Entry<V>>, ops: seq<Op<V>>, lim: Limits)
    requires Good(es, lim) && Sound(es, last)
    ensures Sound(Run(es, ops, lim), LastPuts(last, ops))
    decreases ops
  {
    if ops != [] {
      StepSound(es, last, ops[0], lim);
      StepGood(es, ops[0], lim);
      RunSound(Step(es, ops[0], lim), LastStep(last, ops[0]), ops[1..], lim);
    }
  }

  lemma StepKeys<V>(es: seq<Entry<V>>, op: Op<V>, lim: Limits)
    requires DistinctKeys(es)
    ensures Keys(Step(es, op, lim)) <= Keys(es) + PutKeys([op])
  {
    forall k | k in Keys(Step(es, op, lim)) ensures k in Keys(es) + PutKeys([op]) {
      var e :| e in Step(es, op, lim) && e.key == k;
      StepMembers(es, op, lim, e);
      assert op.PutOp? ==> [op][0].key in PutKeys([op]);
    }
  }

  lemma PutKeysTail<V>(ops: seq<Op<V>>)
    requires ops != []
    ensures PutKeys(ops) == PutKeys([ops[0]]) + PutKeys(ops[1..])
  {
    assert ops == [ops[0]] + ops[1..];
    assert [ops[0]] == [ops[0]] + [];
    PutKeysCons(ops[0], ops[1..]);
    PutKeysCons(ops[0], []);
  }

  /** Only keys that were put are listed. */
  lemma {:induction false} RunKeys<V>(es: seq<Entry<V>>, ops: seq<Op<V>>, lim: Limits)
    requires Good(es, lim)
    ensures Keys(Run(es, ops, lim)) <= Keys(es) + PutKeys(ops)
    decreases ops
  {
    if ops != [] {
      StepGood(es, ops[0], lim);
      StepKeys(es, ops[0], lim);
      PutKeysTail(ops);
      RunKeys(Step(es, ops[0], lim), ops[1..], lim);
    }
  }

  lemma {:induction false} RunComplete<V>(es: seq<Entry<V>>, last: map<string, Entry<V>>, ops: seq<Op<V>>, from: int,
                                          lim: Limits, keys: set<string>)
    requires Good(es, lim) && Complete(es, last, from, lim.maxAge) && Timed(ops, from)
    requires Keys(es) <= keys && PutKeys(ops) <= keys && |keys| <= lim.maxElements
    ensures Complete(Run(es, ops, lim), LastPuts(last, ops), End(ops, from), lim.maxAge)
    decreases ops
  {
    if ops != [] {
      var op := ops[0];
      assert op.PutOp? ==> op.key in PutKeys(ops);
      PutKeysTail(ops);
      if op.PutOp? { SubsetSize(Keys(es) + {op.key}, keys); }
      StepComplete(es, last, op, from, lim);
      StepGood(es, op, lim);
      StepKeys(es, op, lim);
      RunComplete(Step(es, op, lim), LastStep(last, op), ops[1..], Finish(op), lim, keys);
    }
  }

  // ----- the two theorems

  /** At any capacity: an answer of the cache is the last value put, no older than maxAge. */
  lemma NeverStale<V>(ops: seq<Op<V>>, key: string, now: int, lim: Limits)
    ensures Answer(Run([], ops, lim), key, now, lim).Some?
      ==> Answer(Run([], ops, lim), key, now, lim) == LastPutAnswer(LastPuts(map[], ops), key, now, lim.maxAge)
  {
    RunGood([], ops, lim);
    RunSound([], map[], ops, lim);
  }

  /** The cache answers a get after the run as the uncleaned map does. */
  ghost predicate Faithful<V>(ops: seq<Op<V>>, key: string, now: int, lim: Limits) {
    Answer(Run([], ops, lim), key, now, lim) == LastPutAnswer(LastPuts(map[], ops), key, now, lim.maxAge)
  }

  lemma AmpleIsFaithful<V>(ops: seq<Op<V>>, from: int, key: string, now: int, lim: Limits)
    requires Timed(ops, from) && End(ops, from) <= now
    requires |PutKeys(ops)| <= lim.maxElements
    ensures Faithful(ops, key, now, lim)
  {
    RunGood([], ops, lim);
    RunSound([], map[], ops, lim);
    RunComplete([], map[], ops, from, lim, PutKeys(ops));
    var es, last := Run([], ops, lim), LastPuts(map[], ops);
    if key in last && !Expired(last[key], now, lim.maxAge) {
      LookupIs(es, last[key]);
    }
  }

  /** So with ample capacity neither sweeps nor gets can be observed: only the puts matter. */
  lemma OnlyPutsMatter<V>(a: seq<Op<V>>, b: seq<Op<V>>, from: int, key: string, now: int, lim: Limits)
    requires Timed(a, from) && End(a, from) <= now && Timed(b, from) && End(b, from) <= now
    requires PutsOf(a) == PutsOf(b) && |PutKeys(a)| <= lim.maxElements
    ensures Answer(Run([], a, lim), key, now, lim) == Answer(Run([], b, lim), key, now, lim)
  {
    LastPutsOfPuts(map[], a);
    LastPutsOfPuts(map[], b);
    PutKeysOfPuts(a);
    PutKeysOfPuts(b);
    AmpleIsFaithful(a, from, key, now, lim);
    AmpleIsFaithful(b, from, key, now, lim);
  }

  ghost function PutsOf<V>(ops: seq<Op<V>>): seq<Op<V>>
    decreases ops
  {
    if ops == [] then [] else (if ops[0].PutOp? then [ops[0]] else []) + PutsOf(ops[1..])
  }

  lemma {:induction false} PutsOfAppend<V>(a: seq<Op<V>>, b: seq<Op<V>>)
    ensures PutsOf(a + b) == PutsOf(a) + PutsOf(b)
    decreases a
  {
    if a == [] {
      assert a + b == b;
    } else {
      assert (a + b)[0] == a[0] && (a + b)[1..] == a[1..] + b;
      PutsOfAppend(a[1..], b);
      Join(if a[0].PutOp? then [a[0]] else [], PutsOf(a[1..]), PutsOf(b));
    }
  }

  lemma Join<T>(a: seq<T>, b: seq<T>, c: seq<T>)
    ensures (a + b) + c == a + (b + c)
  {
  }

  lemma {:induction false} LastPutsOfPuts<V>(last: map<string, Entry<V>>, ops: seq<Op<V>>)
    ensures LastPuts(last, PutsOf(ops)) == LastPuts(last, ops)
    decreases ops
  {
    if ops != [] {
      LastPutsOfPuts(LastStep(last, ops[0]), ops[1..]);
      if ops[0].PutOp? {
        assert PutsOf(ops)[0] == ops[0] && PutsOf(ops)[1..] == PutsOf(ops[1..]);
      } else {
        assert PutsOf(ops) == PutsOf(ops[1..]);
      }
    }
  }

  lemma {:induction false} PutKeysOfPuts<V>(ops: seq<Op<V>>)
    ensures PutKeys(PutsOf(ops)) == PutKeys(ops)
    decreases ops
  {
    if ops != [] {
      PutKeysOfPuts(ops[1..]);
      PutKeysCons(ops[0], ops[1..]);
      assert ops == [ops[0]] + ops[1..];
      if ops[0].PutOp? {
        PutKeysCons(ops[0], PutsOf(ops[1..]));
      } else {
        assert PutsOf(ops) == PutsOf(ops[1..]);
      }
    }
  }

  lemma PutKeysCons<V>(op: Op<V>, ops: seq<Op<V>>)
    ensures PutKeys([op] + ops) == (if op.PutOp? then {op.key} else {}) + PutKeys(ops)
  {
    var all := [op] + ops;
    assert forall i :: 0 <= i < |ops| ==> all[i + 1] == ops[i];
    assert forall i :: 0 < i < |all| ==> all[i] == ops[i - 1];
    assert op.PutOp? ==> all[0].key in PutKeys(all);
    forall k | k in PutKeys(ops) ensures k in PutKeys(all) {
      var i :| 0 <= i < |ops| && ops[i].PutOp? && ops[i].key == k;
      assert all[i + 1].key == k;
    }
  }

  /**
   The exact capacity: over a set of keys, every run is answered as by the uncleaned map if and
   only if the capacity covers the set (or maxAge is negative, when nothing is ever live).
   */
  lemma CapacityIsExact<V>(keys: set<string>, lim: Limits, v: V)
    ensures (forall ops: seq<Op<V>>, key: string, now: int ::
               Timed(ops, 0) && End(ops, 0) <= now && PutKeys(ops) <= keys ==> Faithful(ops, key, now, lim))
      <==> (|keys| <= lim.maxElements || lim.maxAge < 0)
  {
    if |keys| <= lim.maxElements || lim.maxAge < 0 {
      forall ops: seq<Op<V>>, key: string, now: int | Timed(ops, 0) && End(ops, 0) <= now && PutKeys(ops) <= keys
        ensures Faithful(ops, key, now, lim)
      {
        if |keys| <= lim.maxElements {
          SubsetSize(PutKeys(ops), keys);
          AmpleIsFaithful(ops, 0, key, now, lim);
        } else {
          NegativeAge(ops, 0, key, now, lim);
        }
      }
    } else {
      var ops := PutAll(keys, v);
      PutAllPuts(keys, v);
      RunGood([], ops, lim);
      KeysCount(Run([], ops, lim));
      if keys <= Keys(Run([], ops, lim)) {
        SubsetSize(keys, Keys(Run([], ops, lim)));
      }
      var key :| key in keys && key !in Keys(Run([], ops, lim));
      PutAllLast(keys, v, map[], key);
      assert !Faithful(ops, key, 0, lim);
    }
  }

  /** Puts every key of the set at instant zero. */
  ghost function PutAll<V>(keys: set<string>, v: V): seq<Op<V>> {
    if keys == {} then [] else var k :| k in keys; [PutOp(k, v, 0)] + PutAll(keys - {k}, v)
  }

  lemma {:induction false} PutAllPuts<V>(keys: set<string>, v: V)
    ensures Timed(PutAll(keys, v), 0) && End(PutAll(keys, v), 0) == 0
    ensures PutKeys(PutAll(keys, v)) == keys
  {
    if keys != {} {
      var op, rest := PutAll(keys, v)[0], PutAll(keys, v)[1..];
      assert PutAll(keys, v) == [op] + rest && rest == PutAll(keys - {op.key}, v);
      PutAllPuts(keys - {op.key}, v);
      PutKeysCons(op, rest);
      assert keys == {op.key} + (keys - {op.key});
    }
  }

  lemma {:induction false} PutAllLast<V>(keys: set<string>, v: V, last: map<string, Entry<V>>, key: string)
    requires key in keys || (key in last && last[key] == Entry(key, v, 0))
    ensures var r := LastPuts(last, PutAll(keys, v)); key in r && r[key] == Entry(key, v, 0)
  {
    if keys != {} {
      var op, rest := PutAll(keys, v)[0], PutAll(keys, v)[1..];
      assert rest == PutAll(keys - {op.key}, v);
      PutAllLast(keys - {op.key}, v, LastStep(last, op), key);
    }
  }

  /** Nothing was put later than the end of the run. */
  lemma {:induction false} LastPutsPast<V>(last: map<string, Entry<V>>, ops: seq<Op<V>>, from: int)
    requires Timed(ops, from) && forall k :: k in last ==> last[k].insertedAt <= from
    ensures forall k :: k in LastPuts(last, ops) ==> LastPuts(last, ops)[k].insertedAt <= End(ops, from)
    decreases ops
  {
    if ops != [] { LastPutsPast(LastStep(last, ops[0]), ops[1..], Finish(ops[0])); }
  }

  lemma NegativeAge<V>(ops: seq<Op<V>>, from: int, key: string, now: int, lim: Limits)
    requires Timed(ops, from) && End(ops, from) <= now && lim.maxAge < 0
    ensures Faithful(ops, key, now, lim)
  {
    NeverStale(ops, key, now, lim);
    LastPutsPast(map[], ops, from);
  }
}
