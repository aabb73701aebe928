/**
 A run that strains the capacity: one key is put, then as many others as make the cache full, and
 the first is hit again. It now stands in front although it is the oldest, so that what expires
 first and what is given up first are no longer the same.
 */
module Pressure {
  import opened CacheSpec
  import opened CacheRuns
  import opened AmpleCapacity

  ghost function Puts<V>(keys: seq<string>, v: V, t: int): seq<Op<V>> {
    if keys == [] then [] else [PutOp(keys[0], v, t)] + Puts(keys[1..], v, t)
  }

  ghost function Filling<V>(first: string, others: seq<string>, v: V, t: int): seq<Op<V>> {
    [PutOp(first, v, 0)] + Puts(others, v, t)
  }

  /** The first key is put at instant zero, the others at t, and then the first is asked for. */
  ghost function Strain<V>(first: string, others: seq<string>, v: V, t: int): seq<Op<V>> {
    Filling(first, others, v, t) + [GetOp(first, t)]
  }

  ghost predicate NoRepeats(keys: seq<string>) {
    forall i, j :: 0 <= i < j < |keys| ==> keys[i] != keys[j]
  }

  ghost function KeySet(keys: seq<string>): set<string> { set k | k in keys }

  lemma {:induction false} KeySetSize(keys: seq<string>)
    requires NoRepeats(keys)
    ensures |KeySet(keys)| == |keys|
  {
    if keys != [] {
      KeySetSize(keys[1..]);
      assert KeySet(keys) == {keys[0]} + KeySet(keys[1..]);
    }
  }

  lemma {:induction false} Enumerate(keys: set<string>) returns (order: seq<string>)
    ensures NoRepeats(order) && KeySet(order) == keys && |order| == |keys|
  {
    order := [];
    if keys != {} {
      var k :| k in keys;
      var rest := Enumerate(keys - {k});
      assert k !in KeySet(rest);
      order := [k] + rest;
      assert KeySet(order) == {k} + KeySet(rest);
    }
  }

  lemma {:induction false} PutKeysAppend<V>(a: seq<Op<V>>, b: seq<Op<V>>)
    ensures PutKeys(a + b) == PutKeys(a) + PutKeys(b)
  {
    if a == [] {
      assert a + b == b;
    } else {
      assert (a + b)[0] == a[0] && (a + b)[1..] == a[1..] + b;
      PutKeysTail(a + b);
      PutKeysTail(a);
      PutKeysAppend(a[1..], b);
    }
  }

  lemma {:induction false} PutsRun<V>(keys: seq<string>, v: V, t: int, from: int, last: map<string, Entry<V>>)
    requires from <= t && NoRepeats(keys)
    ensures Timed(Puts(keys, v, t), from) && End(Puts(keys, v, t), from) <= t
    ensures PutKeys(Puts(keys, v, t)) == KeySet(keys)
    ensures var r := LastPuts(last, Puts(keys, v, t));
      && r.Keys == last.Keys + KeySet(keys)
      && forall k :: k in r ==> r[k] == if k in keys then Entry(k, v, t) else last[k]
  {
    if keys != [] {
      var ops, op := Puts(keys, v, t), PutOp(keys[0], v, t);
      assert ops[0] == op && ops[1..] == Puts(keys[1..], v, t);
      PutsRun(keys[1..], v, t, t, LastStep(last, op));
      PutKeysCons(op, ops[1..]);
    }
  }

  lemma FillingRun<V>(first: string, others: seq<string>, v: V, t: int)
    requires 0 <= t && NoRepeats(others) && first !in others
    ensures var ops := Filling(first, others, v, t);
      && Timed(ops, 0) && End(ops, 0) <= t && PutKeys(ops) == {first} + KeySet(others)
      && var last := LastPuts(map[], ops);
        && last.Keys == {first} + KeySet(others) && last[first] == Entry(first, v, 0)
        && forall k :: k in others ==> last[k] == Entry(k, v, t)
  {
    var ops, op := Filling(first, others, v, t), PutOp(first, v, 0);
    var last := LastStep(map[], op);
    assert ops[0] == op && ops[1..] == Puts(others, v, t);
    PutsRun(others, v, t, 0, last);
    PutKeysCons(op, ops[1..]);
  }

  /** The entry the run put under the first key, or under one of the others. */
  ghost predicate OneOf<V>(e: Entry<V>, first: string, others: seq<string>, v: V, t: int) {
    e == Entry(first, v, 0) || (e.key in others && e == Entry(e.key, v, t))
  }

  /** The others are listed, and nothing but them and perhaps the first key. */
  ghost predicate Holds<V>(es: seq<Entry<V>>, first: string, others: seq<string>, v: V, t: int) {
    && (forall k :: k in others ==> Entry(k, v, t) in es)
    && (forall e :: e in es ==> OneOf(e, first, others, v, t))
  }

  lemma Filled<V>(first: string, others: seq<string>, v: V, t: int, lim: Limits)
    requires 0 <= t && NoRepeats(others) && first !in others && |others| < lim.maxElements && lim.maxAge >= 0
    ensures var es := Run([], Filling(first, others, v, t), lim);
      Good(es, lim) && Holds(es, first, others, v, t) && (t <= lim.maxAge ==> Entry(first, v, 0) in es)
  {
    var ops := Filling(first, others, v, t);
    FillingRun(first, others, v, t);
    KeySetSize(others);
    RunGood([], ops, lim);
    RunSound([], map[], ops, lim);
    RunComplete([], map[], ops, 0, lim, PutKeys(ops));
  }

  lemma StrainTimed<V>(first: string, others: seq<string>, v: V, t: int)
    requires 0 <= t && NoRepeats(others) && first !in others
    ensures var ops := Strain(first, others, v, t);
      Timed(ops, 0) && End(ops, 0) == t && PutKeys(ops) == {first} + KeySet(others)
  {
    var ops: seq<Op<V>>, get := Filling(first, others, v, t), [GetOp(first, t)];
    FillingRun(first, others, v, t);
    TimedAppend(ops, get, 0);
    PutKeysAppend(ops, get);
  }

  /** A get leaves every entry listed but the one it finds expired. */
  lemma GetMember<V>(es: seq<Entry<V>>, key: string, now: int, maxAge: int, e: Entry<V>)
    requires DistinctKeys(es)
    ensures e in Get(es, key, now, maxAge).0 <==> e in es && (e.key == key ==> !Expired(e, now, maxAge))
  {
    FilterMember(es, KeyOtherThan<V>(key), e);
    if e in es { LookupIs(es, e); }
  }

  lemma FirstHit<V>(es: seq<Entry<V>>, first: string, others: seq<string>, v: V, t: int, lim: Limits)
    requires Good(es, lim) && Holds(es, first, others, v, t) && first !in others
    requires t <= lim.maxAge ==> Entry(first, v, 0) in es
    ensures var es' := Get(es, first, t, lim.maxAge).0;
      && Good(es', lim) && Holds(es', first, others, v, t)
      && if t <= lim.maxAge then es' != [] && es'[0] == Entry(first, v, 0) else first !in Keys(es')
  {
    var es' := Get(es, first, t, lim.maxAge).0;
    StepGood(es, GetOp(first, t), lim);
    forall k | k in others ensures Entry(k, v, t) in es' { GetMember(es, first, t, lim.maxAge, Entry(k, v, t)); }
    forall e | e in es' ensures OneOf(e, first, others, v, t) && (e.key == first ==> t <= lim.maxAge) {
      GetMember(es, first, t, lim.maxAge, e);
    }
    if t <= lim.maxAge { LookupIs(es, Entry(first, v, 0)); }
  }

  /** The strained cache: the first key in front, put before all the others; or gone, if it had expired. */
  lemma Strained<V>(first: string, others: seq<string>, v: V, t: int, lim: Limits)
    requires 0 <= t && NoRepeats(others) && first !in others && |others| < lim.maxElements && lim.maxAge >= 0
    ensures var es := Run([], Strain(first, others, v, t), lim);
      && Good(es, lim) && Holds(es, first, others, v, t)
      && if t <= lim.maxAge then es != [] && es[0] == Entry(first, v, 0) else first !in Keys(es)
  {
    var ops: seq<Op<V>>, get := Filling(first, others, v, t), GetOp(first, t);
    var es := Run([], ops, lim);
    Filled(first, others, v, t, lim);
    RunAppend([], ops, [get], lim);
    assert Run(es, [get], lim) == Step(es, get, lim);
    FirstHit(es, first, others, v, t, lim);
  }

  /** The strained cache is full. */
  lemma StrainedFull<V>(first: string, others: seq<string>, v: V, t: int, lim: Limits)
    requires 0 <= t <= lim.maxAge && NoRepeats(others) && first !in others && |others| == lim.maxElements - 1
    ensures var es := Run([], Strain(first, others, v, t), lim);
      |es| == lim.maxElements && Keys(es) == {first} + KeySet(others)
  {
    var es := Run([], Strain(first, others, v, t), lim);
    Strained(first, others, v, t, lim);
    KeySetSize(others);
    KeysCount(es);
    assert es[0] in es;
    forall k | k in KeySet(others) ensures k in Keys(es) { assert Entry(k, v, t) in es; }
    assert Keys(es) == {first} + KeySet(others) by {
      assert forall e :: e in es ==> OneOf(e, first, others, v, t);
    }
  }

  /** A full cache gives up its last entry to a new key. */
  lemma Overflows<V>(es: seq<Entry<V>>, key: string, value: V, now: int, n: nat)
    requires DistinctKeys(es) && |es| == n > 0 && key !in Keys(es)
    ensures Put(es, key, value, now, n) == [Entry(key, value, now)] + es[..n - 1]
    ensures es[n - 1].key !in Keys(Put(es, key, value, now, n))
  {
    WithoutAbsent(es, key);
    assert ([Entry(key, value, now)] + es)[..n] == [Entry(key, value, now)] + es[..n - 1];
  }

  /** More keys than fit: a first, enough others to fill the cache, and one more. */
  lemma Split(keys: set<string>, n: nat) returns (first: string, others: seq<string>, more: string)
    requires 0 < n < |keys|
    ensures NoRepeats(others) && first !in others && |others| == n - 1
    ensures more != first && more !in others && {first, more} + KeySet(others) <= keys
  {
    var order := Enumerate(keys);
    first, others, more := order[0], order[1..n], order[n];
    assert forall k :: k in order ==> k in KeySet(order);
  }
}
