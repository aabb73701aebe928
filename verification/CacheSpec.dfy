/**
 The cache on plain values: the entries as a sequence, most recently used first.
 Everything the linked implementation does is specified by the four functions
 Get, Put, Sweep and SweepReadings; all whole-run theorems are about these.
 */
module CacheSpec {
  import opened Outcomes

  datatype Entry<+V> = Entry(key: string, value: V, insertedAt: int)

  /** The bounds a cache is constructed with. */
  datatype Limits = Limits(maxAge: int, maxElements: nat)

  /** An entry aged exactly maxAge is still live. */
  predicate Expired<V>(e: Entry<V>, now: int, maxAge: int) {
    now - e.insertedAt > maxAge
  }

  function Filter<V>(es: seq<Entry<V>>, keep: Entry<V> -> bool): (r: seq<Entry<V>>)
    ensures |r| <= |es|
  {
    if es == [] then []
    else if keep(es[0]) then [es[0]] + Filter(es[1..], keep)
    else Filter(es[1..], keep)
  }

  function KeyOtherThan<V>(key: string): Entry<V> -> bool {
    (e: Entry<V>) => e.key != key
  }

  function LiveAt<V>(readAt: string -> int, maxAge: int): Entry<V> -> bool {
    (e: Entry<V>) => !Expired(e, readAt(e.key), maxAge)
  }

  function Without<V>(es: seq<Entry<V>>, key: string): seq<Entry<V>> {
    Filter(es, KeyOtherThan(key))
  }

  function Lookup<V>(es: seq<Entry<V>>, key: string): (r: Option<Entry<V>>)
    ensures r.Some? ==> r.value in es && r.value.key == key
    ensures r.None? ==> key !in Keys(es)
  {
    if es == [] then None
    else if es[0].key == key then Some(es[0])
    else Lookup(es[1..], key)
  }

  ghost function Keys<V>(es: seq<Entry<V>>): set<string> {
    set e | e in es :: e.key
  }

  ghost predicate DistinctKeys<V>(es: seq<Entry<V>>) {
    forall i, j :: 0 <= i < j < |es| ==> es[i].key != es[j].key
  }

  /** get: an absent key leaves the list alone, an expired entry is dropped, a live one moves to the front. */
  function Get<V>(es: seq<Entry<V>>, key: string, now: int, maxAge: int): (seq<Entry<V>>, Option<V>) {
    match Lookup(es, key)
    case None => (es, None)
    case Some(e) =>
      if Expired(e, now, maxAge) then (Without(es, key), None)
      else ([e] + Without(es, key), Some(e.value))
  }

  /** The list after put has replaced the key, before the capacity check. */
  function Pushed<V>(es: seq<Entry<V>>, key: string, value: V, now: int): (r: seq<Entry<V>>)
    ensures r != []
  {
    [Entry(key, value, now)] + Without(es, key)
  }

  /** The capacity check: one entry, the last, goes when the list is too long. */
  function Bounded<V>(es: seq<Entry<V>>, maxElements: nat): seq<Entry<V>> {
    if |es| > maxElements then es[..|es| - 1] else es
  }

  function Put<V>(es: seq<Entry<V>>, key: string, value: V, now: int, maxElements: nat): seq<Entry<V>> {
    Bounded(Pushed(es, key, value, now), maxElements)
  }

  /** A sweep that reads the clock as readAt(k) when it looks at key k. */
  function Sweep<V>(es: seq<Entry<V>>, readAt: string -> int, maxAge: int): seq<Entry<V>> {
    Filter(es, LiveAt(readAt, maxAge))
  }

  /** A sweep from the front whose i-th clock reading is readings[i]. */
  function SweepReadings<V>(es: seq<Entry<V>>, readings: seq<int>, maxAge: int): (r: seq<Entry<V>>)
    requires |readings| == |es|
  {
    if es == [] then []
    else
      var n := |es| - 1;
      SweepReadings(es[..n], readings[..n], maxAge)
      + (if Expired(es[n], readings[n], maxAge) then [] else [es[n]])
  }

  // ----- facts about filtering

  lemma {:induction false} FilterMember<V>(es: seq<Entry<V>>, keep: Entry<V> -> bool, e: Entry<V>)
    ensures e in Filter(es, keep) <==> e in es && keep(e)
  {
    if es != [] { FilterMember(es[1..], keep, e); }
  }

  lemma {:induction false} FilterAppend<V>(a: seq<Entry<V>>, b: seq<Entry<V>>, keep: Entry<V> -> bool)
    ensures Filter(a + b, keep) == Filter(a, keep) + Filter(b, keep)
  {
    if a == [] {
      assert a + b == b;
    } else {
      var rest := a[1..];
      assert (a + b)[0] == a[0] && (a + b)[1..] == rest + b;
      FilterAppend(rest, b, keep);
      if keep(a[0]) {
        assert [a[0]] + (Filter(rest, keep) + Filter(b, keep)) == ([a[0]] + Filter(rest, keep)) + Filter(b, keep);
      }
    }
  }

  lemma {:induction false} FilterAll<V>(es: seq<Entry<V>>, keep: Entry<V> -> bool)
    requires forall e :: e in es ==> keep(e)
    ensures Filter(es, keep) == es
  {
    if es != [] { FilterAll(es[1..], keep); }
  }

  lemma {:induction false} FilterDistinct<V>(es: seq<Entry<V>>, keep: Entry<V> -> bool)
    requires DistinctKeys(es)
    ensures DistinctKeys(Filter(es, keep))
  {
    if es != [] {
      FilterDistinct(es[1..], keep);
      forall e | e in Filter(es[1..], keep) ensures e.key != es[0].key {
        FilterMember(es[1..], keep, e);
      }
    }
  }

  lemma LookupIs<V>(es: seq<Entry<V>>, e: Entry<V>)
    requires DistinctKeys(es) && e in es
    ensures Lookup(es, e.key) == Some(e)
  {
  }

  /** With distinct keys, removing a key is removing one position. */
  lemma WithoutAt<V>(es: seq<Entry<V>>, i: nat)
    requires DistinctKeys(es) && i < |es|
    ensures Without(es, es[i].key) == es[..i] + es[i + 1..]
  {
    var keep := KeyOtherThan<V>(es[i].key);
    assert es == es[..i] + ([es[i]] + es[i + 1..]);
    FilterAppend(es[..i], [es[i]] + es[i + 1..], keep);
    FilterAppend([es[i]], es[i + 1..], keep);
    FilterAll(es[..i], keep);
    FilterAll(es[i + 1..], keep);
  }

  lemma WithoutAbsent<V>(es: seq<Entry<V>>, key: string)
    requires key !in Keys(es)
    ensures Without(es, key) == es
  {
    FilterAll(es, KeyOtherThan<V>(key));
  }

  lemma KeysCount<V>(es: seq<Entry<V>>)
    requires DistinctKeys(es)
    ensures |Keys(es)| == |es|
  {
    if es != [] {
      KeysCount(es[1..]);
      assert Keys(es) == {es[0].key} + Keys(es[1..]);
    }
  }

  lemma KeysWithout<V>(es: seq<Entry<V>>, key: string, x: string)
    ensures x in Keys(Without(es, key)) <==> x in Keys(es) && x != key
  {
    if x in Keys(Without(es, key)) {
      var e :| e in Without(es, key) && e.key == x;
      FilterMember(es, KeyOtherThan<V>(key), e);
    }
    if x in Keys(es) && x != key {
      var e :| e in es && e.key == x;
      FilterMember(es, KeyOtherThan<V>(key), e);
    }
  }
}
