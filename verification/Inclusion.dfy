/**
 Two caches with the same maximum age, one no larger than the other, driven by the
 same run. Although a get that only the larger one hits reorders only that one, and
 the two evict at different moments, the smaller cache's list always stays a
 subsequence of the larger one's: more capacity never loses a hit.
 */
module Inclusion {
  import opened CacheSpec
  import opened CacheRuns

  ghost predicate Subsequence<V>(a: seq<Entry<V>>, b: seq<Entry<V>>) {
    if a == [] then true
    else if b == [] then false
    else if a[0] == b[0] then Subsequence(a[1..], b[1..])
    else Subsequence(a, b[1..])
  }

  lemma {:induction false} SubsequenceMember<V>(a: seq<Entry<V>>, b: seq<Entry<V>>, e: Entry<V>)
    requires Subsequence(a, b) && e in a
    ensures e in b
  {
    if a[0] != b[0] {
      SubsequenceMember(a, b[1..], e);
    } else if e != a[0] {
      SubsequenceMember(a[1..], b[1..], e);
    }
  }

  lemma {:induction false} SubsequenceLength<V>(a: seq<Entry<V>>, b: seq<Entry<V>>)
    requires Subsequence(a, b)
    ensures |a| <= |b|
  {
    if a != [] {
      if a[0] == b[0] { SubsequenceLength(a[1..], b[1..]); } else { SubsequenceLength(a, b[1..]); }
    }
  }

  /** Dropping a first element of the smaller list keeps it a subsequence. */
  lemma {:induction false} SubsequenceTail<V>(a: seq<Entry<V>>, b: seq<Entry<V>>)
    requires a != [] && Subsequence(a, b)
    ensures Subsequence(a[1..], b)
    decreases |a| + |b|, 0
  {
    if a[0] == b[0] {
      SubsequenceSkip(a[1..], b[1..], b[0]);
      assert b == [b[0]] + b[1..];
    } else {
      SubsequenceTail(a, b[1..]);
      SubsequenceSkip(a[1..], b[1..], b[0]);
      assert b == [b[0]] + b[1..];
    }
  }

  lemma {:induction false} SubsequenceSkip<V>(a: seq<Entry<V>>, b: seq<Entry<V>>, x: Entry<V>)
    requires Subsequence(a, b)
    ensures Subsequence(a, [x] + b)
    decreases |a| + |b|, 1
  {
    assert ([x] + b)[1..] == b;
    if a != [] && a[0] == x {
      SubsequenceTail(a, b);
    }
  }

  /** The same filter keeps the inclusion, and cannot widen the difference in size. */
  lemma {:induction false} SubsequenceFilter<V>(a: seq<Entry<V>>, b: seq<Entry<V>>, keep: Entry<V> -> bool)
    requires Subsequence(a, b)
    ensures Subsequence(Filter(a, keep), Filter(b, keep))
    ensures |Filter(b, keep)| - |Filter(a, keep)| <= |b| - |a|
  {
    if a == [] {
    } else if a[0] == b[0] {
      SubsequenceFilter(a[1..], b[1..], keep);
    } else {
      SubsequenceFilter(a, b[1..], keep);
      if keep(b[0]) { SubsequenceSkip(Filter(a, keep), Filter(b[1..], keep), b[0]); }
    }
  }

  lemma {:induction false} SubsequenceDropBoth<V>(a: seq<Entry<V>>, b: seq<Entry<V>>)
    requires a != [] && Subsequence(a, b)
    ensures b != [] && Subsequence(a[..|a| - 1], b[..|b| - 1])
  {
    var a', b' := a[..|a| - 1], b[..|b| - 1];
    if a[0] == b[0] {
      if |a| > 1 {
        SubsequenceDropBoth(a[1..], b[1..]);
        assert a'[1..] == a[1..][..|a[1..]| - 1] && b'[1..] == b[1..][..|b[1..]| - 1];
      }
    } else {
      SubsequenceDropBoth(a, b[1..]);
      assert b' == [b[0]] + b[1..][..|b[1..]| - 1];
      SubsequenceSkip(a', b[1..][..|b[1..]| - 1], b[0]);
    }
  }

  lemma {:induction false} SubsequenceDropSmall<V>(a: seq<Entry<V>>, b: seq<Entry<V>>)
    requires a != [] && Subsequence(a, b)
    ensures Subsequence(a[..|a| - 1], b)
  {
    var a' := a[..|a| - 1];
    if a[0] == b[0] {
      if |a| > 1 {
        SubsequenceDropSmall(a[1..], b[1..]);
        assert a'[1..] == a[1..][..|a[1..]| - 1];
      }
    } else {
      SubsequenceDropSmall(a, b[1..]);
      assert b == [b[0]] + b[1..];
      SubsequenceSkip(a', b[1..], b[0]);
    }
  }

  /** What the run keeps between the two caches: inclusion, and sizes at most m - n apart. */
  ghost predicate Included<V>(small: seq<Entry<V>>, large: seq<Entry<V>>, n: nat, m: nat) {
    && DistinctKeys(small) && DistinctKeys(large)
    && |small| <= n && |large| <= m
    && Subsequence(small, large)
    && |large| - |small| <= m - n
  }

  /** A key the smaller cache holds is held by the larger, with the same entry. */
  lemma IncludedLookup<V>(small: seq<Entry<V>>, large: seq<Entry<V>>, key: string)
    requires DistinctKeys(large) && Subsequence(small, large)
    ensures Lookup(small, key).Some? ==> Lookup(large, key) == Lookup(small, key)
  {
    if Lookup(small, key).Some? {
      var e := Lookup(small, key).value;
      SubsequenceMember(small, large, e);
      LookupIs(large, e);
    }
  }

  lemma GetIncluded<V>(small: seq<Entry<V>>, large: seq<Entry<V>>, n: nat, m: nat, key: string, now: int, maxAge: int)
    requires Included(small, large, n, m)
    ensures Included(Get(small, key, now, maxAge).0, Get(large, key, now, maxAge).0, n, m)
    ensures Get(small, key, now, maxAge).1.Some? ==> Get(large, key, now, maxAge).1 == Get(small, key, now, maxAge).1
  {
    var (s, l) := (Get(small, key, now, maxAge).0, Get(large, key, now, maxAge).0);
    IncludedLookup(small, large, key);
    StepGood(small, GetOp(key, now), Limits(maxAge, n));
    StepGood(large, GetOp(key, now), Limits(maxAge, m));
    SubsequenceFilter(small, large, KeyOtherThan<V>(key));
    GetLength(small, key, now, maxAge);
    GetLength(large, key, now, maxAge);
    match Lookup(small, key) {
      case Some(e) =>
      case None =>
        WithoutAbsent(small, key);
        match Lookup(large, key) {
          case None =>
          case Some(e) =>
            SubsequenceSkip(small, Without(large, key), e);
        }
    }
  }

  lemma GetLength<V>(es: seq<Entry<V>>, key: string, now: int, maxAge: int)
    requires DistinctKeys(es)
    ensures Lookup(es, key).Some? ==> |Without(es, key)| == |es| - 1
    ensures |Get(es, key, now, maxAge).0|
         == if Lookup(es, key).Some? && Expired(Lookup(es, key).value, now, maxAge) then |es| - 1 else |es|
  {
    if Lookup(es, key).Some? {
      var i :| 0 <= i < |es| && es[i] == Lookup(es, key).value;
      WithoutAt(es, i);
    }
  }

  lemma PutIncluded<V>(small: seq<Entry<V>>, large: seq<Entry<V>>, n: nat, m: nat, key: string, value: V, now: int)
    requires n <= m && Included(small, large, n, m)
    ensures Included(Put(small, key, value, now, n), Put(large, key, value, now, m), n, m)
  {
    StepGood(small, PutOp(key, value, now), Limits(0, n));
    StepGood(large, PutOp(key, value, now), Limits(0, m));
    DistinctPushed(small, Entry(key, value, now));
    DistinctPushed(large, Entry(key, value, now));
    SubsequenceFilter(small, large, KeyOtherThan<V>(key));
    var s, l := Pushed(small, key, value, now), Pushed(large, key, value, now);
    assert s[1..] == Without(small, key) && l[1..] == Without(large, key);
    if |l| > m {
      SubsequenceDropBoth(s, l);
    } else if |s| > n {
      SubsequenceDropSmall(s, l);
    }
  }

  lemma StepIncluded<V>(small: seq<Entry<V>>, large: seq<Entry<V>>, n: nat, m: nat, op: Op<V>, maxAge: int)
    requires n <= m && Included(small, large, n, m)
    ensures Included(Step(small, op, Limits(maxAge, n)), Step(large, op, Limits(maxAge, m)), n, m)
  {
    match op
    case GetOp(key, now) => GetIncluded(small, large, n, m, key, now, maxAge);
    case PutOp(key, value, now) => PutIncluded(small, large, n, m, key, value, now);
    case SweepOp(readAt, _, _) =>
      FilterDistinct(small, LiveAt<V>(readAt, maxAge));
      FilterDistinct(large, LiveAt<V>(readAt, maxAge));
      SubsequenceFilter(small, large, LiveAt<V>(readAt, maxAge));
  }

  /** Inclusion holds after every common run. */
  lemma {:induction false} RunIncluded<V>(small: seq<Entry<V>>, large: seq<Entry<V>>, n: nat, m: nat, ops: seq<Op<V>>,
                                          maxAge: int)
    requires n <= m && Included(small, large, n, m)
    ensures Included(Run(small, ops, Limits(maxAge, n)), Run(large, ops, Limits(maxAge, m)), n, m)
    decreases ops
  {
    if ops != [] {
      StepIncluded(small, large, n, m, ops[0], maxAge);
      RunIncluded(Step(small, ops[0], Limits(maxAge, n)), Step(large, ops[0], Limits(maxAge, m)), n, m, ops[1..],
                  maxAge);
    }
  }

  /** Every hit of the smaller cache is a hit of the larger one, with the same value. */
  lemma MoreCapacityKeepsHits<V>(ops: seq<Op<V>>, n: nat, m: nat, maxAge: int, key: string, now: int)
    requires n <= m
    ensures var (s, l) := (Limits(maxAge, n), Limits(maxAge, m));
      Answer(Run([], ops, s), key, now, s).Some?
      ==> Answer(Run([], ops, l), key, now, l) == Answer(Run([], ops, s), key, now, s)
  {
    RunIncluded([], [], n, m, ops, maxAge);
    GetIncluded(Run([], ops, Limits(maxAge, n)), Run([], ops, Limits(maxAge, m)), n, m, key, now, maxAge);
  }
}
