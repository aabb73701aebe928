/**
 Whole runs of the cache: any sequence of gets, puts and sweeps under a clock that
 never goes back. What every run keeps, which key a full cache gives up, how long
 a key is certain to stay, and where every entry ever put has gone.
 */
module CacheRuns {
  import opened Outcomes
  import opened CacheSpec

  /** A sweep reads the clock once for each key it looks at, between its start and its finish. */
  datatype Op<!V> =
    | GetOp(key: string, now: int)
    | PutOp(key: string, value: V, now: int)
    | SweepOp(readAt: string -> int, start: int, finish: int)

  ghost function Start<V>(op: Op<V>): int {
    if op.SweepOp? then op.start else op.now
  }

  ghost function Finish<V>(op: Op<V>): int {
    if op.SweepOp? then op.finish else op.now
  }

  /** The clock readings of the run never go back, starting at from. */
  ghost predicate Timed<V>(ops: seq<Op<V>>, from: int) {
    ops == [] ||
    (from <= Start(ops[0]) <= Finish(ops[0])
     && (ops[0].SweepOp? ==> forall k :: ops[0].start <= ops[0].readAt(k) <= ops[0].finish)
     && Timed(ops[1..], Finish(ops[0])))
  }

  ghost function End<V>(ops: seq<Op<V>>, from: int): int {
    if ops == [] then from else End(ops[1..], Finish(ops[0]))
  }

  ghost function Step<V>(es: seq<Entry<V>>, op: Op<V>, lim: Limits): seq<Entry<V>> {
    match op
    case GetOp(key, now) => Get(es, key, now, lim.maxAge).0
    case PutOp(key, value, now) => Put(es, key, value, now, lim.maxElements)
    case SweepOp(readAt, _, _) => Sweep(es, readAt, lim.maxAge)
  }

  ghost function Run<V>(es: seq<Entry<V>>, ops: seq<Op<V>>, lim: Limits): seq<Entry<V>>
    decreases ops
  {
    if ops == [] then es else Run(Step(es, ops[0], lim), ops[1..], lim)
  }

  /** What get would answer. */
  ghost function Answer<V>(es: seq<Entry<V>>, key: string, now: int, lim: Limits): Option<V> {
    Get(es, key, now, lim.maxAge).1
  }

  lemma {:induction false} TimedEnd<V>(ops: seq<Op<V>>, from: int)
    requires Timed(ops, from)
    ensures from <= End(ops, from)
  {
    if ops != [] { TimedEnd(ops[1..], Finish(ops[0])); }
  }

  lemma {:induction false} TimedAppend<V>(a: seq<Op<V>>, b: seq<Op<V>>, from: int)
    requires Timed(a, from) && Timed(b, End(a, from))
    ensures Timed(a + b, from) && End(a + b, from) == End(b, End(a, from))
    decreases a
  {
    if a == [] {
      assert a + b == b;
    } else {
      assert (a + b)[1..] == a[1..] + b;
      TimedAppend(a[1..], b, Finish(a[0]));
    }
  }

  lemma {:induction false} RunAppend<V>(es: seq<Entry<V>>, a: seq<Op<V>>, b: seq<Op<V>>, lim: Limits)
    ensures Run(es, a + b, lim) == Run(Run(es, a, lim), b, lim)
    decreases a
  {
    if a == [] {
      assert a + b == b;
    } else {
      assert (a + b)[1..] == a[1..] + b;
      RunAppend(Step(es, a[0], lim), a[1..], b, lim);
    }
  }

  // ----- what every run keeps

  ghost predicate Good<V>(es: seq<Entry<V>>, lim: Limits) {
    DistinctKeys(es) && |es| <= lim.maxElements
  }

  lemma DistinctPushed<V>(es: seq<Entry<V>>, e: Entry<V>)
    requires DistinctKeys(es)
    ensures DistinctKeys([e] + Without(es, e.key))
    ensures |[e] + Without(es, e.key)| <= |es| + 1
    ensures e.key in Keys(es) ==> |[e] + Without(es, e.key)| <= |es|
  {
    FilterDistinct(es, KeyOtherThan<V>(e.key));
    forall x | x in Without(es, e.key) ensures x.key != e.key {
      FilterMember(es, KeyOtherThan<V>(e.key), x);
    }
    if e.key in Keys(es) {
      var i :| 0 <= i < |es| && es[i].key == e.key;
      WithoutAt(es, i);
    }
  }

  lemma StepGood<V>(es: seq<Entry<V>>, op: Op<V>, lim: Limits)
    requires Good(es, lim)
    ensures Good(Step(es, op, lim), lim)
  {
    match op
    case GetOp(key, _) =>
      FilterDistinct(es, KeyOtherThan<V>(key));
      match Lookup(es, key) {
        case Some(e) => DistinctPushed(es, e);
        case None =>
      }
    case PutOp(key, value, now) => DistinctPushed(es, Entry(key, value, now));
    case SweepOp(readAt, _, _) => FilterDistinct(es, LiveAt<V>(readAt, lim.maxAge));
  }

  /** Every run keeps the keys distinct and the capacity respected. */
  lemma {:induction false} RunGood<V>(es: seq<Entry<V>>, ops: seq<Op<V>>, lim: Limits)
    requires Good(es, lim)
    ensures Good(Run(es, ops, lim), lim)
    decreases ops
  {
    if ops != [] {
      StepGood(es, ops[0], lim);
      RunGood(Step(es, ops[0], lim), ops[1..], lim);
    }
  }

  // ----- the sweep under a moving clock

  /** A clock that stands still. */
  ghost function AlwaysAt(t: int): string -> int { (k: string) => t }

  /**
   A sweep as the implementation runs it, one reading per entry, is a sweep by key: the readings
   can be attributed to keys, and stay between the first and the last instant of the sweep.
   */
  lemma SweepByKey<V>(es: seq<Entry<V>>, readings: seq<int>, maxAge: int, start: int, finish: int)
    returns (readAt: string -> int)
    requires DistinctKeys(es) && |readings| == |es| && start <= finish
    requires forall i :: 0 <= i < |readings| ==> start <= readings[i] <= finish
    ensures forall k :: start <= readAt(k) <= finish
    ensures SweepReadings(es, readings, maxAge) == Sweep(es, readAt, maxAge)
  {
    var position := map i | 0 <= i < |es| :: es[i].key := i;
    readAt := (k: string) => if k in position then readings[position[k]] else start;
    assert forall i :: 0 <= i < |es| ==> readAt(es[i].key) == readings[i];
    SweepAttributed(es, readings, readAt, maxAge);
  }

  lemma {:induction false} SweepAttributed<V>(es: seq<Entry<V>>, readings: seq<int>, readAt: string -> int, maxAge: int)
    requires |readings| == |es|
    requires forall i :: 0 <= i < |es| ==> readAt(es[i].key) == readings[i]
    ensures SweepReadings(es, readings, maxAge) == Sweep(es, readAt, maxAge)
  {
    if es != [] {
      var n := |es| - 1;
      SweepAttributed(es[..n], readings[..n], readAt, maxAge);
      FilterAppend(es[..n], [es[n]], LiveAt<V>(readAt, maxAge));
      assert es[..n] + [es[n]] == es;
    }
  }

  /** A sweep removes what had expired when it began, and nothing that is live when it ends. */
  lemma SweepExact<V>(es: seq<Entry<V>>, readAt: string -> int, start: int, finish: int, maxAge: int, e: Entry<V>)
    requires forall k :: start <= readAt(k) <= finish
    ensures e in Sweep(es, readAt, maxAge) ==> e in es && !Expired(e, start, maxAge)
    ensures e in es && !Expired(e, finish, maxAge) ==> e in Sweep(es, readAt, maxAge)
  {
    FilterMember(es, LiveAt<V>(readAt, maxAge), e);
  }

  // ----- least recently used

  /** A cache with, for each key, the number of the step that last put it or hit it. */
  datatype Stamped<!V> = Stamped(es: seq<Entry<V>>, stamp: map<string, nat>, clock: nat)

  /** The key a step touches: the one put, or the one a get hits. */
  ghost function Touched<V>(es: seq<Entry<V>>, op: Op<V>, lim: Limits): set<string> {
    match op
    case GetOp(key, now) => if Answer(es, key, now, lim).Some? then {key} else {}
    case PutOp(key, _, _) => {key}
    case SweepOp(_, _, _) => {}
  }

  ghost function StampedStep<V>(s: Stamped<V>, op: Op<V>, lim: Limits): Stamped<V> {
    Stamped(Step(s.es, op, lim), map k | k in s.stamp.Keys + Touched(s.es, op, lim) ::
      if k in Touched(s.es, op, lim) then s.clock else s.stamp[k], s.clock + 1)
  }

  ghost function StampedRun<V>(s: Stamped<V>, ops: seq<Op<V>>, lim: Limits): (r: Stamped<V>)
    ensures r.es == Run(s.es, ops, lim)
    decreases ops
  {
    if ops == [] then s else StampedRun(StampedStep(s, ops[0], lim), ops[1..], lim)
  }

  /** Every listed key has a stamp below the clock. */
  ghost predicate HasStamps<V>(es: seq<Entry<V>>, stamp: map<string, nat>, clock: nat) {
    forall i :: 0 <= i < |es| ==> es[i].key in stamp && stamp[es[i].key] < clock
  }

  /** The list runs from the most to the least recently touched key. */
  ghost predicate ByRecency<V>(es: seq<Entry<V>>, stamp: map<string, nat>)
    requires forall i :: 0 <= i < |es| ==> es[i].key in stamp
  {
    forall i, j :: 0 <= i < j < |es| ==> stamp[es[i].key] > stamp[es[j].key]
  }

  ghost predicate Ordered<V>(s: Stamped<V>) {
    HasStamps(s.es, s.stamp, s.clock) && ByRecency(s.es, s.stamp)
  }

  lemma {:induction false} FilterByRecency<V>(es: seq<Entry<V>>, keep: Entry<V> -> bool, stamp: map<string, nat>,
                                              clock: nat)
    requires HasStamps(es, stamp, clock) && ByRecency(es, stamp)
    ensures HasStamps(Filter(es, keep), stamp, clock) && ByRecency(Filter(es, keep), stamp)
  {
    if es != [] {
      FilterByRecency(es[1..], keep, stamp, clock);
      forall x | x in Filter(es[1..], keep) ensures stamp[es[0].key] > stamp[x.key] {
        FilterMember(es[1..], keep, x);
      }
    }
  }

  lemma StampedPush<V>(es: seq<Entry<V>>, e: Entry<V>, stamp: map<string, nat>, clock: nat, stamp': map<string, nat>)
    requires HasStamps(es, stamp, clock) && ByRecency(es, stamp)
    requires stamp' == stamp[e.key := clock]
    ensures var r := [e] + Without(es, e.key); HasStamps(r, stamp', clock + 1) && ByRecency(r, stamp')
  {
    var rest := Without(es, e.key);
    FilterByRecency(es, KeyOtherThan<V>(e.key), stamp, clock);
    forall i | 0 <= i < |rest| ensures rest[i].key != e.key {
      FilterMember(es, KeyOtherThan<V>(e.key), rest[i]);
    }
  }

  lemma StepOrdered<V>(s: Stamped<V>, op: Op<V>, lim: Limits)
    requires Ordered(s)
    ensures Ordered(StampedStep(s, op, lim))
  {
    var stamp' := StampedStep(s, op, lim).stamp;
    match op
    case GetOp(key, now) =>
      FilterByRecency(s.es, KeyOtherThan<V>(key), s.stamp, s.clock);
      if Answer(s.es, key, now, lim).Some? {
        assert stamp' == s.stamp[key := s.clock];
        StampedPush(s.es, Lookup(s.es, key).value, s.stamp, s.clock, stamp');
      } else {
        assert stamp' == s.stamp;
      }
    case PutOp(key, value, now) =>
      assert stamp' == s.stamp[key := s.clock];
      StampedPush(s.es, Entry(key, value, now), s.stamp, s.clock, stamp');
    case SweepOp(readAt, _, _) =>
      assert stamp' == s.stamp;
      FilterByRecency(s.es, LiveAt<V>(readAt, lim.maxAge), s.stamp, s.clock);
  }

  /** In every run the list is in strictly decreasing order of last touch. */
  lemma {:induction false} RunOrdered<V>(s: Stamped<V>, ops: seq<Op<V>>, lim: Limits)
    requires Ordered(s)
    ensures Ordered(StampedRun(s, ops, lim))
    decreases ops
  {
    if ops != [] {
      StepOrdered(s, ops[0], lim);
      RunOrdered(StampedStep(s, ops[0], lim), ops[1..], lim);
    }
  }

  lemma PushedKeys<V>(es: seq<Entry<V>>, key: string, value: V, now: int)
    requires DistinctKeys(es)
    ensures Keys(Pushed(es, key, value, now)) == Keys(es) + {key}
    ensures |Pushed(es, key, value, now)| == |Keys(es) + {key}|
  {
    var pushed := Pushed(es, key, value, now);
    DistinctPushed(es, Entry(key, value, now));
    KeysCount(pushed);
    forall x ensures x in Keys(pushed) <==> x in Keys(es) + {key} {
      KeysWithout(es, key, x);
      assert x in Keys(pushed) <==> x == key || x in Keys(Without(es, key));
    }
  }

  lemma BoundedKeys<V>(pushed: seq<Entry<V>>, n: nat)
    requires DistinctKeys(pushed) && pushed != []
    ensures Keys(pushed) - Keys(Bounded(pushed, n)) == if |pushed| > n then {pushed[|pushed| - 1].key} else {}
  {
    var last := |pushed| - 1;
    assert pushed == pushed[..last] + [pushed[last]];
    assert Keys(pushed) == Keys(pushed[..last]) + {pushed[last].key};
    assert pushed[last].key !in Keys(pushed[..last]);
  }

  /** The keys a put gives up: those listed before, or put, that are not listed after. */
  ghost function Victims<V>(es: seq<Entry<V>>, key: string, value: V, now: int, maxElements: nat): set<string> {
    Keys(es) + {key} - Keys(Put(es, key, value, now, maxElements))
  }

  lemma VictimIsLast<V>(es: seq<Entry<V>>, key: string, value: V, now: int, lim: Limits)
    requires Good(es, lim) && lim.maxElements > 0
    ensures var pushed := Pushed(es, key, value, now);
      Victims(es, key, value, now, lim.maxElements)
      == if |Keys(es) + {key}| > lim.maxElements then {pushed[|pushed| - 1].key} else {}
    ensures key !in Victims(es, key, value, now, lim.maxElements)
  {
    var pushed := Pushed(es, key, value, now);
    DistinctPushed(es, Entry(key, value, now));
    PushedKeys(es, key, value, now);
    BoundedKeys(pushed, lim.maxElements);
    assert Put(es, key, value, now, lim.maxElements)[0].key == key;
  }

  /** Of the keys listed besides the one being put, this was touched longest ago. */
  ghost predicate LeastRecent<V>(s: Stamped<V>, gone: string, key: string) {
    && gone in s.stamp && gone in Keys(s.es) - {key}
    && forall kept :: kept in Keys(s.es) - {key, gone} ==> kept in s.stamp && s.stamp[gone] < s.stamp[kept]
  }

  /**
   After any run from the empty cache, a put gives up a key exactly when there would be too many,
   and then just one: not the key it puts, but the listed one touched longest ago.
   */
  lemma LruVictim<V>(ops: seq<Op<V>>, key: string, value: V, now: int, lim: Limits)
    requires lim.maxElements > 0
    ensures var s := StampedRun(Stamped([], map[], 0), ops, lim);
      var victims := Victims(s.es, key, value, now, lim.maxElements);
      if |Keys(s.es) + {key}| > lim.maxElements
      then exists gone :: victims == {gone} && LeastRecent(s, gone, key)
      else victims == {}
  {
    var s := StampedRun(Stamped([], map[], 0), ops, lim);
    RunOrdered(Stamped([], map[], 0), ops, lim);
    RunGood([], ops, lim);
    VictimIsLast(s.es, key, value, now, lim);
    if |Keys(s.es) + {key}| > lim.maxElements { LastIsVictim(s, key, value, now, lim); }
  }

  lemma LastIsVictim<V>(s: Stamped<V>, key: string, value: V, now: int, lim: Limits)
    requires Good(s.es, lim) && Ordered(s) && lim.maxElements > 0 && |Keys(s.es) + {key}| > lim.maxElements
    ensures var pushed := Pushed(s.es, key, value, now); pushed != [] && LeastRecent(s, pushed[|pushed| - 1].key, key)
  {
    var pushed := Pushed(s.es, key, value, now);
    var gone := pushed[|pushed| - 1].key;
    PushedKeys(s.es, key, value, now);
    VictimListed(s, key, value, now, lim);
    forall kept | kept in Keys(s.es) - {key, gone} ensures kept in s.stamp && s.stamp[gone] < s.stamp[kept] {
      LastIsOldest(s, key, value, now, kept);
    }
  }

  lemma VictimListed<V>(s: Stamped<V>, key: string, value: V, now: int, lim: Limits)
    requires Good(s.es, lim) && Ordered(s) && lim.maxElements > 0 && |Keys(s.es) + {key}| > lim.maxElements
    ensures var pushed := Pushed(s.es, key, value, now);
      var gone := pushed[|pushed| - 1].key; gone in Keys(s.es) - {key} && gone in s.stamp
  {
    var pushed := Pushed(s.es, key, value, now);
    var gone := pushed[|pushed| - 1].key;
    VictimIsLast(s.es, key, value, now, lim);
    assert gone in Victims(s.es, key, value, now, lim.maxElements);
    assert gone in Keys(s.es) - {key};
    var i :| 0 <= i < |s.es| && s.es[i].key == gone;
  }

  lemma LastIsOldest<V>(s: Stamped<V>, key: string, value: V, now: int, kept: string)
    requires Ordered(s)
    requires var pushed := Pushed(s.es, key, value, now);
      kept in Keys(pushed) && kept != key && kept != pushed[|pushed| - 1].key
    ensures var last := Pushed(s.es, key, value, now)[|Pushed(s.es, key, value, now)| - 1].key;
      last in s.stamp && kept in s.stamp && s.stamp[last] < s.stamp[kept]
  {
    var rest := Without(s.es, key);
    FilterByRecency(s.es, KeyOtherThan<V>(key), s.stamp, s.clock);
    var pushed := Pushed(s.es, key, value, now);
    var i :| 0 <= i < |pushed| && pushed[i].key == kept;
    assert pushed[i] == rest[i - 1] && pushed[|pushed| - 1] == rest[|rest| - 1];
  }
}
