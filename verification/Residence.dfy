/**
 How old a listed entry can get when the sweeper's waits return on time, even if the
 entry is never read again.
 */
module Residence {
  import opened CacheSpec
  import opened CacheRuns

  /** Integer division as the implementation language has it: toward zero. */
  function Half(minutes: int): int {
    if minutes >= 0 then minutes / 2 else -(-minutes / 2)
  }

  /** The sweeper's wait, in minutes: half of maxAge, but at least one. */
  function Interval(maxAgeMinutes: int): int {
    if Half(maxAgeMinutes) > 1 then Half(maxAgeMinutes) else 1
  }

  /** It is the longest wait in whole minutes that is one minute or no more than half of maxAge. */
  lemma IntervalIsLongest(maxAgeMinutes: int, wait: int)
    ensures var i := Interval(maxAgeMinutes); i == 1 || 2 * i <= maxAgeMinutes
    ensures wait == 1 || 2 * wait <= maxAgeMinutes ==> wait <= Interval(maxAgeMinutes)
  {
  }

  /** The wait stays within half of maxAge, keeping the bound below at 1.5 maxAge, exactly from two minutes on. */
  lemma IntervalWithinHalf(maxAgeMinutes: int)
    ensures 2 * (maxAgeMinutes + Interval(maxAgeMinutes)) <= 3 * maxAgeMinutes <==> maxAgeMinutes >= 2
  {
  }

  /**
   The sweeper is on time: every operation happens no later than the next sweep is due, a sweep
   takes at most duration, and the next one is due one interval after it finishes.
   */
  ghost predicate OnTime<V>(ops: seq<Op<V>>, due: int, interval: int, duration: nat)
    decreases ops
  {
    ops == [] ||
    (Start(ops[0]) <= due
     && (ops[0].SweepOp? ==> ops[0].finish - ops[0].start <= duration)
     && OnTime(ops[1..], NextDue(ops[0], due, interval), interval, duration))
  }

  ghost function NextDue<V>(op: Op<V>, due: int, interval: int): int {
    if op.SweepOp? then op.finish + interval else due
  }

  ghost function LastDue<V>(ops: seq<Op<V>>, due: int, interval: int): int
    decreases ops
  {
    if ops == [] then due else LastDue(ops[1..], NextDue(ops[0], due, interval), interval)
  }

  function Max(a: int, b: int): int { if a > b then a else b }

  /** Even when the next sweep is due, no listed entry is older than the bound. */
  ghost predicate Young<V>(es: seq<Entry<V>>, due: int, bound: int) {
    forall e :: e in es ==> due - e.insertedAt <= bound
  }

  lemma StepYoung<V>(es: seq<Entry<V>>, op: Op<V>, from: int, due: int, interval: int, duration: nat, lim: Limits)
    requires Good(es, lim) && Timed([op], from) && OnTime([op], due, interval, duration)
    requires due - interval <= from
    requires Young(es, due, Max(lim.maxAge, 0) + interval + duration)
    ensures Young(Step(es, op, lim), NextDue(op, due, interval), Max(lim.maxAge, 0) + interval + duration)
    ensures NextDue(op, due, interval) - interval <= Finish(op)
  {
    forall e | e in Step(es, op, lim)
      ensures NextDue(op, due, interval) - e.insertedAt <= Max(lim.maxAge, 0) + interval + duration
    {
      match op
      case GetOp(key, _) => FilterMember(es, KeyOtherThan<V>(key), e);
      case PutOp(key, _, _) => FilterMember(es, KeyOtherThan<V>(key), e);
      case SweepOp(readAt, _, _) => FilterMember(es, LiveAt<V>(readAt, lim.maxAge), e);
    }
  }

  lemma {:induction false} RunYoung<V>(es: seq<Entry<V>>, ops: seq<Op<V>>, from: int, due: int, interval: int,
                                       duration: nat, lim: Limits)
    requires Good(es, lim) && Timed(ops, from) && OnTime(ops, due, interval, duration)
    requires due - interval <= from
    requires Young(es, due, Max(lim.maxAge, 0) + interval + duration)
    ensures Young(Run(es, ops, lim), LastDue(ops, due, interval), Max(lim.maxAge, 0) + interval + duration)
    decreases ops
  {
    if ops != [] {
      StepGood(es, ops[0], lim);
      StepYoung(es, ops[0], from, due, interval, duration, lim);
      RunYoung(Step(es, ops[0], lim), ops[1..], Finish(ops[0]), NextDue(ops[0], due, interval), interval, duration,
               lim);
    }
  }

  /** A run from construction whose sweeps are on time, until no later than the next sweep is due. */
  ghost predicate OnSchedule<V>(ops: seq<Op<V>>, built: int, now: int, minutes: int, ticksPerMinute: nat,
                                duration: nat) {
    var interval := Interval(minutes) * ticksPerMinute;
    && Timed(ops, built) && OnTime(ops, built + interval, interval, duration)
    && now <= LastDue(ops, built + interval, interval)
  }

  /**
   In a run from construction whose sweeps are on time, at any moment until the next sweep is due,
   every listed entry is at most maxAge plus one sweep interval (plus the length of a sweep) old.
   Times are in ticks, the configured ages in minutes of ticksPerMinute ticks.
   */
  lemma BoundedResidence<V>(ops: seq<Op<V>>, built: int, now: int, minutes: int, ticksPerMinute: nat, capacity: nat,
                            duration: nat, e: Entry<V>)
    requires OnSchedule(ops, built, now, minutes, ticksPerMinute, duration)
    requires e in Run([], ops, Limits(minutes * ticksPerMinute, capacity))
    ensures now - e.insertedAt <= (Max(minutes, 0) + Interval(minutes)) * ticksPerMinute + duration
    ensures minutes >= 2 ==> 2 * (now - e.insertedAt - duration) <= 3 * minutes * ticksPerMinute
  {
    var interval, lim := Interval(minutes) * ticksPerMinute, Limits(minutes * ticksPerMinute, capacity);
    RunYoung([], ops, built, built + interval, interval, duration, lim);
    InTicks(now - e.insertedAt - duration, minutes, ticksPerMinute);
  }

  /** The bound of a run's entries, in ticks, is the bound in minutes. */
  lemma InTicks(age: int, minutes: int, ticksPerMinute: nat)
    requires age <= Max(minutes * ticksPerMinute, 0) + Interval(minutes) * ticksPerMinute
    ensures age <= (Max(minutes, 0) + Interval(minutes)) * ticksPerMinute
    ensures minutes >= 2 ==> 2 * age <= 3 * minutes * ticksPerMinute
  {
    ScaleMax(minutes, ticksPerMinute);
    if minutes >= 2 { InHalves(age, minutes, Interval(minutes), ticksPerMinute); }
  }

  lemma InHalves(age: int, minutes: int, interval: int, k: nat)
    requires minutes >= 2 && interval == Interval(minutes) && age <= (minutes + interval) * k
    ensures 2 * age <= 3 * minutes * k
  {
    IntervalWithinHalf(minutes);
    Scale(2 * (minutes + interval), 3 * minutes, k);
  }

  lemma Scale(a: int, b: int, k: nat)
    requires a <= b
    ensures a * k <= b * k
  {
  }

  lemma ScaleMax(a: int, k: nat)
    ensures Max(a * k, 0) == Max(a, 0) * k
  {
    if a < 0 { Scale(a, 0, k); } else { Scale(0, a, k); }
  }

  /** No run on schedule shows an entry older than one and a half maxAge, the length of a sweep apart. */
  ghost predicate WithinOneAndAHalf<V(!new)>(minutes: int, ticksPerMinute: nat, capacity: nat, duration: nat) {
    forall ops: seq<Op<V>>, built: int, now: int, e: Entry<V> ::
      OnSchedule(ops, built, now, minutes, ticksPerMinute, duration) && End(ops, built) <= now
      && e in Run([], ops, Limits(minutes * ticksPerMinute, capacity))
      ==> 2 * (now - e.insertedAt - duration) <= 3 * minutes * ticksPerMinute
  }

  /** At one minute the entry is as old as maxAge at the first sweep, so it stays until the second. */
  lemma TwoIntervals<V(!new)>(ticksPerMinute: nat, capacity: nat, v: V)
    requires ticksPerMinute > 0 && capacity > 0
    ensures !WithinOneAndAHalf<V>(1, ticksPerMinute, capacity, 0)
  {
    var k, e := ticksPerMinute, Entry("", v, 0);
    var put, sweep := PutOp("", v, 0), SweepOp(AlwaysAt(k), k, k);
    var ops, lim := [put, sweep], Limits(1 * k, capacity);
    assert ops[1..] == [sweep] && [sweep][1..] == [];
    assert Step([], put, lim) == [e];
    FilterAll([e], LiveAt<V>(AlwaysAt(k), k));
    assert Step([e], sweep, lim) == [e];
    assert Run([e], [sweep], lim) == [e];
    assert Interval(1) * k == k;
    assert Timed([sweep], 0) && OnTime([sweep], k, k, 0);
    assert End([sweep], 0) == End([sweep][1..], k) == k
      && LastDue([sweep], k, k) == LastDue([sweep][1..], 2 * k, k) == 2 * k;
    assert OnSchedule(ops, 0, 2 * k, 1, k, 0);
    assert e in Run([], ops, lim);
  }

  /** At zero or less an entry stays for the one minute that the sweeper waits at least. */
  lemma OneInterval<V(!new)>(minutes: int, ticksPerMinute: nat, capacity: nat, v: V)
    requires minutes <= 0 && ticksPerMinute > 0 && capacity > 0
    ensures !WithinOneAndAHalf<V>(minutes, ticksPerMinute, capacity, 0)
  {
    var k, e, put := ticksPerMinute, Entry("", v, 0), PutOp("", v, 0);
    var lim := Limits(minutes * k, capacity);
    assert [put][1..] == [] && Step([], put, lim) == [e];
    assert Interval(minutes) * k == k && LastDue([put], k, k) == k && End([put], 0) == 0;
    assert OnSchedule([put], 0, k, minutes, k, 0);
    assert e in Run([], [put], lim);
    Scale(3 * minutes, 0, k);
  }

  /** The exact ages: an entry stays for at most one and a half maxAge if and only if that is two minutes or more. */
  lemma OneAndAHalfIsExact<V(!new)>(minutes: int, ticksPerMinute: nat, capacity: nat, duration: nat, v: V)
    requires ticksPerMinute > 0 && capacity > 0
    ensures WithinOneAndAHalf<V>(minutes, ticksPerMinute, capacity, 0) <==> minutes >= 2
    ensures minutes >= 2 ==> WithinOneAndAHalf<V>(minutes, ticksPerMinute, capacity, duration)
  {
    if minutes >= 2 {
      forall length: nat, ops: seq<Op<V>>, built: int, now: int, e: Entry<V>
        | OnSchedule(ops, built, now, minutes, ticksPerMinute, length)
          && e in Run([], ops, Limits(minutes * ticksPerMinute, capacity))
        ensures 2 * (now - e.insertedAt - length) <= 3 * minutes * ticksPerMinute
      {
        BoundedResidence(ops, built, now, minutes, ticksPerMinute, capacity, length, e);
      }
    } else if minutes == 1 {
      TwoIntervals(ticksPerMinute, capacity, v);
    } else {
      OneInterval(minutes, ticksPerMinute, capacity, v);
    }
  }
}
