/**
 What a sweep does when it is interleaved, step by step, with requests for other caches, other
 sweeps and the clock: from its first step to its last it is one sweep of the entries it found,
 with one reading of the clock for each.
 */
module SweepRuns {
  import opened Outcomes
  import opened CacheSpec
  import opened Protocol
  import opened Concurrent
  import CacheRuns
  import Inclusion

  /** The readings lie between two instants. */
  ghost predicate Between(readings: seq<int>, start: int, finish: int) {
    forall i :: 0 <= i < |readings| ==> start <= readings[i] <= finish
  }

  /** The sweep under way found these entries, and has taken a reading for each it has looked at. */
  ghost predicate Midway(cfg: Config, s: State, slot: Slot, found: Contents, began: int, readings: seq<int>) {
    && slot in s.sweeps && |readings| <= |found| && began <= s.now && Between(readings, began, s.now)
    && var kept := SweepReadings(found[..|readings|], readings, cfg(slot).maxAge);
      s.sweeps[slot] == |kept| && s.caches.At(slot) == kept + found[|readings|..]
  }

  lemma SweepBegins(cfg: Config, s: State, slot: Slot)
    requires slot !in s.sweeps
    ensures Midway(cfg, SweepStep(cfg, s, slot), slot, s.caches.At(slot), s.now, [])
  {
    var found := s.caches.At(slot);
    assert found[..0] == [] && found[0..] == found && [] + found == found;
  }

  lemma SweepLast(es: Contents, readings: seq<int>, maxAge: int)
    requires |readings| == |es| > 0
    ensures var n := |es| - 1;
      SweepReadings(es, readings, maxAge)
      == SweepReadings(es[..n], readings[..n], maxAge) + if Expired(es[n], readings[n], maxAge) then [] else [es[n]]
  {
  }

  /** One more reading extends what has been kept by the entry, or by nothing. */
  lemma KeptSnoc(found: Contents, readings: seq<int>, t: int, maxAge: int)
    requires |readings| < |found|
    ensures SweepReadings(found[..|readings| + 1], readings + [t], maxAge)
         == SweepReadings(found[..|readings|], readings, maxAge)
            + if Expired(found[|readings|], t, maxAge) then [] else [found[|readings|]]
  {
    hide SweepReadings;
    var n, es, all := |readings|, found[..|readings| + 1], readings + [t];
    SweepLast(es, all, maxAge);
    assert es[..n] == found[..n] && all[..n] == readings;
  }

  lemma Splice<T>(kept: seq<T>, x: T, rest: seq<T>)
    ensures var s := kept + ([x] + rest);
      && s[|kept|] == x && s[..|kept|] + s[|kept| + 1..] == kept + rest && (kept + [x]) + rest == s
  {
  }

  /** A step of the sweep that looks at an entry. */
  lemma SweepLooks(cfg: Config, s: State, slot: Slot, found: Contents, began: int, readings: seq<int>)
    requires Midway(cfg, s, slot, found, began, readings) && |readings| < |found|
    ensures Midway(cfg, SweepStep(cfg, s, slot), slot, found, began, readings + [s.now])
  {
    var n, maxAge := |readings|, cfg(slot).maxAge;
    var kept, rest := SweepReadings(found[..n], readings, maxAge), found[n + 1..];
    assert found[n..] == [found[n]] + rest;
    KeptSnoc(found, readings, s.now, maxAge);
    Splice(kept, found[n], rest);
    assert kept + [] == kept;
  }

  /** The step that finds nothing more to look at. */
  lemma SweepCloses(cfg: Config, s: State, slot: Slot, found: Contents, began: int, readings: seq<int>)
    requires Midway(cfg, s, slot, found, began, readings) && |readings| == |found|
    ensures slot !in SweepStep(cfg, s, slot).sweeps
    ensures SweepStep(cfg, s, slot).caches.At(slot) == SweepReadings(found, readings, cfg(slot).maxAge)
  {
    assert found[..|found|] == found && found[|found|..] == [];
    var kept := SweepReadings(found, readings, cfg(slot).maxAge);
    assert kept + [] == kept;
  }

  /** Any other step leaves the sweep where it is. */
  lemma OthersLeave(cfg: Config, s: State, a: Action, slot: Slot, found: Contents, began: int, readings: seq<int>)
    requires Midway(cfg, s, slot, found, began, readings) && a != DoSweep(slot) && Do(cfg, s, a).Some?
    ensures Midway(cfg, Do(cfg, s, a).value, slot, found, began, readings)
  {
    SweepAlone(cfg, s, a, slot);
    StillSwept(cfg, s, a, slot);
  }

  lemma StillSwept(cfg: Config, s: State, a: Action, slot: Slot)
    requires slot in s.sweeps && a != DoSweep(slot) && Do(cfg, s, a).Some?
    ensures var s' := Do(cfg, s, a).value;
      slot in s'.sweeps && s'.sweeps[slot] == s.sweeps[slot] && s.now <= s'.now
  {
  }

  lemma {:induction false} SomeSteps(actions: seq<Action>, slot: Slot)
    requires actions != [] && actions[|actions| - 1] == DoSweep(slot)
    ensures SweepSteps(actions, slot) >= 1
  {
    if |actions| > 1 { SomeSteps(actions[1..], slot); }
  }

  lemma {:induction false} RestOfSweep(cfg: Config, s: State, actions: seq<Action>, slot: Slot, found: Contents,
                                       began: int, readings: seq<int>) returns (all: seq<int>)
    requires Midway(cfg, s, slot, found, began, readings) && Run(cfg, s, actions).Some?
    requires actions != [] && actions[|actions| - 1] == DoSweep(slot)
    requires SweepSteps(actions, slot) == |found| - |readings| + 1
    ensures var end := Run(cfg, s, actions).value;
      && slot !in end.sweeps && |all| == |found| && Between(all, began, end.now) && began <= end.now
      && end.caches.At(slot) == SweepReadings(found, all, cfg(slot).maxAge)
    decreases actions
  {
    var s' := Do(cfg, s, actions[0]).value;
    if |actions| > 1 { SomeSteps(actions[1..], slot); }
    if actions[0] != DoSweep(slot) {
      OthersLeave(cfg, s, actions[0], slot, found, began, readings);
      all := RestOfSweep(cfg, s', actions[1..], slot, found, began, readings);
    } else if |readings| < |found| {
      SweepLooks(cfg, s, slot, found, began, readings);
      all := RestOfSweep(cfg, s', actions[1..], slot, found, began, readings + [s.now]);
    } else {
      SweepCloses(cfg, s, slot, found, began, readings);
      assert actions[1..] == [] && Run(cfg, s', actions[1..]) == Some(s');
      all := readings;
    }
  }

  lemma {:induction false} FilterSubsequence(es: Contents, keep: Entry<Answer> -> bool)
    ensures Inclusion.Subsequence(Filter(es, keep), es)
  {
    if es != [] {
      FilterSubsequence(es[1..], keep);
      if !keep(es[0]) {
        Inclusion.SubsequenceSkip(Filter(es, keep), es[1..], es[0]);
        assert es == [es[0]] + es[1..];
      }
    }
  }

  /**
   A whole sweep, however it is interleaved: it ends with the last of as many steps as it found
   entries and two more, having read the clock once for each entry. So nothing is left that had
   expired when it began, nothing is gone that is live when it ends, and the order is kept.
   */
  lemma SweepComplete(cfg: Config, s: State, actions: seq<Action>, slot: Slot) returns (readings: seq<int>)
    requires Reachable(cfg, s) && slot !in s.sweeps && Run(cfg, s, [DoSweep(slot)] + actions).Some?
    requires actions != [] && actions[|actions| - 1] == DoSweep(slot)
    requires SweepSteps(actions, slot) == |s.caches.At(slot)| + 1
    ensures var (found, end) := (s.caches.At(slot), Run(cfg, s, [DoSweep(slot)] + actions).value);
      && slot !in end.sweeps && |readings| == |found| && Between(readings, s.now, end.now)
      && end.caches.At(slot) == SweepReadings(found, readings, cfg(slot).maxAge)
      && (forall e :: e in end.caches.At(slot) ==> e in found && !Expired(e, s.now, cfg(slot).maxAge))
      && (forall e :: e in found && !Expired(e, end.now, cfg(slot).maxAge) ==> e in end.caches.At(slot))
      && Inclusion.Subsequence(end.caches.At(slot), found)
  {
    var run, found, maxAge := [DoSweep(slot)] + actions, s.caches.At(slot), cfg(slot).maxAge;
    assert run[0] == DoSweep(slot) && run[1..] == actions;
    ReachableInv(cfg, s);
    SweepBegins(cfg, s, slot);
    readings := RestOfSweep(cfg, SweepStep(cfg, s, slot), actions, slot, found, s.now, []);
    SweepMeans(found, readings, maxAge, s.now, Run(cfg, s, run).value.now);
  }

  lemma SweepMeans(found: Contents, readings: seq<int>, maxAge: int, start: int, finish: int)
    requires DistinctKeys(found) && |readings| == |found| && start <= finish && Between(readings, start, finish)
    ensures var left := SweepReadings(found, readings, maxAge);
      && (forall e :: e in left ==> e in found && !Expired(e, start, maxAge))
      && (forall e :: e in found && !Expired(e, finish, maxAge) ==> e in left)
      && Inclusion.Subsequence(left, found)
  {
    var readAt := CacheRuns.SweepByKey(found, readings, maxAge, start, finish);
    forall e ensures e in Sweep(found, readAt, maxAge) ==> e in found && !Expired(e, start, maxAge)
      ensures e in found && !Expired(e, finish, maxAge) ==> e in Sweep(found, readAt, maxAge)
    {
      CacheRuns.SweepExact(found, readAt, start, finish, maxAge, e);
    }
    FilterSubsequence(found, LiveAt<Answer>(readAt, maxAge));
  }
}
