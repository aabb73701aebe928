/**
 One cache in front of the provider, asked by requests that do not overlap: look up, on a miss
 fetch, and store what was fetched. With ample capacity this bounds how often one query can be
 fetched successfully.
 */
module RateBound {
  import opened Outcomes
  import opened CacheSpec
  import opened CacheRuns
  import opened Retention
  import opened AmpleCapacity
  import opened Pressure

  /** A request, with the readings its lookup and its put would take and what a fetch would bring; or a sweep. */
  datatype Turn<!V> =
    | Ask(key: string, lookupAt: int, fetched: Option<V>, putAt: int)
    | Clean(readAt: string -> int, start: int, finish: int)

  /** The request misses, and its fetch succeeds. */
  ghost predicate Fetches<V>(es: seq<Entry<V>>, turn: Turn<V>, lim: Limits) {
    turn.Ask? && turn.fetched.Some? && Answer(es, turn.key, turn.lookupAt, lim).None?
  }

  /** The cache operations a turn performs. */
  ghost function Operations<V>(es: seq<Entry<V>>, turn: Turn<V>, lim: Limits): seq<Op<V>> {
    match turn
    case Clean(readAt, start, finish) => [SweepOp(readAt, start, finish)]
    case Ask(key, lookupAt, fetched, putAt) =>
      [GetOp(key, lookupAt)] + if Fetches(es, turn, lim) then [PutOp(key, fetched.value, putAt)] else []
  }

  ghost function After<V>(es: seq<Entry<V>>, turn: Turn<V>, lim: Limits): seq<Entry<V>> {
    Run(es, Operations(es, turn, lim), lim)
  }

  ghost function TurnEnd<V>(turn: Turn<V>): int { if turn.Ask? then turn.putAt else turn.finish }

  /** The turns follow one another on a clock that never goes back, with the same freedom a sweep has. */
  ghost predicate InTurn<V>(turns: seq<Turn<V>>, from: int)
    decreases turns
  {
    turns == [] || (TurnTimed(turns[0], from) && InTurn(turns[1..], TurnEnd(turns[0])))
  }

  ghost predicate TurnTimed<V>(turn: Turn<V>, from: int) {
    match turn
    case Ask(_, lookupAt, _, putAt) => from <= lookupAt <= putAt
    case Clean(readAt, start, finish) => from <= start <= finish && forall k :: start <= readAt(k) <= finish
  }

  ghost predicate AsksOnly<V>(turns: seq<Turn<V>>, keys: set<string>) {
    forall i :: 0 <= i < |turns| && turns[i].Ask? ==> turns[i].key in keys
  }

  /** The put times of the successful fetches of one key. */
  ghost function FetchTimes<V>(es: seq<Entry<V>>, turns: seq<Turn<V>>, lim: Limits, key: string): seq<int>
    decreases turns
  {
    if turns == [] then []
    else
      (if Fetches(es, turns[0], lim) && turns[0].key == key then [turns[0].putAt] else [])
      + FetchTimes(After(es, turns[0], lim), turns[1..], lim, key)
  }

  ghost predicate Spaced(times: seq<int>, maxAge: int) {
    forall i :: 0 < i < |times| ==> times[i] - times[i - 1] > maxAge
  }

  /** The cache is exact for the keys put so far. */
  ghost predicate Exact<V>(es: seq<Entry<V>>, last: map<string, Entry<V>>, now: int, lim: Limits, keys: set<string>) {
    Good(es, lim) && Sound(es, last) && Complete(es, last, now, lim.maxAge) && Keys(es) <= keys
      && |keys| <= lim.maxElements
  }

  lemma OperationExact<V>(es: seq<Entry<V>>, last: map<string, Entry<V>>, op: Op<V>, from: int, lim: Limits,
                          keys: set<string>)
    requires Exact(es, last, from, lim, keys) && Timed([op], from) && (op.PutOp? ==> op.key in keys)
    ensures Exact(Step(es, op, lim), LastStep(last, op), Finish(op), lim, keys)
  {
    if op.PutOp? { SubsetSize(Keys(es) + {op.key}, keys); }
    StepGood(es, op, lim);
    StepSound(es, last, op, lim);
    StepComplete(es, last, op, from, lim);
    StepKeys(es, op, lim);
  }

  /** A turn keeps the cache exact, and puts a key only when its last put is older than maxAge. */
  lemma TurnExact<V>(es: seq<Entry<V>>, last: map<string, Entry<V>>, turn: Turn<V>, from: int, lim: Limits,
                     keys: set<string>)
    returns (last': map<string, Entry<V>>)
    requires Exact(es, last, from, lim, keys) && InTurn([turn], from) && (turn.Ask? ==> turn.key in keys)
    ensures Exact(After(es, turn, lim), last', TurnEnd(turn), lim, keys)
    ensures Fetches(es, turn, lim) ==>
      && (turn.key in last ==> turn.putAt - last[turn.key].insertedAt > lim.maxAge)
      && last' == last[turn.key := Entry(turn.key, turn.fetched.value, turn.putAt)]
    ensures !Fetches(es, turn, lim) ==> last' == last
    ensures turn.Clean? ==> After(es, turn, lim) == Sweep(es, turn.readAt, lim.maxAge)
  {
    last' := last;
    match turn
    case Clean(readAt, start, finish) =>
      var sweep := SweepOp(readAt, start, finish);
      OperationExact(es, last, sweep, from, lim, keys);
      assert Run(es, [sweep], lim) == Step(es, sweep, lim);
    case Ask(key, lookupAt, fetched, putAt) =>
      var get := GetOp(key, lookupAt);
      var es' := Step(es, get, lim);
      OperationExact(es, last, get, from, lim, keys);
      assert Run(es, [get], lim) == es';
      if Fetches(es, turn, lim) {
        var put := PutOp(key, fetched.value, putAt);
        last' := LastStep(last, put);
        OperationExact(es', last, put, lookupAt, lim, keys);
        RunAppend(es, [get], [put], lim);
        assert Run(es', [put], lim) == Step(es', put, lim);
        if key in last && !Expired(last[key], lookupAt, lim.maxAge) {
          LookupIs(es, last[key]);
        }
      } else {
        assert Operations(es, turn, lim) == [get];
        Later(es', last, lookupAt, putAt, lim, keys);
      }
  }

  /** What has expired stays expired. */
  lemma Later<V>(es: seq<Entry<V>>, last: map<string, Entry<V>>, now: int, later: int, lim: Limits, keys: set<string>)
    requires Exact(es, last, now, lim, keys) && now <= later
    ensures Exact(es, last, later, lim, keys)
  {
  }

  lemma {:induction false} TurnsSpaced<V>(es: seq<Entry<V>>, last: map<string, Entry<V>>, turns: seq<Turn<V>>,
                                          from: int, lim: Limits, keys: set<string>, key: string)
    requires Exact(es, last, from, lim, keys) && InTurn(turns, from) && AsksOnly(turns, keys)
    ensures var times := FetchTimes(es, turns, lim, key);
      && Spaced(times, lim.maxAge)
      && (times != [] && key in last ==> times[0] - last[key].insertedAt > lim.maxAge)
    decreases turns
  {
    hide Exact, After, Operations;
    if turns != [] {
      var turn := turns[0];
      var last' := TurnExact(es, last, turn, from, lim, keys);
      TurnsSpaced(After(es, turn, lim), last', turns[1..], TurnEnd(turn), lim, keys, key);
    }
  }

  lemma {:induction false} SpacedApart(times: seq<int>, maxAge: nat, i: nat, j: nat)
    requires Spaced(times, maxAge) && i <= j < |times|
    ensures times[j] - times[i] >= (j - i) * (maxAge + 1)
  {
    if i < j {
      SpacedApart(times, maxAge, i, j - 1);
      assert (j - i) * (maxAge + 1) == (j - 1 - i) * (maxAge + 1) + (maxAge + 1);
    }
  }

  /** Times so spaced fit into a window as often as the gap does, and once more. */
  lemma SpacedCount(times: seq<int>, maxAge: nat, i: nat, j: nat)
    requires Spaced(times, maxAge) && i <= j < |times|
    ensures j - i + 1 <= (times[j] - times[i]) / (maxAge + 1) + 1
  {
    SpacedApart(times, maxAge, i, j);
    Quotient(times[j] - times[i], j - i, maxAge + 1);
  }

  lemma Quotient(length: int, gaps: nat, gap: nat)
    requires gap > 0 && length >= gaps * gap
    ensures gaps <= length / gap
  {
    var q := length / gap;
    assert length < (q + 1) * gap;
    LessFactor(gaps, q + 1, gap);
  }

  lemma LessFactor(a: int, b: int, k: nat)
    requires a * k < b * k
    ensures a < b
  {
    assert (b - a) * k > 0;
  }

  /**
   The upstream rate bound. If requests do not overlap and ask for no more keys than the capacity,
   successive successful fetches of one key are stored more than maxAge apart; so any window of the
   given length holds at most length / (maxAge + 1) + 1 of them.
   */
  lemma UpstreamRateBound<V>(turns: seq<Turn<V>>, from: int, lim: Limits, keys: set<string>, key: string, i: nat,
                             j: nat)
    requires InTurn(turns, from) && AsksOnly(turns, keys) && |keys| <= lim.maxElements && lim.maxAge >= 0
    requires i <= j < |FetchTimes([], turns, lim, key)|
    ensures var times := FetchTimes([], turns, lim, key);
      && Spaced(times, lim.maxAge)
      && j - i + 1 <= (times[j] - times[i]) / (lim.maxAge + 1) + 1
  {
    hide FetchTimes;
    TurnsSpaced([], map[], turns, from, lim, keys, key);
    SpacedCount(FetchTimes([], turns, lim, key), lim.maxAge, i, j);
  }

  // ----- the exact capacity

  /** In every run of such turns the successful fetches of each key are stored more than maxAge apart. */
  ghost predicate AlwaysSpaced<V(!new)>(keys: set<string>, lim: Limits) {
    forall turns: seq<Turn<V>>, key: string :: InTurn(turns, 0) && AsksOnly(turns, keys)
      ==> Spaced(FetchTimes([], turns, lim, key), lim.maxAge)
  }

  /** Put times never go back, which is all that a negative maxAge asks for. */
  lemma {:induction false} FetchTimesRise<V>(es: seq<Entry<V>>, turns: seq<Turn<V>>, from: int, lim: Limits,
                                             key: string)
    requires InTurn(turns, from)
    ensures var times := FetchTimes(es, turns, lim, key);
      Spaced(times, -1) && (times != [] ==> from <= times[0])
    decreases turns
  {
    if turns != [] {
      FetchTimesRise(After(es, turns[0], lim), turns[1..], TurnEnd(turns[0]), lim, key);
    }
  }

  /** Asks for each key once, at instant zero, with a fetch that succeeds. */
  ghost function AskAll<V>(keys: seq<string>, v: V): seq<Turn<V>> {
    if keys == [] then [] else [Ask(keys[0], 0, Some(v), 0)] + AskAll(keys[1..], v)
  }

  ghost function AfterAll<V>(es: seq<Entry<V>>, turns: seq<Turn<V>>, lim: Limits): seq<Entry<V>>
    decreases turns
  {
    if turns == [] then es else AfterAll(After(es, turns[0], lim), turns[1..], lim)
  }

  /** A turn keeps the cache good, and lists no key but the one it asks for. */
  lemma AskListed<V>(es: seq<Entry<V>>, key: string, v: V, lim: Limits)
    requires Good(es, lim)
    ensures var es' := After(es, Ask(key, 0, Some(v), 0), lim); Good(es', lim) && Keys(es') <= Keys(es) + {key}
  {
    var turn := Ask(key, 0, Some(v), 0);
    var ops := Operations(es, turn, lim);
    RunGood(es, ops, lim);
    RunKeys(es, ops, lim);
  }

  /** A key that is not listed when its turn comes is fetched. */
  lemma {:induction false} AskedAll<V>(es: seq<Entry<V>>, keys: seq<string>, v: V, lim: Limits, key: string)
    requires Good(es, lim) && NoRepeats(keys) && Keys(es) !! KeySet(keys)
    ensures var turns := AskAll(keys, v);
      && InTurn(turns, 0) && AsksOnly(turns, KeySet(keys)) && Good(AfterAll(es, turns, lim), lim)
      && FetchTimes(es, turns, lim, key) == if key in keys then [0] else []
    decreases keys
  {
    if keys != [] {
      var turn, rest := Ask(keys[0], 0, Some(v), 0), keys[1..];
      assert AskAll(keys, v)[0] == turn && AskAll(keys, v)[1..] == AskAll(rest, v);
      AskListed(es, keys[0], v, lim);
      assert KeySet(keys) == {keys[0]} + KeySet(rest) && keys[0] !in KeySet(rest);
      AskedAll(After(es, turn, lim), rest, v, lim, key);
      assert Lookup(es, keys[0]).None?;
    }
  }

  lemma {:induction false} FetchTimesAppend<V>(es: seq<Entry<V>>, a: seq<Turn<V>>, b: seq<Turn<V>>, lim: Limits,
                                               key: string)
    ensures FetchTimes(es, a + b, lim, key) == FetchTimes(es, a, lim, key)
      + FetchTimes(AfterAll(es, a, lim), b, lim, key)
    decreases a
  {
    if a == [] {
      assert a + b == b;
    } else {
      var es' := After(es, a[0], lim);
      assert (a + b)[0] == a[0] && (a + b)[1..] == a[1..] + b;
      FetchTimesAppend(es', a[1..], b, lim, key);
      Join(if Fetches(es, a[0], lim) && a[0].key == key then [a[0].putAt] else [],
           FetchTimes(es', a[1..], lim, key), FetchTimes(AfterAll(es', a[1..], lim), b, lim, key));
    }
  }

  /** Not all of more keys than fit are still listed. */
  lemma OneGone<V>(es: seq<Entry<V>>, keys: set<string>, lim: Limits) returns (key: string)
    requires Good(es, lim) && |keys| > lim.maxElements
    ensures key in keys && key !in Keys(es)
  {
    KeysCount(es);
    if keys <= Keys(es) { SubsetSize(keys, Keys(es)); }
    key :| key in keys && key !in Keys(es);
  }

  lemma AskedAgain<V>(es: seq<Entry<V>>, key: string, v: V, lim: Limits)
    requires key !in Keys(es)
    ensures InTurn([Ask(key, 0, Some(v), 0)], 0) && FetchTimes(es, [Ask(key, 0, Some(v), 0)], lim, key) == [0]
  {
    var again := [Ask(key, 0, Some(v), 0)];
    assert again[1..] == [] && Lookup(es, key).None?;
  }

  /** Among more keys than fit, one that was fetched is gone again and is fetched a second time at once. */
  lemma FetchedTwice<V>(keys: set<string>, lim: Limits, v: V) returns (turns: seq<Turn<V>>, key: string)
    requires |keys| > lim.maxElements
    ensures InTurn(turns, 0) && AsksOnly(turns, keys) && FetchTimes([], turns, lim, key) == [0, 0]
  {
    hide FetchTimes, InTurn, AskAll, AfterAll;
    var order := Enumerate(keys);
    var all := AskAll(order, v);
    AskedAll([], order, v, lim, "");
    key := OneGone(AfterAll([], all, lim), keys, lim);
    assert key in order by { assert key in KeySet(order); }
    turns := all + [Ask(key, 0, Some(v), 0)];
    AskedAll([], order, v, lim, key);
    AskedAgain(AfterAll([], all, lim), key, v, lim);
    FetchTimesAppend([], all, [Ask(key, 0, Some(v), 0)], lim, key);
    AtZero(order, v);
    InTurnAppend(all, Ask(key, 0, Some(v), 0));
  }

  lemma {:induction false} AtZero<V>(keys: seq<string>, v: V)
    ensures forall i :: 0 <= i < |AskAll(keys, v)| ==> TurnEnd(AskAll(keys, v)[i]) == 0
  {
    if keys != [] { AtZero(keys[1..], v); }
  }

  lemma {:induction false} InTurnAppend<V>(turns: seq<Turn<V>>, last: Turn<V>)
    requires InTurn(turns, 0) && (forall i :: 0 <= i < |turns| ==> TurnEnd(turns[i]) == 0) && InTurn([last], 0)
    ensures InTurn(turns + [last], 0)
    decreases turns
  {
    if turns == [] {
      assert turns + [last] == [last];
    } else {
      assert (turns + [last])[1..] == turns[1..] + [last];
      InTurnAppend(turns[1..], last);
    }
  }

  /**
   The exact capacity: fetches are spaced in all runs over a set of keys if and only if the capacity
   covers the set.
   */
  lemma SpacingIsExact<V(!new)>(keys: set<string>, lim: Limits, v: V)
    ensures AlwaysSpaced<V>(keys, lim) <==> (|keys| <= lim.maxElements || lim.maxAge < 0)
  {
    if |keys| <= lim.maxElements || lim.maxAge < 0 {
      forall turns: seq<Turn<V>>, key: string | InTurn(turns, 0) && AsksOnly(turns, keys)
        ensures Spaced(FetchTimes([], turns, lim, key), lim.maxAge)
      {
        if lim.maxAge < 0 {
          FetchTimesRise([], turns, 0, lim, key);
        } else {
          TurnsSpaced([], map[], turns, 0, lim, keys, key);
        }
      }
    } else {
      var turns, key := FetchedTwice(keys, lim, v);
      assert !Spaced([0, 0], lim.maxAge) by { assert [0, 0][1] - [0, 0][0] == 0; }
    }
  }
}
