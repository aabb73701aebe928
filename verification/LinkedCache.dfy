/**
 The cache as it is built: a linked list of entries in recency order and an index
 from key to list node. Every operation is proved equal to its specification on
 sequences, with the index holding exactly the live nodes after each of them.
 */
module LinkedCache {
  import opened Outcomes
  import opened CacheSpec
  import opened LinkedList
  import CacheRuns

  /** A steady clock: a reading is never below the one before it. All readings are remembered. */
  class Clock {
    var now: int
    ghost var readings: seq<int>

    constructor (start: int)
      ensures now == start && readings == []
    {
      now, readings := start, [];
    }

    method Now() returns (t: int)
      modifies this
      ensures t == now && now >= old(now)
      ensures readings == old(readings) + [t]
    {
      t :| t >= now;
      now, readings := t, readings + [t];
    }
  }

  // ----- the agreement between list and index; entries never change, so it needs no heap

  /** Every node of the list is in the index under its key, and the index holds nothing else. */
  ghost predicate Agree<V>(nodes: seq<Node<V>>, index: map<string, Node<V>>) {
    && (forall i :: 0 <= i < |nodes| ==> nodes[i].entry.key in index && index[nodes[i].entry.key] == nodes[i])
    && index.Keys == Keys(Entries(nodes))
  }

  ghost function RemoveAt<T>(s: seq<T>, k: nat): (r: seq<T>)
    requires k < |s|
    ensures |r| == |s| - 1
  {
    s[..k] + s[k + 1..]
  }

  lemma AgreeDistinct<V>(nodes: seq<Node<V>>, index: map<string, Node<V>>)
    requires Agree(nodes, index) && Distinct(nodes)
    ensures DistinctKeys(Entries(nodes))
  {
    forall i, j | 0 <= i < j < |nodes| ensures Entries(nodes)[i].key != Entries(nodes)[j].key {
      assert nodes[i] != nodes[j];
    }
  }

  /** An indexed key is found in the list, at the node the index gives. */
  lemma AgreeLookup<V>(nodes: seq<Node<V>>, index: map<string, Node<V>>, key: string) returns (k: nat)
    requires Agree(nodes, index) && Distinct(nodes)
    ensures DistinctKeys(Entries(nodes))
    ensures Lookup(Entries(nodes), key) == if key in index then Some(index[key].entry) else None
    ensures key in index ==> k < |nodes| && nodes[k] == index[key] && nodes[k].entry.key == key
  {
    AgreeDistinct(nodes, index);
    k := 0;
    if key in index {
      k :| k < |nodes| && Entries(nodes)[k].key == key;
      LookupIs(Entries(nodes), Entries(nodes)[k]);
    }
  }

  lemma EntriesRemove<V>(nodes: seq<Node<V>>, k: nat)
    requires k < |nodes| && DistinctKeys(Entries(nodes))
    ensures Entries(RemoveAt(nodes, k)) == RemoveAt(Entries(nodes), k) == Without(Entries(nodes), nodes[k].entry.key)
  {
    WithoutAt(Entries(nodes), k);
  }

  lemma AgreeRemove<V>(nodes: seq<Node<V>>, index: map<string, Node<V>>, k: nat)
    requires Agree(nodes, index) && Distinct(nodes) && k < |nodes|
    ensures Agree(RemoveAt(nodes, k), index - {nodes[k].entry.key})
    ensures Entries(RemoveAt(nodes, k)) == RemoveAt(Entries(nodes), k) == Without(Entries(nodes), nodes[k].entry.key)
  {
    AgreeDistinct(nodes, index);
    EntriesRemove(nodes, k);
    var key, rest := nodes[k].entry.key, RemoveAt(nodes, k);
    forall i | 0 <= i < |rest| ensures rest[i].entry.key in index - {key} && index[rest[i].entry.key] == rest[i] {
      var j := if i < k then i else i + 1;
      assert rest[i] == nodes[j];
    }
    forall x ensures x in Keys(Entries(rest)) <==> x in Keys(Entries(nodes)) && x != key {
      KeysWithout(Entries(nodes), key, x);
    }
  }

  lemma AgreeFront<V>(nodes: seq<Node<V>>, index: map<string, Node<V>>, n: Node<V>)
    requires Agree(nodes, index) && n.entry.key !in index
    ensures Agree([n] + nodes, index[n.entry.key := n])
    ensures Entries([n] + nodes) == [n.entry] + Entries(nodes)
  {
    assert Entries([n] + nodes) == [n.entry] + Entries(nodes);
  }

  lemma AgreeMove<V>(nodes: seq<Node<V>>, index: map<string, Node<V>>, k: nat)
    requires Agree(nodes, index) && Distinct(nodes) && k < |nodes|
    ensures Agree([nodes[k]] + RemoveAt(nodes, k), index)
    ensures Entries([nodes[k]] + RemoveAt(nodes, k))
         == [nodes[k].entry] + Without(Entries(nodes), nodes[k].entry.key)
  {
    var key := nodes[k].entry.key;
    AgreeRemove(nodes, index, k);
    AgreeFront(RemoveAt(nodes, k), index - {key}, nodes[k]);
    assert (index - {key})[key := nodes[k]] == index;
  }

  /** Handles already in the index are never replaced, only removed. */
  ghost predicate KeepsHandles<V>(before: map<string, Node<V>>, after: map<string, Node<V>>) {
    forall k :: k in after ==> k in before && before[k] == after[k]
  }

  /** The nodes a sweep keeps: the node-level counterpart of SweepReadings. */
  ghost function Kept<V>(nodes: seq<Node<V>>, readings: seq<int>, maxAge: int): (kept: seq<Node<V>>)
    requires |readings| == |nodes|
    ensures |kept| <= |nodes|
  {
    if nodes == [] then []
    else
      var n := |nodes| - 1;
      Kept(nodes[..n], readings[..n], maxAge)
      + (if Expired(nodes[n].entry, readings[n], maxAge) then [] else [nodes[n]])
  }

  lemma {:induction false} KeptEntries<V>(nodes: seq<Node<V>>, readings: seq<int>, maxAge: int)
    requires |readings| == |nodes|
    ensures Entries(Kept(nodes, readings, maxAge)) == SweepReadings(Entries(nodes), readings, maxAge)
  {
    if nodes != [] {
      var n := |nodes| - 1;
      KeptEntries(nodes[..n], readings[..n], maxAge);
      assert Entries(nodes)[..n] == Entries(nodes[..n]);
    }
  }

  /** The list in the middle of a sweep: what has been kept, then what has not been looked at. */
  ghost function Midway<V>(nodes: seq<Node<V>>, taken: seq<int>, maxAge: int): seq<Node<V>>
    requires |taken| <= |nodes|
  {
    Kept(nodes[..|taken|], taken, maxAge) + nodes[|taken|..]
  }

  lemma KeptSnoc<V>(nodes: seq<Node<V>>, taken: seq<int>, t: int, maxAge: int)
    requires |taken| < |nodes|
    ensures Kept(nodes[..|taken| + 1], taken + [t], maxAge)
         == Kept(nodes[..|taken|], taken, maxAge)
            + (if Expired(nodes[|taken|].entry, t, maxAge) then [] else [nodes[|taken|]])
  {
    var i := |taken|;
    assert nodes[..i + 1][..i] == nodes[..i] && (taken + [t])[..i] == taken;
  }

  lemma RemoveMiddle<T>(a: seq<T>, x: T, b: seq<T>)
    ensures RemoveAt(a + ([x] + b), |a|) == a + b && a + ([x] + b) == (a + [x]) + b
    ensures (a + ([x] + b))[|a|] == x && (b != [] ==> (a + ([x] + b))[|a| + 1] == b[0])
  {
  }

  /** The nodes kept so far, then the one to look at, then the rest. */
  lemma MidwaySplit<V>(nodes: seq<Node<V>>, taken: seq<int>, maxAge: int)
    requires |taken| < |nodes|
    ensures Midway(nodes, taken, maxAge)
         == Kept(nodes[..|taken|], taken, maxAge) + ([nodes[|taken|]] + nodes[|taken| + 1..])
  {
    assert nodes[|taken|..] == [nodes[|taken|]] + nodes[|taken| + 1..];
  }

  /** One turn of the sweep, on node sequences: k is where the node looked at stands in the list. */
  lemma SweepTurn<V>(nodes: seq<Node<V>>, taken: seq<int>, t: int, maxAge: int) returns (k: nat)
    requires |taken| < |nodes|
    ensures k == |Kept(nodes[..|taken|], taken, maxAge)|
    ensures |Midway(nodes, taken, maxAge)| == k + |nodes| - |taken|
    ensures Midway(nodes, taken, maxAge)[k] == nodes[|taken|]
    ensures |taken| + 1 < |nodes| ==> Midway(nodes, taken, maxAge)[k + 1] == nodes[|taken| + 1]
    ensures Midway(nodes, taken + [t], maxAge)
         == if Expired(nodes[|taken|].entry, t, maxAge) then RemoveAt(Midway(nodes, taken, maxAge), k)
            else Midway(nodes, taken, maxAge)
  {
    var n, rest := nodes[|taken|], nodes[|taken| + 1..];
    var kept := Kept(nodes[..|taken|], taken, maxAge);
    k := |kept|;
    MidwaySplit(nodes, taken, maxAge);
    KeptSnoc(nodes, taken, t, maxAge);
    RemoveMiddle(kept, n, rest);
    assert rest != [] ==> rest[0] == nodes[|taken| + 1];
    if Expired(n.entry, t, maxAge) { assert kept + [] == kept; }
  }

  /** A sweep starts with all nodes in the list and ends with those it kept. */
  lemma MidwayEnds<V>(nodes: seq<Node<V>>, taken: seq<int>, maxAge: int)
    ensures Midway(nodes, [], maxAge) == nodes
    ensures |taken| == |nodes| ==>
      && |Midway(nodes, taken, maxAge)| <= |nodes|
      && Entries(Midway(nodes, taken, maxAge)) == SweepReadings(Entries(nodes), taken, maxAge)
  {
    assert nodes[..0] == [] && nodes[0..] == nodes;
    if |taken| == |nodes| {
      assert nodes[..|nodes|] == nodes && nodes[|nodes|..] == [];
      KeptEntries(nodes, taken, maxAge);
    }
  }

  /** All readings lie between two instants. */
  ghost predicate Between(readings: seq<int>, start: int, finish: int) {
    forall i :: 0 <= i < |readings| ==> start <= readings[i] <= finish
  }

  lemma BetweenSnoc(readings: seq<int>, start: int, before: int, now: int)
    requires Between(readings, start, before) && start <= before <= now
    ensures Between(readings + [now], start, now)
  {
  }

  lemma Snoc<T>(a: seq<T>, b: seq<T>, x: T)
    ensures (a + b) + [x] == a + (b + [x])
  {
  }

  /** The entries are what a run of these operations leaves, none later than now. */
  ghost predicate Records<V>(run: seq<CacheRuns.Op<V>>, built: int, es: seq<Entry<V>>, now: int, lim: Limits) {
    es == CacheRuns.Run([], run, lim) && CacheRuns.Timed(run, built) && CacheRuns.End(run, built) <= now
  }

  lemma RecordsOn<V>(run: seq<CacheRuns.Op<V>>, built: int, es: seq<Entry<V>>, before: int, lim: Limits,
                     op: CacheRuns.Op<V>)
    requires Records(run, built, es, before, lim) && CacheRuns.Timed([op], before)
    ensures Records(run + [op], built, CacheRuns.Step(es, op, lim), CacheRuns.Finish(op), lim)
  {
    CacheRuns.RunAppend([], run, [op], lim);
    assert CacheRuns.Run(es, [op], lim) == CacheRuns.Step(es, op, lim);
    assert CacheRuns.Timed([op], CacheRuns.End(run, built));
    CacheRuns.TimedAppend(run, [op], built);
    assert [op][1..] == [];
  }

  class TimeAndSizeBoundedCache<V(0)> {
    const limits: Limits
    const clock: Clock
    const entries: List<V>
    var index: map<string, Node<V>>
    ghost const built: int
    ghost var run: seq<CacheRuns.Op<V>>
    ghost var Repr: set<object>

    ghost function Contents(): seq<Entry<V>>
      reads entries
    {
      Entries(entries.Nodes)
    }

    /** The list is well linked and the index agrees with it. */
    ghost predicate Linked()
      reads this, Repr
    {
      && this in Repr && entries in Repr && entries.Repr <= Repr
      && this !in entries.Repr && clock !in Repr
      && entries.Valid()
      && Agree(entries.Nodes, index)
    }

    /** Between operations the capacity is respected as well. */
    ghost predicate Valid()
      reads this, Repr
      ensures Valid() ==> this in Repr && entries in Repr && clock !in Repr
    {
      Linked() && 0 < limits.maxElements && |Contents()| <= limits.maxElements
    }

    /** The cache is where the run of its operations so far leaves it. */
    ghost predicate Recorded()
      reads this, entries, clock
    {
      Records(run, built, Contents(), clock.now, limits)
    }

    constructor (limits: Limits, clock: Clock)
      requires limits.maxElements > 0
      ensures Valid() && fresh(Repr) && Contents() == [] && run == [] && Recorded()
      ensures this.limits == limits && this.clock == clock
    {
      this.limits, this.clock := limits, clock;
      entries := new List();
      index, built, run := map[], clock.now, [];
      new;
      Repr := {this} + entries.Repr;
    }

    /** Construction fails exactly for a capacity of zero. */
    static method Create(limits: Limits, clock: Clock) returns (r: Option<TimeAndSizeBoundedCache<V>>)
      ensures r.None? <==> limits.maxElements == 0
      ensures r.Some? ==>
        && fresh(r.value.Repr) && r.value.Valid() && r.value.Contents() == []
        && r.value.run == [] && r.value.Recorded()
        && r.value.limits == limits && r.value.clock == clock
    {
      if limits.maxElements == 0 {
        return None;
      }
      var cache := new TimeAndSizeBoundedCache<V>(limits, clock);
      r := Some(cache);
    }

    method IsExpired(n: Node<V>) returns (expired: bool)
      modifies clock
      ensures clock.now >= old(clock.now) && clock.readings == old(clock.readings) + [clock.now]
      ensures expired == Expired(n.entry, clock.now, limits.maxAge)
    {
      var now := clock.Now();
      expired := now - n.entry.insertedAt > limits.maxAge;
    }

    /** Drops a node from the list and its key from the index, together. */
    method Drop(n: Node<V>, ghost k: nat)
      requires Linked() && k < |entries.Nodes| && entries.Nodes[k] == n
      modifies Repr
      ensures run == old(run)
      ensures Linked() && Repr == old(Repr)
      ensures entries.Nodes == RemoveAt(old(entries.Nodes), k) && index == old(index) - {n.entry.key}
      ensures Contents() == RemoveAt(old(Contents()), k) == Without(old(Contents()), n.entry.key)
    {
      AgreeRemove(entries.Nodes, index, k);
      entries.Erase(n, k);
      index := index - {n.entry.key};
    }

    /** Splices a node to the front; the index, holding node references, needs no change. */
    method Touch(n: Node<V>, ghost k: nat)
      requires Linked() && k < |entries.Nodes| && entries.Nodes[k] == n
      modifies Repr
      ensures run == old(run)
      ensures Linked() && Repr == old(Repr) && index == old(index)
      ensures entries.Nodes == [n] + RemoveAt(old(entries.Nodes), k)
      ensures Contents() == [n.entry] + Without(old(Contents()), n.entry.key)
    {
      AgreeMove(entries.Nodes, index, k);
      entries.Splice(n, k);
    }

    /** Pushes a new entry whose key is not in the index. */
    method PushFront(entry: Entry<V>) returns (front: Node<V>)
      requires Linked() && entry.key !in index
      modifies Repr
      ensures run == old(run)
      ensures Linked() && fresh(Repr - old(Repr))
      ensures Contents() == [entry] + old(Contents())
      ensures index == old(index)[entry.key := front]
    {
      front := entries.PushFront(entry);
      AgreeFront(old(entries.Nodes), index, front);
      index := index[entry.key := front];
      Repr := Repr + {front};
    }

    /** Removes the key's entry, if there is one. */
    method Remove(key: string)
      requires Linked()
      modifies Repr
      ensures run == old(run)
      ensures Linked() && Repr == old(Repr)
      ensures Contents() == Without(old(Contents()), key) && index == old(index) - {key}
    {
      ghost var k := AgreeLookup(entries.Nodes, index, key);
      if key in index {
        var n := index[key];
        Drop(n, k);
      } else {
        WithoutAbsent(Contents(), key);
      }
    }

    /** Drops the last entry when the list has outgrown the capacity. */
    method EvictOverflow()
      requires Linked()
      modifies Repr
      ensures run == old(run)
      ensures Linked() && Repr == old(Repr)
      ensures Contents() == Bounded(old(Contents()), limits.maxElements)
      ensures KeepsHandles(old(index), index)
    {
      if entries.size > limits.maxElements {
        var oldest := entries.Back();
        Drop(oldest, |entries.Nodes| - 1);
      }
    }

    /** Remembers an operation that is complete and led here from these entries, found at that instant. */
    ghost method Record(op: CacheRuns.Op<V>, es: seq<Entry<V>>, before: int)
      requires Valid() && CacheRuns.Timed([op], before) && CacheRuns.Finish(op) == clock.now
      requires Contents() == CacheRuns.Step(es, op, limits)
      modifies this`run
      ensures Valid() && Contents() == old(Contents()) && run == old(run) + [op]
      ensures Records(old(run), built, es, before, limits) ==> Recorded()
    {
      if Records(run, built, es, before, limits) { RecordsOn(run, built, es, before, limits, op); }
      run := run + [op];
    }

    /** Remembers a sweep by its readings, taken one entry after the other. */
    ghost method RecordSweep(taken: seq<int>, es: seq<Entry<V>>, before: int) returns (readAt: string -> int)
      requires Valid() && DistinctKeys(es) && before <= clock.now && Between(taken, before, clock.now)
      requires |taken| == |es| && Contents() == SweepReadings(es, taken, limits.maxAge)
      modifies this`run
      ensures Valid() && Contents() == old(Contents())
        && run == old(run) + [CacheRuns.SweepOp(readAt, before, clock.now)]
      ensures Records(old(run), built, es, before, limits) ==> Recorded()
    {
      readAt := CacheRuns.SweepByKey(es, taken, limits.maxAge, before, clock.now);
      Record(CacheRuns.SweepOp(readAt, before, clock.now), es, before);
    }

    /** Reads a node found in the index: an expired one is dropped, a live one moves to the front. */
    method Read(n: Node<V>, ghost k: nat) returns (r: Option<V>)
      requires Valid() && k < |entries.Nodes| && entries.Nodes[k] == n
      requires Lookup(Contents(), n.entry.key) == Some(n.entry)
      modifies Repr, clock
      ensures Valid() && Repr == old(Repr) && run == old(run)
      ensures (Contents(), r) == CacheSpec.Get(old(Contents()), n.entry.key, clock.now, limits.maxAge)
      ensures clock.now >= old(clock.now) && clock.readings == old(clock.readings) + [clock.now]
      ensures index == if r.Some? then old(index) else old(index) - {n.entry.key}
    {
      hide Agree;
      var expired := IsExpired(n);
      if expired {
        Drop(n, k);
        return None;
      }
      Touch(n, k);
      return Some(n.entry.value);
    }

    method Get(key: string) returns (r: Option<V>)
      requires Valid()
      modifies Repr, clock
      ensures Valid() && Repr == old(Repr)
      ensures (Contents(), r) == CacheSpec.Get(old(Contents()), key, clock.now, limits.maxAge)
      ensures clock.now >= old(clock.now)
      ensures clock.readings == old(clock.readings) + if Lookup(old(Contents()), key).Some? then [clock.now] else []
      ensures index == if r.Some? then old(index) else old(index) - {key}
      ensures run == old(run) + [CacheRuns.GetOp(key, clock.now)]
      ensures old(Recorded()) ==> Recorded()
    {
      hide Records;
      ghost var k := AgreeLookup(entries.Nodes, index, key);
      if key !in index {
        r := None;
      } else {
        var n := index[key];
        r := Read(n, k);
      }
      Record(CacheRuns.GetOp(key, clock.now), old(Contents()), old(clock.now));
    }

    method Put(key: string, value: V)
      requires Valid()
      modifies Repr, clock
      ensures Valid() && fresh(Repr - old(Repr))
      ensures Contents() == CacheSpec.Put(old(Contents()), key, value, clock.now, limits.maxElements)
      ensures clock.now >= old(clock.now) && clock.readings == old(clock.readings) + [clock.now]
      ensures KeepsHandles(old(index), index - {key})
      ensures run == old(run) + [CacheRuns.PutOp(key, value, clock.now)]
      ensures old(Recorded()) ==> Recorded()
    {
      hide Records, Agree;
      Remove(key);
      var now := clock.Now();
      var _ := PushFront(Entry(key, value, now));
      EvictOverflow();
      Record(CacheRuns.PutOp(key, value, now), old(Contents()), old(clock.now));
    }

    /**
     The state in the middle of a sweep that found these nodes, clock and index, has taken some
     readings since, and is about to look at a node.
     */
    ghost predicate MidSweep(nodes: seq<Node<V>>, began: int, earlier: seq<int>, before: map<string, Node<V>>,
                             taken: seq<int>, it: Node<V>)
      reads this, Repr, clock
    {
      && Linked() && KeepsHandles(before, index)
      && entries.sentinel !in nodes
      && |taken| <= |nodes| && entries.Nodes == Midway(nodes, taken, limits.maxAge)
      && it == (if |taken| < |nodes| then nodes[|taken|] else entries.sentinel)
      && clock.readings == earlier + taken && Between(taken, began, clock.now) && began <= clock.now
    }

    /** One turn of the sweep: looks at the next node, drops it if it has expired, and steps past it. */
    method Examine(n: Node<V>, ghost nodes: seq<Node<V>>, ghost began: int, ghost earlier: seq<int>,
                   ghost before: map<string, Node<V>>, ghost taken: seq<int>)
      returns (next: Node<V>, ghost t: int)
      requires MidSweep(nodes, began, earlier, before, taken, n) && n != entries.sentinel
      modifies Repr, clock
      ensures Repr == old(Repr) && run == old(run) && MidSweep(nodes, began, earlier, before, taken + [t], next)
    {
      ghost var was := clock.now;
      ghost var k := SweepTurn(nodes, taken, 0, limits.maxAge);
      var expired := IsExpired(n);
      t := clock.now;
      k := SweepTurn(nodes, taken, t, limits.maxAge);
      BetweenSnoc(taken, began, was, t);
      Snoc(earlier, taken, t);
      assert entries.At(k + 1).next == entries.At(k + 2);
      next := n.next;
      if expired {
        Drop(n, k);
      }
    }

    /** The loop of the sweep: each node found is looked at once, from the front. */
    method ExamineAll(ghost nodes: seq<Node<V>>) returns (ghost taken: seq<int>)
      requires Linked() && nodes == entries.Nodes
      modifies Repr, clock
      ensures Repr == old(Repr) && run == old(run) && |taken| == |nodes|
      ensures MidSweep(nodes, old(clock.now), old(clock.readings), old(index), taken, entries.sentinel)
    {
      hide Agree, Kept;
      ghost var began, earlier, before := clock.now, clock.readings, index;
      taken := [];
      var it := entries.Begin();
      MidwayEnds(nodes, taken, limits.maxAge);
      while it != entries.sentinel
        invariant Repr == old(Repr) && run == old(run) && MidSweep(nodes, began, earlier, before, taken, it)
        decreases |nodes| - |taken|
      {
        ghost var t;
        it, t := Examine(it, nodes, began, earlier, before, taken);
        taken := taken + [t];
      }
    }

    /** Removes every entry that has expired when its turn comes, reading the clock anew for each. */
    method SweepExpired() returns (ghost taken: seq<int>, ghost readAt: string -> int)
      requires Valid()
      modifies Repr, clock
      ensures Valid() && Repr == old(Repr) && KeepsHandles(old(index), index)
      ensures clock.now >= old(clock.now) && clock.readings == old(clock.readings) + taken
      ensures Between(taken, old(clock.now), clock.now)
      ensures |taken| == |old(Contents())| && Contents() == SweepReadings(old(Contents()), taken, limits.maxAge)
      ensures run == old(run) + [CacheRuns.SweepOp(readAt, old(clock.now), clock.now)]
      ensures old(Recorded()) ==> Recorded()
    {
      hide Records, SweepReadings, Kept, Agree, CacheRuns.Timed;
      ghost var nodes, began, before := entries.Nodes, clock.now, index;
      taken := ExamineAll(nodes);
      MidwayEnds(nodes, taken, limits.maxAge);
      AgreeDistinct(nodes, before);
      readAt := RecordSweep(taken, Entries(nodes), began);
    }
  }
}
