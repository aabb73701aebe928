/**
 From the rates object of a history reply to the series the services return: days outside
 the range or without the target currency are skipped, the rest is sorted by date.
 The HTTP exchange and the JSON parsing are inputs here.
 */
module Series {
  import opened Outcomes
  import opened Text
  import opened Dates
  import opened Domain

  /** A JSON value read as a number. */
  datatype Quote = NotNumeric | Numeric(rate: real)

  /** The JSON value stored under a day: something else, a null object, or quotes by currency. */
  datatype DayRates = NotAnObject | NoObject | Quotes(quotes: map<string, Quote>)

  datatype Day = Day(date: string, rates: DayRates)

  /** What came back for a history request; the days are in the object's iteration order. */
  datatype Reply = Unreachable | Unparsable | NoRates | Rates(days: seq<Day>)

  /** The keys of a JSON object are distinct. */
  predicate DistinctDates(days: seq<Day>) {
    forall i, j :: 0 <= i < j < |days| ==> days[i].date != days[j].date
  }

  predicate InRange(d: Day, range: Range) { Within(d.date, range.startDate, range.endDate) }

  /** An in-range day whose value cannot be read fails the whole reply; other days are not looked at. */
  predicate Fails(d: Day, target: string, range: Range) {
    InRange(d, range)
    && (d.rates.NotAnObject? || (d.rates.Quotes? && target in d.rates.quotes && d.rates.quotes[target].NotNumeric?))
  }

  predicate Yields(d: Day, target: string, range: Range) {
    InRange(d, range) && d.rates.Quotes? && target in d.rates.quotes && d.rates.quotes[target].Numeric?
  }

  function Point(d: Day, source: string, target: string): ExchangeRate
    requires d.rates.Quotes? && target in d.rates.quotes && d.rates.quotes[target].Numeric?
  {
    ExchangeRate(source, target, d.rates.quotes[target].rate, d.date)
  }

  function Collected(days: seq<Day>, source: string, target: string, range: Range): seq<ExchangeRate> {
    if days == [] then []
    else
      var last := days[|days| - 1];
      Collected(days[..|days| - 1], source, target, range)
      + if Yields(last, target, range) then [Point(last, source, target)] else []
  }

  // ----- sorting

  /** Where a point goes: behind the last of the points that are not after it. */
  function Place(points: seq<ExchangeRate>, p: ExchangeRate): (k: nat)
    ensures k <= |points|
  {
    if points == [] || !Less(p.date, points[|points| - 1].date) then |points|
    else Place(points[..|points| - 1], p)
  }

  function Insert(points: seq<ExchangeRate>, p: ExchangeRate): (r: seq<ExchangeRate>)
    ensures |r| == |points| + 1
  {
    var k := Place(points, p);
    points[..k] + [p] + points[k..]
  }

  function Sorted(points: seq<ExchangeRate>): (r: seq<ExchangeRate>)
    ensures |r| == |points|
  {
    if points == [] then [] else Insert(Sorted(points[..|points| - 1]), points[|points| - 1])
  }

  /** One turn of the sort: shifts the points after the i-th one up and drops it into place. */
  method InsertAt(points: array<ExchangeRate>, i: nat)
    requires i < points.Length
    modifies points
    ensures points[..i + 1] == Insert(old(points[..i]), old(points[i]))
    ensures forall k :: i < k < points.Length ==> points[k] == old(points[k])
  {
    hide Less, Place, Insert;
    ghost var before := points[..i];
    var p := points[i];
    var j := i;
    assert before[..i] == before;
    while j > 0 && Less(p.date, points[j - 1].date)
      invariant 0 <= j <= i && Place(before, p) == Place(before[..j], p)
      invariant forall k :: 0 <= k < j ==> points[k] == before[k]
      invariant forall k :: j < k <= i ==> points[k] == before[k - 1]
      invariant forall k :: i < k < points.Length ==> points[k] == old(points[k])
    {
      PlaceStep(before, p, j);
      points[j] := points[j - 1];
      j := j - 1;
    }
    points[j] := p;
    PlaceStops(before, p, j);
    InsertByPositions(before, p, points[..i + 1]);
  }

  lemma PlaceStep(points: seq<ExchangeRate>, p: ExchangeRate, j: nat)
    requires 0 < j <= |points| && Less(p.date, points[j - 1].date)
    ensures Place(points[..j], p) == Place(points[..j - 1], p)
  {
    assert points[..j][..j - 1] == points[..j - 1];
  }

  lemma PlaceStops(points: seq<ExchangeRate>, p: ExchangeRate, j: nat)
    requires j <= |points| && (j == 0 || !Less(p.date, points[j - 1].date))
    ensures Place(points[..j], p) == j
  {
  }

  lemma InsertByPositions(points: seq<ExchangeRate>, p: ExchangeRate, r: seq<ExchangeRate>)
    requires |r| == |points| + 1 && r[Place(points, p)] == p
    requires forall k :: 0 <= k < Place(points, p) ==> r[k] == points[k]
    requires forall k :: Place(points, p) < k < |r| ==> r[k] == points[k - 1]
    ensures r == Insert(points, p)
  {
  }

  /** Insertion sort in place, by date. */
  method SortByDate(points: array<ExchangeRate>)
    modifies points
    ensures points[..] == Sorted(old(points[..]))
  {
    ghost var original := points[..];
    for i := 0 to points.Length
      invariant points[..i] == Sorted(original[..i]) && points[i..] == original[i..]
    {
      assert points[i] == original[i] && original[..i + 1][..i] == original[..i];
      InsertAt(points, i);
    }
    assert points[..] == points[..points.Length] && original[..points.Length] == original;
  }

  /** The whole post-parse body: the error cases, the filter, the collection, the sort. */
  function Normalised(reply: Reply, source: string, target: string, range: Range): Result<seq<ExchangeRate>> {
    match reply
    case Unreachable => Err(ExternalApiUnavailable)
    case Unparsable => Err(ExternalApiUnexpectedResponse)
    case NoRates => Err(ExternalApiUnexpectedResponse)
    case Rates(days) =>
      if exists i :: 0 <= i < |days| && Fails(days[i], target, range) then Err(ExternalApiUnexpectedResponse)
      else Ok(Sorted(Collected(days, source, target, range)))
  }

  method History(reply: Reply, source: string, target: string, range: Range) returns (r: Result<seq<ExchangeRate>>)
    ensures r == Normalised(reply, source, target, range)
  {
    match reply
    case Unreachable => return Err(ExternalApiUnavailable);
    case Unparsable => return Err(ExternalApiUnexpectedResponse);
    case NoRates => return Err(ExternalApiUnexpectedResponse);
    case Rates(days) =>
      var points: seq<ExchangeRate> := [];
      for i := 0 to |days|
        invariant forall k :: 0 <= k < i ==> !Fails(days[k], target, range)
        invariant points == Collected(days[..i], source, target, range)
      {
        var d := days[i];
        assert days[..i + 1][..i] == days[..i];
        if Less(d.date, range.startDate) || Less(range.endDate, d.date) {
          continue;
        }
        if d.rates.NotAnObject? {
          return Err(ExternalApiUnexpectedResponse);
        }
        if d.rates.NoObject? || target !in d.rates.quotes {
          continue;
        }
        if d.rates.quotes[target].NotNumeric? {
          return Err(ExternalApiUnexpectedResponse);
        }
        points := points + [ExchangeRate(source, target, d.rates.quotes[target].rate, d.date)];
      }
      assert days[..|days|] == days;
      var buffer := new ExchangeRate[|points|](i requires 0 <= i < |points| => points[i]);
      assert buffer[..] == points;
      SortByDate(buffer);
      return Ok(buffer[..]);
  }

  // ----- what the series is

  predicate Ascending(points: seq<ExchangeRate>) {
    forall i, j :: 0 <= i < j < |points| ==> Less(points[i].date, points[j].date)
  }

  predicate DistinctPoints(points: seq<ExchangeRate>) {
    forall i, j :: 0 <= i < j < |points| ==> points[i].date != points[j].date
  }

  /** Among ascending points, those before the place are before the point and the others after it. */
  lemma {:induction false} PlaceSplits(points: seq<ExchangeRate>, p: ExchangeRate)
    requires Ascending(points) && forall q :: q in points ==> q.date != p.date
    ensures forall i :: 0 <= i < Place(points, p) ==> Less(points[i].date, p.date)
    ensures forall i :: Place(points, p) <= i < |points| ==> Less(p.date, points[i].date)
  {
    if points != [] {
      var n := |points| - 1;
      LessTotal(p.date, points[n].date);
      if Less(p.date, points[n].date) {
        PlaceSplits(points[..n], p);
      } else {
        forall i | 0 <= i < n ensures Less(points[i].date, p.date) {
          LessTransitive(points[i].date, points[n].date, p.date);
        }
      }
    }
  }

  lemma InsertAscending(points: seq<ExchangeRate>, p: ExchangeRate, k: nat)
    requires Ascending(points) && k <= |points|
    requires forall i :: 0 <= i < k ==> Less(points[i].date, p.date)
    requires forall i :: k <= i < |points| ==> Less(p.date, points[i].date)
    ensures Ascending(points[..k] + [p] + points[k..])
  {
    hide Less;
  }

  lemma InsertMembers(points: seq<ExchangeRate>, p: ExchangeRate, k: nat)
    requires k <= |points|
    ensures forall q :: q in points[..k] + [p] + points[k..] <==> q == p || q in points
  {
    assert points == points[..k] + points[k..];
  }

  lemma InsertSorted(points: seq<ExchangeRate>, p: ExchangeRate)
    requires Ascending(points) && forall q :: q in points ==> q.date != p.date
    ensures Ascending(Insert(points, p))
    ensures forall q :: q in Insert(points, p) <==> q == p || q in points
  {
    PlaceSplits(points, p);
    InsertAscending(points, p, Place(points, p));
    InsertMembers(points, p, Place(points, p));
  }

  /** Insertion sort sorts and permutes, given that no two dates are the same. */
  lemma {:induction false} SortedSorts(points: seq<ExchangeRate>)
    requires DistinctPoints(points)
    ensures Ascending(Sorted(points))
    ensures forall q :: q in Sorted(points) <==> q in points
  {
    if points != [] {
      var n := |points| - 1;
      SortedSorts(points[..n]);
      InsertSorted(Sorted(points[..n]), points[n]);
      assert points == points[..n] + [points[n]];
    }
  }

  lemma {:induction false} CollectedMember(days: seq<Day>, source: string, target: string, range: Range,
                                           p: ExchangeRate)
    ensures p in Collected(days, source, target, range)
      <==> exists d :: d in days && Yields(d, target, range) && p == Point(d, source, target)
  {
    if days != [] {
      var n := |days| - 1;
      CollectedMember(days[..n], source, target, range, p);
      assert days == days[..n] + [days[n]];
    }
  }

  lemma {:induction false} CollectedDistinct(days: seq<Day>, source: string, target: string, range: Range)
    requires DistinctDates(days)
    ensures DistinctPoints(Collected(days, source, target, range))
  {
    if days != [] {
      var n := |days| - 1;
      CollectedDistinct(days[..n], source, target, range);
      forall p | p in Collected(days[..n], source, target, range) ensures p.date != days[n].date {
        CollectedMember(days[..n], source, target, range, p);
      }
    }
  }

  /**
   The series of a reply is strictly ascending by date and holds exactly one point for each
   in-range day that quotes the target currency.
   */
  lemma SeriesContents(days: seq<Day>, source: string, target: string, range: Range, p: ExchangeRate)
    requires DistinctDates(days) && Normalised(Rates(days), source, target, range).Ok?
    ensures var series := Normalised(Rates(days), source, target, range).value;
      && Ascending(series)
      && (p in series <==> exists d :: d in days && Yields(d, target, range) && p == Point(d, source, target))
  {
    CollectedDistinct(days, source, target, range);
    CollectedMember(days, source, target, range, p);
    SortedSorts(Collected(days, source, target, range));
  }

  /** The quote of the target that an object holds under a day in the range. */
  predicate Quoted(d: Day, target: string, range: Range, quote: Quote) {
    && d.rates.Quotes? && target in d.rates.quotes && d.rates.quotes[target] == quote
    && !Less(d.date, range.startDate) && !Less(range.endDate, d.date)
  }

  /** A day in the range whose value is no object, or quotes the target with something that is no number. */
  predicate Unreadable(d: Day, target: string, range: Range) {
    || Quoted(d, target, range, NotNumeric)
    || (d.rates.NotAnObject? && !Less(d.date, range.startDate) && !Less(range.endDate, d.date))
  }

  predicate FromDay(days: seq<Day>, p: ExchangeRate, target: string, range: Range) {
    exists d :: d in days && d.date == p.date && Quoted(d, target, range, Numeric(p.rate))
  }

  /**
   Read off the reply itself: each point carries the number quoted for the target on its day, each
   such number in the range has its point, and the reply is refused exactly for an unreadable day.
   */
  lemma SeriesQuotes(days: seq<Day>, source: string, target: string, range: Range)
    requires DistinctDates(days)
    ensures var reply := Normalised(Rates(days), source, target, range);
      && (reply.Err? <==> exists d :: d in days && Unreadable(d, target, range))
      && (reply.Ok? ==> forall p :: p in reply.value ==>
            p.base == source && p.quote == target && FromDay(days, p, target, range))
      && (reply.Ok? ==> forall d, x :: d in days && Quoted(d, target, range, Numeric(x)) ==>
            ExchangeRate(source, target, x, d.date) in reply.value)
  {
    FailureByMember(days, target, range);
    forall d: Day ensures Fails(d, target, range) <==> Unreadable(d, target, range) {
    }
    var reply := Normalised(Rates(days), source, target, range);
    if reply.Ok? {
      forall p | p in reply.value ensures p.base == source && p.quote == target && FromDay(days, p, target, range) {
        SeriesContents(days, source, target, range, p);
        var d :| d in days && Yields(d, target, range) && p == Point(d, source, target);
        assert Quoted(d, target, range, Numeric(p.rate));
      }
      forall d, x | d in days && Quoted(d, target, range, Numeric(x))
        ensures ExchangeRate(source, target, x, d.date) in reply.value
      {
        SeriesContents(days, source, target, range, ExchangeRate(source, target, x, d.date));
        assert Yields(d, target, range) && Point(d, source, target) == ExchangeRate(source, target, x, d.date);
      }
    }
  }

  /** Without a rates object there is no series: the source is unavailable, or its reply unexpected. */
  lemma NoSeries(reply: Reply, source: string, target: string, range: Range)
    ensures reply.Unreachable? ==> Normalised(reply, source, target, range) == Err(ExternalApiUnavailable)
    ensures Normalised(reply, source, target, range) == Err(ExternalApiUnavailable) ==> reply.Unreachable?
    ensures reply.Unparsable? || reply.NoRates? ==>
      Normalised(reply, source, target, range) == Err(ExternalApiUnexpectedResponse)
  {
  }

  /** So every point of it has the requested codes and a date within the range. */
  lemma SeriesInRange(days: seq<Day>, source: string, target: string, range: Range, p: ExchangeRate)
    requires DistinctDates(days) && Normalised(Rates(days), source, target, range).Ok?
    requires p in Normalised(Rates(days), source, target, range).value
    ensures p.base == source && p.quote == target && Within(p.date, range.startDate, range.endDate)
  {
    SeriesContents(days, source, target, range, p);
  }

  /** A strictly ascending series is determined by its points. */
  lemma {:induction false} SeriesUnique(a: seq<ExchangeRate>, b: seq<ExchangeRate>)
    requires Ascending(a) && Ascending(b) && forall p :: p in a <==> p in b
    ensures a == b
  {
    if a == [] {
      FirstIsMember(b);
    } else {
      assert a[0] in b;
      FirstIsFirst(a, b);
      FirstIsFirst(b, a);
      LessTotal(a[0].date, b[0].date);
      assert a[0] == b[0] by {
        var i :| 0 <= i < |b| && b[i] == a[0];
        if i > 0 { assert Less(b[0].date, b[i].date); }
      }
      forall p ensures p in a[1..] <==> p in b[1..] {
        NotFirst(a, p);
        NotFirst(b, p);
      }
      SeriesUnique(a[1..], b[1..]);
      assert a == [a[0]] + a[1..] && b == [b[0]] + b[1..];
    }
  }

  lemma FirstIsMember(points: seq<ExchangeRate>)
    ensures points != [] ==> exists p :: p in points
  {
    if points != [] { assert points[0] in points; }
  }

  lemma FirstIsFirst(a: seq<ExchangeRate>, b: seq<ExchangeRate>)
    requires Ascending(a) && Ascending(b) && a != [] && b != [] && a[0] in b
    ensures !Less(a[0].date, b[0].date)
  {
    var i :| 0 <= i < |b| && b[i] == a[0];
    LessTotal(b[0].date, b[i].date);
  }

  lemma NotFirst(a: seq<ExchangeRate>, p: ExchangeRate)
    requires Ascending(a) && a != []
    ensures p in a[1..] <==> p in a && p != a[0]
  {
    assert a == [a[0]] + a[1..];
    if p in a[1..] {
      var i :| 1 <= i < |a| && a[i] == p;
      LessTotal(a[0].date, a[i].date);
    }
  }

  /** The iteration order of the reply's object does not matter, for the series or for failure. */
  lemma OrderIndependent(days: seq<Day>, days': seq<Day>, source: string, target: string, range: Range)
    requires DistinctDates(days) && DistinctDates(days') && forall d :: d in days <==> d in days'
    ensures Normalised(Rates(days), source, target, range) == Normalised(Rates(days'), source, target, range)
  {
    FailureByMember(days, target, range);
    FailureByMember(days', target, range);
    var r, r' := Normalised(Rates(days), source, target, range), Normalised(Rates(days'), source, target, range);
    if r.Ok? {
      forall p ensures p in r.value <==> p in r'.value {
        SeriesContents(days, source, target, range, p);
        SeriesContents(days', source, target, range, p);
      }
      CollectedDistinct(days, source, target, range);
      CollectedDistinct(days', source, target, range);
      SortedSorts(Collected(days, source, target, range));
      SortedSorts(Collected(days', source, target, range));
      SeriesUnique(r.value, r'.value);
    }
  }

  lemma FailureByMember(days: seq<Day>, target: string, range: Range)
    ensures (exists i :: 0 <= i < |days| && Fails(days[i], target, range))
      <==> exists d :: d in days && Fails(d, target, range)
  {
  }

  /** The points of a series within a range. */
  function Narrowed(series: seq<ExchangeRate>, range: Range): seq<ExchangeRate> {
    if series == [] then []
    else
      (if Within(series[0].date, range.startDate, range.endDate) then [series[0]] else [])
      + Narrowed(series[1..], range)
  }

  lemma {:induction false} NarrowedMember(series: seq<ExchangeRate>, range: Range, p: ExchangeRate)
    ensures p in Narrowed(series, range) <==> p in series && Within(p.date, range.startDate, range.endDate)
  {
    if series != [] { NarrowedMember(series[1..], range, p); }
  }

  lemma {:induction false} NarrowedAscending(series: seq<ExchangeRate>, range: Range)
    requires Ascending(series)
    ensures Ascending(Narrowed(series, range))
  {
    if series != [] {
      NarrowedAscending(series[1..], range);
      forall p | p in Narrowed(series[1..], range) ensures Less(series[0].date, p.date) {
        NarrowedMember(series[1..], range, p);
      }
    }
  }

  /** A date within a range is within any range that contains it. */
  lemma WithinWider(date: string, sub: DateRange, wide: DateRange)
    requires Within(sub.startDate, wide.startDate, wide.endDate) && Within(sub.endDate, wide.startDate, wide.endDate)
    requires Within(date, sub.startDate, sub.endDate)
    ensures Within(date, wide.startDate, wide.endDate)
  {
    LessTotal(date, sub.startDate);
    LessTotal(date, sub.endDate);
    if Less(date, wide.startDate) && sub.startDate != date { LessTransitive(sub.startDate, date, wide.startDate); }
    if Less(wide.endDate, date) && sub.endDate != date { LessTransitive(wide.endDate, date, sub.endDate); }
  }

  /** Normalising for a part of a range is narrowing the series of the whole range, if that one parses. */
  lemma Narrowing(days: seq<Day>, source: string, target: string, sub: DateRange, wide: DateRange)
    requires DistinctDates(days) && Normalised(Rates(days), source, target, wide).Ok?
    requires Within(sub.startDate, wide.startDate, wide.endDate) && Within(sub.endDate, wide.startDate, wide.endDate)
    ensures Normalised(Rates(days), source, target, sub)
         == Ok(Narrowed(Normalised(Rates(days), source, target, wide).value, sub))
  {
    forall d | d in days && InRange(d, sub) ensures InRange(d, wide) {
      WithinWider(d.date, sub, wide);
    }
    FailureByMember(days, target, sub);
    FailureByMember(days, target, wide);
    var whole, part := Normalised(Rates(days), source, target, wide).value,
      Normalised(Rates(days), source, target, sub).value;
    forall p ensures p in part <==> p in Narrowed(whole, sub) {
      SeriesContents(days, source, target, wide, p);
      SeriesContents(days, source, target, sub, p);
      NarrowedMember(whole, sub, p);
    }
    CollectedDistinct(days, source, target, wide);
    CollectedDistinct(days, source, target, sub);
    SortedSorts(Collected(days, source, target, wide));
    SortedSorts(Collected(days, source, target, sub));
    NarrowedAscending(whole, sub);
    SeriesUnique(part, Narrowed(whole, sub));
  }
}
