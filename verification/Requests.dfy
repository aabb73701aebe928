/**
 What the three requests answer, spelt out: which are refused and why, and what the others carry.
 For the provider asked directly, which the services are proved to agree with, and for every
 request that has finished under some interleaving.
 */
module Requests {
  import opened Outcomes
  import opened Text
  import opened Dates
  import opened Domain
  import opened CacheSpec
  import opened Protocol
  import opened Concurrent
  import opened Provenance
  import Series

  /** The code, in upper case, is that of one of the currencies. */
  ghost predicate Offered(currencies: seq<Currency>, code: string) {
    exists c :: c in currencies && c.code == Upper(code)
  }

  lemma OfferedIsListed(currencies: seq<Currency>, code: string)
    ensures HasCode(currencies, Upper(code)) <==> Offered(currencies, code)
  {
  }

  /** Without a list of currencies every request ends with the list's error; an empty list is one. */
  lemma ListNeeded(p: Provider, req: Request, today: string)
    ensures p(ListQuery).Err? ==> Direct(p, req, today) == Err(p(ListQuery).error)
    ensures p(ListQuery) == Ok(Currencies([])) ==> Direct(p, req, today) == Err(ExternalApiUnexpectedResponse)
  {
  }

  lemma ListAnswered(p: Provider, currencies: seq<Currency>, today: string)
    requires p(ListQuery) == Ok(Currencies(currencies)) && currencies != []
    ensures Direct(p, ListCurrencies, today) == Ok(CurrencyList(currencies))
  {
  }

  /**
   A conversion needs both codes offered, the codes different and the amount between 0.01 and
   1,000,000,000; it then gives back the amount, the amount times the rate, the rate and its date.
   */
  lemma ConversionAnswered(p: Provider, currencies: seq<Currency>, source: string, target: string, amount: Amount,
                           today: string)
    requires p(ListQuery) == Ok(Currencies(currencies)) && currencies != []
    ensures var (reply, rate) := (Direct(p, Convert(source, target, amount), today),
                                  p(RateQuery(Upper(source), Upper(target))));
      if !Offered(currencies, source) || !Offered(currencies, target) then reply == Err(CurrencyNotFound)
      else if Upper(source) == Upper(target) || amount.NotFinite? || amount.value < 0.01 || amount.value > 1000000000.0
      then reply == Err(InvalidArgument)
      else if rate.Err? then reply == Err(rate.error)
      else rate.value.Latest? ==>
        && reply.Ok? && reply.value.Conversion?
        && reply.value.result.sourceAmount == amount.value
        && reply.value.result.convertedAmount == amount.value * rate.value.rate.rate
        && reply.value.result.exchangeRate == rate.value.rate.rate
        && reply.value.result.rateDate == rate.value.rate.date
  {
    OfferedIsListed(currencies, source);
    OfferedIsListed(currencies, target);
  }

  /** A history needs both codes offered and the range within the selectable dates; it is the provider's series. */
  lemma HistoryAnswered(p: Provider, currencies: seq<Currency>, source: string, target: string, range: DateRange,
                        today: string)
    requires p(ListQuery) == Ok(Currencies(currencies)) && currencies != [] && IsoDate(today)
    ensures var (reply, series) := (Direct(p, GetHistory(source, target, range), today),
                                    p(HistoryQuery(Upper(source), Upper(target), range)));
      if !Offered(currencies, source) || !Offered(currencies, target) then reply == Err(CurrencyNotFound)
      else if EarlierThan(range.startDate, 1999, 1, 4) || Before(today, range.endDate)
      then reply == Err(InvalidArgument)
      else if series.Err? then reply == Err(series.error)
      else series.value.Points? ==> reply == Ok(History(series.value.points))
  {
    OfferedIsListed(currencies, source);
    OfferedIsListed(currencies, target);
    RangeInTime(range, today);
  }

  predicate EarlierThan(date: string, year: int, month: int, day: int)
    requires IsoDate(date)
  {
    Year(date) < year || (Year(date) == year && (Month(date) < month || (Month(date) == month && Day(date) < day)))
  }

  lemma FirstDate()
    ensures IsoDate(MIN_DATE) && Year(MIN_DATE) == 1999 && Month(MIN_DATE) == 1 && Day(MIN_DATE) == 4
  {
    DateWritten(1999, 1, 4);
    assert Decimal(1, 2) == "01" && Decimal(4, 2) == "04" && Decimal(1999, 4) == "1999";
    assert MIN_DATE == DateString(1999, 1, 4);
  }

  /** A range is refused exactly if it starts before 4 January 1999 or ends after today. */
  lemma RangeInTime(range: DateRange, today: string)
    requires IsoDate(today)
    ensures RangeAllowed(range, today) <==> !EarlierThan(range.startDate, 1999, 1, 4) && !Before(today, range.endDate)
  {
    FirstDate();
    DateOrder(range.startDate, MIN_DATE);
    DateOrder(today, range.endDate);
  }

  /**
   A conversion that has finished under some interleaving: it gives back its amount and the amount
   times the rate of an answer the provider gave for just these codes, which it had listed.
   */
  lemma FinishedConversion(cfg: Config, s: State, id: nat) returns (rate: ExchangeRate)
    requires Reachable(cfg, s) && NoClash(ListedIn(s.log))
    requires id in s.rpcs && s.rpcs[id].req.Convert? && s.rpcs[id].pc.Finished? && s.rpcs[id].pc.outcome.Ok?
    ensures var (req, reply) := (s.rpcs[id].req, s.rpcs[id].pc.outcome.value);
      && Provided(s.log, RateQuery(Upper(req.source), Upper(req.target)), Latest(rate))
      && Listed(s.log, Upper(req.source)) && Listed(s.log, Upper(req.target)) && Upper(req.source) != Upper(req.target)
      && req.amount.Finite? && 0.01 <= req.amount.value <= 1000000000.0
      && reply.Conversion?
      && reply.result.sourceAmount == req.amount.value
      && reply.result.convertedAmount == req.amount.value * rate.rate
      && reply.result.exchangeRate == rate.rate && reply.result.rateDate == rate.date
  {
    ReachableInv(cfg, s);
    assert RpcOk(s.log, cfg, id, s.rpcs[id]);
    var a := ProvenanceAndFreshness(cfg, s, id);
    rate := a.rate;
  }

  /** And each point of a finished history is a number the provider quoted for just these codes on its day. */
  lemma FinishedHistory(cfg: Config, s: State, id: nat) returns (days: seq<Series.Day>)
    requires Reachable(cfg, s) && NoClash(ListedIn(s.log)) && HistoriesNormalised(s.log)
    requires id in s.rpcs && s.rpcs[id].req.GetHistory? && s.rpcs[id].pc.Finished? && s.rpcs[id].pc.outcome.Ok?
    ensures var (req, reply) := (s.rpcs[id].req, s.rpcs[id].pc.outcome.value);
      && reply.History?
      && Provided(s.log, HistoryQuery(Upper(req.source), Upper(req.target), req.range), Points(reply.points))
      && (forall p :: p in reply.points ==>
            && p.base == Upper(req.source) && p.quote == Upper(req.target)
            && Series.FromDay(days, p, Upper(req.target), req.range))
      && (forall d, x :: d in days && Series.Quoted(d, Upper(req.target), req.range, Series.Numeric(x)) ==>
            ExchangeRate(Upper(req.source), Upper(req.target), x, d.date) in reply.points)
  {
    var a := ProvenanceAndFreshness(cfg, s, id);
    var req := s.rpcs[id].req;
    var source, target, range := Upper(req.source), Upper(req.target), req.range;
    assert Provided(s.log, HistoryQuery(source, target, range), Points(a.points));
    days :| NormalisedFrom(days, source, target, range, a.points);
    Series.SeriesQuotes(days, source, target, range);
  }
}
