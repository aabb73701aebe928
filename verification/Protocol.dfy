/**
 The three services as one protocol: a request is a sequence of stages, and a stage that needs
 data asks its cache, then the provider, then fills the cache. Run by any number of threads at
 once in module Concurrent; here are its pieces, and the service without any cache.
 */
module Protocol {
  import opened Outcomes
  import opened Text
  import opened Dates
  import opened Domain
  import opened Keys

  datatype Request =
    | ListCurrencies
    | Convert(source: string, target: string, amount: Amount)
    | GetHistory(source: string, target: string, range: DateRange)

  /** What the provider is asked. */
  datatype Query =
    | ListQuery
    | RateQuery(source: string, target: string)
    | HistoryQuery(source: string, target: string, range: DateRange)

  datatype Answer =
    | Currencies(currencies: seq<Currency>)
    | Latest(rate: ExchangeRate)
    | Points(points: seq<ExchangeRate>)

  datatype Reply =
    | CurrencyList(currencies: seq<Currency>)
    | Conversion(result: ConversionResult)
    | History(points: seq<ExchangeRate>)

  /** The three caches. */
  datatype Slot = CatalogSlot | RateSlot | HistorySlot

  predicate Fits(q: Query, a: Answer) {
    match q
    case ListQuery => a.Currencies?
    case RateQuery(_, _) => a.Latest?
    case HistoryQuery(_, _, _) => a.Points?
  }

  function SlotOf(q: Query): Slot {
    match q
    case ListQuery => CatalogSlot
    case RateQuery(_, _) => RateSlot
    case HistoryQuery(_, _, _) => HistorySlot
  }

  const CATALOG_KEY: string := "currencies"

  function KeyOf(q: Query): string {
    match q
    case ListQuery => CATALOG_KEY
    case RateQuery(source, target) => RateKey(source, target)
    case HistoryQuery(source, target, range) => HistoryKey(source, target, range)
  }

  /** Is the source known, is the target known, are the bounds met, and then the data itself. */
  datatype Stage = SourceCheck | TargetCheck | Main

  datatype Pc =
    | LookingUp(stage: Stage)
    | Fetching(stage: Stage)
    | Storing(stage: Stage, answer: Answer)
    | Validating
    | Finished(outcome: Result<Reply>)

  function Begin(req: Request): Pc {
    if req.ListCurrencies? then LookingUp(Main) else LookingUp(SourceCheck)
  }

  /** The query a stage asks; codes are in upper case from the start. */
  function QueryOf(req: Request, stage: Stage): Query {
    if req.ListCurrencies? || !stage.Main? then ListQuery
    else if req.Convert? then RateQuery(Upper(req.source), Upper(req.target))
    else HistoryQuery(Upper(req.source), Upper(req.target), req.range)
  }

  /** An empty currency list is an error and is not stored; any other answer is. */
  function Received(stage: Stage, a: Answer): Pc {
    if a.Currencies? && a.currencies == [] then Finished(Err(ExternalApiUnexpectedResponse))
    else Storing(stage, a)
  }

  function ReplyWith(req: Request, a: Answer): Reply
    requires Fits(QueryOf(req, Main), a)
    requires req.Convert? ==> req.amount.Finite?
  {
    match req
    case ListCurrencies => CurrencyList(a.currencies)
    case Convert(_, _, amount) => Conversion(Converted(amount.value, a.rate))
    case GetHistory(_, _, _) => History(a.points)
  }

  /** What a thread relies on when it takes an answer; module Concurrent proves that it always holds. */
  predicate CanResume(req: Request, stage: Stage, a: Answer) {
    && Fits(QueryOf(req, stage), a)
    && (req.ListCurrencies? ==> stage.Main?)
    && (req.Convert? && stage.Main? ==> req.amount.Finite?)
  }

  /** How a request goes on once it has the answer of a stage. */
  function Resume(req: Request, stage: Stage, a: Answer): Pc
    requires CanResume(req, stage, a)
  {
    match stage
    case SourceCheck =>
      if HasCode(a.currencies, Upper(Upper(req.source))) then LookingUp(TargetCheck)
      else Finished(Err(CurrencyNotFound))
    case TargetCheck =>
      if HasCode(a.currencies, Upper(Upper(req.target))) then Validating else Finished(Err(CurrencyNotFound))
    case Main => Finished(Ok(ReplyWith(req, a)))
  }

  predicate Allowed(req: Request, today: string) {
    match req
    case ListCurrencies => true
    case Convert(source, target, amount) => Upper(source) != Upper(target) && AmountAllowed(amount)
    case GetHistory(_, _, range) => RangeAllowed(range, today)
  }

  function Validated(req: Request, today: string): Pc {
    if Allowed(req, today) then LookingUp(Main) else Finished(Err(InvalidArgument))
  }

  // ----- the services without caches

  /** A provider that always gives the same answer to the same query. */
  type Provider = Query -> Result<Answer>

  function CatalogFrom(provider: Provider): Result<seq<Currency>> {
    match provider(ListQuery)
    case Err(e) => Err(e)
    case Ok(a) =>
      if !a.Currencies? || a.currencies == [] then Err(ExternalApiUnexpectedResponse) else Ok(a.currencies)
  }

  /** The outcome of a request when every answer comes straight from the provider. */
  function Direct(provider: Provider, req: Request, today: string): Result<Reply> {
    match CatalogFrom(provider)
    case Err(e) => Err(e)
    case Ok(currencies) =>
      if req.ListCurrencies? then Ok(CurrencyList(currencies))
      else if !HasCode(currencies, Upper(req.source)) || !HasCode(currencies, Upper(req.target)) then
        Err(CurrencyNotFound)
      else
        match req
        case Convert(source, target, amount) =>
          if Upper(source) == Upper(target) || !AmountAllowed(amount) then Err(InvalidArgument)
          else (
            match provider(RateQuery(Upper(source), Upper(target)))
            case Err(e) => Err(e)
            case Ok(a) =>
              if a.Latest? then Ok(Conversion(Converted(amount.value, a.rate)))
              else Err(ExternalApiUnexpectedResponse))
        case GetHistory(source, target, range) =>
          if !RangeAllowed(range, today) then Err(InvalidArgument)
          else (
            match provider(HistoryQuery(Upper(source), Upper(target), range))
            case Err(e) => Err(e)
            case Ok(a) => if a.Points? then Ok(History(a.points)) else Err(ExternalApiUnexpectedResponse))
  }
}
