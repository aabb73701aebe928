/** The values the services exchange: currencies, rates, requests and replies, and the bounds on them. */
module Domain {
  import opened Text
  import opened Dates

  datatype Currency = Currency(code: string, fullName: string)

  /** One unit of base is rate units of quote, as of date. */
  datatype ExchangeRate = ExchangeRate(base: string, quote: string, rate: real, date: string)

  /** A requested amount; infinities and NaN have no value. */
  datatype Amount = Finite(value: real) | NotFinite

  datatype ConversionResult = ConversionResult(
    sourceAmount: real, convertedAmount: real, exchangeRate: real, rateDate: string)

  const MIN_AMOUNT := 0.01
  const MAX_AMOUNT := 1000000000.0
  const MIN_DATE: string := "1999-01-04"

  predicate AmountAllowed(amount: Amount) {
    amount.Finite? && MIN_AMOUNT <= amount.value <= MAX_AMOUNT
  }

  /** Both ends of the range are selectable today. */
  predicate RangeAllowed(range: Range, today: string) {
    !Less(range.startDate, MIN_DATE) && !Less(today, range.endDate)
  }

  predicate HasCode(currencies: seq<Currency>, code: string) {
    exists i :: 0 <= i < |currencies| && currencies[i].code == code
  }

  function Converted(amount: real, rate: ExchangeRate): ConversionResult {
    ConversionResult(amount, amount * rate.rate, rate.rate, rate.date)
  }
}
