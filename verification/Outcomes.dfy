/** The optional values and error outcomes shared by every component. */
module Outcomes {

  datatype Option<+T> = None | Some(value: T)

  /** The domain exceptions an operation may end with. */
  datatype Error =
    | InvalidArgument
    | CurrencyNotFound
    | ExternalApiUnavailable
    | ExternalApiUnexpectedResponse

  datatype Result<+T> = Ok(value: T) | Err(error: Error)
}
