/** The engine's exception hierarchy (aioracle/backend.py:24-36) as one closed datatype. */
module Errors {

  datatype PredictionError =
    /** No data could be fetched: the fetch raised, or it returned an empty list. */
    | DataFetchError(message: string)
    /** Too few points survived validation: `got` valid points, `need` required. */
    | DataValidationError(got: nat, need: int)

  /** Message used when the fetch function raises: "Failed to fetch data: {e}". */
  function FetchFailedMessage(cause: string): string
  {
    "Failed to fetch data: " + cause
  }

  /** Message used when the fetch function returns an empty list. */
  const NoDataMessage: string := "No forecast data retrieved. Check your internet connection."
}
