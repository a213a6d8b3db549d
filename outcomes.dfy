/** Errors the script can end with, and the result type that carries them. */
module Outcomes {

  /** The faults the modelled part of the script raises. */
  datatype Error =
    | HtmlRetrievalError   // the custom exception of retrieve_html
    | MissingTableBody     // IndexError: the page has fewer than two tbody elements
    | ShortRow(row: nat)   // IndexError: row `row` of the table has fewer than two td cells

  datatype Result<T> = Ok(value: T) | Err(error: Error)
}
