/** The shapes of what the three external services hand back. The calls
    themselves (price history, news search, text generation) are not modelled:
    their outcomes are inputs to the operations that use them. */
module Provider {

  datatype Option<+T> = None | Some(value: T)

  /** The outcome of a foreign call: the value it returned, or the message of the
      exception it raised (Python's `str(e)`). */
  datatype Fetch<+T> = Fetched(value: T) | Raised(message: string)

  /** One row of a daily price history, already rendered: the date as
      `strftime('%Y-%m-%d')` gives it and the closing price as the tool prints it. */
  datatype Row = Row(date: string, close: string)

  /** One news search hit, with the three fields the tools read. */
  datatype SearchResult = SearchResult(title: string, url: string, content: string)
}
