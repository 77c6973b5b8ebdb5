/** Optional values: a spreadsheet cell that may be missing, a result that may be absent. */
module Wrappers {
  datatype Option<+T> = None | Some(value: T)

  /** The outcome of a call into an external service: its data, or a raised exception. */
  datatype Fetch<+T> = Fetched(data: T) | Failed
}
