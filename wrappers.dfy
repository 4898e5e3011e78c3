/** Optional payloads and fetch outcomes shared by every module. */
module Wrappers {

  /** A value that may be absent: `undefined`/`null` in the client, or an invalid date. */
  datatype Option<+T> = None | Some(value: T) {
    function GetOr(default: T): (r: T)
      ensures Some? ==> r == value
      ensures None? ==> r == default
    {
      match this
      case Some(v) => v
      case None => default
    }
  }

  /** The outcome of a provider read: the fetched records, or an error thrown by the read. */
  datatype Fetch<+T> = Fetched(records: T) | FetchError
}
