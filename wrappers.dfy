/** Small value wrappers shared by the dashboard modules. */
module Wrappers {

  /** A JSON property that may be absent (`undefined`) or present. */
  datatype Option<+T> = None | Some(value: T) {

    /** The value, or `default` when absent. */
    function GetOr(default: T): T {
      match this
      case Some(v) => v
      case None => default
    }
  }

  /**
   * The outcome of a `fetch(...).then(res => res.json())` chain as seen by the
   * `.then` handler: either the decoded body arrived, or the request or the
   * decoding failed and only the `.catch` handler ran.
   */
  datatype Fetch<+T> = Received(body: T) | Failed
}
