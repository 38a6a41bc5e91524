/** Values shared by every part of the chat application: optional values,
    the identifiers the database and the socket layer hand out, and the way
    a JavaScript template literal renders a value that may be undefined. */
module Common {

  datatype Option<T> = None | Some(value: T)

  /** A MongoDB ObjectId, compared through its string form. */
  type UserId = string
  /** A Message document's ObjectId. */
  type MessageId = string
  /** A Socket.io connection id. */
  type SocketId = string
  /** A `Date`, as milliseconds. */
  type Time = int

  /** `${x}` for a value that is either a string or `undefined`. */
  function Display(x: Option<string>): string
  {
    match x
    case Some(s) => s
    case None => "undefined"
  }

  /** JavaScript truthiness of a value that is either a string or `undefined`:
      the empty string is falsy. */
  predicate Truthy(x: Option<string>)
  {
    x.Some? && x.value != ""
  }
}
