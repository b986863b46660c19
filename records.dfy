/**
 * The two persisted entities of the exercise tracker, the values the route
 * handlers receive after parsing, and the JSON payloads they answer with.
 */
module Records {

  /** A document id. MongoDB's ObjectIds are opaque; here they are issued by a counter. */
  type Id = nat

  datatype Option<+T> = None | Some(value: T)

  /** A user document as the handlers see it: `_id` and `username`. */
  datatype User = User(id: Id, username: string)

  /**
   * An exercise document: the fields of models/Exercise.js (description,
   * duration, date, uid) plus the document's own `_id`. The date is a
   * time value in milliseconds; `uid` is the owning user's id.
   */
  datatype Exercise = Exercise(id: Id, description: string, duration: real, date: int, uid: Id)

  /** What `new Date(text)` yields: a time value, or an Invalid Date (time value NaN). */
  datatype ParsedDate = Time(ms: int) | InvalidDate

  /** What `parseInt(text)` yields: an integer, or NaN. */
  datatype ParsedInt = Int(n: int) | NaN

  /**
   * The `error` field of an error payload: one of the fixed messages, or an
   * opaque failure reported by the document store (a rejected cast).
   */
  datatype Error = Message(text: string) | StoreFailure

  /** Every handler answers with a success payload or `{error: ...}`. */
  datatype Reply<+T> = Ok(value: T) | Err(error: Error)

  const NO_USERNAME := "Please provide a username"
  const NO_DESCRIPTION_OR_DURATION := "Please provide a description and duration"
  const USER_NOT_FOUND := "User not found!"

  /** The answer to a logged exercise; `id` is the owning user's id, not the entry's. */
  datatype ExerciseReply = ExerciseReply(username: string, description: string, duration: real, date: string, id: Id)

  /** One entry of a fetched log. */
  datatype LogEntry = LogEntry(description: string, duration: real, date: string)

  /** The answer to a log query. */
  datatype LogsReply = LogsReply(username: string, count: nat, id: Id, log: seq<LogEntry>)
}
