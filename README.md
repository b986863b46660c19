# Exercise tracker: a verified model of its request handlers

The exercise tracker is a small web service. Clients register users, log
exercises against a user, and fetch a user's exercise log, optionally
limited and bounded by dates. This project models the four API routes of
`index.js` as methods of a store object. The store holds two tables and an
id counter:

- `users`: each user has an `_id` and a `username`;
- `exercises`: each exercise has its own id plus the fields of
  `models/Exercise.js` (description, duration, date, uid);
- `nextId`: the counter that issues fresh ids.

Every handler answers with a `Reply`. That is either a success payload or
`{error: ...}`, which carries one of the three fixed messages or an opaque
store failure.

Files:

- `records.dfy` (module `Records`): the entities, the values the handlers get
  from parsing (`ParsedDate`, `ParsedInt`), the fixed error messages and the
  JSON payloads.
- `sequences.dfy` (module `Sequences`): `Array.prototype.filter` as
  `Filter`. Also the in-order subsequence relation and lemmas about both.
- `logs.dfy` (module `ExerciseLog`): the pipeline of the logs route as pure
  functions over sequences. The steps are select by `uid`,
  `splice(parseInt(limit))`, the `from` filter, the `to` filter and the
  projection.
- `tracker.dfy` (module `Tracker`): `findById` as `FindUser` and the class
  `Store`.
  - `Store.Valid()` is the store invariant. Ids are below the counter and
    strictly increase within each table. Every exercise's `uid` names a stored
    user.
  - `CreateUser`, `ListUsers`, `AddExercise` and `GetLogs` are the four
    routes.
  - `Session` is a client that uses only the methods' contracts.

Inputs that the service computes with JavaScript or Mongoose library code
are parameters of the model:

- the parsed date, as `Time(ms)` or `InvalidDate`;
- the result of `parseInt`, as `Int(n)` or `NaN`;
- the duration after Mongoose's Number cast, where `None` means the cast
  failed;
- the clock reading `now`;
- `toDateString`, a function from time values to text.

An empty string stands for a body or query field that is missing or empty,
since both are falsy for the handlers' `if (!x)` and `if (x)` tests.

Behaviour of the code that the model keeps:

- Adding an exercise answers with the owning user's id in `_id`, never the
  new entry's id.
- The logs route applies the limit before the date filters, so `limit=2`
  together with a `from` bound can yield an empty log.
  `ExerciseLog.LimitBeforeFilter` proves this.
- `splice` follows ECMAScript:
  - a negative limit drops that many entries from the end;
  - a limit of `NaN` (for example `limit=abc`) empties the log;
  - a limit past the end keeps everything.

  So a limit that is not a non-negative integer still truncates, as
  `splice` does.
- A date bound that parses to an Invalid Date makes every comparison false,
  so that filter drops every entry.
- A supplied exercise date that parses to an Invalid Date, or a duration that
  Mongoose cannot cast to a Number, makes `Exercise.create` reject. The catch
  block at index.js:75-77 turns this into an error payload, modelled as
  `Err(StoreFailure)`. An invalid date or an uncastable duration therefore
  gives a store error, not a validation error.

## Model

| member | source | states |
|---|---|---|
| `Sequences.Filter` | index.js:100 | the kept elements all satisfy the predicate, all come from the input, and there are no more of them than input elements |
| `Sequences.FilterMembers` | index.js:105 | an element is kept if and only if it is in the input and satisfies the predicate |
| `Sequences.FilterIsSubsequence` | index.js:98-106 | filtering keeps the relative order: the result is an in-order subsequence of the input |
| `Sequences.PrefixIsSubsequence` | index.js:94-96 | what `splice` leaves, a prefix, is an in-order subsequence of the array |
| `ExerciseLog.SpliceStart` | index.js:95 | the index where `splice` starts deleting never exceeds the array length |
| `ExerciseLog.Splice` | index.js:94-96 | after `splice(n)` the log is a prefix of what it was. With n ≥ 0 it keeps min(n, length) entries. With n < 0 it drops \|n\| entries from the end, or all of them. `NaN` leaves nothing |
| `ExerciseLog.Limited` | index.js:90-96 | after the limit step every record belongs to the queried user and is a stored exercise |
| `ExerciseLog.LogRecords` | index.js:90-106 | every reported record has `uid` equal to the user id and satisfies `from <= date <= to` for the bounds given. A non-negative limit n bounds the count by n. A `NaN` limit or an Invalid Date bound yields nothing |
| `ExerciseLog.Project` | index.js:112-116 | the log has one entry per record, in the same order. Each entry carries that record's description and duration and its date formatted by `toDateString`, and nothing else: neither the entry's id nor its `uid` |
| `ExerciseLog.Select` | index.js:90 | `find({uid: id})` returns only stored exercises whose `uid` is `id` |
| `ExerciseLog.AtOrAfter` | index.js:100 | the comparison `log.date >= fromDate` holds exactly when the exercise lies within the lower bound alone. Against an Invalid Date it never holds |
| `ExerciseLog.AtOrBefore` | index.js:105 | the comparison `log.date <= toDate` holds exactly when the exercise lies within the upper bound alone. Against an Invalid Date it never holds |
| `ExerciseLog.FilterFrom` | index.js:98-101 | the `from` step keeps exactly the input records on or after the bound, and all of them when no bound is given; it never adds records |
| `ExerciseLog.FilterTo` | index.js:103-106 | the `to` step keeps exactly the input records on or before the bound, and all of them when no bound is given; it never adds records |
| `ExerciseLog.InRange` | index.js:98-106 | the inclusive bounds are `from <= date` and `date <= to`, each only when given. With neither bound every exercise is in range, and an Invalid Date bound admits none |
| `ExerciseLog.SelectMembers` | index.js:90 | `find({uid: id})` returns exactly the stored exercises whose `uid` is `id` |
| `ExerciseLog.LogRecordsMembers` | index.js:94-106 | a record is reported if and only if it survives the limit step and lies within the inclusive bounds |
| `ExerciseLog.LogRecordsInOrder` | index.js:90-106 | the reported records are an in-order subsequence of the user's exercises and of the whole exercises table |
| `ExerciseLog.LimitBeforeFilter` | index.js:94-101 | if the user's first two entries precede `from` and the later ones do not, then `limit=2` with `from` gives an empty log, while filtering first would keep all the later entries |
| `Tracker.FindUser` | index.js:87-88 | a user that is found is stored and has the requested id, and a user that is not found means no stored user has that id. When ids strictly increase in storage order, the user found is the one stored user with that id |
| `Tracker.FindUserAppend` | index.js:34-36 | inserting a user leaves every earlier lookup unchanged, and the new user is found by its own fresh id |
| `Tracker.StoredDate` | index.js:61 | an exercise without a date is dated `now`, and the stored date is invalid exactly when the supplied date parsed to an Invalid Date |
| `Tracker.Store.Valid` | index.js:34-63 | the store invariant: ids issued so far are below the counter and strictly increase within each table, and every exercise's `uid` names a stored user. It implies that no two users share an id and that no two exercises share an id |
| `Tracker.Store.constructor` | index.js:16 | the empty store before any request is valid, with both tables empty and the counter at 0 |
| `Tracker.Store.CreateUser` | index.js:29-42 | An empty username answers "Please provide a username" and changes nothing. Otherwise exactly one user is appended, with a fresh id that no earlier user has, and the answer is `{_id, username}` of that user. The invariant is preserved and exercises are untouched |
| `Tracker.Store.ListUsers` | index.js:43-50 | the answer is every stored user in storage order, and the store is not modified |
| `Tracker.Store.AddExercise` | index.js:53-78 | A missing description or duration answers its fixed message, and an unknown user answers "User not found!"; both leave the store unchanged. A failed duration cast or invalid date gives a store failure and changes nothing. Otherwise exactly one exercise is appended: it has a fresh id that no earlier exercise has, `uid` set to the user's id, and the supplied date or else `now`. The answer carries the user's username and the user's id as `_id`. Users never change and the invariant is preserved |
| `Tracker.Store.GetLogs` | index.js:81-121 | An unknown user answers "User not found!". Otherwise the answer is the user's username and id, the projection of `LogRecords`, and a `count` equal to the log's length, which a non-negative limit bounds. The store is not modified, so repeated calls give the same answer |

## Left out

- Express wiring is not modelled because it is I/O plumbing. This covers CORS, body parsing, static files, the root page and the port listener (index.js:1-24, 124-126).
- Store failures other than rejected casts (connectivity, and a path id that is not a valid ObjectId) are not modelled. Ids here are natural numbers, so every id is well formed. The catch branches at index.js:39-41 and 47-49 and the message at index.js:119 are outside the model.
- The `User` model and `connectDB` (`./models/User`, `./db`) are not part of this model. The user record is taken to hold just `_id` and `username`, as the handlers use them. Mongoose's `__v` version key in the list-users output is not modelled.
- `new Date(text)`, `parseInt`, `toDateString` and Mongoose's Number cast are library semantics. Their results are inputs of the model.
- The clock (`new Date()` at index.js:61) is the parameter `now`.
- The unawaited `exerciseData.save()` at index.js:64 is not modelled. It stores the same document again and does not affect the answer.
- The dead branches `if (!id)` (index.js:84) and `if (!logs)` (index.js:92) are not modelled. The path parameter is always present and `find` always returns an array.
- The schema default `Date.now()` (models/Exercise.js:14) is not modelled. index.js:63 always supplies a date.
- Concurrent requests are not modelled, and neither is the non-atomic check-then-insert of index.js:58-63. Each handler runs to completion on the store.
- Repeated query or body keys, which the parser turns into arrays, are not modelled.
- `find` results are taken to come back in insertion order.
- Tracker.Store.AddExercise: durations are modelled as `real`, so a duration that casts to a number that is not finite is not modelled. Mongoose's Number cast rejects only NaN, so `duration=Infinity` or `1e400` is stored, and index.js:69 answers it as `duration: null` once the reply is serialised to JSON.
- Tracker.Store.GetLogs: the path id is taken to be the canonical text of the user's id, and one `Id` serves both lookups. In the service, `uid` is a String (models/Exercise.js:16-18) holding the text of `user._id` (index.js:63). `find({uid: id})` at index.js:90 compares that text with the raw path text, while `findById` at index.js:87 casts the path text to an ObjectId and also accepts other spellings, such as upper-case hex. For such a spelling the service finds the user but answers `count: 0, log: []`, whereas the model reports the user's exercises.
