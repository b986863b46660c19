/**
 * The four API routes of index.js as methods of an in-memory store holding
 * the users table, the exercises table and the counter that issues ids.
 */
module Tracker {
  import opened Records
  import opened Sequences
  import opened ExerciseLog

  /** `User.findById(id)`: the first user with that id, if any. */
  function FindUser(users: seq<User>, id: Id): (r: Option<User>)
    ensures r.Some? ==> r.value in users && r.value.id == id
    ensures r.None? ==> forall u :: u in users ==> u.id != id
    ensures UserIdsIncreasing(users) ==> forall u :: u in users && u.id == id ==> r == Some(u)
  {
    if users == [] then None
    else if users[0].id == id then Some(users[0])
    else FindUser(users[1..], id)
  }

  /** Appending a user does not change who is found, except that the new user is found when nobody else was. */
  lemma {:induction false} FindUserAppend(users: seq<User>, u: User, id: Id)
    ensures FindUser(users + [u], id)
         == if FindUser(users, id).Some? then FindUser(users, id)
            else if u.id == id then Some(u) else None
  {
    if users == [] {
      assert users + [u] == [u];
    } else {
      assert (users + [u])[1..] == users[1..] + [u];
      FindUserAppend(users[1..], u, id);
    }
  }

  /** User ids strictly increase in storage order, so no two users share one. */
  predicate UserIdsIncreasing(users: seq<User>)
  {
    forall i, j :: 0 <= i < j < |users| ==> users[i].id < users[j].id
  }

  /** Exercise ids strictly increase in storage order. */
  predicate ExerciseIdsIncreasing(exercises: seq<Exercise>)
  {
    forall i, j :: 0 <= i < j < |exercises| ==> exercises[i].id < exercises[j].id
  }

  /** Every exercise's `uid` names a stored user. */
  predicate Referenced(exercises: seq<Exercise>, users: seq<User>)
  {
    forall i :: 0 <= i < |exercises| ==> FindUser(users, exercises[i].uid).Some?
  }

  /** Where an exercise says nothing about its date, the handler uses the clock (index.js:61). */
  function StoredDate(date: Option<ParsedDate>, now: int): (d: ParsedDate)
    ensures date == None ==> d == Time(now)
    ensures d == InvalidDate <==> date == Some(InvalidDate)
  {
    if date.Some? then date.value else Time(now)
  }

  class Store {
    var users: seq<User>
    var exercises: seq<Exercise>
    var nextId: nat

    /** Ids issued so far are below the counter and unique per table; every exercise has its user. */
    ghost predicate Valid()
      reads this
      ensures Valid() ==> forall u, v :: u in users && v in users && u.id == v.id ==> u == v
      ensures Valid() ==>
        forall i, j :: 0 <= i < |exercises| && 0 <= j < |exercises| && exercises[i].id == exercises[j].id ==> i == j
    {
      && UserIdsIncreasing(users)
      && ExerciseIdsIncreasing(exercises)
      && (forall i :: 0 <= i < |users| ==> users[i].id < nextId)
      && (forall i :: 0 <= i < |exercises| ==> exercises[i].id < nextId)
      && Referenced(exercises, users)
    }

    constructor ()
      ensures Valid()
      ensures users == [] && exercises == [] && nextId == 0
    {
      users, exercises, nextId := [], [], 0;
    }

    /** POST /api/users (index.js:29-42). */
    method CreateUser(username: string) returns (r: Reply<User>)
      requires Valid()
      modifies this
      ensures Valid()
      ensures exercises == old(exercises)
      ensures username == "" ==> r == Err(Message(NO_USERNAME)) && users == old(users) && nextId == old(nextId)
      ensures username != "" ==>
        && r == Ok(User(old(nextId), username))
        && users == old(users) + [r.value]
        && nextId == old(nextId) + 1
      ensures r.Ok? ==> forall u :: u in old(users) ==> u.id != r.value.id
    {
      if username == "" {
        return Err(Message(NO_USERNAME));
      }
      var created := User(nextId, username);
      ghost var before := users;
      forall i | 0 <= i < |exercises|
        ensures FindUser(before + [created], exercises[i].uid).Some?
      {
        FindUserAppend(before, created, exercises[i].uid);
      }
      users, nextId := users + [created], nextId + 1;
      FindUserAppend(before, created, created.id);
      var found := FindUser(users, created.id);
      r := Ok(found.value);
    }

    /** GET /api/users (index.js:43-50). */
    method ListUsers() returns (r: Reply<seq<User>>)
      ensures r == Ok(users)
    {
      r := Ok(users);
    }

    /** POST /api/users/:_id/exercises (index.js:53-78). */
    method AddExercise(id: Id, description: string, duration: string, castDuration: Option<real>,
                       date: Option<ParsedDate>, now: int, toDateString: int -> string)
      returns (r: Reply<ExerciseReply>)
      requires Valid()
      modifies this
      ensures Valid()
      ensures users == old(users)
      ensures r.Err? ==> exercises == old(exercises) && nextId == old(nextId)
      ensures r.Ok? ==> forall e :: e in old(exercises) ==> e.id != old(nextId)
      ensures description == "" || duration == "" ==> r == Err(Message(NO_DESCRIPTION_OR_DURATION))
      ensures description != "" && duration != "" && FindUser(users, id).None? ==> r == Err(Message(USER_NOT_FOUND))
      ensures description != "" && duration != "" && FindUser(users, id).Some? ==>
        var stored := StoredDate(date, now);
        if castDuration.None? || stored == InvalidDate then r == Err(StoreFailure)
        else
          && exercises == old(exercises) + [Exercise(old(nextId), description, castDuration.value, stored.ms, id)]
          && nextId == old(nextId) + 1
          && r == Ok(ExerciseReply(FindUser(users, id).value.username, description, castDuration.value,
                                   toDateString(stored.ms), id))
    {
      if description == "" || duration == "" {
        return Err(Message(NO_DESCRIPTION_OR_DURATION));
      }
      var found := FindUser(users, id);
      if found.None? {
        return Err(Message(USER_NOT_FOUND));
      }
      var user := found.value;
      var finalDate := StoredDate(date, now);
      if castDuration.None? || finalDate == InvalidDate {
        return Err(StoreFailure);
      }
      var entry := Exercise(nextId, description, castDuration.value, finalDate.ms, user.id);
      exercises, nextId := exercises + [entry], nextId + 1;
      r := Ok(ExerciseReply(user.username, entry.description, entry.duration, toDateString(entry.date), entry.uid));
    }

    /** GET /api/users/:_id/logs (index.js:81-121). */
    method GetLogs(id: Id, limit: Option<ParsedInt>, from: Option<ParsedDate>, to: Option<ParsedDate>,
                   toDateString: int -> string)
      returns (r: Reply<LogsReply>)
      ensures FindUser(users, id).None? ==> r == Err(Message(USER_NOT_FOUND))
      ensures FindUser(users, id).Some? ==>
        var records := LogRecords(exercises, id, limit, from, to);
        r == Ok(LogsReply(FindUser(users, id).value.username, |records|, id, Project(records, toDateString)))
      ensures r.Ok? ==> r.value.id == id && r.value.count == |r.value.log|
      ensures r.Ok? && limit.Some? && limit.value.Int? && 0 <= limit.value.n ==> r.value.count <= limit.value.n
    {
      var found := FindUser(users, id);
      if found.None? {
        return Err(Message(USER_NOT_FOUND));
      }
      var user := found.value;
      var logs := Select(exercises, id);
      if limit.Some? {
        logs := Splice(logs, limit.value);
      }
      if from.Some? {
        logs := Filter(logs, AtOrAfter(from.value));
      }
      if to.Some? {
        logs := Filter(logs, AtOrBefore(to.value));
      }
      r := Ok(LogsReply(user.username, |logs|, user.id, Project(logs, toDateString)));
    }
  }

  /**
   * A client of the store: a registered user logs a run without a date, the
   * run is dated "now" and answered with the user's id, and asking for the
   * log twice gives the same answer.
   */
  method Session(now: int, toDateString: int -> string)
  {
    var store := new Store();
    var created := store.CreateUser("ana");
    assert created == Ok(User(0, "ana"));
    var missing := store.CreateUser("");
    assert missing == Err(Message(NO_USERNAME));
    var logged := store.AddExercise(0, "run", "30", Some(30.0), None, now, toDateString);
    assert logged == Ok(ExerciseReply("ana", "run", 30.0, toDateString(now), 0));
    var unknown := store.AddExercise(5, "run", "30", Some(30.0), None, now, toDateString);
    assert unknown == Err(Message(USER_NOT_FOUND));
    var first := store.GetLogs(0, None, None, None, toDateString);
    var again := store.GetLogs(0, None, None, None, toDateString);
    assert first == again && first.Ok? && first.value.count == 1;
  }
}
