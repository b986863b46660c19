/**
 * The pipeline behind GET /api/users/:_id/logs (index.js:90-116): select the
 * user's exercises, truncate them with `splice(parseInt(limit))`, keep those
 * on or after `from`, keep those on or before `to`, and project each to
 * `{description, duration, date}`.
 */
module ExerciseLog {
  import opened Records
  import opened Sequences

  /** The query `{uid: id}`: does this exercise belong to `uid`? */
  function OwnedBy(uid: Id): Exercise -> bool
  {
    (e: Exercise) => e.uid == uid
  }

  /** The user's exercises in storage order, as `Exercise.find({uid: id})` returns them. */
  function Select(exercises: seq<Exercise>, uid: Id): (r: seq<Exercise>)
    ensures forall e :: e in r ==> e in exercises && e.uid == uid
  {
    Filter(exercises, OwnedBy(uid))
  }

  /**
   * The index where `splice(start)` starts deleting an array of length `len`,
   * as ECMAScript's Array.prototype.splice computes it: NaN counts as 0, a
   * negative start counts from the end (not below 0), and a start past the
   * end is the end.
   */
  function SpliceStart(len: nat, start: ParsedInt): (k: nat)
    ensures k <= len
  {
    match start
    case NaN => 0
    case Int(n) =>
      if n < 0 then (if len + n < 0 then 0 else len + n)
      else if n < len then n
      else len
  }

  /** What is left of the array `s` after `s.splice(start)`. */
  function Splice<T>(s: seq<T>, start: ParsedInt): (r: seq<T>)
    ensures |r| <= |s| && r == s[..|r|]
    ensures forall x :: x in r ==> x in s
    ensures start == NaN ==> r == []
    ensures start.Int? && 0 <= start.n ==> |r| == if start.n < |s| then start.n else |s|
    ensures start.Int? && start.n < 0 ==> |r| == if -start.n < |s| then |s| + start.n else 0
  {
    s[..SpliceStart(|s|, start)]
  }

  /** The user's exercises after the `if (limit)` step (index.js:94-96). */
  function Limited(exercises: seq<Exercise>, uid: Id, limit: Option<ParsedInt>): (r: seq<Exercise>)
    ensures forall e :: e in r ==> e in exercises && e.uid == uid
  {
    var owned := Select(exercises, uid);
    if limit.Some? then Splice(owned, limit.value) else owned
  }

  /**
   * `log.date >= fromDate`: JavaScript compares the two time values, and any
   * comparison with an Invalid Date is false.
   */
  function AtOrAfter(from: ParsedDate): (keep: Exercise -> bool)
    ensures forall e :: keep(e) <==> InRange(e, Some(from), None)
  {
    (e: Exercise) => from.Time? && e.date >= from.ms
  }

  /** `log.date <= toDate`, false against an Invalid Date. */
  function AtOrBefore(to: ParsedDate): (keep: Exercise -> bool)
    ensures forall e :: keep(e) <==> InRange(e, None, Some(to))
  {
    (e: Exercise) => to.Time? && e.date <= to.ms
  }

  /** The `if (from)` step (index.js:98-101). */
  function FilterFrom(s: seq<Exercise>, from: Option<ParsedDate>): (r: seq<Exercise>)
    ensures |r| <= |s|
    ensures forall e :: e in r <==> e in s && InRange(e, from, None)
  {
    if from.Some? then
      var keep := AtOrAfter(from.value);
      assert forall e :: e in Filter(s, keep) <==> e in s && keep(e) by {
        forall e ensures e in Filter(s, keep) <==> e in s && keep(e) {
          FilterMembers(s, keep, e);
        }
      }
      Filter(s, keep)
    else s
  }

  /** The `if (to)` step (index.js:103-106). */
  function FilterTo(s: seq<Exercise>, to: Option<ParsedDate>): (r: seq<Exercise>)
    ensures |r| <= |s|
    ensures forall e :: e in r <==> e in s && InRange(e, None, to)
  {
    if to.Some? then
      var keep := AtOrBefore(to.value);
      assert forall e :: e in Filter(s, keep) <==> e in s && keep(e) by {
        forall e ensures e in Filter(s, keep) <==> e in s && keep(e) {
          FilterMembers(s, keep, e);
        }
      }
      Filter(s, keep)
    else s
  }

  /** Whether an exercise lies within the optional inclusive bounds. */
  predicate InRange(e: Exercise, from: Option<ParsedDate>, to: Option<ParsedDate>)
    ensures from == None && to == None ==> InRange(e, from, to)
    ensures from == Some(InvalidDate) || to == Some(InvalidDate) ==> !InRange(e, from, to)
  {
    && (from.Some? ==> from.value.Time? && from.value.ms <= e.date)
    && (to.Some? ==> to.value.Time? && e.date <= to.value.ms)
  }

  /**
   * The records a log query reports, in the order the handler computes them:
   * the limit is applied before either date filter.
   */
  function LogRecords(exercises: seq<Exercise>, uid: Id, limit: Option<ParsedInt>,
                      from: Option<ParsedDate>, to: Option<ParsedDate>): (r: seq<Exercise>)
    ensures forall e :: e in r ==> e.uid == uid && InRange(e, from, to)
    ensures limit.Some? && limit.value.Int? && 0 <= limit.value.n ==> |r| <= limit.value.n
    ensures limit == Some(NaN) ==> r == []
    ensures from == Some(InvalidDate) || to == Some(InvalidDate) ==> r == []
  {
    var r := FilterTo(FilterFrom(Limited(exercises, uid, limit), from), to);
    assert from == Some(InvalidDate) || to == Some(InvalidDate) ==> r == [] by {
      if r != [] {
        assert r[0] in r;
      }
    }
    r
  }

  /** The `logs.map(...)` projection (index.js:112-116), formatting each date with `toDateString`. */
  function Project(records: seq<Exercise>, toDateString: int -> string): (r: seq<LogEntry>)
    ensures |r| == |records|
    ensures forall i :: 0 <= i < |r| ==>
      r[i].description == records[i].description && r[i].duration == records[i].duration
      && r[i].date == toDateString(records[i].date)
  {
    seq(|records|, i requires 0 <= i < |records| =>
      LogEntry(records[i].description, records[i].duration, toDateString(records[i].date)))
  }

  /** The user's exercises are exactly the stored exercises whose `uid` is the user's id. */
  lemma SelectMembers(exercises: seq<Exercise>, uid: Id, e: Exercise)
    ensures e in Select(exercises, uid) <==> e in exercises && e.uid == uid
  {
    FilterMembers(exercises, OwnedBy(uid), e);
  }

  /** A reported record is one of the limited records that lies within the bounds, and conversely. */
  lemma LogRecordsMembers(exercises: seq<Exercise>, uid: Id, limit: Option<ParsedInt>,
                          from: Option<ParsedDate>, to: Option<ParsedDate>, e: Exercise)
    ensures e in LogRecords(exercises, uid, limit, from, to)
        <==> e in Limited(exercises, uid, limit) && InRange(e, from, to)
  {
    // Follows from the contracts of FilterFrom and FilterTo.
  }

  /** The reported records are an in-order subsequence of the user's exercises, and so of the whole table. */
  lemma LogRecordsInOrder(exercises: seq<Exercise>, uid: Id, limit: Option<ParsedInt>,
                          from: Option<ParsedDate>, to: Option<ParsedDate>)
    ensures IsSubsequence(LogRecords(exercises, uid, limit, from, to), Select(exercises, uid))
    ensures IsSubsequence(LogRecords(exercises, uid, limit, from, to), exercises)
  {
    var owned := Select(exercises, uid);
    var limited := Limited(exercises, uid, limit);
    var afterFrom := FilterFrom(limited, from);
    var r := FilterTo(afterFrom, to);
    assert limited == owned[..|limited|];
    PrefixIsSubsequence(owned, |limited|);
    if from.Some? {
      FilterIsSubsequence(limited, AtOrAfter(from.value));
      SubsequenceTransitive(afterFrom, limited, owned);
    }
    if to.Some? {
      FilterIsSubsequence(afterFrom, AtOrBefore(to.value));
      SubsequenceTransitive(r, afterFrom, owned);
    }
    FilterIsSubsequence(exercises, OwnedBy(uid));
    SubsequenceTransitive(r, owned, exercises);
  }

  /**
   * Limit before filter: when the user's first two entries precede `from`
   * and all later ones do not, `limit=2` gives an empty log, although
   * filtering first would keep every later entry.
   */
  lemma LimitBeforeFilter(first: Exercise, second: Exercise, later: seq<Exercise>, uid: Id, from: int)
    requires first.uid == uid && first.date < from
    requires second.uid == uid && second.date < from
    requires forall i :: 0 <= i < |later| ==> later[i].uid == uid && from <= later[i].date
    ensures LogRecords([first, second] + later, uid, Some(Int(2)), Some(Time(from)), None) == []
    ensures FilterFrom(Select([first, second] + later, uid), Some(Time(from))) == later
  {
    var early, exercises := [first, second], [first, second] + later;
    var atOrAfter := AtOrAfter(Time(from));
    FilterAll(exercises, OwnedBy(uid));
    assert Limited(exercises, uid, Some(Int(2))) == early;
    assert !atOrAfter(early[0]) && !atOrAfter(early[1]);
    FilterNone(early, atOrAfter);
    FilterAppend(early, later, atOrAfter);
    FilterAll(later, atOrAfter);
  }
}
