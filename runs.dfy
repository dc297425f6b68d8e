/** Sequences of requests. A request is one of the state-changing handlers
    together with the date the server clock reads when it arrives; running a
    sequence applies the handlers in order. The lemmas here hold for every
    sequence of requests, with the dates in any order. */
module Runs {
  import opened Model
  import opened Handlers

  datatype Request =
    | Today
    | SetTask(id: string, completed: bool)
    | Photo(blob: string)
    | Complete
    | Reset

  datatype Call = Call(today: string, request: Request)

  /** The store after one request. */
  function Apply(db: Db, call: Call): Db
  {
    match call.request
    case Today => GetTodayLog(db, call.today).db
    case SetTask(id, completed) => UpdateTask(db, call.today, id, completed).db
    case Photo(blob) => UploadPhoto(db, call.today, blob).db
    case Complete => CompleteDay(db, call.today).db
    case Reset => ResetProgress(db, call.today).db
  }

  /** The store after a sequence of requests. */
  function Run(db: Db, calls: seq<Call>): Db
    decreases |calls|
  {
    if calls == [] then db else Run(Apply(db, calls[0]), calls[1..])
  }

  lemma ApplyPreservesValid(db: Db, call: Call)
    requires Valid(db)
    ensures Valid(Apply(db, call))
  {
  }

  /** The invariant of `Model.Valid` holds in every store reachable from a
      valid one. */
  lemma {:induction false} RunPreservesValid(db: Db, calls: seq<Call>)
    requires Valid(db)
    ensures Valid(Run(db, calls))
    decreases |calls|
  {
    if calls != [] {
      ApplyPreservesValid(db, calls[0]);
      RunPreservesValid(Apply(db, calls[0]), calls[1..]);
    }
  }

  /** Every store the server can reach from an empty database is valid. */
  lemma ReachableIsValid(calls: seq<Call>)
    ensures Valid(Run(EmptyDb, calls))
  {
    RunPreservesValid(EmptyDb, calls);
  }

  /** Logs are never deleted: every date with a log keeps one. */
  lemma {:induction false} RunKeepsLogs(db: Db, calls: seq<Call>)
    ensures db.logs.Keys <= Run(db, calls).logs.Keys
    decreases |calls|
  {
    if calls != [] {
      RunKeepsLogs(Apply(db, calls[0]), calls[1..]);
    }
  }

  /** A request only ever touches the log of its own date. */
  lemma ApplyTouchesOnlyItsDate(db: Db, call: Call)
    ensures SameExcept(db.logs, Apply(db, call).logs, call.today)
  {
  }

  /** A log whose date no request carried is exactly as it was, whatever the
      requests were, a reset included. */
  lemma {:induction false} RunLeavesOtherDatesAlone(db: Db, calls: seq<Call>, d: string)
    requires forall i :: 0 <= i < |calls| ==> calls[i].today != d
    ensures d in Run(db, calls).logs <==> d in db.logs
    ensures d in db.logs ==> Run(db, calls).logs[d] == db.logs[d]
    decreases |calls|
  {
    if calls != [] {
      ApplyTouchesOnlyItsDate(db, calls[0]);
      RunLeavesOtherDatesAlone(Apply(db, calls[0]), calls[1..], d);
    }
  }

  /** Without a reset the day counter never goes down, and a state document
      once created stays. */
  lemma {:induction false} CounterNeverDropsWithoutReset(db: Db, calls: seq<Call>)
    requires db.state.Some?
    requires forall i :: 0 <= i < |calls| ==> !calls[i].request.Reset?
    ensures Run(db, calls).state.Some?
    ensures Run(db, calls).state.value.currentDay >= db.state.value.currentDay
    decreases |calls|
  {
    if calls != [] {
      var next := Apply(db, calls[0]);
      assert next.state.Some? && next.state.value.currentDay >= db.state.value.currentDay;
      CounterNeverDropsWithoutReset(next, calls[1..]);
    }
  }

  /** Only a completion or a reset moves the day counter; every other
      request leaves an existing state document untouched. */
  lemma OnlyCompleteOrResetMovesCounter(db: Db, call: Call)
    requires db.state.Some?
    requires !call.request.Complete? && !call.request.Reset?
    ensures Apply(db, call).state == db.state
  {
  }
}
