/** The request handlers of the tracker as transitions on the store value.
    Each takes the store and the current date (the clock is a parameter) and
    returns the new store together with the handler's reply. These functions
    are the specification the imperative `Server.TrackerStore` is proved
    against. */
module Handlers {
  import opened Model

  /** `after` agrees with `before` on every date other than `today`. */
  ghost predicate SameExcept(before: map<string, DailyLog>, after: map<string, DailyLog>, today: string)
  {
    forall d :: d != today ==> (d in before <==> d in after) && (d in before ==> before[d] == after[d])
  }

  /** `get_or_create_state`: the state document, inserted with day 1 when absent. */
  function GetOrCreateState(db: Db, today: string): (r: Step<AppState>)
    ensures r.db.logs == db.logs
    ensures r.db.state == Some(r.out)
    ensures db.state.Some? ==> r.db == db && r.out == db.state.value
    ensures db.state.None? ==> r.out == AppState(today, 1, true)
    ensures Valid(db) ==> Valid(r.db)
  {
    match db.state
    case Some(s) => Step(db, s)
    case None => Step(db.(state := Some(InitialState(today))), InitialState(today))
  }

  /** `get_today_log`: today's log, created with the default tasks and a
      snapshot of the day counter when absent. */
  function GetTodayLog(db: Db, today: string): (r: Step<DailyLog>)
    ensures today in r.db.logs && r.out == r.db.logs[today]
    ensures r.db.state == GetOrCreateState(db, today).db.state
    ensures today in db.logs ==> r.db.logs == db.logs && r.out == db.logs[today]
    ensures today !in db.logs ==>
              && r.out.date == today
              && r.out.tasks == DefaultTasks()
              && r.out.photo == None
              && !r.out.isCompleted
              && r.out.dayNumber == (if db.state.Some? then db.state.value.currentDay else 1)
    ensures SameExcept(db.logs, r.db.logs, today)
    ensures Valid(db) ==> Valid(r.db)
  {
    var s := GetOrCreateState(db, today);
    if today in s.db.logs then
      Step(s.db, s.db.logs[today])
    else
      var log := FreshLog(today, s.out.currentDay);
      Step(s.db.(logs := s.db.logs[today := log]), log)
  }

  /** Today's log as `update_task` finds it once it made sure one exists. */
  function LogBeforeTaskUpdate(db: Db, today: string): DailyLog
  {
    if today in db.logs then db.logs[today] else GetTodayLog(db, today).out
  }

  /** `update_task`: sets `tasks[id]` on today's log, for any id, registered
      or not; if there is no log for today, it is created first. */
  function UpdateTask(db: Db, today: string, id: string, completed: bool): (r: Step<Outcome>)
    ensures r.out == Updated
    ensures today in r.db.logs
    ensures var before, after := LogBeforeTaskUpdate(db, today), r.db.logs[today];
              && id in after.tasks && after.tasks[id] == completed
              && after.tasks.Keys == before.tasks.Keys + {id}
              && (forall k :: k in before.tasks && k != id ==> after.tasks[k] == before.tasks[k])
              && after.date == before.date && after.photo == before.photo
              && after.dayNumber == before.dayNumber && after.isCompleted == before.isCompleted
    ensures today in db.logs ==> r.db.state == db.state
    ensures today !in db.logs ==> r.db.state == GetTodayLog(db, today).db.state
    ensures SameExcept(db.logs, r.db.logs, today)
    ensures Valid(db) ==> Valid(r.db)
  {
    var base := if today in db.logs then db else GetTodayLog(db, today).db;
    var log := base.logs[today];
    Step(base.(logs := base.logs[today := log.(tasks := log.tasks[id := completed])]), Updated)
  }

  /** `upload_photo`: rejects an empty payload; otherwise stores it on today's
      log and ticks `photo_logged`. Without a log for today nothing changes. */
  function UploadPhoto(db: Db, today: string, blob: string): (r: Step<Response>)
    ensures r.out == Err(NoImageData) <==> |blob| == 0
    ensures r.out.Err? ==> r.db == db
    ensures |blob| != 0 ==> r.out == Ok(PhotoSaved)
    ensures today !in db.logs ==> r.db == db
    ensures r.db.state == db.state
    ensures today in db.logs && |blob| != 0 ==>
              var before := db.logs[today];
              && today in r.db.logs
              && r.db.logs[today] == before.(photo := Some(blob), tasks := before.tasks[PhotoTask := true])
    ensures SameExcept(db.logs, r.db.logs, today)
    ensures Valid(db) ==> Valid(r.db)
  {
    if |blob| == 0 then
      Step(db, Err(NoImageData))
    else if today !in db.logs then
      Step(db, Ok(PhotoSaved))
    else
      var log := db.logs[today];
      var log' := log.(photo := Some(blob), tasks := log.tasks[PhotoTask := true]);
      Step(db.(logs := db.logs[today := log']), Ok(PhotoSaved))
  }

  /** The `$inc` of the day counter; with no state document it matches nothing. */
  function IncrementDay(state: Option<AppState>): (r: Option<AppState>)
    ensures r.Some? <==> state.Some?
    ensures state.Some? ==> r.value == state.value.(currentDay := state.value.currentDay + 1)
  {
    match state
    case None => None
    case Some(s) => Some(s.(currentDay := s.currentDay + 1))
  }

  /** `complete_day`: the guarded transition that marks today completed and
      advances the day counter. */
  function CompleteDay(db: Db, today: string): (r: Step<Response>)
    ensures r.out == Err(LogNotFound) <==> today !in db.logs
    ensures r.out == Err(TasksNotDone) <==> today in db.logs && !AllTasksDone(db.logs[today].tasks)
    ensures r.out == Ok(AlreadyCompleted) <==>
              today in db.logs && AllTasksDone(db.logs[today].tasks) && db.logs[today].isCompleted
    ensures r.out.Err? || r.out == Ok(AlreadyCompleted) ==> r.db == db
    ensures today in db.logs && AllTasksDone(db.logs[today].tasks) && !db.logs[today].isCompleted ==>
              r.out == Ok(DayCompleted(db.logs[today].dayNumber + 1))
    ensures r.out.Ok? && r.out.outcome.DayCompleted? ==>
              && today in db.logs && AllTasksDone(db.logs[today].tasks) && !db.logs[today].isCompleted
              && r.out.outcome.nextDay == db.logs[today].dayNumber + 1
              && r.db.logs == db.logs[today := db.logs[today].(isCompleted := true)]
              && r.db.state == IncrementDay(db.state)
    ensures r.out.Ok? ==> r.out.outcome.DayCompleted? || r.out.outcome.AlreadyCompleted?
    ensures Valid(db) ==> Valid(r.db)
  {
    if today !in db.logs then
      Step(db, Err(LogNotFound))
    else
      var log := db.logs[today];
      if !AllTasksDone(log.tasks) then
        Step(db, Err(TasksNotDone))
      else if log.isCompleted then
        Step(db, Ok(AlreadyCompleted))
      else
        var db' := Db(IncrementDay(db.state), db.logs[today := log.(isCompleted := true)]);
        Step(db', Ok(DayCompleted(log.dayNumber + 1)))
  }

  /** `reset_progress`: a new state document starting today on day 1, and
      today's log (if any) rewritten as a fresh day-1 log. */
  function ResetProgress(db: Db, today: string): (r: Step<Outcome>)
    ensures r.out == ResetSuccessful(1)
    ensures r.db.state == Some(AppState(today, 1, true))
    ensures today in r.db.logs <==> today in db.logs
    ensures today in db.logs ==>
              var after := r.db.logs[today];
              && after.date == db.logs[today].date
              && after.tasks == DefaultTasks() && after.photo == None
              && after.dayNumber == 1 && !after.isCompleted
    ensures SameExcept(db.logs, r.db.logs, today)
    ensures Valid(db) ==> Valid(r.db)
  {
    var logs := if today in db.logs then
                  db.logs[today := db.logs[today].(dayNumber := 1, isCompleted := false,
                                                   tasks := DefaultTasks(), photo := None)]
                else db.logs;
    Step(Db(Some(InitialState(today)), logs), ResetSuccessful(1))
  }
}
