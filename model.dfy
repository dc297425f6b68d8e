/** The documents kept by the daily-log tracker and the replies of its handlers.

    The store has two collections: `state`, holding at most one application
    state document, and `daily_logs`, holding one log per calendar date
    (`YYYY-MM-DD`). Here the first is an `Option` and the second a map keyed
    by the date string. */
module Model {

  datatype Option<T> = None | Some(value: T)

  /** The singleton state document: when the challenge started, which
      challenge day it is on, and whether it is running. */
  datatype AppState = AppState(startDate: string, currentDay: int, isActive: bool)

  /** A daily log. `photo` is the opaque base64 payload, `dayNumber` the value
      of the day counter when the log was created. */
  datatype DailyLog = DailyLog(
    date: string,
    tasks: map<string, bool>,
    photo: Option<string>,
    dayNumber: int,
    isCompleted: bool)

  /** The whole store. */
  datatype Db = Db(state: Option<AppState>, logs: map<string, DailyLog>)

  /** The store after a handler ran, together with what the handler returned. */
  datatype Step<T> = Step(db: Db, out: T)

  /** Errors a handler raises, with their HTTP status codes and details. */
  datatype Failure = NoImageData | LogNotFound | TasksNotDone
  {
    function StatusCode(): int
    {
      if LogNotFound? then 404 else 400
    }

    function Detail(): string
    {
      match this
      case NoImageData => "No image data"
      case LogNotFound => "Log not found"
      case TasksNotDone => "Not all tasks are completed yet"
    }
  }

  /** Successful replies (the `status` of the JSON body and its extra field). */
  datatype Outcome =
    | Updated
    | PhotoSaved
    | DayCompleted(nextDay: int)
    | AlreadyCompleted
    | ResetSuccessful(currentDay: int)

  datatype Response = Ok(outcome: Outcome) | Err(failure: Failure)

  /** The store before any request: no state document and no logs. */
  const EmptyDb: Db := Db(None, map[])

  /** The task the photo upload ticks. */
  const PhotoTask: string := "photo_logged"

  /** Ids of the tasks every new log starts with. */
  const DefaultTaskIds: set<string> :=
    {"diet", "workout_1", "workout_2", "water", "reading", "no_alcohol", PhotoTask}

  /** Largest number of documents `get_history` and `get_photos` return. */
  const MaxListLength: nat := 365

  /** The fixed task map of a new or reset log: seven tasks, none done. */
  function DefaultTasks(): (tasks: map<string, bool>)
    ensures tasks.Keys == DefaultTaskIds
    ensures |tasks| == 7
    ensures forall id :: id in tasks ==> !tasks[id]
  {
    map["diet" := false, "workout_1" := false, "workout_2" := false, "water" := false,
        "reading" := false, "no_alcohol" := false, PhotoTask := false]
  }

  /** The state document created on first access (or by a reset). */
  function InitialState(today: string): AppState
  {
    AppState(today, 1, true)
  }

  /** The log created for `today` when none exists. */
  function FreshLog(today: string, day: int): DailyLog
  {
    DailyLog(today, DefaultTasks(), None, day, false)
  }

  /** The completion test: every stored task flag is set. */
  predicate AllTasksDone(tasks: map<string, bool>)
  {
    forall id :: id in tasks ==> tasks[id]
  }

  /** What every reachable store satisfies: each log is stored under its own
      date, carries a day number of at least 1 and at least the default task
      ids; the counter is at least 1; a log only exists once the state does. */
  ghost predicate Valid(db: Db)
  {
    && (db.state.Some? ==> db.state.value.currentDay >= 1)
    && (db.logs != map[] ==> db.state.Some?)
    && forall d :: d in db.logs ==> LogValid(d, db.logs[d])
  }

  ghost predicate LogValid(d: string, log: DailyLog)
  {
    log.date == d && log.dayNumber >= 1 && DefaultTaskIds <= log.tasks.Keys
  }

  /** Logs stored under their own date; all the projections need. */
  ghost predicate WellKeyed(logs: map<string, DailyLog>)
  {
    forall d :: d in logs ==> logs[d].date == d
  }
}
