/** The end-to-end session of backend_test.py, replayed on the handler
    functions for a date that has no log yet. */
module Scenario {
  import opened Model
  import opened Handlers

  /** The counter a new log for `today` would snapshot. */
  function StartDay(db: Db): int
  {
    if db.state.Some? then db.state.value.currentDay else 1
  }

  /** What the session observes, in the order the script checks it. */
  datatype Observed = Observed(
    initial: DailyLog,         // GET /today on a new date
    afterToggles: DailyLog,    // GET /today after three flags were set
    earlyComplete: Response,   // POST /complete_day with three flags left
    photo: Response,           // POST /log/photo
    complete: Response,        // POST /complete_day with every flag set
    counter: Option<AppState>, // the state document after that completion
    sameDate: DailyLog,        // GET /today on the same date afterwards
    reset: Outcome,            // POST /reset
    afterReset: DailyLog)      // GET /today after the reset

  /** Steps 1 to 3: read today's log, set three flags, read it again. */
  function Opening(db: Db, today: string): (r: Step<(DailyLog, DailyLog)>)
  {
    var s1 := GetTodayLog(db, today);
    var s2 := UpdateTask(s1.db, today, "diet", true);
    var s3 := UpdateTask(s2.db, today, "water", true);
    var s4 := UpdateTask(s3.db, today, "reading", true);
    var s5 := GetTodayLog(s4.db, today);
    Step(s5.db, (s1.out, s5.out))
  }

  /** Steps 4 to 6: complete too early, set the rest and the photo, complete. */
  function Finishing(db: Db, today: string): (r: Step<(Response, Response, Response)>)
  {
    var s6 := CompleteDay(db, today);
    var s7 := UpdateTask(s6.db, today, "workout_1", true);
    var s8 := UpdateTask(s7.db, today, "workout_2", true);
    var s9 := UpdateTask(s8.db, today, "no_alcohol", true);
    var s10 := UploadPhoto(s9.db, today, "dummy");
    var s11 := CompleteDay(s10.db, today);
    Step(s11.db, (s6.out, s10.out, s11.out))
  }

  /** Steps 7 and 8: read the same date again, reset, read again. */
  function Closing(db: Db, today: string): (r: Step<(DailyLog, Outcome, DailyLog)>)
  {
    var s12 := GetTodayLog(db, today);
    var s13 := ResetProgress(s12.db, today);
    var s14 := GetTodayLog(s13.db, today);
    Step(s14.db, (s12.out, s13.out, s14.out))
  }

  /** The session: each step's store feeds the next. */
  function Session(db: Db, today: string): Observed
  {
    var a := Opening(db, today);
    var b := Finishing(a.db, today);
    var c := Closing(b.db, today);
    Observed(a.out.0, a.out.1, b.out.0, b.out.1, b.out.2, b.db.state, c.out.0, c.out.1, c.out.2)
  }

  /** Today's log exists, holds `tasks`, is not completed and carries `day`;
      the counter reads `day` too. */
  ghost predicate TodayIs(db: Db, today: string, tasks: map<string, bool>, day: int)
  {
    && today in db.logs
    && db.logs[today].tasks == tasks
    && db.logs[today].dayNumber == day
    && !db.logs[today].isCompleted
    && db.state.Some? && db.state.value.currentDay == day
  }

  /** Setting three flags on an existing log of `day`. */
  lemma SetThree(db: Db, today: string, tasks: map<string, bool>, day: int, a: string, b: string, c: string)
    requires TodayIs(db, today, tasks, day)
    ensures var s := UpdateTask(UpdateTask(UpdateTask(db, today, a, true).db, today, b, true).db, today, c, true);
            TodayIs(s.db, today, tasks[a := true][b := true][c := true], day)
  {
  }

  /** The log as the script finds it after its first three toggles. */
  function Toggled(): map<string, bool>
  {
    DefaultTasks()["diet" := true]["water" := true]["reading" := true]
  }

  /** The log once every flag is set. */
  function AllSet(): map<string, bool>
  {
    Toggled()["workout_1" := true]["workout_2" := true]["no_alcohol" := true][PhotoTask := true]
  }

  lemma OpeningObserves(db: Db, today: string)
    requires today !in db.logs
    ensures var a := Opening(db, today);
            && a.out.0.tasks == DefaultTasks()
            && a.out.0.dayNumber == StartDay(db) && !a.out.0.isCompleted
            && a.out.1.tasks == Toggled()
            && TodayIs(a.db, today, Toggled(), StartDay(db))
  {
    var s1 := GetTodayLog(db, today);
    assert TodayIs(s1.db, today, DefaultTasks(), StartDay(db));
    SetThree(s1.db, today, DefaultTasks(), StartDay(db), "diet", "water", "reading");
  }

  lemma FinishingObserves(db: Db, today: string, day: int)
    requires TodayIs(db, today, Toggled(), day)
    ensures var b := Finishing(db, today);
            && b.out.0 == Err(TasksNotDone)
            && b.out.1 == Ok(PhotoSaved)
            && b.out.2 == Ok(DayCompleted(day + 1))
            && today in b.db.logs && b.db.logs[today].dayNumber == day && b.db.logs[today].isCompleted
            && b.db.state.Some? && b.db.state.value.currentDay == day + 1
  {
    assert !Toggled()["workout_1"];
    var s6 := CompleteDay(db, today);
    assert s6.db == db;
    SetThree(db, today, Toggled(), day, "workout_1", "workout_2", "no_alcohol");
    var s9 := UpdateTask(UpdateTask(UpdateTask(db, today, "workout_1", true).db, today, "workout_2", true).db, today, "no_alcohol", true);
    var s10 := UploadPhoto(s9.db, today, "dummy");
    assert TodayIs(s10.db, today, AllSet(), day);
    assert AllTasksDone(AllSet());
  }

  lemma ClosingObserves(db: Db, today: string, day: int)
    requires today in db.logs && db.logs[today].dayNumber == day && db.logs[today].isCompleted
    ensures var c := Closing(db, today);
            && c.out.0.dayNumber == day && c.out.0.isCompleted
            && c.out.1 == ResetSuccessful(1)
            && c.out.2.dayNumber == 1 && c.out.2.tasks == DefaultTasks()
  {
  }

  /** The script's session on a date without a log: seven tasks, none done;
      three toggles visible on the next read; the early completion refused
      with 400; the photo saved; the completion replying `next_day` one past
      the day number and advancing the counter by one; the same date reading
      back with its original day number (the script's expectation of day 2
      at this point does not hold when the session starts on day 1); the
      reset replying day 1, and today's log reading as day 1 again. */
  lemma ScriptedSession(db: Db, today: string)
    requires today !in db.logs
    ensures var o := Session(db, today);
            && o.initial.tasks.Keys == DefaultTaskIds
            && (forall id :: id in o.initial.tasks ==> !o.initial.tasks[id])
            && o.initial.dayNumber == StartDay(db) && !o.initial.isCompleted
            && o.afterToggles.tasks == Toggled()
            && o.earlyComplete == Err(TasksNotDone) && o.earlyComplete.failure.StatusCode() == 400
            && o.photo == Ok(PhotoSaved)
            && o.complete == Ok(DayCompleted(StartDay(db) + 1))
            && o.counter.Some? && o.counter.value.currentDay == StartDay(db) + 1
            && o.sameDate.dayNumber == StartDay(db) && o.sameDate.isCompleted
            && o.reset == ResetSuccessful(1)
            && o.afterReset.dayNumber == 1 && o.afterReset.tasks == DefaultTasks()
  {
    OpeningObserves(db, today);
    var a := Opening(db, today);
    FinishingObserves(a.db, today, StartDay(db));
    var b := Finishing(a.db, today);
    ClosingObserves(b.db, today, StartDay(db));
  }

  /** Started on a fresh database the session completes day 1, replies
      `next_day` 2, and reads the same date back as day 1. */
  lemma ScriptedSessionOnEmptyDb(today: string)
    ensures var o := Session(EmptyDb, today);
            && o.complete == Ok(DayCompleted(2))
            && o.sameDate.dayNumber == 1
  {
    ScriptedSession(EmptyDb, today);
  }
}
