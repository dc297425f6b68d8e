/** Properties that relate several handler calls on the same date. */
module HandlerProperties {
  import opened Model
  import opened Handlers

  /** Reading today's log twice: the second read returns the same log and
      changes nothing. */
  lemma GetTodayLogIdempotent(db: Db, today: string)
    ensures var first := GetTodayLog(db, today);
            GetTodayLog(first.db, today) == first
  {
  }

  /** After `update_task`, the next read of today's log shows the new flag. */
  lemma UpdateTaskVisibleToToday(db: Db, today: string, id: string, completed: bool)
    ensures var r := GetTodayLog(UpdateTask(db, today, id, completed).db, today);
            id in r.out.tasks && r.out.tasks[id] == completed
  {
  }

  /** Setting the same flag twice is the same as setting it once. */
  lemma UpdateTaskIdempotent(db: Db, today: string, id: string, completed: bool)
    ensures var once := UpdateTask(db, today, id, completed);
            UpdateTask(once.db, today, id, completed) == once
  {
    var once := UpdateTask(db, today, id, completed);
    var log := once.db.logs[today];
    assert log.tasks[id := completed] == log.tasks;
    assert once.db.logs[today := log.(tasks := log.tasks[id := completed])] == once.db.logs;
  }

  /** Completion succeeds exactly when today's log exists and every stored
      flag is set, whether or not the day was completed before. */
  lemma CompleteDaySucceedsIff(db: Db, today: string)
    ensures CompleteDay(db, today).out.Ok? <==> today in db.logs && AllTasksDone(db.logs[today].tasks)
  {
  }

  /** In a reachable store, a successful completion means every default task,
      `photo_logged` included, is ticked on today's log. */
  lemma CompletionNeedsEveryDefaultTask(db: Db, today: string, id: string)
    requires Valid(db)
    requires CompleteDay(db, today).out.Ok?
    requires id in DefaultTaskIds
    ensures today in db.logs && id in db.logs[today].tasks && db.logs[today].tasks[id]
  {
    assert LogValid(today, db.logs[today]);
  }

  /** A task id outside the default set that is stored as false blocks
      completion just like a default task: the check looks at every key. */
  lemma StrayTaskBlocksCompletion(db: Db, today: string, id: string)
    ensures CompleteDay(UpdateTask(db, today, id, false).db, today).out == Err(TasksNotDone)
  {
    var after := UpdateTask(db, today, id, false).db;
    assert !after.logs[today].tasks[id];
  }

  /** Completing twice on one date: the second call reports
      `already_completed` and does not advance the counter again. */
  lemma CompleteDayTwice(db: Db, today: string)
    requires CompleteDay(db, today).out.Ok?
    ensures var first := CompleteDay(db, today);
            var second := CompleteDay(first.db, today);
            && second.out == Ok(AlreadyCompleted)
            && second.db == first.db
  {
  }

  /** A completed day advances the counter by exactly one, and reports the
      snapshot day number plus one as the next day. */
  lemma CompleteDayAdvancesByOne(db: Db, today: string)
    requires db.state.Some?
    requires CompleteDay(db, today).out.Ok? && CompleteDay(db, today).out.outcome.DayCompleted?
    ensures var r := CompleteDay(db, today);
            && r.db.state.Some?
            && r.db.state.value.currentDay == db.state.value.currentDay + 1
            && r.db.state.value.startDate == db.state.value.startDate
            && r.db.state.value.isActive == db.state.value.isActive
            && r.out.outcome.nextDay == db.logs[today].dayNumber + 1
  {
  }

  /** The day number of a log is a snapshot taken when the log was created:
      reading today's log again after completing it returns the old day
      number, not the advanced counter. */
  lemma DayNumberIsSnapshot(db: Db, today: string)
    requires db.state.Some?
    requires CompleteDay(db, today).out.Ok? && CompleteDay(db, today).out.outcome.DayCompleted?
    ensures var done := CompleteDay(db, today).db;
            var again := GetTodayLog(done, today);
            && again.out.dayNumber == db.logs[today].dayNumber
            && again.out.isCompleted
            && again.db.state.value.currentDay == db.state.value.currentDay + 1
  {
  }

  /** Resetting twice on one date is the same as resetting once. */
  lemma ResetIdempotent(db: Db, today: string)
    ensures var once := ResetProgress(db, today);
            ResetProgress(once.db, today) == once
  {
    var once := ResetProgress(db, today);
    if today in db.logs {
      var log := once.db.logs[today];
      assert log.(dayNumber := 1, isCompleted := false, tasks := DefaultTasks(), photo := None) == log;
      assert once.db.logs[today := log] == once.db.logs;
    }
  }

  /** After a reset, today's log reads as day 1 with nothing done. */
  lemma TodayAfterResetIsDayOne(db: Db, today: string)
    ensures var r := GetTodayLog(ResetProgress(db, today).db, today);
            && r.out.dayNumber == 1
            && r.out.tasks == DefaultTasks()
            && r.out.photo == None
            && !r.out.isCompleted
            && r.db.state == Some(AppState(today, 1, true))
  {
  }
}
