/** The request handlers as they run against the store: an object whose two
    fields are the `state` collection and the `daily_logs` collection, each
    handler reading and then updating them one store operation at a time.
    Every handler is proved to leave the store, and to reply, exactly as the
    matching function of `Handlers` says; the properties of those functions
    carry over. */
module Server {
  import opened Model
  import Handlers

  /** The completion test, checking the stored flags one at a time. */
  method CheckAllDone(tasks: map<string, bool>) returns (done: bool)
    ensures done <==> AllTasksDone(tasks)
  {
    var todo := tasks.Keys;
    done := true;
    while todo != {} && done
      invariant todo <= tasks.Keys
      invariant done <==> forall id :: id in tasks && id !in todo ==> tasks[id]
      decreases todo
    {
      var id :| id in todo;
      done := tasks[id];
      todo := todo - {id};
    }
  }

  class TrackerStore {
    var state: Option<AppState>
    var logs: map<string, DailyLog>

    /** The store as a value. */
    function Snapshot(): Db
      reads this
    {
      Db(state, logs)
    }

    /** A connection to an empty database. */
    constructor ()
      ensures Snapshot() == EmptyDb
    {
      state := None;
      logs := map[];
    }

    /** `get_or_create_state`: find the state document, inserting day 1 if none. */
    method GetOrCreateState(today: string) returns (s: AppState)
      modifies this
      ensures Step(Snapshot(), s) == Handlers.GetOrCreateState(old(Snapshot()), today)
    {
      var found := state;
      if found.None? {
        s := InitialState(today);
        state := Some(s);
      } else {
        s := found.value;
      }
    }

    /** `get_today_log`: make sure there is a state document, then find
        today's log, inserting a fresh one if there is none. */
    method GetTodayLog(today: string) returns (log: DailyLog)
      modifies this
      ensures Step(Snapshot(), log) == Handlers.GetTodayLog(old(Snapshot()), today)
    {
      var s := GetOrCreateState(today);
      if today !in logs {
        log := FreshLog(today, s.currentDay);
        logs := logs[today := log];
      } else {
        log := logs[today];
      }
    }

    /** The `$set` of `tasks.<id>` on today's log; reports whether a document
        changed (the store's `modified_count`). */
    method SetTaskField(today: string, id: string, completed: bool) returns (modified: bool)
      modifies this
      ensures state == old(state)
      ensures today in old(logs) ==>
                && modified == (id !in old(logs)[today].tasks || old(logs)[today].tasks[id] != completed)
                && logs == old(logs)[today := old(logs)[today].(tasks := old(logs)[today].tasks[id := completed])]
      ensures today !in old(logs) ==> !modified && logs == old(logs)
    {
      modified := false;
      if today in logs {
        var log := logs[today];
        modified := id !in log.tasks || log.tasks[id] != completed;
        if modified {
          logs := logs[today := log.(tasks := log.tasks[id := completed])];
        } else {
          assert log.(tasks := log.tasks[id := completed]) == log;
        }
      }
    }

    /** `update_task`: set the flag; if nothing changed and there is no log
        for today, create it and set the flag again. */
    method UpdateTask(today: string, id: string, completed: bool) returns (reply: Outcome)
      modifies this
      ensures Step(Snapshot(), reply) == Handlers.UpdateTask(old(Snapshot()), today, id, completed)
    {
      var modified := SetTaskField(today, id, completed);
      if !modified {
        var found := today in logs;
        if !found {
          var _ := GetTodayLog(today);
          modified := SetTaskField(today, id, completed);
        }
      }
      reply := Updated;
    }

    /** `upload_photo`: reject an empty payload, otherwise store the photo on
        today's log and tick `photo_logged`. */
    method UploadPhoto(today: string, blob: string) returns (reply: Response)
      modifies this
      ensures Step(Snapshot(), reply) == Handlers.UploadPhoto(old(Snapshot()), today, blob)
    {
      if |blob| == 0 {
        return Err(NoImageData);
      }
      if today in logs {
        var log := logs[today];
        logs := logs[today := log.(photo := Some(blob), tasks := log.tasks[PhotoTask := true])];
      }
      reply := Ok(PhotoSaved);
    }

    /** `complete_day`: find today's log, check every flag, report an earlier
        completion, otherwise mark the log completed and `$inc` the counter. */
    method CompleteDay(today: string) returns (reply: Response)
      modifies this
      ensures Step(Snapshot(), reply) == Handlers.CompleteDay(old(Snapshot()), today)
    {
      if today !in logs {
        return Err(LogNotFound);
      }
      var log := logs[today];
      var allDone := CheckAllDone(log.tasks);
      if !allDone {
        return Err(TasksNotDone);
      }
      if log.isCompleted {
        return Ok(AlreadyCompleted);
      }
      logs := logs[today := log.(isCompleted := true)];
      if state.Some? {
        state := Some(state.value.(currentDay := state.value.currentDay + 1));
      }
      reply := Ok(DayCompleted(log.dayNumber + 1));
    }

    /** `reset_progress`: replace the state document, then rewrite today's
        log (if any) as a fresh day-1 log. */
    method ResetProgress(today: string) returns (reply: Outcome)
      modifies this
      ensures Step(Snapshot(), reply) == Handlers.ResetProgress(old(Snapshot()), today)
    {
      state := None;                        // delete_many on the state collection
      state := Some(InitialState(today));   // insert_one of the new state
      if today in logs {
        var log := logs[today];
        logs := logs[today := log.(dayNumber := 1, isCompleted := false, tasks := DefaultTasks(), photo := None)];
      }
      reply := ResetSuccessful(1);
    }
  }
}
