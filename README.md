# Daily-log tracker for a 75-day challenge, modelled in Dafny

The tracker's backend keeps two kinds of documents: one application state
(`start_date`, `current_day`, `is_active`) and one daily log per calendar date
(`tasks` flags, an optional photo, the `day_number` the log was created on and
`is_completed`). Each HTTP handler reads and updates them: today's log is
created lazily with a fixed set of seven tasks, a task flag is set, a photo is
attached, the day is completed (which advances the day counter), progress is
reset, and two read-only views list the history and the photos.

The model has these parts:

- `Model` (model.dfy): the documents, the store value `Db` (an optional state
  and a map from date to log), the replies and errors of the handlers with
  their status codes, the default task set, and the invariant `Valid` that
  every reachable store satisfies.
- `Handlers` (handlers.dfy): each state-changing handler as a function from
  the store and the current date to the new store and the reply. These
  functions are the specification.
- `Server` (server.dfy): the class `TrackerStore`, whose fields `state` and
  `logs` are the two collections. Its methods perform the handlers one store
  operation at a time, as the source does. They include the retry in
  `update_task` that depends on the store's modified count, and the `$inc` of
  the counter. Each method is proved to produce exactly the store and reply
  of the matching `Handlers` function. `CheckAllDone` is the completion test
  `all(tasks.values())`, written as a loop.
- `HandlerProperties` (properties.dfy): properties that relate several calls
  on one date. They cover idempotence of reads, task updates, a second
  completion and resets, the guards of completion, and the day number being a
  snapshot.
- `Runs` (runs.dfy): arbitrary sequences of requests on arbitrary dates. The
  lemmas show that the invariant holds in every reachable store, that logs are
  never deleted, that a log is touched only by requests carrying its date, and
  that the counter never goes down without a reset.
- `Ordering` and `Projections` (ordering.dfy, projections.dfy): the string
  order used for dates, a sort by repeated choice of the least key, and the
  history and photo views with their ordering, completeness and truncation
  properties.
- `Scenario` (scenario.dfy): the session that backend_test.py drives, replayed
  on the handler functions.

The current date is a parameter of every handler. The photo is an opaque
string, and only its emptiness is checked.

Three behaviours of the code that the model keeps:

- New and reset logs get the fixed `get_default_tasks` map.
- Completion checks every stored flag, including flags for ids that
  `update_task` set but that are not default tasks
  (`StrayTaskBlocksCompletion`).
- `upload_photo` does nothing when today has no log. It does not create one.

backend_test.py expects day 2 (lines 215-216) when it reads the same date
again after completing day 1. The code returns the existing log with its
original `day_number`. `DayNumberIsSnapshot` and `ScriptedSessionOnEmptyDb`
prove the behaviour as written: day 1 is read back, and only the counter
reads 2.

## Model

| member | source | states |
|---|---|---|
| `Model.DefaultTasks` | backend/server.py:60-69 | exactly the seven keys diet, workout_1, workout_2, water, reading, no_alcohol, photo_logged, all false |
| `Handlers.GetOrCreateState` | backend/server.py:48-58 | an existing state is returned and nothing changes; otherwise `Model.InitialState`, the state `{today, 1, true}` of lines 51-55, is inserted and returned; logs are untouched |
| `Handlers.GetTodayLog` | backend/server.py:76-98 | state is created first if absent; an existing log for today is returned unchanged; otherwise `Model.FreshLog`, the `new_log` of lines 84-90 (default tasks, no photo, not completed, `day_number` = current day, 1 on a fresh store), is inserted; other dates untouched; `Valid` preserved |
| `Handlers.UpdateTask` | backend/server.py:100-120 | afterwards today's log exists and `tasks[id] == completed` for any id; other keys and fields of the log, other dates and (when the log existed) the state are unchanged; a missing log is first created as by `get_today_log` |
| `Handlers.UploadPhoto` | backend/server.py:125-142 | an empty payload fails with `NoImageData`, whose `Model.Failure.StatusCode` and `Model.Failure.Detail` are 400 and "No image data" (line 131), and changes nothing; otherwise replies photo_saved; with a log for today it stores the photo and sets `photo_logged`; without one nothing changes |
| `Handlers.IncrementDay` | backend/server.py:166-170 | the `$inc` adds one to `current_day` of an existing state and matches nothing when there is no state |
| `Handlers.CompleteDay` | backend/server.py:144-172 | no log: `LogNotFound` (404 "Log not found", line 150); some stored flag false, as `Model.AllTasksDone` (the `all(...)` of line 153) decides: `TasksNotDone` (400 "Not all tasks are completed yet", line 155), checked before the completion flag; each failure and already_completed leave the store unchanged; a log that exists, has every flag set and is not completed yields `day_completed` with `next_day = day_number + 1`, the log marked completed and the counter incremented |
| `Handlers.ResetProgress` | backend/server.py:174-201 | state becomes `Model.InitialState(today)`, `{today, 1, true}` (lines 179-186); today's log, if present, gets day 1, not completed, default tasks, no photo; no log is created; other dates unchanged |
| `HandlerProperties.GetTodayLogIdempotent` | backend/server.py:80-98 | a second read returns the same log and changes nothing |
| `HandlerProperties.UpdateTaskVisibleToToday` | backend_test.py:111-122 | after setting a flag, the next read of today's log shows it |
| `HandlerProperties.UpdateTaskIdempotent` | backend/server.py:105-118 | setting the same flag twice equals setting it once |
| `HandlerProperties.CompleteDaySucceedsIff` | backend/server.py:147-158 | completion replies successfully exactly when today's log exists and every stored flag is true |
| `HandlerProperties.CompletionNeedsEveryDefaultTask` | backend/server.py:152-155 | in a valid store a successful completion implies every default task, photo_logged included, is true |
| `HandlerProperties.StrayTaskBlocksCompletion` | backend/server.py:105-108 | an unregistered id set to false makes completion fail with 400 |
| `HandlerProperties.CompleteDayTwice` | backend/server.py:157-158 | after a successful completion, a second one replies already_completed and changes nothing, so the counter is not incremented again |
| `HandlerProperties.CompleteDayAdvancesByOne` | backend/server.py:160-172 | a completed day raises `current_day` by exactly one, keeps the other state fields, and replies `day_number + 1` |
| `HandlerProperties.DayNumberIsSnapshot` | backend/server.py:84-92 | reading the same date after completion returns the old `day_number` while the counter has advanced |
| `HandlerProperties.ResetIdempotent` | backend/server.py:179-199 | resetting twice on one date equals resetting once |
| `HandlerProperties.TodayAfterResetIsDayOne` | backend_test.py:232-245 | after a reset today's log reads as day 1 with default tasks, no photo, not completed |
| `Runs.RunPreservesValid` | backend/server.py:48-201 | every sequence of requests from a valid store ends in a valid store |
| `Runs.ReachableIsValid` | backend/server.py:48-201 | every store reachable from an empty database is valid |
| `Runs.RunKeepsLogs` | backend/server.py:179-199 | no request deletes a log |
| `Runs.RunLeavesOtherDatesAlone` | backend/server.py:188-199 | a log whose date no request carried is unchanged, resets included |
| `Runs.CounterNeverDropsWithoutReset` | backend/server.py:166-170 | without a reset the counter never decreases and the state document stays |
| `Runs.OnlyCompleteOrResetMovesCounter` | backend/server.py:48-58 | every request other than completion and reset leaves an existing state unchanged |
| `Ordering.SortedByMembers` | backend/server.py:209 | the sorted key list holds exactly the given keys |
| `Ordering.SortedByAscending` | backend/server.py:209 | the sorted key list is strictly ascending in the ranked order |
| `Projections.GetHistory` | backend/server.py:205-211 | the history has as many items as there are logs, capped at 365 by `Projections.TakeAtMost`, the `to_list(length=365)` of line 210 |
| `Projections.HistoryItemsAreLogs` | backend/server.py:209 | each history item is `Projections.WithoutPhoto` of a stored log, the projection without `photo_base64` of line 209 |
| `Projections.HistoryAscending` | backend/server.py:209 | history dates are strictly ascending |
| `Projections.HistoryComplete` | backend/server.py:210 | with at most 365 logs every log is listed |
| `Projections.HistoryKeepsEarliest` | backend/server.py:209-210 | a log left out is dated after every listed one |
| `Projections.GetPhotos` | backend/server.py:213-221 | the feed has as many items as there are logs with a photo, capped at 365 by `Projections.TakeAtMost` (line 220) |
| `Projections.PhotoItemsAreLogs` | backend/server.py:216-218 | each item is `Projections.PhotoOf` of a stored log with a non-null photo: its date, day number and photo, the projection of line 218 |
| `Projections.PhotosAscending` | backend/server.py:219 | day numbers are non-decreasing and no date repeats |
| `Projections.PhotosComplete` | backend/server.py:216-220 | with at most 365 photos every log with a photo is listed |
| `Projections.PhotosKeepLowestDays` | backend/server.py:219-220 | a photo left out has a day number no lower than any listed |
| `Server.CheckAllDone` | backend/server.py:153 | the loop answers true exactly when every stored flag is true, i.e. exactly `Model.AllTasksDone` |
| `Server.TrackerStore.GetOrCreateState` | backend/server.py:48-58 | the new store and the returned state are those of `Handlers.GetOrCreateState` |
| `Server.TrackerStore.GetTodayLog` | backend/server.py:76-98 | the new store and the returned log are those of `Handlers.GetTodayLog` |
| `Server.TrackerStore.SetTaskField` | backend/server.py:105-110 | the `$set` of `tasks.<id>` changes only today's log, and reports a change exactly when the key was absent or held the other value |
| `Server.TrackerStore.UpdateTask` | backend/server.py:100-120 | the set, the modified-count check and the create-then-retry give the store of `Handlers.UpdateTask` |
| `Server.TrackerStore.UploadPhoto` | backend/server.py:125-142 | store and reply are those of `Handlers.UploadPhoto` |
| `Server.TrackerStore.CompleteDay` | backend/server.py:144-172 | store and reply are those of `Handlers.CompleteDay` |
| `Server.TrackerStore.ResetProgress` | backend/server.py:174-201 | delete-then-insert of the state and the rewrite of today's log give the store of `Handlers.ResetProgress` |
| `Scenario.ScriptedSession` | backend_test.py:262-315 | on a date without a log: seven false tasks; three toggles visible; early completion 400; photo saved; completion replies `next_day` = start day + 1 and advances the counter; the same date reads back its old day number; reset replies day 1 and today reads as day 1 |
| `Scenario.ScriptedSessionOnEmptyDb` | backend_test.py:190-227 | from an empty database completion replies `next_day` 2, yet the same date reads back as day 1 |

## Left out

- HTTP routing, the CORS middleware, dotenv, pydantic request parsing and the health endpoint (backend/server.py:1-23, 31-45, 71-73, 122-123) are transport. Only the handlers' effects and replies are modelled.
- The MongoDB client and its `_id` handling (backend/server.py:26-28, 94-96) are replaced by the map and the option. So the model cannot hold two state documents or two logs with the same date. A race could create such duplicates.
- `date.today()` is I/O, so the date is a parameter. `get_today_log` and `get_or_create_state` each read the clock, and the model gives both the same date. Calendar rollover between the two reads is not modelled.
- Concurrent requests are not modelled: the handlers run one after another. The lost updates between a find and a later update are concurrency effects.
- Base64 content is an opaque string, and only emptiness is checked. A request without the field is rejected by request parsing, which is not modelled.
- `update_task` takes the task id as a plain key. The store would read an id containing `.` as a nested path and would reject an empty id or one starting with `$`. The model does not capture this.
- `Projections.GetPhotos`: the store does not specify the order of logs with equal day numbers. The model breaks such ties by date. Its lemmas state only the order by day number.
- Integers are unbounded. The store's 64-bit limit on `current_day` is not modelled.
- backend_test.py is an HTTP client. Only its assertions are used, as the scenario lemmas.
