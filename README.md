# HR dashboard notification and aggregation core, in Dafny

This project models the parts of a role-based HR web application whose behaviour
can be stated and checked:

- **Two connection registries** for live notification channels.
  - `WebSocketManager` (`websocket_registry.dfy`) is a class with two indices, user
    id and department id. Each index maps a key to a *set* of connections. Buckets
    are created on connect and deleted on disconnect once they are empty. Delivery
    to a bucket stamps the message with a timestamp and gives every connection one
    send attempt; a failed send is caught and does not stop the others. Five typed
    wrappers build `{'type', 'data'}` envelopes and route them to a department
    bucket, or, for `notification`, to a user bucket.
  - `ConnectionManager` (`connection_registry.dfy`) is the older class. It keeps one
    *list* per user id, duplicates included. Disconnect removes the first
    occurrence and raises `ValueError` when the connection is absent. The first
    failed send aborts the rest of a delivery.
- **Team performance aggregation** of the manager routes (`team_performance.dfy`).
  It computes each member's task counts (`total`, `completed`, `on_time`) and the
  score `0.7 * completion_rate + 0.3 * on_time_rate`, with its zero guards. It
  selects the team: same department, manager excluded. It computes the department
  statistics and models the two endpoints that build them. It also models the
  `"Bearer "` cookie-token rule of `get_current_user`.
- **Validators and error classes** (`error_handlers.dfy`, `email.dfy`). These are
  the four `HTTPException` subclasses with their status codes and detail prefixes,
  the database-error wrapper, the recursive required-field validator, and the
  e-mail format check.
- `strings.dfy` models Python's `str.split` and `str.join`, which the validator and
  the e-mail check use. `wrappers.dfy` holds the Option, Outcome and Result types,
  and `channels.dfy` the connection identity both registries share.

How the model represents things:

- A connection is an opaque id (`ConnId`).
- A send's success or failure is an input: the set `failing` of connections whose
  send raises.
- The clock is an input: `now` is the timestamp text.
- Counts are `nat`; rates and scores are exact `real`s.
- A class's state-changing methods state the new value of every field as a
  function of the old state (`AddToBucket`, `RemoveFromBucket`, `Append`,
  `RemoveConnection`). The properties are proved about those functions.

## Model

| member | source | states |
|---|---|---|
| `Strings.Join` | app/utils/error_handlers.py:59 | `', '.join`: no parts give `""`; otherwise the length is the summed part lengths plus one separator between each two parts, and the text starts with the first part |
| `Strings.Split` | app/utils.py:40 | `split` always gives at least one piece; no piece contains the separator; there is more than one piece exactly when the separator occurs |
| `Strings.JoinSplit` | app/utils.py:40 | joining the pieces of a split with the separator gives back the original string |
| `Strings.SplitJoin` | app/utils.py:40 | splitting the join of separator-free parts gives the parts back, so `Split` is the inverse of `Join` in both directions |
| `Strings.LastPieceIsSuffix` | app/utils.py:40 | the last piece (`split(...)[-1]`) is the suffix after the last separator, or the whole string when the separator does not occur |
| `Utils.DomainAfterLastAt` | app/utils.py:40 | `email.split("@")[-1]` is exactly the text after the last `'@'` |
| `Utils.IsValidEmail` | app/utils.py:39-40 | an address without `'@'` is rejected; given the position of the last `'@'`, an address is valid exactly when a `'.'` follows that position; the local part is not examined |
| `Utils.NoAtRejected` | app/utils.py:40 | a string without `'@'` is rejected |
| `Utils.EmptyLocalPartAccepted` | app/utils.py:40 | `"@x.y"` is accepted |
| `Utils.DotOnlyBeforeAtRejected` | app/utils.py:40 | `"a.b@c"` is rejected: a dot before the last `'@'` does not count |
| `Utils.TrailingDotAccepted` | app/utils.py:40 | `"a@b."` is accepted |
| `Utils.LastAtDecides` | app/utils.py:40 | `"a@b.c@d"` is rejected: only the segment after the last `'@'` counts |
| `ErrorHandlers.Raise` | app/utils/error_handlers.py:9-23 | each class gives status 500/401/403/400 and the detail prefix `"Database error: "`, `"Authentication error: "`, `"Authorization error: "` or `"Validation error: "`; class and caller detail can be read back from the error (round trip through `Classify`) |
| `ErrorHandlers.ClassifyInvertsRaise` | app/utils/error_handlers.py:9-23 | an error that classifies as (class, detail) is exactly the error that class raises for that detail |
| `ErrorHandlers.HandleDatabaseOperation` | app/utils/error_handlers.py:46-53 | results pass through; a SQLAlchemy error becomes a status-500 `DatabaseError` carrying its message; other exceptions pass through unchanged; no SQLAlchemy error escapes |
| `ErrorHandlers.HandleDatabaseOperationIdempotent` | app/utils/error_handlers.py:46-53 | applying the wrapper twice is the same as applying it once |
| `ErrorHandlers.MissingFields` | app/utils/error_handlers.py:57 | a field is listed exactly when it is required and not a key of the dict; each missing field occurs as often as in `required_fields` (a repeated required field is listed repeatedly), and present fields not at all; the list is no longer than `required_fields` |
| `ErrorHandlers.MissingFieldsInOrder` | app/utils/error_handlers.py:57 | the missing fields are a subsequence of `required_fields`, so their order is kept |
| `ErrorHandlers.MissingMessage` | app/utils/error_handlers.py:59 | the detail starts with `"Missing required fields: "`, followed by the first missing field; its length is the prefix, the field lengths and one `", "` between each two fields |
| `ErrorHandlers.ValidateUserInput` | app/utils/error_handlers.py:55-62 | passes exactly when every dict reachable through lists has every required field (empty lists and non-dict, non-list inputs pass); every failure is a status-400 `ValidationError`; for a dict the detail is `"Missing required fields: "` plus the missing fields joined by `", "` |
| `ErrorHandlers.ValidateItems` | app/utils/error_handlers.py:60-62 | a list passes exactly when each item passes; a failure is a `ValidationError` |
| `ErrorHandlers.FirstFailureReported` | app/utils/error_handlers.py:61-62 | a list raises the error of its first failing item |
| `TeamPerformance.Count` | app/routes/manager.py:207-208 | a filtered count is at most the number of tasks |
| `TeamPerformance.CountMonotone` | app/routes/manager.py:207-208 | a filter that refines another counts no more, which gives `on_time <= completed` |
| `TeamPerformance.CountPermutation` | app/routes/manager.py:206-208 | counts depend only on the multiset of tasks |
| `TeamPerformance.PerformanceScore` | app/routes/manager.py:210-216 | score is 0 when `total = 0` or `completed = 0`; otherwise it is `70 * completed/total + 30 * on_time/completed`; for consistent counts it lies in `[0, 100]` and equals 100 exactly when every task was completed on time |
| `TeamPerformance.MemberStats` | app/routes/manager.py:206-216 | `total` is the number of tasks, `completed` and `on_time` are the two filtered counts, `on_time <= completed <= total`, the score is `PerformanceScore` of the counts and lies in `[0, 100]`; no tasks give all zeros |
| `TeamPerformance.TaskOrderIrrelevant` | app/routes/manager.py:206-216 | reordering a member's tasks changes neither the counts nor the score |
| `TeamPerformance.ThreeTaskExample` | app/routes/manager.py:206-216 | one task on time, one late and one pending give counts 3/2/1 and score 185/3 (about 61.67) |
| `TeamPerformance.TasksAssignedTo` | app/routes/manager.py:202-204 | a task is selected exactly when it is assigned to the member, and it occurs as often as in the task rows |
| `TeamPerformance.TeamMembers` | app/routes/manager.py:193-196 | an employee is on the team exactly when they have the manager's department (both NULL counts as the same, as with SQL `IS NULL`) and are not the manager; each member occurs as often as in the employee rows |
| `TeamPerformance.NullDepartmentTeam` | app/routes/manager.py:193-196 | a manager whose department is NULL gets exactly the other employees whose department is NULL |
| `TeamPerformance.ManagerExcluded` | app/routes/manager.py:195 | the manager is never on their own team |
| `TeamPerformance.SumStatsBounds` | app/routes/manager.py:233-235 | summed counts keep `on_time <= completed <= total`, and the summed score is between 0 and 100 per member |
| `TeamPerformance.SumOfUniformScores` | app/routes/manager.py:232 | when every member scores `x`, the summed score is `n * x` |
| `TeamPerformance.MeanBound` | app/routes/manager.py:232 | helper for the average's bound in `ComputeDepartmentStats`: the mean of a sum in `[0, 100 n]` over `n > 0` entries lies in `[0, 100]` |
| `TeamPerformance.ComputeDepartmentStats` | app/routes/manager.py:230-236 | `total_members` is the team size; the average is 0 for no entries and otherwise times the entry count gives the summed score; task totals are exact sums; for well-formed entries the average lies in `[0, 100]` and `on_time <= completed <= total` |
| `TeamPerformance.UniformAverage` | app/routes/manager.py:232 | when every member has score `x`, the average is `x` |
| `TeamPerformance.BuildTeamData` | app/routes/manager.py:199-227 | exactly one entry per member, in team order; each entry holds the member's id, full name, position, e-mail and `MemberStats` of their tasks |
| `TeamPerformance.BuildTeamPerformance` | app/routes/manager.py:269-293 | exactly one entry per member, in team order; each entry holds the member's id, full name and `MemberStats` of their tasks |
| `TeamPerformance.TeamOverview` | app/routes/manager.py:179-247 | no user redirects to `/` with status 303; no manager row gives 404 `"Manager not found"`; otherwise one entry per team member, in team order, each holding the member's id, full name, position, e-mail and `MemberStats`; `total_members = len(team_data)`; the average lies in `[0, 100]`, and the department is the manager's |
| `TeamPerformance.TeamPerformanceData` | app/routes/manager.py:249-298 | no user gives 401 `"Not authenticated"`; no manager row gives 404; otherwise one entry per team member, in team order, each holding the member's id, full name and the same `MemberStats` as the overview, stamped with the clock's reading |
| `TeamPerformance.TokenFromCookie` | app/routes/manager.py:23-29 | a missing or empty cookie gives no token; a `"Bearer "` prefix is stripped, which is exactly 7 characters; any other token passes unchanged |
| `TeamPerformance.BearerRoundTrip` | app/routes/manager.py:28-29 | putting the prefix in front of any token and reading the cookie back gives the token |
| `WebSocketRegistry.Envelope` | app/utils/websocket_manager.py:64-67 | the message has exactly the keys `type` and `data`, holding the tag and the payload |
| `WebSocketRegistry.Stamp` | app/utils/websocket_manager.py:47 | stamping adds `timestamp` with the clock's reading and keeps every other field |
| `WebSocketRegistry.AddToBucket` | app/utils/websocket_manager.py:19-26 | after registering, the key exists and its bucket is the old bucket (or none) plus the connection; other keys are unchanged; no empty bucket appears |
| `WebSocketRegistry.RemoveFromBucket` | app/utils/websocket_manager.py:32-41 | after unregistering, the bucket is the old one minus the connection and is deleted when it becomes empty; other keys are unchanged; an absent key or connection changes nothing; no empty bucket remains |
| `WebSocketRegistry.AddIdempotent` | app/utils/websocket_manager.py:19-21 | buckets are sets: registering the same connection twice is registering it once |
| `WebSocketRegistry.AddThenRemove` | app/utils/websocket_manager.py:19-41 | unregistering a connection that was just registered (and was not there before) restores the index, so no empty bucket is left behind |
| `WebSocketRegistry.EnumerationSize` | app/utils/websocket_manager.py:48-52 | an enumeration of a bucket makes exactly as many attempts as there are connections |
| `WebSocketRegistry.Deliver` | app/utils/websocket_manager.py:48-52 | every connection of the bucket gets exactly one attempt whatever fails; the receivers are exactly the connections whose send does not fail |
| `WebSocketRegistry.WebSocketManager.constructor` | app/utils/websocket_manager.py:10-13 | all three dicts start empty |
| `WebSocketRegistry.WebSocketManager.Connect` | app/utils/websocket_manager.py:15-28 | both indices gain the connection under their key (`AddToBucket`); the unused dict is untouched; the invariant is kept |
| `WebSocketRegistry.WebSocketManager.Disconnect` | app/utils/websocket_manager.py:30-43 | both indices lose the connection under their key (`RemoveFromBucket`), never failing; the invariant is kept |
| `WebSocketRegistry.WebSocketManager.SendPersonalMessage` | app/utils/websocket_manager.py:45-52 | with no bucket nothing is sent and the message is not stamped; otherwise the stamped message goes to every connection of the user's bucket once; the registry is not changed |
| `WebSocketRegistry.WebSocketManager.BroadcastToDepartment` | app/utils/websocket_manager.py:54-61 | the same, for the department's bucket |
| `WebSocketRegistry.WebSocketManager.BroadcastTaskUpdate` | app/utils/websocket_manager.py:63-68 | a `task_update` envelope goes to the department bucket |
| `WebSocketRegistry.WebSocketManager.BroadcastPerformanceUpdate` | app/utils/websocket_manager.py:70-75 | a `performance_update` envelope goes to the department bucket |
| `WebSocketRegistry.WebSocketManager.BroadcastNotification` | app/utils/websocket_manager.py:77-82 | a `notification` envelope goes to the user bucket |
| `WebSocketRegistry.WebSocketManager.BroadcastSkillUpdate` | app/utils/websocket_manager.py:84-89 | a `skill_update` envelope goes to the department bucket |
| `WebSocketRegistry.WebSocketManager.BroadcastLearningUpdate` | app/utils/websocket_manager.py:91-96 | a `learning_update` envelope goes to the department bucket |
| `ConnectionRegistry.Append` | app/main.py:20-22 | the user's list is created if missing and gets the connection at the end, one more occurrence even if already present; other users are unchanged |
| `ConnectionRegistry.FirstIndex` | app/main.py:26 | the position of the first occurrence |
| `ConnectionRegistry.RemoveFirst` | app/main.py:26 | `list.remove` removes exactly the first occurrence, keeps the order of the rest and shortens the list by one |
| `ConnectionRegistry.RemoveConnection` | app/main.py:24-28 | an unknown user is a no-op; an absent connection is a `ValueError`; otherwise the first occurrence goes and a list left empty is deleted; other users are unchanged |
| `ConnectionRegistry.RemoveAppended` | app/main.py:22-26 | removing a connection that was appended to a list not holding it gives the list back |
| `ConnectionRegistry.RemoveFromLongList` | app/main.py:26-28 | removing one of several connections keeps the user's list, shortened by `list.remove` |
| `ConnectionRegistry.AppendThenRemoveKnown` | app/main.py:20-28 | for a user who has a list, connecting a new connection and disconnecting it restores the index |
| `ConnectionRegistry.AppendThenRemoveUnknown` | app/main.py:20-28 | for a user who has no list, connecting and disconnecting restores the index (the list is deleted) |
| `ConnectionRegistry.AppendThenRemove` | app/main.py:20-28 | connect then disconnect always succeeds and keeps the elements of the user's list; the index is restored when the connection was new |
| `ConnectionRegistry.ConnectionManager.constructor` | app/main.py:15-16 | the registry starts empty |
| `ConnectionRegistry.ConnectionManager.Connect` | app/main.py:18-22 | the state becomes `Append` of the old state; no empty list appears |
| `ConnectionRegistry.ConnectionManager.Disconnect` | app/main.py:24-28 | the state becomes `RemoveConnection` of the old state, or it stays unchanged and the `ValueError` is raised |
| `ConnectionRegistry.ConnectionManager.SendNotification` | app/main.py:30-33 | sends go in list order and form a prefix of the list; with no failure every connection is tried; the first failing send raises and the connections after it get no attempt; with no list nothing is sent |

## Left out

- WebSocket transport: `websocket.accept`, `send_json` and `receive_text` are not modelled, nor is the `/ws/{user_id}` endpoint loop (app/main.py:37-45). A send is only an outcome: the connection is or is not in `failing`.
- `async`/`await` scheduling and concurrency: every operation runs to completion, one after another.
- Logging calls are left out; they have no effect on state.
- Database access is left out. The task and team queries are modelled as filters over the given rows, in the order given. The sequence of queries that finds the manager (`User` by the token subject, then `Employee` by user id) is folded into one optional `manager` parameter. A missing `User` row would raise `AttributeError` on `db_user.userID`; the model does not cover this.
- TeamPerformance.TaskStats: the source stores `round(performance_score, 2)`, and the average is taken over these rounded scores. The model keeps exact `real` scores: no rounding, no floating point.
- TeamPerformance.Task: task dates are always present. In the source, a completed task whose `completed_date` or `due_date` is `None` makes the comparison raise `TypeError`; the model has no such row.
- TeamPerformance.TasksAssignedTo: the contract states which tasks are selected and how often, not their order; the counts use the function itself.
- TeamPerformance.TeamMembers: the contract states who is on the team and how often, not the order of rows; the endpoints use the function itself.
- Token verification (`verify_token`, JWT decoding) is left out. Only the rule that turns the cookie into the token to verify is modelled. `TeamOverview` and `TeamPerformanceData` take the outcome of `get_current_user` as a parameter. That outcome is an `Option<string>`, so it covers only a token that verifies or none. `get_current_user` catches only `JWTError` (app/routes/manager.py:32), but the `verify_token` of app/utils.py:63-72 turns a `JWTError` into `HTTPException(401)`. With that `verify_token`, a bad cookie makes `team_overview` fail with 401 rather than redirect, and the model cannot represent this.
- In-place mutation of the caller's message dict: delivery returns the stamped message as a new value. Aliasing with the caller's dict is not modelled.
- Payload dicts are `map<string, string>` and are passed through unexamined. The `Input` of the validator keeps only a dict's keys, because `validate_user_input` looks only at those.
- `ConnectionManager.send_notification` sends its message unchanged. The model records only which connections were tried.
- The FastAPI exception handlers (`database_error_handler`, `http_exception_handler`, `validation_error_handler`) are left out. They only log and wrap an error into a JSON response.
- Everything else in the manager routes is left out: rendering the dashboard pages, the raw SQL endpoints, and `verify_role`. Some call sites pass `verify_role` arguments that do not match its signature, so it has no single contract to state.
- Password hashing, random tokens, JWT creation and clock helpers in app/utils.py are left out (crypto, randomness and the clock).
- Behaviour of the code worth noting, which the model keeps:
  - `WebSocketManager` buckets are sets, so a connection registered twice is stored once.
  - The dashboards fail with 404 `"Manager not found"` when the manager's employee row is missing. There is no check for a missing department: a manager whose department is NULL gets as the team every other employee whose department is NULL, and `department_name` is `None`.
  - `ConnectionManager` aborts delivery at the first failed send, while `WebSocketManager` catches each failure and goes on.
