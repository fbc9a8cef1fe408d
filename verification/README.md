# QuickTask core in Dafny

QuickTask is a small task manager. A user keeps tasks with a title, a
description, a priority (Low, Med, High), a status (Todo, In Progress,
Completed) and an optional due date. This project models its logic in Dafny:

- the Mongoose `Task` schema: enumerations, required title, trimming setters,
  defaults and timestamps (`task_schema.dfy`);
- the Express task routes, each scoped to the authenticated owner: list with
  filters and sort, get, create, partial update and delete
  (`task_routes.dfy`, `ordering.dfy`, `route_properties.dfy`);
- the React task store as a reducer over the fetched tasks and the filter
  criteria (`task_store.dfy`);
- the filter panel's "Clear All" condition and the `sortBy-sortOrder` select
  encoding (`task_filters.dfy`);
- the task card's overdue badge, status-change payload and border colour
  (`task_item.dfy`);
- the FastAPI analytics service: per-user statistics and the day/week
  productivity trend (`analytics.dfy`).

`text.dfy` holds the string operations the others share: JavaScript `trim`,
ASCII case folding, substring search, binary string order, and
`split`/`join`. `wrappers.dfy` holds `Option`.

The inputs of each operation are explicit:

- The document collection is a sequence of tasks.
- The caller's identity, the current time and the identity Mongo assigns to a
  new document are parameters.
- Every answer the frontend receives from the server is an input of the
  reducer.
- In the analytics service, dates are whole days counted from 1970-01-01,
  which was a Thursday. Python's `weekday()` is therefore `(d + 3) % 7`.

Behaviour of the code that is easy to misread, and how the model states it:

- Sorting by priority compares the stored strings, so ascending order is
  High, Low, Med. The comment at `backend/routes/tasks.js:41` promises
  High > Med > Low. The model follows the code and
  `Ordering.PrioritySortIsLexical` states the order it really gives.
- The schema's enum validators reject any other priority or status, so such
  a create or update answers 500. It is not stored. A `null` priority or
  status passes the validator.
- A title made only of spaces passes the route's own `!title` check but
  fails the schema's `required` validator after trimming. It answers 500, not
  400.
- MongoDB sorts a missing or `null` key as lower than every present value,
  so in an ascending due-date sort the tasks without a due date come first.
  The parameter `missingLow` generalises that placement; `true` is
  MongoDB's order.

## Model

| member | source | states |
|---|---|---|
| Text.Trim | QuickTask/backend/models/Task.js:4-13 | the trimming setter removes whitespace only: the result is the piece of the input with nothing but whitespace before and after it, has no whitespace at either end, and is empty exactly when the input is all whitespace |
| Text.TrimIdempotent | QuickTask/backend/models/Task.js:4-13 | trimming an already trimmed value changes nothing, so re-saving never alters a title |
| Text.ContainsIffOccurs | QuickTask/backend/routes/tasks.js:27-30 | the title search succeeds exactly when the search text occurs at some position of the title |
| Text.SearchIgnoresCase | QuickTask/backend/routes/tasks.js:29 | the case-insensitive search gives the same matches when the title or the search text is case-folded first |
| Text.LowerIdempotent | QuickTask/backend/routes/tasks.js:29 | case folding a folded string changes nothing |
| Text.SplitJoin | QuickTask/frontend/src/components/TaskFilters.jsx:68-71 | splitting on a separator undoes joining with it when no part contains the separator |
| Text.StrLessTotal | QuickTask/backend/routes/tasks.js:33-55 | two different strings are ordered one way or the other by the store's binary string order |
| TaskSchema.SetTrimmed | QuickTask/backend/models/Task.js:4-13 | a string is replaced by its trim (so no whitespace is left at either end) and `null` passes through |
| TaskSchema.Save | QuickTask/backend/models/Task.js:3-38 | validation passes exactly when the title is present and non-empty and priority and status are null or in their enumerations; the saved task keeps every field; with setters applied it conforms |
| TaskSchema.ToDraft | QuickTask/backend/models/Task.js:3-38 | re-saving a conforming task gives back the same task |
| TaskSchema.SaveRejects | QuickTask/backend/models/Task.js:14-23 | an out-of-enum priority or status, or a blank title, can never be saved |
| Ordering.KeyOf | QuickTask/backend/routes/tasks.js:36-46 | the value each sort key reads: creation time, the priority string, the due date; absent exactly when the field is null |
| Ordering.PrecedesTransitive | QuickTask/backend/routes/tasks.js:33-52 | every selectable sort is a strict order, so a sorted result is well defined |
| Ordering.PrecedesTotal | QuickTask/backend/routes/tasks.js:33-52 | every selectable sort orders any two tasks whose key values differ; only equal keys are left to the store |
| Ordering.SortTasks | QuickTask/backend/routes/tasks.js:55 | the sorted result is in the selected order and is a permutation of the matching tasks |
| Ordering.SortedKeysInOrder | QuickTask/backend/routes/tasks.js:33-52 | among tasks that have the key, a sorted list is non-decreasing (ascending) or non-increasing (descending) |
| Ordering.PrioritySortIsLexical | QuickTask/backend/routes/tasks.js:40-43 | the priority sort orders High, Low, Med ascending and the reverse descending |
| TaskRoutes.OptionalParam | QuickTask/backend/routes/tasks.js:17-30 | a filter enters the query exactly when its parameter is non-empty, with that value |
| TaskRoutes.BuildQuery | QuickTask/backend/routes/tasks.js:14-30 | the query document: the caller always, plus status, priority and title search for each non-empty parameter |
| TaskRoutes.Satisfies | QuickTask/backend/routes/tasks.js:14-30 | how the store reads that document: equal owner, equal status and priority when given, a case-insensitive title match when a search is given |
| TaskRoutes.QueryMeansVisible | QuickTask/backend/routes/tasks.js:14-30 | the query document matches a task exactly when it is the caller's and fits every non-empty filter |
| TaskRoutes.Find | QuickTask/backend/routes/tasks.js:55 | the query returns each matching task with its multiplicity and nothing else |
| TaskRoutes.SelectSort | QuickTask/backend/routes/tasks.js:32-52 | date, priority and dueDate choose their key, descending exactly when the order is "desc"; any other or missing sortBy is newest first |
| TaskRoutes.List | QuickTask/backend/routes/tasks.js:9-60 | the answer holds exactly the caller's visible tasks, sorted as selected, with a count equal to their number |
| TaskRoutes.FindOwned | QuickTask/backend/routes/tasks.js:72 | finds a task with that id and owner, and finds none only when there is none |
| TaskRoutes.Get | QuickTask/backend/routes/tasks.js:70-83 | the caller's task with that id, 404 exactly when the caller owns none, 500 for an id that does not cast |
| TaskRoutes.OrElse | QuickTask/backend/routes/tasks.js:99-101 | a falsy field takes the default, a truthy one keeps its value |
| TaskRoutes.DateOrNull | QuickTask/backend/routes/tasks.js:102 | a given due date is kept, anything else becomes null |
| TaskRoutes.Create | QuickTask/backend/routes/tasks.js:88-116 | 400 for a falsy title; 201 exactly when the trimmed title is non-empty, the defaulted enums are valid and the id is free, appending a conforming task with the defaults and both timestamps at now; otherwise the store is unchanged |
| TaskRoutes.Assign | QuickTask/backend/routes/tasks.js:131-136 | an undefined field keeps the current value, null clears it, a value replaces it |
| TaskRoutes.UpdateValidates | QuickTask/backend/routes/tasks.js:131-138 | the assigned fields pass save's validators: a title present and non-empty after trimming, priority and status null or in their enumerations |
| TaskRoutes.UpdatedFrom | QuickTask/backend/routes/tasks.js:131-138 | the updated task keeps id, owner and creation time, takes exactly the assigned fields, and moves `updatedAt` to now only when something changed |
| TaskRoutes.Update | QuickTask/backend/routes/tasks.js:121-148 | 404 with no change unless the caller owns the task; on an owned task the answer is 200 or 500, 200 only when the assigned title, priority and status pass validation and 500 only when they fail it; on success exactly that position changes, to the task with the given fields assigned and `updatedAt` moved only if something changed |
| TaskRoutes.Delete | QuickTask/backend/routes/tasks.js:153-169 | an owned id is always deleted (200); 404 with no change unless the caller owns the task; on success that one task is removed, the rest keep their order, and it is the answer |
| RouteProperties.CreatePreservesValidStore | QuickTask/backend/routes/tasks.js:97-106 | a create keeps ids unique and every stored task conforming |
| RouteProperties.UpdatePreservesValidStore | QuickTask/backend/routes/tasks.js:125-138 | an update keeps ids unique and every stored task conforming |
| RouteProperties.DeletePreservesValidStore | QuickTask/backend/routes/tasks.js:155-159 | a delete keeps ids unique and every stored task conforming |
| RouteProperties.DeleteTwiceIsNotFound | QuickTask/backend/routes/tasks.js:155-159 | deleting an owned task a second time answers 404 and changes nothing |
| RouteProperties.ForeignTaskIsNotFound | QuickTask/backend/routes/tasks.js:72-159 | another user's task answers 404 to get, update and delete, exactly like a missing one, and is left untouched |
| RouteProperties.TitleOnlyCreateHasDefaults | QuickTask/backend/routes/tasks.js:93-106 | a create from a non-blank title alone under a free id succeeds, appends the task, and fills in description "", priority Med, status Todo and no due date |
| RouteProperties.CreateThenGetHasDefaults | QuickTask/backend/routes/tasks.js:70-104 | a task created from a title alone is exactly what a get by its id then answers, with description "", priority Med and status Todo |
| RouteProperties.BlankTitleIsServerError | QuickTask/backend/routes/tasks.js:93-106 | a title of spaces passes the route check and fails the schema: 500 |
| RouteProperties.UnknownPriorityIsServerError | QuickTask/backend/routes/tasks.js:100-106 | an unknown priority is not defaulted and fails the save: 500 |
| RouteProperties.UpdateSucceedsIffValid | QuickTask/backend/routes/tasks.js:125-147 | on the caller's own task an update answers 200 exactly when the assigned fields pass validation, otherwise 500 with the store unchanged |
| RouteProperties.UpdateBlankTitleIsServerError | QuickTask/backend/routes/tasks.js:133-147 | an update setting the title to spaces is trimmed to empty, fails the required validator and answers 500 |
| RouteProperties.UpdateNullTitleIsServerError | QuickTask/backend/routes/tasks.js:133-147 | an update setting the title to null fails the required validator and answers 500 |
| RouteProperties.UpdateUnknownPriorityIsServerError | QuickTask/backend/routes/tasks.js:135-147 | an update naming a priority outside the enumeration fails the save and answers 500 |
| RouteProperties.StatusOnlyUpdate | QuickTask/backend/routes/tasks.js:131-138 | a body carrying only a valid status changes only that task's status and timestamp |
| RouteProperties.EmptyUpdateChangesNothing | QuickTask/backend/routes/tasks.js:131-138 | an empty body saves the task unchanged, timestamp included |
| TaskStore.Merge | QuickTask/frontend/src/context/TaskContext.jsx:93-95 | every key the patch carries takes its value, every other key keeps its own |
| TaskStore.MergeLaws | QuickTask/frontend/src/context/TaskContext.jsx:93-95 | successive merges compose, a merge repeated is a merge once, the empty patch is the identity |
| TaskStore.UpdateFilters | QuickTask/frontend/src/context/TaskContext.jsx:93-95 | the criteria become the merge and the task list is untouched |
| TaskStore.ClearFilters | QuickTask/frontend/src/context/TaskContext.jsx:97-105 | the criteria return to their initial value and the task list is untouched |
| TaskStore.ClearFiltersIdempotent | QuickTask/frontend/src/context/TaskContext.jsx:19-25 | clearing twice is clearing once, and the initial state is already clear |
| TaskStore.RequestCarriesCriteria | QuickTask/frontend/src/context/TaskContext.jsx:37-44 | the server reads back exactly the client's criteria and so returns exactly the caller's tasks fitting every non-empty one |
| TaskStore.InitialCriteriaSortNewestFirst | QuickTask/frontend/src/context/TaskContext.jsx:19-25 | the initial criteria ask for creation time, descending |
| TaskStore.Fetch | QuickTask/frontend/src/context/TaskContext.jsx:34-52 | a listing replaces the tasks (an absent list is empty), a failure changes nothing |
| TaskStore.ErrorText | QuickTask/frontend/src/context/TaskContext.jsx:61 | the server's message when there is one, the fallback otherwise |
| TaskStore.CreateTask | QuickTask/frontend/src/context/TaskContext.jsx:54-65 | success puts the server's task in front of the unchanged list; failure changes nothing and reports the message |
| TaskStore.CreateKeepsDistinctIds | QuickTask/frontend/src/context/TaskContext.jsx:57 | prepending a created task whose id is new keeps the ids of the list distinct |
| TaskStore.DeleteUndoesCreate | QuickTask/frontend/src/context/TaskContext.jsx:54-91 | deleting the task just created, with nothing in between, gives back the state before the create |
| TaskStore.ReplaceById | QuickTask/frontend/src/context/TaskContext.jsx:70 | every element with that id becomes the new task, every other stays in place |
| TaskStore.ReplaceKeepsDistinctIds | QuickTask/frontend/src/context/TaskContext.jsx:70 | replacing by id with a task of the same id keeps ids distinct |
| TaskStore.ReplaceIdempotent | QuickTask/frontend/src/context/TaskContext.jsx:70 | replacing twice is replacing once |
| TaskStore.ReplaceAbsentId | QuickTask/frontend/src/context/TaskContext.jsx:70 | replacing an id the list lacks changes nothing |
| TaskStore.UpdateTask | QuickTask/frontend/src/context/TaskContext.jsx:67-78 | success replaces by id position by position; failure changes nothing and reports the message |
| TaskStore.RemoveById | QuickTask/frontend/src/context/TaskContext.jsx:83 | no element with that id remains and the list never grows |
| TaskStore.RemoveByIdCounts | QuickTask/frontend/src/context/TaskContext.jsx:83 | every element of another id keeps its multiplicity; those with the id occur zero times |
| TaskStore.RemoveByIdKeepsOrder | QuickTask/frontend/src/context/TaskContext.jsx:83 | the remaining elements are a subsequence of the original list, so their order is kept |
| TaskStore.RemoveByIdAbsent | QuickTask/frontend/src/context/TaskContext.jsx:83 | removing an id the list does not hold changes nothing |
| TaskStore.DeleteTask | QuickTask/frontend/src/context/TaskContext.jsx:80-91 | success removes every element with that id and keeps the rest in order; failure changes nothing and reports the message |
| TaskStore.ReduceFrame | QuickTask/frontend/src/context/TaskContext.jsx:34-105 | a failed call changes nothing; only the filter actions change the criteria, and they never change the tasks |
| TaskStore.Reduce | QuickTask/frontend/src/context/TaskContext.jsx:34-105 | each store action as one step: filter changes, clearing, and the answers of fetch, create, update and delete |
| TaskStore.UpdatesKeepDistinctIds | QuickTask/frontend/src/context/TaskContext.jsx:67-78 | a successful update keeps ids distinct and the list length the same |
| TaskFilters.ActiveFiltersCharacterised | QuickTask/frontend/src/components/TaskFilters.jsx:4-5 | "Clear All" shows exactly when a filter is set or the sort key is not the date; the sort direction alone never shows it; clearing hides it |
| TaskFilters.HasActiveFilters | QuickTask/frontend/src/components/TaskFilters.jsx:4-5 | "Clear All" shows when status, priority or search is non-empty or the sort key is not the date |
| TaskFilters.EncodeSort | QuickTask/frontend/src/components/TaskFilters.jsx:68 | the select's value is the sort key, the separator `-`, and the direction |
| TaskFilters.DecodeSort | QuickTask/frontend/src/components/TaskFilters.jsx:69-71 | the first two pieces of the value split at `-`, the second absent when there is no separator |
| TaskFilters.DecodeEncodeSort | QuickTask/frontend/src/components/TaskFilters.jsx:68-71 | splitting the select's value gives back the key and direction it was built from |
| TaskFilters.SortOptionsRoundTrip | QuickTask/frontend/src/components/TaskFilters.jsx:68-80 | each of the six options decodes to a known key and direction that encode back to it |
| TaskFilters.OnSort | QuickTask/frontend/src/components/TaskFilters.jsx:69-72 | choosing an option sets only the sort key and direction, to values that encode back to the option |
| TaskFilters.ControlsChangeOnlyTheirKeys | QuickTask/frontend/src/components/TaskFilters.jsx:28-71 | each control changes exactly its own criteria and never the tasks |
| TaskFilters.SortSelectShowsSelection | QuickTask/frontend/src/components/TaskFilters.jsx:68-80 | after choosing an option the select shows that option |
| TaskItem.OverdueProperties | QuickTask/frontend/src/components/TaskItem.jsx:30-31 | overdue exactly when a due date lies before now and the task is not completed; it stays overdue as time passes |
| TaskItem.IsOverdue | QuickTask/frontend/src/components/TaskItem.jsx:30-31 | a due date strictly before now on a task whose status is not Completed |
| TaskItem.StatusChangePayload | QuickTask/frontend/src/components/TaskItem.jsx:8-10 | the payload is the task with only the status replaced |
| TaskItem.StatusChangeOnlyChangesStatus | QuickTask/frontend/src/components/TaskItem.jsx:8-10 | sending the payload for a stored task changes that task's status and timestamp and nothing else |
| TaskItem.CompletingClearsOverdue | QuickTask/frontend/src/components/TaskItem.jsx:30-31 | a task changed to Completed is not overdue |
| TaskItem.BorderColour | QuickTask/frontend/src/components/TaskItem.jsx:35-40 | red exactly for High, yellow exactly for Med, green for anything else |
| TaskItem.BorderColourPartitionsPriorities | QuickTask/frontend/src/components/TaskItem.jsx:35-40 | on a conforming task the border is red exactly for High, yellow exactly for Med, and green exactly for Low or no priority |
| TaskItem.BorderColourInjective | QuickTask/frontend/src/components/TaskItem.jsx:35-40 | two different priorities of the enumeration never share a border colour |
| TaskItem.TitleOnlyTaskIsYellow | QuickTask/frontend/src/components/TaskItem.jsx:35-40 | a task created from a title alone gets the default priority Med and so the yellow border |
| Analytics.UserTasks | QuickTask/analytics_service/main.py:44-47 | exactly the user's documents, each with its multiplicity |
| Analytics.IsValidObjectId | QuickTask/analytics_service/main.py:41 | a user id is accepted when it is 24 hexadecimal digits |
| Analytics.EffectivePriority | QuickTask/analytics_service/main.py:72-75 | a missing priority is counted as Med, a null one under no key, any other value as itself |
| Analytics.EffectiveStatus | QuickTask/analytics_service/main.py:79-82 | a missing status is counted as Todo, a null one under no key, any other value as itself |
| Analytics.CountsBounded | QuickTask/analytics_service/main.py:67-82 | the three histogram buckets together, and the completed count, never exceed the number of tasks |
| Analytics.CountCompletedTasks | QuickTask/analytics_service/main.py:67 | the number of tasks whose status is Completed, at most the total |
| Analytics.PriorityDistribution | QuickTask/analytics_service/main.py:70-75 | per priority, the tasks whose priority (Med when missing) is that one; unknown and null values counted nowhere |
| Analytics.StatusDistribution | QuickTask/analytics_service/main.py:77-82 | per status, the tasks whose status (Todo when missing) is that one; unknown and null values counted nowhere |
| Analytics.GetUserStats | QuickTask/analytics_service/main.py:34-91 | 400 for an invalid id; otherwise the totals and histograms of the user's tasks, with no completed count when there are none |
| Analytics.ParseGroupBy | QuickTask/analytics_service/main.py:102-112 | "day" when absent; accepted exactly for "day" and "week" |
| Analytics.Weekday | QuickTask/analytics_service/main.py:159 | Python's `weekday()` on a day number: Monday is 0, and the result lies in 0..6 |
| Analytics.BucketKey | QuickTask/analytics_service/main.py:154-160 | the day itself, or the Monday at most six days before it |
| Analytics.WeekBucketsAreWeeks | QuickTask/analytics_service/main.py:157-160 | the seven days from a Monday share that Monday's bucket |
| Analytics.TrendDate | QuickTask/analytics_service/main.py:131-139 | the update day of a completed task that has one, else the creation day, else skipped |
| Analytics.TallyIn | QuickTask/analytics_service/main.py:170-196 | in every bucket the completed and the created counts are at most the total |
| Analytics.Bump | QuickTask/analytics_service/main.py:162-170 | counting a task keeps bucket keys strictly increasing and raises the total by one |
| Analytics.BumpTally | QuickTask/analytics_service/main.py:162-196 | counting a task adds it to its own bucket's tallies and leaves every other bucket's alone |
| Analytics.DescribedBucketsBounded | QuickTask/analytics_service/main.py:165-190 | in buckets that describe the tasks, completed and created counts never exceed the bucket's total |
| Analytics.Trends | QuickTask/analytics_service/main.py:128-199 | the buckets are sorted by key with unique keys and non-empty, each holds exactly the tallies of its tasks, and the totals add up to the dated tasks |
| Analytics.DatedDocumentsHaveBuckets | QuickTask/analytics_service/main.py:130-170 | every task with a usable date is counted in the bucket of its key |
| Analytics.GetProductivityAnalysis | QuickTask/analytics_service/main.py:101-206 | 400 for an invalid id, then 400 for a groupBy other than day or week; the answer carries the requested user id and groupBy; the no-tasks answer exactly when the user has no tasks (a user whose tasks are all undated gets a report with no trends); otherwise trends that describe the tasks, with `totalDataPoints` equal to their number |

## Left out

- HTTP, authentication and wiring are not modelled: Express and FastAPI
  routing, the `auth` middleware (the caller is a parameter), CORS, the
  health endpoints, `server.js`, `config/db.js`, `database.py`, `config.py`
  and the axios client `api.js`.
- The title search is a literal, case-insensitive substring match with ASCII
  case folding. Regular-expression metacharacters, Unicode case folding and
  the 500 for an invalid pattern are not modelled.
- Mongo's order among tasks with equal sort keys is unspecified; the model
  keeps store order. MongoDB's placement of a missing key (lowest) is the
  case `missingLow == true` of the model's parameter.
- Body fields of types other than string and date are not modelled:
  numbers, arrays and objects, with Mongoose's casting of them.
- A due date is either absent, `null` or a date. A due-date string that
  does not cast to a date (such as "abc") fails Mongoose's cast at save and
  answers 500 on create and update; that case is not modelled. An empty
  string is stored as `null` by both routes (falsy on create, cast to
  `null` by Mongoose on update), so the model reads it as `null`.
- Query parameters are strings. Repeated parameters arriving as arrays, and
  bracketed parameters that the extended query parser turns into objects,
  are not modelled. Such an object reaches the query as an operator: for
  example `status[$ne]=Todo` lists every task that is not Todo, and
  `search[x]=y` puts an object into `$regex`, which fails to cast and
  answers 500.
- Casting the path `:id` to an ObjectId is reduced to "casts or not". The
  cast error answers 500.
- New identities and the clock are parameters. Time zones are left out
  (see Analytics.Trends).
- The database indexes in `Task.js` affect only speed, and are left out.
- Frontend effects are outside the reducer. It does not model the loading
  flag, the toasts, `window.confirm`, re-fetching when the criteria change,
  or stale closures when calls overlap. Each server answer is a separate
  reducer step.
- The card's badge colour lookups, date formatting, and the `Dashboard` and
  `Tasks` pages are presentation only, and are left out.
- Analytics.GetUserStats: it does not compute `completionPercentage`, because
  that is a floating-point division rounded to two places.
- Analytics.GetUserStats: the id check is 24 hexadecimal digits. bson's
  `ObjectId.is_valid` checks the length 24 and then `bytes.fromhex`, which
  also skips ASCII whitespace between digit pairs. So a 24-character id
  with such whitespace passes the service's check, while the model answers
  400 for it.
- Analytics.GetProductivityAnalysis: the same narrower id check as
  GetUserStats. A 24-character id with whitespace between digit pairs
  answers 400 in the model but not in the service.
- Analytics.Trends: date parsing is not modelled. That covers ISO strings,
  BSON datetimes, `fromtimestamp`, time zones, and the `continue` that skips a
  task's created count when its creation date fails to parse. Bucket keys are
  sorted as day numbers, which matches the service's `YYYY-MM-DD` string sort
  for four-digit years.
- A database error answering 500 is not modelled. Neither is an unhashable
  priority or status value that would raise inside the histogram loop.
