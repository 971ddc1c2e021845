# TaskMaster todo app — a Dafny model of its core

TaskMaster is a React Native todo list backed by Cloud Firestore and Firebase
Authentication. Only a signed-in user can add tasks: they go to the user's
cloud collection, and a create that fails is queued on the device. The
replay of that queue (`syncOfflineTasks`) is offered by the task context but
nothing in the core calls it, and every delivery of the live task query
deletes the queue, so a queued task is discarded at the next delivery.
Signing in also copies any tasks held in the device's local task list to the
cloud collection, although nothing in the core writes that list.

This project models the application's core in Dafny:

- **Cloud document store** (`Firestore`): the `tasks` and `users` collections.
  The store hands out new document ids. `removeUndefined` shapes records, and
  a `set` with `merge: true` merges them.
- **Device key-value store** (`DeviceStorage`): used for:
  - the local task list `@tasks_local` (`LocalStorage`);
  - the offline queue `@TodoApp:offlineTasks` (`TaskContext`);
  - the theme choice `@TodoApp:theme` (`ThemeContext`).

  The two task lists are stored as JSON text (`Json`); the theme is stored
  as the plain name of the mode.
- **Migration** of local tasks into the cloud, and the **duplicate-aware
  merge** of the two lists (`SyncManager`).
- **Session controller** (`AuthContext`) and **task state holder**
  (`TaskContext`), as classes whose fields the actions update.
- **Date and priority helpers** (`Helpers`).
- **Screens:**
  - the home list's search, filter, sort and sort cycle (`HomeScreen`);
  - the statistics (`Statistics`);
  - the task form and the quick-add box (`AddTaskScreen`, `QuickAddTask`);
  - the sign-in and sign-up screens and the sign-in modal (`SignInScreen`,
    `SignUpScreen`, `AuthModal`).

How outside calls are handled:

- Every remote or device call can fail. Its failure is a boolean parameter.
- The authentication service's answers are parameters.
- The clock is a `now: Time` parameter (milliseconds since the epoch).
- The screens record what they do, in order, as a list of effects: alerts,
  calls and navigation.

`Common` holds what JavaScript provides:

- truthiness;
- `trim`, `toLowerCase` and `includes`;
- `Array.prototype.filter`;
- decimal `toString`;
- a timestamp text with a proved round trip.

## Model

| member | source | states |
|---|---|---|
| Common.BlankIffTrimEmpty | src/screens/SignInScreen.tsx:39 | a string is blank, every character white space, exactly when `trim` leaves nothing of it |
| Common.TrimIdempotent | src/screens/AddTaskScreen.tsx:58 | trimming a trimmed title changes nothing |
| Common.Trim | src/screens/AddTaskScreen.tsx:58 | `trim` gives a string that neither starts nor ends with white space and is no longer than its input |
| Common.TrimCuts | src/screens/AddTaskScreen.tsx:58 | `trim` returns the part of the string between a blank prefix and a blank suffix, so it removes white space at the ends and nothing else |
| Common.ToLower | src/screens/HomeScreen.tsx:36-40 | `toLowerCase` keeps the length and folds each capital letter, leaving every other character alone |
| Common.NatToStringRoundTrip | src/services/localStorage.ts:67 | the decimal digits of a natural number read back as that number |
| Common.IntToStringInjective | src/services/localStorage.ts:67 | two distinct clock readings never give the same id text |
| Common.FilterCounts | src/screens/HomeScreen.tsx:36-52 | `filter` keeps exactly the accepted elements, each with its multiplicity |
| Common.FilterAppend | src/screens/HomeScreen.tsx:36-52 | `filter` keeps the input order: filtering a concatenation concatenates the filtered parts |
| Common.FilterSnoc | src/screens/HomeScreen.tsx:36-52 | one more element at the end is kept at the end exactly when accepted |
| Common.FilterSingle | src/screens/HomeScreen.tsx:36-52 | a one-element list is kept exactly when its element is accepted |
| Common.FilterSubset | src/screens/HomeScreen.tsx:36-52 | a filtered list holds exactly the accepted members of the list |
| Common.FilterLengthMono | src/screens/StatisticsScreen.tsx:21-22 | a weaker test keeps at least as many elements |
| Common.FilterComplement | src/screens/StatisticsScreen.tsx:20-21 | the elements kept by a predicate and by its negation together number the whole list |
| Common.IntToStringRoundTrip | src/services/localStorage.ts:67 | `Date.now().toString()` reads back as the same number |
| Common.TimeStringRoundTrip | src/services/localStorage.ts:73-85 | a timestamp written as text and parsed with `new Date` is the same instant |
| Json.ParseStringify | src/services/localStorage.ts:22-33 | `JSON.parse(JSON.stringify(tasks))` gives back the same array of objects |
| DeviceStorage.Store.GetItem | src/services/localStorage.ts:31 | `getItem` returns the stored value, `null` for a missing key, or the storage error |
| DeviceStorage.Store.SetItem | src/services/localStorage.ts:22 | `setItem` replaces exactly one key, or changes nothing and reports the error |
| DeviceStorage.Store.RemoveItem | src/services/localStorage.ts:44 | `removeItem` removes exactly one key, or changes nothing and reports the error |
| LocalStorage.TaskOf | src/services/localStorage.ts:51-62 | a task built from converted data carries that data, the given id and the given owner |
| LocalStorage.ConvertedDueDate | src/services/localStorage.ts:58 | the converted due date is missing exactly when the stored one is missing, `null` or empty; otherwise it is the parsed text |
| LocalStorage.ConvertTaskToLocalTask | src/services/localStorage.ts:65-87 | the id is the given one, else the task's, else the clock's text, and is never empty |
| LocalStorage.LocalTaskRoundTrip | src/services/localStorage.ts:51-87 | a well-formed local record converted to a task and back is unchanged |
| LocalStorage.TaskRoundTrip | src/services/localStorage.ts:51-87 | a task converted to a local record and back keeps every field except its ids |
| LocalStorage.ConvertedIsCanonical | src/services/localStorage.ts:65-87 | every converted record is well formed: non-empty id, timestamp texts, due date text or `null` |
| LocalStorage.FromToJson | src/services/localStorage.ts:7-17 | a local record written as a JSON object reads back unchanged |
| LocalStorage.FromToJsonAll | src/services/localStorage.ts:22-33 | a list of local records written as JSON objects reads back unchanged |
| LocalStorage.SaveLocalTasks | src/services/localStorage.ts:20-27 | saving writes the JSON text of the list under `@tasks_local`; a failed write changes nothing and is rethrown |
| LocalStorage.LoadLocalTasks | src/services/localStorage.ts:29-40 | loading returns the stored list, or `[]` when the key is missing or empty, the text does not parse, or the read fails |
| LocalStorage.ClearLocalTasks | src/services/localStorage.ts:42-48 | clearing removes `@tasks_local`; a failure is swallowed |
| LocalStorage.LoadAfterSave | src/services/localStorage.ts:20-40 | loading after saving a list returns that list |
| LocalStorage.LoadAfterClear | src/services/localStorage.ts:29-48 | loading after clearing returns `[]` |
| Firestore.Cleaned | src/services/firestore.ts:38-46 | exactly the fields that are not `undefined` remain, with their values |
| Firestore.CleanedIdempotent | src/services/firestore.ts:38-46 | cleaning twice equals cleaning once |
| Firestore.CleanedKeepsFalsy | src/services/firestore.ts:41 | `null`, `false` and `''` survive cleaning; only `undefined` is dropped |
| Firestore.RemoveUndefined | src/services/firestore.ts:38-46 | the key-by-key loop computes `Cleaned` |
| Firestore.CreateRecordFields | src/services/firestore.ts:53-79 | the created document has no `undefined` field, one creation time for both timestamps, a `null` due date when none is given, a description and an owner only when defined, and no `id` field |
| Firestore.UpdateData | src/services/firestore.ts:90-106 | the update carries the defined fields, a fresh `updatedAt`, and a due date only when one was given, with `null` for a falsy one |
| Firestore.ProfileData | src/services/firestore.ts:178-193 | an empty name becomes `User`; the email defaults to `''`; `photoURL` is kept only when truthy |
| Firestore.MergeProfile | src/services/firestore.ts:196-198 | a merged profile write replaces the written fields and keeps a stored `photoURL` that was not written |
| Firestore.WithProfile | src/services/firestore.ts:196-198 | the user's settings and every other user's document are untouched |
| Firestore.SettingsData | src/services/firestore.ts:219-234 | both settings fields are always written: a missing theme becomes `system`, missing notifications become `true` |
| Firestore.SettingsThemeReset | src/services/firestore.ts:229-234 | updating only `notifications` resets the theme to `system` |
| Firestore.DocId | src/services/firestore.ts:82 | the `n`-th store-assigned id encodes `n`, so distinct allocations get distinct ids |
| Firestore.ApplyWritesSnoc | src/utils/syncManager.ts:31-45 | a batch applies its writes in order |
| Firestore.Database.NewDocId | src/utils/syncManager.ts:29 | a new document reference is unused and numbered above every id in use |
| Firestore.Database.CreateTask | src/services/firestore.ts:53-88 | success adds exactly one new document holding the shaped record and returns it with its id; failure changes nothing and is rethrown |
| Firestore.Database.UpdateTask | src/services/firestore.ts:90-115 | an existing document is merged with the update; a missing document or a failure changes nothing and is an error |
| Firestore.Database.DeleteTask | src/services/firestore.ts:117-124 | exactly that document is removed; a failure changes nothing and is rethrown |
| Firestore.Database.GetTasks | src/services/firestore.ts:126-137 | exactly the documents owned by the user are returned; a failed query returns none |
| Firestore.Database.CommitBatch | src/utils/syncManager.ts:44-45 | a batch applies all its writes or none |
| Firestore.Database.CreateUserProfile | src/services/firestore.ts:178-204 | the defaulted profile is merged into the user's document and returned; a failure changes nothing |
| Firestore.Database.GetUserProfile | src/services/firestore.ts:206-216 | the stored profile, or `null` for a missing document, a missing profile or a failed read |
| Firestore.Database.UpdateUserSettings | src/services/firestore.ts:219-235 | the user's settings become `SettingsData`; the profile is kept |
| Firestore.Database.GetUserSettings | src/services/firestore.ts:237-247 | `null` for a missing document; the defaults for missing settings or a failed read |
| SyncManager.Pending | src/utils/syncManager.ts:22-26 | the migration writes at most as many tasks as it is given |
| SyncManager.PendingMembers | src/utils/syncManager.ts:22-26 | a task is written exactly when it is listed and has no truthy `syncId` |
| SyncManager.PendingAll | src/utils/syncManager.ts:22-42 | without any `syncId`, every task is written |
| SyncManager.SyncedTasksSkipped | src/utils/syncManager.ts:24-26 | a task with a truthy `syncId` is never written |
| SyncManager.SyncRecordFields | src/utils/syncManager.ts:28-39 | a written record carries the signed-in user and the parsed timestamps, has a `null` due date exactly when the local one is empty, and has no `id` |
| SyncManager.WritesIds | src/utils/syncManager.ts:29-39 | the `i`-th pending task is written on the `i`-th new id |
| SyncManager.QueueWrites | src/utils/syncManager.ts:19-42 | the loop queues one write per pending task, and `syncedCount` counts them |
| SyncManager.SyncLocalTasksToFirebase | src/utils/syncManager.ts:9-52 | an empty list does nothing; otherwise the batch commits only when it is non-empty; a failed commit writes nothing and is rethrown |
| SyncManager.SyncWritesFresh | src/utils/syncManager.ts:29-45 | the migration adds one new document per pending task, holding its record, and leaves every existing document unchanged |
| SyncManager.WritesOnlyTheirIds | src/utils/syncManager.ts:31-45 | the migration adds no document beyond its own ids |
| SyncManager.Find | src/utils/syncManager.ts:66-76 | `find` returns a duplicating cloud task exactly when one exists |
| SyncManager.Appended | src/utils/syncManager.ts:80-85 | an appended local task keeps its converted data and its id and has no owner |
| SyncManager.MergeTasks | src/utils/syncManager.ts:57-92 | the merged list is the cloud list followed by the non-duplicated local tasks in order; the duplicated ones are the conflicts |
| SyncManager.MergeCounts | src/utils/syncManager.ts:65-89 | every local task is either appended or a conflict, never both and never dropped |
| SyncManager.ConflictIff | src/utils/syncManager.ts:78-88 | a local task is a conflict exactly when some cloud task duplicates it |
| SyncManager.FreshIff | src/utils/syncManager.ts:78-86 | exactly the converted non-duplicated local tasks are appended |
| SyncManager.MergeSplits | src/utils/syncManager.ts:65-89 | local tasks are judged independently: merging a concatenation concatenates the results |
| SyncManager.FreshSplits | src/utils/syncManager.ts:65-89 | the tasks appended for a concatenation of local lists are the tasks appended for each list, in order |
| SyncManager.ConflictsSplits | src/utils/syncManager.ts:65-89 | the conflicts of a concatenation of local lists are the conflicts of each list, in order |
| SyncManager.WindowIsStrict | src/utils/syncManager.ts:74 | creation times exactly one minute apart are not duplicates |
| TaskContext.QueueOnFailure | src/context/TaskContext.tsx:48-58 | after a failed create, the offline queue reads as before with the new entry appended, unless reading, parsing or writing the queue fails; no other key of the device store changes |
| TaskContext.QueueAfterAppend | src/context/TaskContext.tsx:52-55 | the queue written back reads as the earlier entries followed by the new one |
| TaskContext.ReplayEntry | src/context/TaskContext.tsx:99-106 | replaying a queued entry recreates the queued task, without its owner and with an empty priority or category defaulted |
| TaskContext.ReplayDefaults | src/context/TaskContext.tsx:99-106 | an entry without task fields replays as not completed, `medium`, `Other`, with no due date |
| TaskContext.CreatedAllSucceed | src/context/TaskContext.tsx:97-110 | when every create succeeds, the `i`-th queued entry lands on the `i`-th new id |
| TaskContext.ReplaysUnowned | src/context/TaskContext.tsx:99-106 | no replayed document has an owner |
| TaskContext.FindTask | src/context/TaskContext.tsx:83 | `find` returns the first task with that id, or nothing when none has it |
| TaskContext.ToggleData | src/context/TaskContext.tsx:85 | the toggle's update changes `completed` and `updatedAt` and nothing else |
| TaskContext.ReplayAll | src/context/TaskContext.tsx:97-110 | the replay creates one document per queued entry whose create succeeds, in order |
| TaskContext.ReplayAt | src/context/TaskContext.tsx:97-108 | one create with the replay defaults puts the queued object's record on the next id; a failing call changes nothing |
| TaskContext.ReplayedStep | src/context/TaskContext.tsx:96-109 | after one more successful create the store holds exactly one more write, on the next id |
| TaskContext.TaskProvider.constructor | src/context/TaskContext.tsx:21-22 | no user, no tasks, loading |
| TaskContext.TaskProvider.UserChanged | src/context/TaskContext.tsx:24-39 | without a user the list empties and loading ends; with one the user's query is subscribed |
| TaskContext.TaskProvider.OnSnapshot | src/context/TaskContext.tsx:31-36 | each delivery replaces the list, ends loading and removes the offline queue |
| TaskContext.TaskProvider.AddTask | src/context/TaskContext.tsx:41-58 | unauthenticated: rejected with no effect; success: exactly one new owned document; failure: the device store becomes the queue-on-failure state and the error is rethrown |
| TaskContext.TaskProvider.UpdateTask | src/context/TaskContext.tsx:60-69 | the store's update behind the authentication guard; every error is rethrown |
| TaskContext.TaskProvider.DeleteTask | src/context/TaskContext.tsx:71-80 | the store's delete behind the authentication guard; every error is rethrown |
| TaskContext.TaskProvider.ToggleTaskComplete | src/context/TaskContext.tsx:82-87 | a listed task gets `completed` flipped and nothing else; an unlisted id does nothing |
| TaskContext.TaskProvider.SyncOfflineTasks | src/context/TaskContext.tsx:89-115 | no user, no readable queue or no parsable queue: nothing happens; otherwise every entry is replayed, failures are skipped, and the queue is removed |
| AuthContext.SignUpNameChain | src/context/AuthContext.tsx:148-151 | a sign-up profile is named after the typed full name, else the account's display name, else `User` |
| AuthContext.AuthProvider.constructor | src/context/AuthContext.tsx:22-25 | no user, no profile, loading, local mode |
| AuthContext.AuthProvider.OnAuthStateChanged | src/context/AuthContext.tsx:27-63 | records the user and the mode, loads the profile or creates a missing one, and ends loading; a failed creation leaves the profile as it was |
| AuthContext.AuthProvider.HandleSignIn | src/context/AuthContext.tsx:65-124 | email sign-in when both fields are truthy, else Google; a signed-in user gets the stored or a new profile, leaves local mode and has the local tasks migrated; a migration failure is swallowed, any other failure rethrown |
| AuthContext.AuthProvider.HandleSignUp | src/context/AuthContext.tsx:126-181 | as sign-in, but the profile is always written fresh and email sign-up also needs a full name |
| AuthContext.AuthProvider.HandleSignOut | src/context/AuthContext.tsx:183-196 | the session is cleared and local mode restored, whatever the service does |
| AuthContext.AuthProvider.UpdateUserProfile | src/context/AuthContext.tsx:198-216 | nothing without a user; otherwise the merged profile is written and held with its creation time kept; a failed write is rethrown |
| AuthContext.MigrateLocalTasks | src/context/AuthContext.tsx:110-118 | an empty local list writes nothing; a failed migration leaves the tasks unchanged |
| Helpers.Midnight | src/utils/helpers.ts:29-30 | `setHours(0,0,0,0)` moves a time to the start of its day |
| Helpers.MidnightOrder | src/utils/helpers.ts:31 | comparing two midnights compares their days |
| Helpers.PriorityOrder | src/utils/helpers.ts:54-65 | a rank of 0 to 3, positive exactly for `high`, `medium` and `low` |
| Helpers.PriorityRanks | src/utils/helpers.ts:54-65 | `high` > `medium` > `low` > anything else, and the levels have distinct ranks |
| Helpers.OverdueExcludesToday | src/utils/helpers.ts:25-43 | no task is both overdue and due today |
| Helpers.OverdueBeforeMidnight | src/utils/helpers.ts:25-32 | overdue means due before the start of today |
| Helpers.DueSoonNotOverdue | src/utils/helpers.ts:45-52 | a task due within three days is not overdue; one due before tomorrow is due today |
| Helpers.FormatDate | src/utils/helpers.ts:3-23 | the label is `No due date` exactly without a date, `Today` exactly for today's date, `Tomorrow` exactly for the next day, and the date otherwise |
| Helpers.DateCell.SetMidnight | src/utils/helpers.ts:30 | the date is truncated to its midnight in place |
| Helpers.IsOverdue | src/utils/helpers.ts:25-32 | no date: false; otherwise whether the date's day is before today; a `Date` argument is truncated to midnight as a side effect |
| HomeScreen.SearchFiltered | src/screens/HomeScreen.tsx:35-41 | a blank query keeps every task; otherwise exactly the tasks whose lower-cased title or description contains the lower-cased query |
| HomeScreen.StatusFiltered | src/screens/HomeScreen.tsx:44-54 | exactly the active, completed or overdue-and-active tasks; any other filter keeps all |
| HomeScreen.FilteredMembers | src/screens/HomeScreen.tsx:31-54 | the shown tasks are the ones that pass both filters, each at most as often as listed |
| HomeScreen.TitleLeTotal | src/screens/HomeScreen.tsx:72 | any two titles compare |
| HomeScreen.TitleLeTrans | src/screens/HomeScreen.tsx:72 | the title order is transitive |
| HomeScreen.SortLeTotal | src/screens/HomeScreen.tsx:57-82 | each of the four orders relates any two tasks |
| HomeScreen.SortLeTrans | src/screens/HomeScreen.tsx:57-82 | each of the four orders is transitive |
| HomeScreen.KeyOf | src/screens/HomeScreen.tsx:57-75 | due date, priority and alphabetical each pick their own comparator; every other value picks creation time |
| HomeScreen.SortTasks | src/screens/HomeScreen.tsx:57-82 | sorting in place yields a sorted permutation of the list |
| HomeScreen.InsertLast | src/screens/HomeScreen.tsx:57-82 | one insertion step extends the ordered prefix by one element and keeps the same elements |
| HomeScreen.InsertingStart | src/screens/HomeScreen.tsx:57-82 | an ordered prefix is an insertion about to start at its last element |
| HomeScreen.InsertingStep | src/screens/HomeScreen.tsx:57-82 | swapping the moving element with a greater left neighbour keeps the prefix ordered around it |
| HomeScreen.InsertingDone | src/screens/HomeScreen.tsx:57-82 | once the moving element meets a smaller or equal neighbour, or the front, the prefix is ordered |
| HomeScreen.SwapPermutes | src/screens/HomeScreen.tsx:57-82 | exchanging two elements keeps the same elements |
| HomeScreen.FilteredAndSorted | src/screens/HomeScreen.tsx:31-85 | the result is a sorted permutation of the filtered tasks |
| HomeScreen.ShownAreKept | src/screens/HomeScreen.tsx:31-85 | the result is no longer than the list and holds exactly the tasks that pass the filters |
| HomeScreen.DueDateOrder | src/screens/HomeScreen.tsx:59-66 | sorted by due date, dated tasks come first in date order and undated ones last |
| HomeScreen.IndexOf | src/screens/HomeScreen.tsx:190 | `indexOf` is -1 exactly for an absent value, else its first position |
| HomeScreen.NextSort | src/screens/HomeScreen.tsx:189-192 | the next sort is always one of the four options |
| HomeScreen.NextSortTable | src/screens/HomeScreen.tsx:189-192 | due date, then priority, then created, then alphabetical, then due date again; an unknown value goes to due date |
| HomeScreen.SortCycle | src/screens/HomeScreen.tsx:187-193 | each press changes the sort, four presses return to it, and from `createdAt` the presses give alphabetical, due date and priority |
| Statistics.PendingCount | src/screens/StatisticsScreen.tsx:19-21 | completed plus pending is the total, and pending counts the incomplete tasks |
| Statistics.OverdueWithinPending | src/screens/StatisticsScreen.tsx:21-22 | overdue tasks never outnumber pending ones |
| Statistics.CompletionRate | src/screens/StatisticsScreen.tsx:23 | 0 for no tasks; otherwise the percentage rounded half up, at most 100, and exactly 100 when all are done |
| Statistics.Categories | src/screens/StatisticsScreen.tsx:27-28 | the category of every task, in order |
| Statistics.MapSumIncrement | src/screens/StatisticsScreen.tsx:28 | one increment adds one to the sum of the counts |
| Statistics.CountStep | src/screens/StatisticsScreen.tsx:27-29 | one increment keeps the map an exact tally of the categories seen so far |
| Statistics.CountedKeys | src/screens/StatisticsScreen.tsx:26-29 | the keys of a tally are exactly the categories seen |
| Statistics.CategoryCount | src/screens/StatisticsScreen.tsx:26-29 | exactly the categories in use are keys, each counted as often as it occurs, and the counts sum to the total |
| Statistics.PriorityCountsSum | src/screens/StatisticsScreen.tsx:32-36 | when every task has a valid level, the three counts sum to the total |
| Statistics.CategoriesOfTasks | src/screens/StatisticsScreen.tsx:26-29 | a category occurs in the list of categories exactly when some task has it |
| Statistics.ComputeStatistics | src/screens/StatisticsScreen.tsx:18-47 | each figure is its own count: the total, the completed tasks, the incomplete ones, the incomplete overdue ones, the rounded completion percentage, each category's number of occurrences and each level's count; and the figures agree with one another (completed plus pending is the total, overdue within pending, the rate at most 100, the tallies summing to the total) |
| ThemeContext.ParseMode | src/context/ThemeContext.tsx:37-39 | a saved value is a mode exactly when it is one of the three texts, and it is that mode |
| ThemeContext.ParseModeText | src/context/ThemeContext.tsx:38-49 | a stored mode reads back as itself |
| ThemeContext.DarkFor | src/context/ThemeContext.tsx:27-33 | dark when following a dark system, or when the mode is dark |
| ThemeContext.ThemeProvider.constructor | src/context/ThemeContext.tsx:19-21 | starts in `system` mode, with the system's scheme |
| ThemeContext.ThemeProvider.ApplyMode | src/context/ThemeContext.tsx:27-33 | `isDark` follows the rule after the effect |
| ThemeContext.ThemeProvider.SystemSchemeChanged | src/context/ThemeContext.tsx:18-33 | a system switch is followed only in `system` mode |
| ThemeContext.ThemeProvider.LoadThemeMode | src/context/ThemeContext.tsx:35-44 | a valid saved mode is adopted; a missing or unknown value or a failed read keeps the mode |
| ThemeContext.ThemeProvider.SetThemeMode | src/context/ThemeContext.tsx:46-53 | the mode changes even when the write fails; a successful write stores the mode's text |
| ThemeContext.ThemeProvider.Colors | src/context/ThemeContext.tsx:55 | the dark palette exactly when `isDark` |
| ThemeContext.SaveThenLoad | src/context/ThemeContext.tsx:35-53 | a saved mode is the mode a fresh provider loads |
| AddTaskScreen.InitialForm | src/screens/AddTaskScreen.tsx:34-46 | a new task starts empty, `medium`, `Personal`, with no date; an edited task's fields prefill the form |
| AddTaskScreen.Payload | src/screens/AddTaskScreen.tsx:57-64 | trimmed title, trimmed description or none when blank, the form's priority, category and date, and `completed` kept only when editing |
| AddTaskScreen.Save | src/screens/AddTaskScreen.tsx:50-80 | a blank title saves nothing; a task with an id is updated; anything else is added |
| AddTaskScreen.SavedPayloadIsClean | src/screens/AddTaskScreen.tsx:51-59 | a saved title is non-blank and trimmed, and a saved description is non-blank |
| AddTaskScreen.EditUnchanged | src/screens/AddTaskScreen.tsx:34-67 | opening a clean task and saving it unchanged sends back the same fields |
| AddTaskScreen.UpdateRecord | src/screens/AddTaskScreen.tsx:57-67 | the update sends `description` as `undefined` exactly when it is cleared, and the due date or `null` |
| AddTaskScreen.ClearedFieldsOnEdit | src/screens/AddTaskScreen.tsx:59-67 | clearing the description while editing keeps the stored description, while clearing the due date stores `null` |
| AddTaskScreen.WithHoursMinutes | src/screens/AddTaskScreen.tsx:101-106 | `setHours(h, m)` keeps the day and the seconds and sets the hour and minute |
| AddTaskScreen.AddTaskForm.constructor | src/screens/AddTaskScreen.tsx:34-48 | the form starts as `InitialForm`, with both pickers hidden |
| AddTaskScreen.AddTaskForm.HandleDateChange | src/screens/AddTaskScreen.tsx:88-99 | a picked date becomes the due date, keeping the earlier time of day when the time picker was open |
| AddTaskScreen.AddTaskForm.HandleTimeChange | src/screens/AddTaskScreen.tsx:101-108 | a picked time changes the hour and minute of an existing due date only |
| AddTaskScreen.AddTaskForm.RemoveDueDate | src/screens/AddTaskScreen.tsx:110-112 | the due date is cleared and nothing else changes |
| AddTaskScreen.AddTaskForm.HandleSave | src/screens/AddTaskScreen.tsx:50-86 | a blank title changes nothing; a signed-out user changes nothing and gets the authentication error; an edit succeeds exactly when the update call succeeds and the document exists; a new task succeeds exactly when the create call succeeds, and its failure queues the task on the device; a failure never changes the documents |
| QuickAddTask.QuickPayload | src/components/task/QuickAddTask.tsx:31-38 | trimmed title, trimmed description or none, not completed, `medium`, `Personal`, no due date |
| QuickAddTask.QuickAddIsFormDefault | src/components/task/QuickAddTask.tsx:31-38 | a quick add sends what the full form sends for a new task left at its defaults |
| QuickAddTask.QuickAddBox.constructor | src/components/task/QuickAddTask.tsx:20-22 | empty and collapsed |
| QuickAddTask.QuickAddBox.HandleFocus | src/components/task/QuickAddTask.tsx:60-62 | focusing expands the box |
| QuickAddTask.QuickAddBox.HandleAddTask | src/components/task/QuickAddTask.tsx:24-58 | a blank title makes no call; success creates the task, empties and collapses the box and runs `onAddComplete`; failure leaves the box as it was, with the authentication error and an untouched device store when signed out, and otherwise the task queued on the device |
| SignInScreen.ClassifySignIn | src/screens/SignInScreen.tsx:57-84 | each of the four codes gets its own alert; anything else shows the message, or the fallback |
| SignInScreen.EmailFailure | src/screens/SignInScreen.tsx:58-71 | only a missing account offers to sign up, carrying the typed email |
| SignInScreen.EmailSignInOrder | src/screens/SignInScreen.tsx:38-88 | the sign-in is called exactly for non-blank fields, and first; `Landing` is reached exactly when the sign-in succeeds, last and after the welcome flag; otherwise exactly one alert shows, last |
| SignInScreen.GoogleSignInAlwaysGeneric | src/screens/SignInScreen.tsx:90-111 | every Google failure shows the generic alert; the welcome flag is set and `Landing` reached exactly when the sign-in succeeds |
| SignInScreen.SignInForm.constructor | src/screens/SignInScreen.tsx:33-35 | the email is prefilled from the navigation parameter |
| SignInScreen.SignInForm.HandleEmailSignIn | src/screens/SignInScreen.tsx:38-88 | appends the email path's effects; `loading` ends false whenever the call was made |
| SignInScreen.SignInForm.HandleGoogleSignIn | src/screens/SignInScreen.tsx:90-111 | appends the Google path's effects; `loading` ends false |
| SignUpScreen.SignUpCheck | src/screens/SignUpScreen.tsx:41-56 | the four checks in order, each failing exactly when the earlier ones pass and it does not; the password's length is its number of UTF-16 code units, as `length` counts |
| SignUpScreen.PaddedPasswordAccepted | src/screens/SignUpScreen.tsx:45-51 | for every password core without surrounding white space, padding it with a space on each side trims back to the core, yet the length check fails exactly when the core is under four code units: the check counts the untrimmed password |
| SignUpScreen.AstralPasswordAccepted | src/screens/SignUpScreen.tsx:49 | a password of three characters above U+FFFF is six code units long and passes the length check |
| Common.Utf16Length | src/screens/SignUpScreen.tsx:49 | `length` counts UTF-16 code units: between one and two per character |
| Common.Utf16LengthAppend | src/screens/SignUpScreen.tsx:49 | the `length` of a concatenation is the sum of the lengths |
| Common.Utf16LengthBasic | src/screens/SignUpScreen.tsx:49 | without characters above U+FFFF, `length` counts characters |
| SignUpScreen.ClassifySignUp | src/screens/SignUpScreen.tsx:72-95 | an email already in use, by code or message, comes first, then the two codes, else the message |
| SignUpScreen.ClassifyGoogleSignUp | src/screens/SignUpScreen.tsx:122-148 | the configuration alert exactly for its three messages; otherwise "Account Exists" exactly for the two account messages, carrying the error's own message as its text, else the message; never the email path's fixed-text alerts |
| SignUpScreen.EmailSignUpOrder | src/screens/SignUpScreen.tsx:40-101 | the sign-up is called exactly when every check passes, and first; `Landing` is reached exactly when the sign-up succeeds, last and after the welcome flag; otherwise exactly one alert, last |
| SignUpScreen.GoogleSignUpOutcomes | src/screens/SignUpScreen.tsx:103-152 | a cancellation shows nothing; any other failure shows exactly one alert; the welcome flag is set and `Landing` reached exactly when the sign-up succeeds |
| SignUpScreen.SignUpForm.constructor | src/screens/SignUpScreen.tsx:33-38 | empty fields, terms not accepted, email prefilled |
| SignUpScreen.SignUpForm.HandleEmailSignUp | src/screens/SignUpScreen.tsx:40-101 | appends the email path's effects; `loading` ends false whenever the call was made |
| SignUpScreen.SignUpForm.HandleGoogleSignUp | src/screens/SignUpScreen.tsx:103-152 | appends the Google path's effects; `loading` ends false, a cancellation included |
| AuthModal.RefreshFailure | src/components/auth/AuthModal.tsx:29-44 | calling the missing `refreshTasks` throws a `TypeError` |
| AuthModal.EmailFailure | src/components/auth/AuthModal.tsx:57-84 | the sign-in screen's classification; the "Sign Up" choice only closes the modal |
| AuthModal.EmailFailureAsOnScreen | src/components/auth/AuthModal.tsx:57-84 | the modal reports a failed sign-in exactly as the sign-in screen does, except that the sign-up offer carries no email |
| AuthModal.ClassifyGoogle | src/components/auth/AuthModal.tsx:111-124 | the configuration alert exactly for SHA-1 or configuration messages; otherwise the message, or the fallback |
| AuthModal.EmailOrder | src/components/auth/AuthModal.tsx:35-88 | the sign-in is called exactly for non-blank fields, and first; the modal closes exactly when both calls succeed, last, after the refresh; otherwise exactly one alert, last |
| AuthModal.GoogleOutcomes | src/components/auth/AuthModal.tsx:90-128 | a cancellation shows nothing; the modal closes exactly on success; otherwise exactly one classified alert, last |
| AuthModal.MissingRefreshNeverCloses | src/components/auth/AuthModal.tsx:43-53 | with the task context as written, a successful sign-in ends in the generic alert and never closes the modal |
| AuthModal.TypeErrorIsGeneric | src/components/auth/AuthModal.tsx:107-124 | the `TypeError`'s message is neither a cancellation nor a configuration message |
| AuthModal.ProvidedRefreshCloses | src/components/auth/AuthModal.tsx:43-53 | with a working refresh, a successful sign-in closes the modal on either path |
| AuthModal.ModalForm.constructor | src/components/auth/AuthModal.tsx:30-32 | empty fields, not loading |
| AuthModal.ModalForm.HandleEmailSignIn | src/components/auth/AuthModal.tsx:35-88 | appends the email path's effects; the fields are cleared only after both calls succeed; `loading` ends false whenever the call was made |
| AuthModal.ModalForm.HandleGoogleSignIn | src/components/auth/AuthModal.tsx:90-128 | appends the Google path's effects; the fields are cleared only after both calls succeed; `loading` ends false |

## Left out

- Rendering, styles, icons, toasts, console logging and navigation animations are left out. Navigation is kept only as the `ReplaceWith` effect.
- The authentication services (`src/services/auth.ts`) are not part of this model. What a sign-in or sign-up call returns, and the error it throws, are parameters.
- `markWelcomeAsSeen` (the welcome context) is not part of this model beyond its effect on the screens: it catches and logs its own storage errors, so the screens always go on to `Landing` once the sign-in or sign-up call succeeds.
- The sign-out service call is not modelled. Its result never reaches the state.
- The live query (`subscribeToTasks`, with its fallback without `orderBy`) is not modelled. Its deliveries are calls to `OnSnapshot`, and its order is the order of the delivered list.
- Unsubscribing is not modelled.
- `getTasks` returns a map keyed by document id. The order of the query's documents is not modelled.
- The 500 ms wait after signing in is not modelled, and neither is the one-second refresh spinner of the home list.
- One clock reading stands for every `Timestamp.now()` and `new Date()` of one action. The offline replay gives every recreated task the same creation time.
- TaskContext.ReplayAll: every queued entry is replayed with the same `now`, instead of one clock reading per `createTask` call.
- Timestamps are milliseconds in local time. Every day is exactly 24 hours long, so daylight-saving shifts and time zones are not modelled.
- The text of a timestamp is a decimal encoding with a proved round trip, not the ISO 8601 format of `toISOString`. An unparsable date string (an Invalid Date) is not modelled.
- `toLocaleDateString` is modelled as the `OnDate` label carrying the date, not its text.
- The JSON model covers arrays of flat objects whose member values are strings, booleans or `null`. These are the only values the application stores. Other JSON values are rejected by the parser.
- LocalStorage.Loaded: a stored text that parses to an array whose objects lack the task fields (or hold them with other types) loads as `[]`. `loadLocalTasks` returns whatever `JSON.parse` yields, so the model does not capture those raw values.
- LocalStorage.LoadLocalTasks: inherits the limitation of `LocalStorage.Loaded` for arrays that are not lists of task records.
- TaskContext.ReplayTask: a queued entry without a title is re-created with the title `""`. The source passes `undefined`, which `removeUndefined` drops, so its document has no `title` field.
- TaskContext.ReplayDefaults: states the empty title `""` for an entry without task fields, not the missing `title` field of the source's document.
- SyncManager.SyncRecord: a local task without a description is written with `description: undefined`, and `Firestore.Database.CommitBatch` stores that value as it is. What the store's SDK does with an `undefined` field (reject the batch or drop the field) is not modelled.
- TaskContext.ReplayTask: a queued value of the wrong type is read as missing. The replay then uses its default, instead of JavaScript's truthiness of that value.
- `localeCompare` is modelled as code-point lexicographic order, and `toLowerCase` covers ASCII letters only.
- HomeScreen.SortTasks: the result is a sorted permutation. The stability of `Array.prototype.sort` is not stated.
- Statistics.CompletionRate: `Math.round` on a floating-point quotient is modelled as exact rounding half up of the rational percentage.
- Helpers.IsOverdue: the `Timestamp` case converts to a fresh `Date`, so only the `Date` argument is modelled as mutated.
- AddTaskScreen.AddTaskForm.HandleDateChange: the picker's `Date` that `setHours` mutates is modelled as a value. The mutation is visible only through the stored due date.
- `getCategories`, `createCategory`, `saveLocalSettings` and `loadLocalSettings` have no caller in the modelled core. `clearLocalTasksAfterSync` is `ClearLocalTasks` with its error swallowed, and `ClearLocalTasks` already swallows it.
- Firestore.DocId: the store's random 20-character ids are modelled as distinct ids numbered by allocation, so the text of an id is not modelled.
- Firestore security rules, offline persistence and concurrent writers are not modelled.
- Editing a task and clearing its description never removes the stored description (`AddTaskScreen.ClearedFieldsOnEdit`). This is recorded as behaviour, not as a defect, because the intended outcome is not evident from the code.

## Findings

| source | as written | input that shows it | evidently intended | confidence | as-written member | corrected member |
|---|---|---|---|---|---|---|
| src/components/auth/AuthModal.tsx:29-53 | the modal calls `refreshTasks` from `useTasks()`, but the task context (src/context/TaskContext.tsx:117-127) provides no such member, so the call throws a `TypeError` after every successful sign-in | any non-blank email and password, with a sign-in that succeeds | refresh the tasks, then close the modal and clear the fields | high; not executed | AuthModal.MissingRefreshNeverCloses | AuthModal.ProvidedRefreshCloses |
